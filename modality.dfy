/** The modality detector of gradio_app.py: does the transcript name a
    hyperspectral-imaging case, and does an image path carry a
    hyperspectral file extension? */
module Modality {
  import opened Wrappers
  import opened Text

  /** The trigger keywords, in the order the source scans them. */
  const Keywords: seq<string> := ["hsi", "hyperspectral imaging", "tissue"]

  /** The file extensions that mark a hyperspectral image. */
  const HsiExtensions: seq<string> := [".mat", ".npy", ".hdr"]

  /** `contains_hsi_keywords`: some keyword, lower-cased, occurs in the
      lower-cased transcript. */
  predicate ContainsHsiKeywords(speechText: string) {
    exists k | k in Keywords :: Contains(Lower(speechText), Lower(k))
  }

  /** `is_hsi_image`: a path that is present and not empty and whose
      lower-cased form ends with one of the extensions. */
  predicate IsHsiImage(imagePath: Option<string>) {
    && imagePath.Some?
    && imagePath.value != ""
    && exists e | e in HsiExtensions :: EndsWith(Lower(imagePath.value), e)
  }

  lemma KeywordsAreLowerCase()
    ensures forall k | k in Keywords :: Lower(k) == k
  {
    assert Lower("hsi") == "hsi";
    assert Lower("hyperspectral imaging") == "hyperspectral imaging";
    assert Lower("tissue") == "tissue";
  }

  /** The keyword test holds exactly when one of the three keywords occurs
      as a substring of the lower-cased transcript. */
  lemma KeywordsIff(speechText: string)
    ensures ContainsHsiKeywords(speechText) <==>
      || Contains(Lower(speechText), "hsi")
      || Contains(Lower(speechText), "hyperspectral imaging")
      || Contains(Lower(speechText), "tissue")
    ensures ContainsHsiKeywords(speechText) <==>
      exists k, i :: k in Keywords && OccursAt(Lower(speechText), k, i)
  {
    KeywordsAreLowerCase();
    var t := Lower(speechText);
    assert ContainsHsiKeywords(speechText) <==>
      Contains(t, Lower(Keywords[0])) || Contains(t, Lower(Keywords[1])) || Contains(t, Lower(Keywords[2]));
    forall k | k in Keywords
      ensures Contains(Lower(speechText), k) <==> exists i :: OccursAt(Lower(speechText), k, i)
    {
      ContainsIff(Lower(speechText), k);
    }
  }

  /** Changing the case of the transcript does not change the outcome. */
  lemma KeywordsIgnoreCase(speechText: string)
    ensures ContainsHsiKeywords(Upper(speechText)) == ContainsHsiKeywords(speechText)
    ensures ContainsHsiKeywords(Lower(speechText)) == ContainsHsiKeywords(speechText)
  {
    LowerOfUpper(speechText);
    LowerIdempotent(speechText);
  }

  /** The extension test is false without a path or with an empty one, and
      otherwise holds exactly for the three extensions, in any case. */
  lemma IsHsiImageIff(imagePath: Option<string>)
    ensures imagePath == None ==> !IsHsiImage(imagePath)
    ensures imagePath == Some("") ==> !IsHsiImage(imagePath)
    ensures imagePath.Some? ==> (IsHsiImage(imagePath) <==>
      || EndsWith(Lower(imagePath.value), ".mat")
      || EndsWith(Lower(imagePath.value), ".npy")
      || EndsWith(Lower(imagePath.value), ".hdr"))
  {
  }

  /** Changing the case of the path does not change the outcome. */
  lemma IsHsiImageIgnoresCase(path: string)
    ensures IsHsiImage(Some(Upper(path))) == IsHsiImage(Some(path))
  {
    LowerOfUpper(path);
  }

  /** A transcript without the letters "h" and "s", in either case,
      names no keyword: each keyword contains one of them. */
  lemma NoKeywordWithoutHOrS(speechText: string)
    requires 'h' !in Lower(speechText) && 's' !in Lower(speechText)
    ensures !ContainsHsiKeywords(speechText)
  {
    var t := Lower(speechText);
    MissingCharExcludes(t, "hsi", 0);
    MissingCharExcludes(t, "hyperspectral imaging", 0);
    MissingCharExcludes(t, "tissue", 2);
    KeywordsIff(speechText);
  }

  /** A transcript mentioning tissue selects the specialised route. */
  lemma TissueConcernIsHsi()
    ensures ContainsHsiKeywords("I have a tissue concern")
  {
    var t := Lower("I have a tissue concern");
    var before, word, after := "i have a ", "tissue", " concern";
    assert t == before + word + after;
    assert (before + word + after)[|before|..|before| + |word|] == word;
    assert OccursAt(t, word, |before|);
    OccursAtContains(t, word, |before|);
    KeywordsAreLowerCase();
    assert Keywords[2] == word && Lower(Keywords[2]) == word;
    assert Keywords[2] in Keywords && Contains(t, Lower(Keywords[2]));
  }

  /** A header file, whatever its case, is a hyperspectral image. */
  lemma HeaderFileIsHsi()
    ensures IsHsiImage(Some("scan.hdr"))
    ensures IsHsiImage(Some("SCAN.HDR"))
  {
    assert Lower("scan.hdr") == "scan.hdr";
    assert Lower("SCAN.HDR") == "scan.hdr";
    assert "scan.hdr"[4..] == ".hdr";
    assert EndsWith("scan.hdr", HsiExtensions[2]);
  }
}
