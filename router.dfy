/** The diagnostic router of gradio_app.py (`process_inputs`): transcribe
    the recording if there is one, save the image if there is one, send the
    request to the breast-cancer classifier when the transcript names a
    hyperspectral case, otherwise to the vision model when there is an
    image, otherwise answer with a fixed text, and finally speak the
    diagnosis. Any exception on the way replaces the diagnosis by a fixed
    error text. The services called are inputs (`Services`), and the method
    also returns the list of the calls it made. */
module Router {
  import opened Wrappers
  import opened Text
  import opened Modality
  import opened Classifier

  /** The instruction sent to the vision model ahead of the transcript. */
  const SystemPrompt: string :=
    "You have to act as a professional doctor, i know you are not but this is for learning purpose. \n"
    + "What's in this image?. Do you find anything wrong with it medically? \n"
    + "If you make a differential, suggest some remedies for them. Donot add any numbers or special characters in \n"
    + "your response. Your response should be in one long paragraph. Also always answer as if you are answering to a real person.\n"
    + "Donot say 'In the image I see' but say 'With what I see, I think you have ....'\n"
    + "Dont respond as an AI model in markdown, your answer should mimic that of an actual doctor not an AI bot, \n"
    + "Keep your answer concise (max 2 sentences). No preamble, start your answer right away please"

  const SttModel: string := "whisper-large-v3"
  const VisionModel: string := "meta-llama/llama-4-scout-17b-16e-instruct"
  const AudioOutputPath: string := "static/final.mp3"
  const TempImagePath: string := "static/temp_image.png"
  const NoAudioText: string := "No audio input provided."
  const NoImageText: string := "No image provided for analysis."
  const ProcessingErrorText: string := "An error occurred while processing. Please try again."

  /** An uploaded image; its pixels play no part in routing. */
  datatype PilImage = PilImage(id: nat)

  /** What each external step gives on this request. */
  datatype Services = Services(
    transcription: Reply<string>,   // transcribe_with_groq
    save: Reply<()>,                // saving the uploaded image to the temporary path
    prediction: Reply<seq<real>>,   // loading and scoring the saved image in the classifier
    encoding: Reply<string>,        // encode_image
    analysis: Reply<string>,        // analyze_image_with_query
    speech: Reply<()>,              // text_to_speech_with_elevenlabs
    finalAudioExists: bool)         // whether the audio output file exists when the request ends

  /** One call into a service, with the arguments it was given. */
  datatype Call =
    | Transcribe(audioFilepath: string, sttModel: string)
    | SaveImage(path: string)
    | Classify(imagePath: Option<string>)
    | EncodeImage(path: string)
    | AnalyzeImage(query: string, encodedImage: string, model: string)
    | Synthesize(inputText: string, outputFilepath: string)

  /** What `process_inputs` returns: transcript, diagnosis, audio path. */
  datatype Response = Response(transcript: string, diagnosis: string, audioPath: Option<string>)

  /** The three ways a request can be answered. */
  datatype Route = Specialized | Reasoning | NoImage

  /** Python truthiness of the recording argument. */
  predicate HasAudio(audioFilepath: Option<string>) {
    audioFilepath.Some? && audioFilepath.value != ""
  }

  /** The path routing sees: the fixed temporary path when an image was uploaded. */
  function ImageFilepath(imagePil: Option<PilImage>): (p: Option<string>) {
    if imagePil.Some? then Some(TempImagePath) else None
  }

  /** The routing decision for a transcript and an image path; an empty
      path is falsy in Python and counts as no image. */
  function ChooseRoute(speechText: string, imageFilepath: Option<string>): (route: Route) {
    if ContainsHsiKeywords(speechText) || (imageFilepath.Some? && IsHsiImage(imageFilepath)) then Specialized
    else if imageFilepath.Some? && imageFilepath.value != "" then Reasoning
    else NoImage
  }

  /** The prompt the vision model receives. */
  function Query(speechText: string): (query: string) {
    SystemPrompt + " " + speechText
  }

  /** The transcript a request returns: the transcription, the fixed text
      when there is no recording, or empty when transcription raised. */
  function Transcript(audioFilepath: Option<string>, services: Services): (transcript: string) {
    if !HasAudio(audioFilepath) then NoAudioText
    else if services.transcription.Returned? then services.transcription.value
    else ""
  }

  /** Transcription and saving did not raise, so the routing decision is taken. */
  predicate ReachesRouting(audioFilepath: Option<string>, imagePil: Option<PilImage>, services: Services) {
    && (HasAudio(audioFilepath) ==> services.transcription.Returned?)
    && (imagePil.Some? ==> services.save.Returned?)
  }

  /** The calls made before routing: transcription when there is a
      recording, then saving when there is an image and transcription did
      not raise. */
  function SetupCalls(audioFilepath: Option<string>, imagePil: Option<PilImage>, services: Services): (calls: seq<Call>)
    ensures |calls| <= 2
    ensures forall c | c in calls :: c.Transcribe? || c.SaveImage?
  {
    (if HasAudio(audioFilepath) then [Transcribe(audioFilepath.value, SttModel)] else [])
    + (if imagePil.Some? && (HasAudio(audioFilepath) ==> services.transcription.Returned?)
       then [SaveImage(TempImagePath)] else [])
  }

  /** What the routing and speaking part of a request does: the calls it
      makes, and the diagnosis it settles on or the exception that ends it. */
  datatype Routed = Routed(calls: seq<Call>, diagnosis: Reply<string>)

  /** Speaking `text`: one synthesis call; the text survives unless synthesis raises. */
  function Speak(text: string, services: Services): (spoken: Routed) {
    Routed([Synthesize(text, AudioOutputPath)],
           if services.speech.Raised? then Raised(services.speech.message) else Returned(text))
  }

  /** Routing a transcript and an image path, then speaking the diagnosis. */
  function RouteRequest(speechText: string, imageFilepath: Option<string>, services: Services): (routed: Routed) {
    match ChooseRoute(speechText, imageFilepath)
    case Specialized =>
      var spoken := Speak(BreastCancerDetectionModel(imageFilepath, services.prediction), services);
      Routed([Classify(imageFilepath)] + spoken.calls, spoken.diagnosis)
    case Reasoning =>
      var encode := EncodeImage(imageFilepath.value);
      if services.encoding.Raised? then Routed([encode], Raised(services.encoding.message))
      else
        var asked := [encode, AnalyzeImage(Query(speechText), services.encoding.value, VisionModel)];
        if services.analysis.Raised? then Routed(asked, Raised(services.analysis.message))
        else
          var spoken := Speak(services.analysis.value, services);
          Routed(asked + spoken.calls, spoken.diagnosis)
    case NoImage =>
      Speak(NoImageText, services)
  }

  /** `process_inputs`. */
  method ProcessInputs(audioFilepath: Option<string>, imagePil: Option<PilImage>, services: Services)
    returns (r: Response, calls: seq<Call>)
    ensures r.audioPath == if services.finalAudioExists then Some(AudioOutputPath) else None
    ensures r.transcript == Transcript(audioFilepath, services)
    ensures !ReachesRouting(audioFilepath, imagePil, services) ==>
      calls == SetupCalls(audioFilepath, imagePil, services) && r.diagnosis == ProcessingErrorText
    ensures ReachesRouting(audioFilepath, imagePil, services) ==>
      var routed := RouteRequest(r.transcript, ImageFilepath(imagePil), services);
      && calls == SetupCalls(audioFilepath, imagePil, services) + routed.calls
      && r.diagnosis == if routed.diagnosis.Returned? then routed.diagnosis.value else ProcessingErrorText
  {
    var speechText := "";
    var diagnosis := ProcessingErrorText;
    calls := [];
    label attempt: {
      if audioFilepath.Some? && audioFilepath.value != "" {
        calls := calls + [Transcribe(audioFilepath.value, SttModel)];
        if services.transcription.Raised? { break attempt; }
        speechText := services.transcription.value;
      } else {
        speechText := NoAudioText;
      }

      var imageFilepath: Option<string> := None;
      if imagePil.Some? {
        imageFilepath := Some(TempImagePath);
        calls := calls + [SaveImage(TempImagePath)];
        if services.save.Raised? { break attempt; }
      }

      var outcome, routeCalls := RouteAndSpeak(speechText, imageFilepath, services);
      calls := calls + routeCalls;
      if outcome.Returned? {
        diagnosis := outcome.value;
      }
    }
    r := Response(speechText, diagnosis, if services.finalAudioExists then Some(AudioOutputPath) else None);
  }

  /** The routing and speaking part of `process_inputs`, from the keyword
      and extension test to the synthesis of the diagnosis; an exception
      raised on the way comes back as `Raised`. */
  method RouteAndSpeak(speechText: string, imageFilepath: Option<string>, services: Services)
    returns (outcome: Reply<string>, calls: seq<Call>)
    ensures Routed(calls, outcome) == RouteRequest(speechText, imageFilepath, services)
  {
    var diagnosis: string;
    if ContainsHsiKeywords(speechText) || (imageFilepath.Some? && IsHsiImage(imageFilepath)) {
      calls := [Classify(imageFilepath)];
      diagnosis := BreastCancerDetectionModel(imageFilepath, services.prediction);
    } else if imageFilepath.Some? && imageFilepath.value != "" {
      calls := [EncodeImage(imageFilepath.value)];
      if services.encoding.Raised? {
        return Raised(services.encoding.message), calls;
      }
      var query := SystemPrompt + " " + speechText;
      calls := calls + [AnalyzeImage(query, services.encoding.value, VisionModel)];
      if services.analysis.Raised? {
        return Raised(services.analysis.message), calls;
      }
      diagnosis := services.analysis.value;
    } else {
      calls := [];
      diagnosis := NoImageText;
    }
    calls := calls + [Synthesize(diagnosis, AudioOutputPath)];
    if services.speech.Raised? {
      return Raised(services.speech.message), calls;
    }
    outcome := Returned(diagnosis);
  }

  /** The temporary image path is not a hyperspectral file. */
  lemma TempImageIsNotHsi()
    ensures !IsHsiImage(Some(TempImagePath))
  {
    var p := Lower(TempImagePath);
    assert p == TempImagePath;
    assert p[|p| - 1] == 'g';
    assert p[|p| - 4..][3] == p[|p| - 1];
    assert HsiExtensions[0][3] == 't' && HsiExtensions[1][3] == 'y' && HsiExtensions[2][3] == 'r';
  }

  /** The fixed transcript used without a recording contains no keyword:
      it has neither an "h" nor an "s". */
  lemma NoAudioTextIsNotHsi()
    ensures !ContainsHsiKeywords(NoAudioText)
  {
    var t := Lower(NoAudioText);
    assert forall i | 0 <= i < |t| :: t[i] != 'h' && t[i] != 's';
    NoKeywordWithoutHOrS(NoAudioText);
  }

  /** Routing never looks at the image path's extension: the only path it
      can see is the fixed temporary one, which is not a hyperspectral file.
      So the route is decided by the keywords and by whether there is an image. */
  lemma RouteOfUpload(speechText: string, imagePil: Option<PilImage>)
    ensures ChooseRoute(speechText, ImageFilepath(imagePil)) ==
      if ContainsHsiKeywords(speechText) then Specialized
      else if imagePil.Some? then Reasoning
      else NoImage
  {
    TempImageIsNotHsi();
  }

  /** A keyword sends the request to the classifier alone: the classifier
      is called with the image path, its answer is spoken, and that answer
      is the diagnosis unless synthesis raises. */
  lemma KeywordSelectsClassifier(speechText: string, imageFilepath: Option<string>, services: Services)
    requires ContainsHsiKeywords(speechText)
    ensures var answer := BreastCancerDetectionModel(imageFilepath, services.prediction);
      RouteRequest(speechText, imageFilepath, services) ==
        Routed([Classify(imageFilepath), Synthesize(answer, AudioOutputPath)],
               if services.speech.Returned? then Returned(answer) else Raised(services.speech.message))
    ensures forall c | c in RouteRequest(speechText, imageFilepath, services).calls :: !c.EncodeImage? && !c.AnalyzeImage?
  {
  }

  /** A keyword without an image still runs the classifier, on no path at
      all; the classifier's error text is then spoken and is the diagnosis
      unless synthesis raises. */
  lemma KeywordWithoutImage(speechText: string, services: Services)
    requires ContainsHsiKeywords(speechText)
    ensures var answer := ErrorPrefix + NoPathMessage;
      RouteRequest(speechText, None, services) ==
        Routed([Classify(None), Synthesize(answer, AudioOutputPath)],
               if services.speech.Returned? then Returned(answer) else Raised(services.speech.message))
  {
  }

  /** Without a keyword, the uploaded image goes to the vision model: it is
      encoded, then analysed with the instruction followed by the
      transcript, and the model's answer is spoken. The request succeeds
      exactly when encoding, analysis and synthesis all return; a failed
      encoding or analysis ends it before anything is spoken. The
      classifier is never called. */
  lemma ImageGoesToVisionModel(speechText: string, services: Services)
    requires !ContainsHsiKeywords(speechText)
    ensures var routed := RouteRequest(speechText, Some(TempImagePath), services);
      && routed.calls[0] == EncodeImage(TempImagePath)
      && (services.encoding.Raised? ==>
            routed == Routed([EncodeImage(TempImagePath)], Raised(services.encoding.message)))
      && (services.encoding.Returned? ==>
            |routed.calls| >= 2 &&
            routed.calls[1] == AnalyzeImage(SystemPrompt + " " + speechText, services.encoding.value, VisionModel))
      && (services.encoding.Returned? && services.analysis.Raised? ==>
            |routed.calls| == 2 && routed.diagnosis == Raised(services.analysis.message))
      && (services.encoding.Returned? && services.analysis.Returned? ==>
            |routed.calls| == 3 && routed.calls[2] == Synthesize(services.analysis.value, AudioOutputPath))
      && (routed.diagnosis.Returned? <==>
            services.encoding.Returned? && services.analysis.Returned? && services.speech.Returned?)
      && (routed.diagnosis.Returned? ==> routed.diagnosis.value == services.analysis.value)
      && (forall c | c in routed.calls :: !c.Classify?)
  {
    TempImageIsNotHsi();
  }

  /** An image with no recording is analysed with the instruction followed
      by the fixed no-audio text. */
  lemma ImageWithoutAudio(imagePil: PilImage, services: Services)
    requires services.encoding.Returned?
    ensures var routed := RouteRequest(Transcript(None, services), ImageFilepath(Some(imagePil)), services);
      routed.calls[1] == AnalyzeImage(SystemPrompt + " " + NoAudioText, services.encoding.value, VisionModel)
  {
    NoAudioTextIsNotHsi();
    ImageGoesToVisionModel(NoAudioText, services);
  }

  /** Without a keyword and without an image there is nothing to analyse:
      the fixed text is the diagnosis and the only call speaks it. */
  lemma NothingToAnalyse(speechText: string, services: Services)
    requires !ContainsHsiKeywords(speechText)
    ensures var routed := RouteRequest(speechText, None, services);
      && routed.calls == [Synthesize(NoImageText, AudioOutputPath)]
      && (routed.diagnosis.Returned? <==> services.speech.Returned?)
      && (routed.diagnosis.Returned? ==> routed.diagnosis.value == NoImageText)
  {
  }

  /** The diagnosis is spoken once, by the last call, and only a diagnosis
      is spoken. Synthesis is reached exactly when neither encoding nor
      analysis raised on the vision route; no earlier call synthesises
      anything; the request succeeds exactly when synthesis is reached and
      returns, and then the last call speaks exactly the diagnosis. */
  lemma SpeaksDiagnosisLast(speechText: string, imageFilepath: Option<string>, services: Services)
    ensures var routed := RouteRequest(speechText, imageFilepath, services);
      && |routed.calls| > 0
      && (routed.calls[|routed.calls| - 1].Synthesize? <==>
            !(ChooseRoute(speechText, imageFilepath) == Reasoning
              && (services.encoding.Raised? || services.analysis.Raised?)))
      && (forall i | 0 <= i < |routed.calls| - 1 :: !routed.calls[i].Synthesize?)
      && (routed.diagnosis.Returned? <==>
            routed.calls[|routed.calls| - 1].Synthesize? && services.speech.Returned?)
      && (routed.diagnosis.Returned? ==>
            routed.calls[|routed.calls| - 1] == Synthesize(routed.diagnosis.value, AudioOutputPath))
  {
  }

  /** Over a whole request that reaches routing and succeeds, synthesis is
      called exactly once, by the last call, on the final diagnosis: the
      setup calls speak nothing. */
  lemma RequestSpeaksOnce(audioFilepath: Option<string>, imagePil: Option<PilImage>, services: Services)
    requires ReachesRouting(audioFilepath, imagePil, services)
    ensures var routed := RouteRequest(Transcript(audioFilepath, services), ImageFilepath(imagePil), services);
      var calls := SetupCalls(audioFilepath, imagePil, services) + routed.calls;
      routed.diagnosis.Returned? ==>
        && calls[|calls| - 1] == Synthesize(routed.diagnosis.value, AudioOutputPath)
        && (forall i | 0 <= i < |calls| - 1 :: !calls[i].Synthesize?)
  {
    var routed := RouteRequest(Transcript(audioFilepath, services), ImageFilepath(imagePil), services);
    var setup := SetupCalls(audioFilepath, imagePil, services);
    SpeaksDiagnosisLast(Transcript(audioFilepath, services), ImageFilepath(imagePil), services);
    assert forall i | 0 <= i < |setup| :: setup[i] in setup;
    var calls := setup + routed.calls;
    assert forall i | |setup| <= i < |calls| :: calls[i] == routed.calls[i - |setup|];
  }

  /** At most one analyser runs: never both the classifier and the vision model. */
  lemma OneAnalyser(speechText: string, imageFilepath: Option<string>, services: Services)
    ensures var routed := RouteRequest(speechText, imageFilepath, services);
      !((exists i | 0 <= i < |routed.calls| :: routed.calls[i].Classify?)
        && (exists j | 0 <= j < |routed.calls| :: routed.calls[j].AnalyzeImage?))
  {
    var routed := RouteRequest(speechText, imageFilepath, services);
    if ChooseRoute(speechText, imageFilepath) == Specialized {
      assert forall j | 0 <= j < |routed.calls| :: !routed.calls[j].AnalyzeImage?;
    } else {
      assert forall i | 0 <= i < |routed.calls| :: !routed.calls[i].Classify?;
    }
  }
}
