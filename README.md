# AI Doctor request routing, in Dafny

A model of the request handling of the AI Doctor voice-and-vision
assistant. A request carries an optional voice recording and an optional
image. `process_inputs` transcribes the recording (or uses the fixed text
"No audio input provided."), saves the image to a fixed temporary path,
and then picks one of three routes:

- the breast-cancer classifier, when the lower-cased transcript contains
  "hsi", "hyperspectral imaging" or "tissue", or when the image path ends
  with `.mat`, `.npy` or `.hdr`;
- the vision model, when there is an image, asked with the fixed doctor
  instruction followed by the transcript;
- otherwise the fixed answer "No image provided for analysis.".

The diagnosis is then spoken to `static/final.mp3`. An exception
anywhere replaces the diagnosis with a fixed error text. The classifier
reduces the network's scores to the first index of the best score, maps
the index to a label and the label to a canned explanation. It never
raises: any failure becomes an error string.

Modules:

- `Wrappers`: the `Option` and `Reply` datatypes. `Reply` is either a returned value or a raised exception with its message.
- `Text`: ASCII lower-casing, the prefix and suffix tests, and the substring test with its reference definition by occurrence positions.
- `Modality`: `contains_hsi_keywords` and `is_hsi_image`.
- `Classifier`: `class_descriptions`, `class_labels`, `np.argmax` and `breast_cancer_detection_model`.
- `Router`: `process_inputs` as an imperative method (`ProcessInputs`), and a helper method `RouteAndSpeak` for its routing and speaking part.

Every external service is an input to `ProcessInputs`. This covers
transcription, saving, loading and scoring the image, encoding, image
analysis and speech synthesis: the `Services` record holds what each one
returns or raises on this request. The method returns the response and
the list of service calls it made, with their arguments.

`ProcessInputs` is specified against the functions `SetupCalls`,
`Transcript` and `RouteRequest`. The routing properties are lemmas about
those functions. The `try`/`except` of the source is a labelled block
that is left by `break` when a service raises; in `RouteAndSpeak` a
raised exception comes back as `Raised`.

Where the obvious design and the code differ, the model follows the code:

- A keyword with no image still calls the classifier, with no path. The answer is then the classifier's error string (`KeywordWithoutImage`), not a request to upload an image.
- There is no text-only answer: without an image and without a keyword the only answer routing gives is "No image provided for analysis." (`NothingToAnalyse`). It is the diagnosis unless transcription or synthesis raises, when the diagnosis is the error text.
- An image with no recording is analysed with the instruction followed by " No audio input provided." (`ImageWithoutAudio`).
- After an exception the error text is returned but not spoken. Synthesis is called at most once, as the last call, on the routed diagnosis; it is not called at all when transcription, saving, encoding or the vision model raises (`SpeaksDiagnosisLast`, `RequestSpeaksOnce`).
- The extension test can never select the classifier from `process_inputs`. The only path it sees is `static/temp_image.png` (`RouteOfUpload`).

## Model

| member | source | states |
|---|---|---|
| Text.Lower | gradio_app.py:30 | same length; no ASCII upper-case letter is left; each character equals the input's up to case (equal after upper-casing) |
| Text.EndsWith | gradio_app.py:33 | definition of `str.endswith`: the suffix is the last characters of the string |
| Text.Contains | gradio_app.py:30 | definition of Python `in` on strings as a scan of start positions; agrees with occurrence positions by `Text.ContainsIff` |
| Text.LowerOfUpper | gradio_app.py:30 | lower-casing forgets the case of its input |
| Text.LowerIdempotent | gradio_app.py:30 | lower-casing twice equals lower-casing once |
| Text.ContainsIff | gradio_app.py:30 | the substring scan succeeds iff the needle occurs at some position |
| Text.MissingCharExcludes | gradio_app.py:30 | a needle with a character absent from the haystack is not a substring |
| Modality.ContainsHsiKeywords | gradio_app.py:28-30 | definition of `contains_hsi_keywords`: some lower-cased keyword is a substring of the lower-cased transcript; characterised by `Modality.KeywordsIff` |
| Modality.IsHsiImage | gradio_app.py:32-33 | definition of `is_hsi_image`: a non-empty path whose lower-cased form ends with one of the extensions; characterised by `Modality.IsHsiImageIff` |
| Modality.KeywordsAreLowerCase | gradio_app.py:29 | the three keywords are already lower case |
| Modality.KeywordsIff | gradio_app.py:28-30 | the keyword test holds iff "hsi", "hyperspectral imaging" or "tissue" occurs at some position of the lower-cased transcript |
| Modality.KeywordsIgnoreCase | gradio_app.py:30 | upper- or lower-casing the transcript does not change the keyword test |
| Modality.NoKeywordWithoutHOrS | gradio_app.py:28-30 | a transcript without "h" and "s" has no keyword |
| Modality.TissueConcernIsHsi | gradio_app.py:28-30 | "I have a tissue concern" has a keyword |
| Modality.IsHsiImageIff | gradio_app.py:32-33 | no path or an empty path is not hyperspectral; otherwise the lower-cased path ends with .mat, .npy or .hdr, iff the path is hyperspectral |
| Modality.IsHsiImageIgnoresCase | gradio_app.py:33 | upper-casing the path does not change the extension test |
| Modality.HeaderFileIsHsi | gradio_app.py:33 | scan.hdr and SCAN.HDR are hyperspectral |
| Classifier.Argmax | breast_cancer_classifer.py:40 | the index is in range, its score is a maximum, and every earlier score is strictly smaller (first maximum) |
| Classifier.Decimal | breast_cancer_classifer.py:41-50 | the text of the `KeyError` for a missing index is non-empty, all decimal digits, and starts with "0" only for zero |
| Classifier.DecimalValue | breast_cancer_classifer.py:41-50 | read back as decimal digits, the `KeyError` text of an index is that index |
| Classifier.Selects | breast_cancer_classifer.py:39-45 | definition: there is a score and the index of the best one is a key of the label table, so lines 40-45 complete without raising |
| Classifier.Classifies | breast_cancer_classifer.py:34-45 | definition: there is a path, loading and scoring it returned, and the scores select a class, so lines 34-45 complete without raising |
| Classifier.ErrorResult | breast_cancer_classifer.py:49-50 | an error string starts with the error prefix and is not an explanation |
| Classifier.Explanation | breast_cancer_classifer.py:41-47 | for an index with a label, the label lookup succeeds and the result is that label's explanation |
| Classifier.BreastCancerDetectionModel | breast_cancer_classifer.py:31-50 | a loaded, scored image whose best index has a label gives that label's explanation; every other case gives an error string; it gives an explanation iff it classifies |
| Classifier.LabelsTable | breast_cancer_classifer.py:28 | the label table is defined on exactly 0, 1, 2, onto benign, malignant, normal, and is injective |
| Classifier.LabelsHaveDescriptions | breast_cancer_classifer.py:9-28 | every label has an explanation, and the explanations' keys are exactly the labels |
| Classifier.DescriptionsAre | breast_cancer_classifer.py:9-25 | the explanations are exactly the three canned texts, each starting with "*" |
| Classifier.DescriptionsDistinct | breast_cancer_classifer.py:9-25 | the three explanations differ, so each explanation names one class |
| Classifier.ThreeScoresSelect | breast_cancer_classifer.py:39-41 | with three scores the best index is below 3 and has a label |
| Classifier.ResultDeterminesClass | breast_cancer_classifer.py:40-47 | two successful classifications with equal results have the same best index |
| Router.ProcessInputs | gradio_app.py:40-83 | the audio path is returned iff the output file exists; the transcript is the transcription, the no-audio text, or empty after a failed transcription; a failure before routing gives only the setup calls and the error text; otherwise the calls are the setup calls followed by the routing calls, and the diagnosis is the routed diagnosis or the error text when routing raised |
| Router.HasAudio | gradio_app.py:46 | definition of the truthiness of the recording path: present and not empty |
| Router.ImageFilepath | gradio_app.py:56-58 | definition of the image path routing sees: the temporary path when an image was uploaded, none otherwise |
| Router.Query | gradio_app.py:67 | definition of the vision prompt: the instruction, a space, then the transcript |
| Router.ReachesRouting | gradio_app.py:45-59 | definition: neither transcription (line 47) nor saving (line 59) raised, so the routing test is reached |
| Router.Speak | gradio_app.py:74-77 | definition of speaking a text: one synthesis call, and the text survives unless synthesis raises |
| Router.Transcript | gradio_app.py:41-53 | definition of the returned transcript: the transcription, the no-audio text without a recording, or the initial empty text when transcription raised |
| Router.SetupCalls | gradio_app.py:45-59 | the calls before routing are at most two, and only transcription and saving |
| Router.ChooseRoute | gradio_app.py:61-72 | definition of the route: classifier on a keyword or hyperspectral path, vision model on any other non-empty path, fixed answer otherwise; characterised by `Router.RouteOfUpload` |
| Router.RouteRequest | gradio_app.py:61-77 | definition of routing and speaking as a value (calls made and diagnosis or exception); its properties are the lemmas below |
| Router.RouteAndSpeak | gradio_app.py:61-77 | the calls made and the diagnosis-or-exception are those of `RouteRequest` |
| Router.TempImageIsNotHsi | gradio_app.py:57-61 | the temporary image path has no hyperspectral extension |
| Router.NoAudioTextIsNotHsi | gradio_app.py:52-61 | the no-audio text has no keyword |
| Router.RouteOfUpload | gradio_app.py:55-72 | for an uploaded image, the route is the classifier iff the transcript has a keyword, else the vision model iff there is an image, else the fixed answer |
| Router.KeywordSelectsClassifier | gradio_app.py:61-77 | with a keyword the calls are exactly the classifier on the image path and then synthesis of its answer; the diagnosis is that answer when synthesis returns and synthesis's exception otherwise; the vision model is never called |
| Router.KeywordWithoutImage | gradio_app.py:55-77 | with a keyword and no image the calls are exactly the classifier without a path and then synthesis of its "no path" error string, which is the diagnosis when synthesis returns |
| Router.ImageGoesToVisionModel | gradio_app.py:64-77 | without a keyword, the uploaded image is encoded, then analysed with the instruction, a space and the transcript, then the answer is spoken as the third and last call; a failed encoding or analysis ends the request with that exception and no synthesis; the request succeeds iff encoding, analysis and synthesis all return, and the diagnosis is then the model's answer; the classifier is never called |
| Router.ImageWithoutAudio | gradio_app.py:52-70 | an image with no recording is analysed with the instruction, a space and the no-audio text |
| Router.NothingToAnalyse | gradio_app.py:71-77 | without a keyword or an image, the only call speaks the fixed answer, which is the diagnosis iff speaking succeeds |
| Router.SpeaksDiagnosisLast | gradio_app.py:61-82 | synthesis is reached iff neither encoding nor analysis raised on the vision route; no earlier call synthesises; the routing succeeds iff synthesis is reached and returns, and then the last call speaks exactly the diagnosis |
| Router.RequestSpeaksOnce | gradio_app.py:45-77 | over a whole successful request, synthesis is called exactly once, by the last call, on the final diagnosis |
| Router.OneAnalyser | gradio_app.py:61-72 | the classifier and the vision model are never both called |

## Left out

- The Gradio interface (`replay_audio`, `clear_functionality`, the Blocks layout and the launch, gradio_app.py:86-139): user interface and event wiring.
- voice_of_the_doctor.py and the other adapter modules (transcription, image encoding, image analysis, speech synthesis). They are network and file I/O. Their outcomes are the `Services` input, and their calls are recorded as `Call` values.
- Loading, resizing and normalising the image, and the Keras network itself. The scores, or the exception raised while loading or scoring, are an input (`Services.prediction`). The unused confidence value (breast_cancer_classifer.py:42) and the model loading at import time are not modelled.
- Router.ProcessInputs: the console `print` calls and reading the API key from the environment are left out (output and environment access).
- Router.ProcessInputs: whether the output audio file exists is an input (`finalAudioExists`), since it depends on the file system.
- Modality.ContainsHsiKeywords and Modality.IsHsiImage: `str.lower()` is modelled for ASCII letters only, not full Unicode case mapping.
- Classifier.BreastCancerDetectionModel: exception messages are not Python's exact `str(e)`. For a missing path, an empty score array and a missing label the model uses fixed message texts. A missing label (`Decimal`) is rendered as the plain number, not a numpy scalar's repr.
- Classifier.Argmax: scores are exact reals, so floating-point rounding and NaN (which numpy's argmax returns first) are not modelled.
- Router.PilImage: an uploaded image is always truthy in Python, so its presence is an `Option` and the image itself is only an identifier (`id`). The pixels are not modelled.
- A transcription returning something other than a string is not modelled: the transcript is a string.
