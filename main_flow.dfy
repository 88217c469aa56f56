/**
 * The main block (app.py:113-140): a branch cascade run when the button is
 * pressed.  The widgets' values are parameters; what the page shows is the
 * returned `Screen`.
 */
module MainFlow {
  import opened Wrappers
  import opened VideoId
  import opened Proxy
  import opened Synthesis

  /** What the page ends up showing. */
  datatype Screen =
    | Idle                       // the button was not pressed
    | ApiKeyRequired
    | UrlRequired
    | InvalidUrl
    | TranscriptNotFound
    | GeminiError(message: string)
    | Content(markdown: string)

  /**
   * Missing API key, then missing URL, then an unusable URL are reported in
   * that order before anything is fetched; a transcript is analysed only when
   * it is truthy, i.e. present and non-empty, and then it is the fetched
   * transcript, the key and the chosen language that reach the model, whose
   * text is shown or whose error is reported.
   */
  function Run(
    clicked: bool, apiKey: string, url: string, targetLang: string,
    net: string -> Reply, decode: string -> Body, generate: (string, string, string) -> Generation): (s: Screen)
    ensures s.Content? || s.GeminiError? ==>
      apiKey != "" && url != "" && ExtractVideoId(url).Some? &&
      Fetch(Instances, ExtractVideoId(url).value, net, decode).Some? &&
      Fetch(Instances, ExtractVideoId(url).value, net, decode).value != ""
    ensures (clicked && apiKey != "" && url != "" && ExtractVideoId(url).Some? &&
             Fetch(Instances, ExtractVideoId(url).value, net, decode).Some? &&
             Fetch(Instances, ExtractVideoId(url).value, net, decode).value != "") ==>
      var transcript := Fetch(Instances, ExtractVideoId(url).value, net, decode).value;
      s == match AnalyzeText(transcript, apiKey, targetLang, generate)
           case Generated(result) => Content(result)
           case GenerationRaised(e) => GeminiError("Gemini Error: " + e)
    ensures !clicked ==> s == Idle
    ensures s == TranscriptNotFound <==>
      clicked && apiKey != "" && url != "" && ExtractVideoId(url).Some? &&
      (Fetch(Instances, ExtractVideoId(url).value, net, decode).None? ||
       Fetch(Instances, ExtractVideoId(url).value, net, decode).value == "")
  {
    if !clicked then Idle
    else if apiKey == "" then ApiKeyRequired
    else if url == "" then UrlRequired
    else
      // an identifier has 11 characters, so `not video_id` means exactly None
      match ExtractVideoId(url)
      case None => InvalidUrl
      case Some(videoId) =>
        match Fetch(Instances, videoId, net, decode)
        case None => TranscriptNotFound
        case Some(transcript) =>
          if transcript == "" then TranscriptNotFound
          else match AnalyzeText(transcript, apiKey, targetLang, generate)
            case GenerationRaised(e) => GeminiError("Gemini Error: " + e)
            case Generated(result) => Content(result)
  }

  /** The checks in order: the key before the URL, the URL before its identifier. */
  lemma ValidationOrder(
    apiKey: string, url: string, targetLang: string,
    net: string -> Reply, decode: string -> Body, generate: (string, string, string) -> Generation)
    ensures apiKey == "" ==> Run(true, apiKey, url, targetLang, net, decode, generate) == ApiKeyRequired
    ensures apiKey != "" && url == "" ==> Run(true, apiKey, url, targetLang, net, decode, generate) == UrlRequired
    ensures apiKey != "" && url != "" && ExtractVideoId(url).None? ==>
      Run(true, apiKey, url, targetLang, net, decode, generate) == InvalidUrl
  {
  }

  /**
   * Nothing is fetched and nothing is generated unless all three checks
   * pass: the screen then does not depend on the network or the model.
   */
  lemma NoRequestUnlessValid(
    clicked: bool, apiKey: string, url: string, targetLang: string,
    net1: string -> Reply, decode1: string -> Body, generate1: (string, string, string) -> Generation,
    net2: string -> Reply, decode2: string -> Body, generate2: (string, string, string) -> Generation)
    requires !clicked || apiKey == "" || url == "" || ExtractVideoId(url).None?
    ensures Run(clicked, apiKey, url, targetLang, net1, decode1, generate1) ==
            Run(clicked, apiKey, url, targetLang, net2, decode2, generate2)
  {
  }

  /** An empty caption text ends the loop as a success but is reported as not found. */
  lemma EmptyTranscriptReportedMissing(
    apiKey: string, url: string, targetLang: string,
    net: string -> Reply, decode: string -> Body, generate: (string, string, string) -> Generation)
    requires apiKey != "" && url != "" && ExtractVideoId(url).Some?
    requires Fetch(Instances, ExtractVideoId(url).value, net, decode) == Some("")
    ensures Run(true, apiKey, url, targetLang, net, decode, generate) == TranscriptNotFound
  {
  }

  /**
   * As shipped (every request raises, `requests` being unimported), a valid
   * submission always ends with the transcript reported missing and the model
   * is never called.
   */
  lemma ShippedBuildReportsMissing(
    apiKey: string, url: string, targetLang: string,
    net: string -> Reply, decode: string -> Body, generate: (string, string, string) -> Generation)
    requires forall u :: net(u) == Exception
    requires apiKey != "" && url != "" && ExtractVideoId(url).Some?
    ensures Run(true, apiKey, url, targetLang, net, decode, generate) == TranscriptNotFound
  {
  }
}
