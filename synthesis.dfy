/**
 * `analyze_text` (app.py:92-107): the transcript is cut to its first 80000
 * characters, embedded in a fixed prompt together with the target language,
 * and sent in one generation call.  The remote model is an input: given the
 * API key, the model name and the prompt, it raises or returns a text.
 */
module Synthesis {

  /** The model `analyze_text` asks for. */
  const ModelName := "gemini-2.5-flash"

  /** Characters of transcript that reach the prompt, `text_data[:80000]`. */
  const ExcerptLimit: nat := 80000

  /** What `model.generate_content(prompt).text` does: raise, or return a text. */
  datatype Generation = GenerationRaised(message: string) | Generated(text: string)

  function Min(a: nat, b: nat): nat {
    if a <= b then a else b
  }

  /** `text_data[:80000]`: Python's slice, which stops at the end of a shorter text. */
  function Excerpt(text: string): (e: string)
    ensures |e| == Min(|text|, ExcerptLimit)
    ensures e == text[..|e|]
  {
    if |text| <= ExcerptLimit then text else text[..ExcerptLimit]
  }

  /** The template up to the transcript, with the target language filled in. */
  function PromptHead(lang: string): string {
    "\n    Analyze the following YouTube transcript (VTT/JSON format) and create:" +
    "\n    1. [Blog Post] Title, Intro, Body, Conclusion." +
    "\n    2. [Twitter Thread] 3-5 tweets." +
    "\n    3. [Fact Check] Key numbers/facts." +
    "\n    " +
    "\n    Target Language: " + lang +
    "\n    " +
    "\n    [Transcript Data]:" +
    "\n    "
  }

  /** The template after the transcript. */
  const PromptTail := "\n    "

  /**
   * The prompt embeds exactly `min(|text|, 80000)` characters of the
   * transcript, the leading ones, right after the head.
   */
  function Prompt(text: string, lang: string): (p: string)
    ensures |p| == |PromptHead(lang)| + Min(|text|, ExcerptLimit) + |PromptTail|
    ensures p[..|PromptHead(lang)|] == PromptHead(lang)
    ensures p[|PromptHead(lang)|..|PromptHead(lang)| + Min(|text|, ExcerptLimit)] == text[..Min(|text|, ExcerptLimit)]
  {
    PromptHead(lang) + Excerpt(text) + PromptTail
  }

  /**
   * `analyze_text(text_data, api_key, lang)` with the remote model as
   * `generate`: one call, with the key, the fixed model name and a prompt
   * holding the whole text when it is short and its first 80000 characters
   * otherwise.
   */
  function AnalyzeText(text: string, apiKey: string, lang: string, generate: (string, string, string) -> Generation): (r: Generation)
    ensures |text| <= ExcerptLimit ==> r == generate(apiKey, ModelName, PromptHead(lang) + text + PromptTail)
    ensures |text| > ExcerptLimit ==> r == generate(apiKey, ModelName, PromptHead(lang) + text[..ExcerptLimit] + PromptTail)
  {
    generate(apiKey, ModelName, Prompt(text, lang))
  }

  /**
   * Whatever lies past the first 80000 characters of a transcript never
   * reaches the model: two transcripts that agree on their excerpts are
   * analysed identically.
   */
  lemma AnalysisSeesOnlyExcerpt(text1: string, text2: string, apiKey: string, lang: string, generate: (string, string, string) -> Generation)
    requires |text1| >= ExcerptLimit && |text2| >= ExcerptLimit
    requires text1[..ExcerptLimit] == text2[..ExcerptLimit]
    ensures Prompt(text1, lang) == Prompt(text2, lang)
    ensures AnalyzeText(text1, apiKey, lang, generate) == AnalyzeText(text2, apiKey, lang, generate)
  {
  }

  /** A transcript within the limit is embedded whole. */
  lemma ShortTranscriptEmbeddedWhole(text: string, lang: string)
    requires |text| <= ExcerptLimit
    ensures Prompt(text, lang) == PromptHead(lang) + text + PromptTail
  {
  }
}
