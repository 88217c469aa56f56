# Shika's YouTube Converter — a Dafny model of its fetch-and-analyse core

The program (`app.py`) takes a YouTube URL, an API key and an output
language. It pulls the video identifier out of the URL and fetches a caption
track through a fixed, ordered list of public Invidious proxy instances. It
then sends the first 80000 characters of the caption text to a generative
model. This project models the logic between the widgets and the remote
services:

- `VideoId` (`video_id.dfy`): `extract_video_id`, the search for
  `(?:v=|/)([0-9A-Za-z_-]{11}).*`, written as a left-to-right scan over the
  characters. It is proved to return the capture of the leftmost match, or
  nothing exactly when no position matches.
- `Captions` (`captions.dfy`): the three-tier track choice (Korean, then
  English, then the first track). Records have optional keys. A reached
  record without the key being read raises `KeyError`, as Python's `or`
  and `break` decide. The imperative loops are proved equal to the
  functional definition.
- `Proxy` (`proxy.dfy`): `get_transcript_via_proxy`. The network is an
  input `net` (one answer per URL: an exception or a status with a body),
  and JSON decoding is an input `decode`. The `try` block of one
  attempt is a method proved equal to `TryInstance`. The `for` loop with
  its early `return` is proved equal to `Fetch`, which returns the text of
  the first instance that delivers. The URLs it requests are proved equal
  to `Trace`. Lemmas cover the request
  trace and what happens when every request raises.
- `Synthesis` (`synthesis.dfy`): `analyze_text`. It builds the prompt from
  the first `min(80000, |text|)` characters of the text, and the model is
  an input `generate`.
- `MainFlow` (`main_flow.dfy`): the branch cascade of the main block, as a
  function from the widget values and the three inputs to what the page
  shows.
- `Wrappers` (`wrappers.dfy`): `Option`, for Python's `None`.

As written, the fetcher can never return a transcript. `requests` is never
imported (app.py:1-7), so `requests.get` at app.py:51 raises `NameError`.
The handler at app.py:85-87 swallows it, and the function returns `None`
every time. The model follows the intended loop, with the network as an
input. The shipped behaviour is the case where every request raises, and it
is proved as a corollary (`Proxy.EveryRequestRaisingFindsNothing`,
`MainFlow.ShippedBuildReportsMissing`). A caption record with a missing key
is not skipped: reading the key raises `KeyError`, and the handler then
abandons the whole instance. The model keeps that behaviour.

## Model

| member | source | states |
|---|---|---|
| `VideoId.ExtractVideoId` | app.py:23-27 | the result is `None` or exactly 11 characters, each in `[0-9A-Za-z_-]` |
| `VideoId.SearchFrom` | app.py:26 | the scan from position `i`, trying `v=` before `/` at each position, yields nothing or exactly 11 characters of `[0-9A-Za-z_-]` |
| `VideoId.SearchFromFindsLeftmost` | app.py:25-26 | scanning from `i` yields nothing iff the pattern matches at no position `>= i`, otherwise the capture of the leftmost such position |
| `VideoId.ExtractVideoIdIsLeftmostMatch` | app.py:25-27 | `None` iff no position has `v=` or `/` followed by 11 class characters; otherwise the 11 characters after the leftmost such position |
| `VideoId.LeftmostMatchWins` | app.py:25-27 | when the pattern first matches at `p`, the result is exactly the capture at `p`, however far the class run continues or whatever matches later |
| `Captions.Test` | app.py:62 | the test raises `KeyError` iff `language` is absent, or `language` does not match and `code` is absent; when it does not raise, it hits iff the record matches by language or code; a matching language decides without reading `code` |
| `Captions.ScanFrom` | app.py:61-64 | one tier's loop finds the first hit with only misses before it; runs out iff every record misses; raises only at a record that raises after only misses |
| `Captions.Select` | app.py:57-75 | a picked index lies inside `captions` and its record has a `language` key, so it is a non-empty, truthy dict; nothing is picked iff `captions` is empty |
| `Captions.EnglishTierNeverRaises` | app.py:61-71 | if the Korean loop runs to the end without raising, the English loop cannot raise |
| `Captions.SelectRaisesOnlyInKoreanTier` | app.py:61-64 | the selection raises `KeyError` iff the Korean loop reaches a record lacking the key it reads, after only misses |
| `Captions.SelectPrefersKorean` | app.py:60-64 | the first Korean-by-name-or-code record is picked wherever it sits, given only what the loop reads: both keys of the earlier records and the picked record's `language`; later records may lack any key |
| `Captions.SelectFallsBackToEnglish` | app.py:66-71 | with no Korean record, the first English-by-name-or-code record is picked |
| `Captions.SelectFallsBackToFirst` | app.py:73-75 | with neither Korean nor English records, `captions[0]` is picked |
| `Captions.SelectCaption` | app.py:58-75 | the three `for ... break` loops compute exactly `Select`, including the `KeyError` outcome |
| `Proxy.InfoUrl` | app.py:50 | the info URL is the instance, then exactly `/api/v1/videos/`, then the identifier, and nothing else |
| `Proxy.InfoStage` | app.py:50-80 | a download URL, when one is planned, begins with the instance |
| `Proxy.Requests` | app.py:50-81 | an instance's attempt requests its info URL first and at most one more URL, and all of its URLs begin with that instance |
| `Proxy.TryInstance` | app.py:47-87 | an attempt delivers iff a download URL is planned and its request answers with status 200, and then it delivers that response's text; an attempt abandoned in the info stage fails for that stage's reason |
| `Proxy.Fetch` | app.py:46-89 | a returned text is the text delivered by one of the listed instances |
| `Proxy.Trace` | app.py:46-84 | the loop makes at most two requests per instance, and its first request is the first instance's info URL |
| `Proxy.InstancesAreDistinct` | app.py:36-42 | the list holds five distinct instances |
| `Proxy.FetchIsFirstDelivery` | app.py:46-89 | the loop returns `None` iff every instance fails; otherwise it returns the text of the first instance that delivers, all earlier ones having failed |
| `Proxy.LaterInstancesUntouched` | app.py:83-84 | once an instance delivers, appending any further instances changes neither the result nor the requests made |
| `Proxy.TraceStaysWithListedInstances` | app.py:36-51 | every request the loop makes begins with one of the listed instances |
| `Proxy.DownloadUrlIsSelectedPath` | app.py:77-81 | a download is planned only after a 200 info response with decodable captions and a selection, and its URL is the instance followed by the selected record's `url` |
| `Proxy.SelectionIsDownloaded` | app.py:53-81 | a 200 info response whose captions yield a pick with a string `url` plans the download of the instance followed by that `url`, at any position of the pick, and the attempt requests exactly the info URL and then that URL |
| `Proxy.NoSelectionNoDownload` | app.py:55-77 | an empty or absent captions list, or a `KeyError` in selection, abandons the instance after its info request, with no download |
| `Proxy.EveryRequestRaisingFindsNothing` | app.py:46-89 | when every request raises, the result is `None` and each instance is tried exactly once, in order, with only its info request |
| `Proxy.StepPastFailure` | app.py:85-87 | after a failed instance, the result and the remaining requests are those of the next instances, preceded by the failed instance's own requests |
| `Proxy.StepAtDelivery` | app.py:83-84 | a delivering instance ends the loop with its text, and no request follows its own |
| `Proxy.AttemptInstance` | app.py:47-87 | the imperative `try` block, with each exception and failed check as an early exit, computes exactly `TryInstance`, and the URLs it passes to `net` are exactly `Requests` |
| `Proxy.GetTranscriptViaProxy` | app.py:30-89 | the imperative loop returns exactly `Fetch` over the given instances, and the URLs it passes to `net`, in order, are exactly `Trace`, so no instance after the delivering one is contacted |
| `Synthesis.Excerpt` | app.py:105 | the excerpt is the prefix of length `min(|text|, 80000)` |
| `Synthesis.Prompt` | app.py:96-106 | the prompt embeds exactly the first `min(|text|, 80000)` characters, right after the fixed head that carries the language |
| `Synthesis.AnalyzeText` | app.py:92-107 | one model call with the key, the model name `gemini-2.5-flash` and the prompt holding the whole text when it has at most 80000 characters, else its first 80000 |
| `Synthesis.AnalysisSeesOnlyExcerpt` | app.py:92-107 | two transcripts with the same first 80000 characters give the same prompt and the same analysis |
| `Synthesis.ShortTranscriptEmbeddedWhole` | app.py:105 | a transcript of at most 80000 characters is embedded whole |
| `MainFlow.Run` | app.py:113-140 | content or a model error appears only after a non-empty key, a non-empty URL, an extracted identifier and a non-empty fetched transcript; in that case the fetched transcript, the key and the language go to the model, and its text is shown or `Gemini Error: ` followed by its error; an unpressed button shows nothing; "transcript not found" is shown exactly when the checks pass and the fetch returns nothing or an empty text |
| `MainFlow.ValidationOrder` | app.py:114-121 | a missing key is reported before a missing URL, and that before an invalid URL |
| `MainFlow.NoRequestUnlessValid` | app.py:113-127 | unless all checks pass, the screen does not depend on the network, the decoder or the model |
| `MainFlow.EmptyTranscriptReportedMissing` | app.py:127-140 | an empty transcript is a terminal success of the loop, yet it is reported as not found |
| `MainFlow.ShippedBuildReportsMissing` | app.py:119-140 | when every request raises, a valid submission always ends with "transcript not found" |

## Left out

- Streamlit (page setup, sidebar, widgets, status lines, error and success rendering, app.py:10-20, 110-140): only the branch order and the resulting screen are modelled.
- The Gemini client (`genai.configure`, `GenerativeModel`, `generate_content`, app.py:93-94, 107): a foreign call, modelled as the input `generate` of key, model name and prompt.
- HTTP, the 5-second timeout and JSON decoding (app.py:51, 54-55, 81): modelled as the inputs `net` and `decode`. `net` gives one answer per URL for the whole call, so a URL requested twice (a duplicated instance) gets the same answer both times.
- Unusual JSON shapes: a `captions` value that is `null`, a number or otherwise not iterable, and a non-object body, are all folded into `decode` raising. A caption element that is not an object behaves as a record with no keys, since indexing it raises just as a missing key does.
- `print` diagnostics (app.py:44, 48, 86): output only.
- General regular expressions: only this one pattern is modelled, as a scan.
- Lone surrogates: Python's `str` holds any code point, including the lone surrogates a JSON escape such as `\ud800` produces. Dafny's `char` holds only Unicode scalar values, so the model cannot represent such texts. Lengths and the 80000-character cut agree with Python for every other text.
- Exceptions that are not `Exception` subclasses (such as `KeyboardInterrupt`): they escape the handler and end the script, which the model does not represent.
- The output-language drop-down's four options (app.py:20): `Prompt` accepts any language string.

## Findings

| source | as written | input that shows it | evidently intended | confidence | as-written member | corrected member |
|---|---|---|---|---|---|---|
| app.py:1-7, 51 | `requests` is never imported, so `requests.get` raises `NameError`; the handler at app.py:85-87 swallows it for every instance and the function always returns `None` | any URL with a valid identifier, such as `https://youtu.be/dQw4w9WgXcQ`, with a key entered | `import requests`, so that the instances are actually queried | high (not executed) | `Proxy.EveryRequestRaisingFindsNothing` | `Proxy.FetchIsFirstDelivery` |
