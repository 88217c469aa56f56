/**
 * `get_transcript_via_proxy` (app.py:30-89): a first-success-wins pass over
 * an ordered list of proxy instances.
 *
 * The network is an input.  `net` answers each URL requested during one call
 * (an exception, or a status code with a body); `decode` stands for
 * `response.json()` followed by `data.get("captions", [])` and iteration over
 * the result: either it raises (`Malformed`) or it yields a list of records
 * (`Listing`, the empty list when the key is absent).
 */
module Proxy {
  import opened Wrappers
  import opened Captions

  datatype Response = Response(status: int, text: string)

  /** What `requests.get(url)` does: raise, or return a response. */
  datatype Reply = Exception | Answered(response: Response)

  /** The info response's JSON, reduced to its `captions` list. */
  datatype Body = Malformed | Listing(captions: seq<Track>)

  /** Why one instance was given up (the loop then moves to the next one). */
  datatype Failure =
    | InfoRaised               // the info request raised
    | InfoStatus(code: int)    // the info status was not 200
    | BadBody                  // decoding the info body raised
    | SelectionRaised          // a reached caption record lacked a key
    | NoCaption                // the captions list was empty
    | UrlRaised                // the selected record's `url` is absent or not a string
    | DownloadRaised           // the download request raised
    | DownloadStatus(code: int)  // the download status was not 200

  /** The info stage of one instance: give up, or download from this URL. */
  datatype Plan = Abandon(reason: Failure) | Download(url: string)

  /** One instance's attempt: the caption text, or why it was abandoned. */
  datatype Attempt = Delivered(text: string) | Failed(reason: Failure)

  /** The public instances, in the order they are tried. */
  const Instances: seq<string> := [
    "https://inv.tux.pizza",
    "https://vid.puffyan.us",
    "https://invidious.projectsegfau.lt",
    "https://inv.us.projectsegfau.lt",
    "https://invidious.fdn.fr"
  ]

  /** The info request's URL, by plain concatenation. */
  function InfoUrl(instance: string, videoId: string): (u: string)
    ensures |u| == |instance| + 15 + |videoId|
    ensures u[..|instance|] == instance && u[|instance| + 15..] == videoId
    ensures u[|instance|..|instance| + 15] == "/api/v1/videos/"
  {
    instance + "/api/v1/videos/" + videoId
  }

  /** Info request, status check, decoding and caption selection of one instance. */
  function InfoStage(instance: string, videoId: string, net: string -> Reply, decode: string -> Body): (p: Plan)
    ensures p.Download? ==> |instance| <= |p.url| && p.url[..|instance|] == instance
  {
    match net(InfoUrl(instance, videoId))
    case Exception => Abandon(InfoRaised)
    case Answered(response) =>
      if response.status != 200 then Abandon(InfoStatus(response.status))
      else match decode(response.text)
        case Malformed => Abandon(BadBody)
        case Listing(captions) =>
          match Select(captions)
          case KeyError => Abandon(SelectionRaised)
          case NoPick => Abandon(NoCaption)
          case Picked(i) =>
            match captions[i].url
            case Text(path) => Download(instance + path)
            case _ => Abandon(UrlRaised)
  }

  /** The whole `try` block for one instance. */
  function TryInstance(instance: string, videoId: string, net: string -> Reply, decode: string -> Body): (a: Attempt)
    ensures a.Delivered? <==>
      InfoStage(instance, videoId, net, decode).Download? &&
      net(InfoStage(instance, videoId, net, decode).url).Answered? &&
      net(InfoStage(instance, videoId, net, decode).url).response.status == 200
    ensures a.Delivered? ==> a.text == net(InfoStage(instance, videoId, net, decode).url).response.text
    ensures InfoStage(instance, videoId, net, decode).Abandon? ==> a == Failed(InfoStage(instance, videoId, net, decode).reason)
  {
    match InfoStage(instance, videoId, net, decode)
    case Abandon(reason) => Failed(reason)
    case Download(url) =>
      match net(url)
      case Exception => Failed(DownloadRaised)
      case Answered(response) =>
        if response.status == 200 then Delivered(response.text) else Failed(DownloadStatus(response.status))
  }

  /** The URLs one instance's attempt requests, in order. */
  function Requests(instance: string, videoId: string, net: string -> Reply, decode: string -> Body): (rs: seq<string>)
    ensures 1 <= |rs| <= 2 && rs[0] == InfoUrl(instance, videoId)
    ensures forall k :: 0 <= k < |rs| ==> |instance| <= |rs[k]| && rs[k][..|instance|] == instance
  {
    [InfoUrl(instance, videoId)] +
      match InfoStage(instance, videoId, net, decode)
      case Download(url) => [url]
      case Abandon(_) => []
  }

  /** Some listed instance delivers `text`. */
  ghost predicate DeliveredBySome(instances: seq<string>, videoId: string, net: string -> Reply, decode: string -> Body, text: string) {
    exists k :: 0 <= k < |instances| && TryInstance(instances[k], videoId, net, decode) == Delivered(text)
  }

  /** Specification of the loop: the text of the first instance that delivers. */
  function Fetch(instances: seq<string>, videoId: string, net: string -> Reply, decode: string -> Body): (r: Option<string>)
    decreases |instances|
    ensures r.Some? ==> DeliveredBySome(instances, videoId, net, decode, r.value)
  {
    if |instances| == 0 then None
    else match TryInstance(instances[0], videoId, net, decode)
      case Delivered(text) => Some(text)
      case Failed(_) =>
        var r := Fetch(instances[1..], videoId, net, decode);
        assert r.Some? ==> DeliveredBySome(instances, videoId, net, decode, r.value) by {
          if r.Some? {
            var k :| 0 <= k < |instances[1..]| && TryInstance(instances[1..][k], videoId, net, decode) == Delivered(r.value);
            assert instances[k + 1] == instances[1..][k];
          }
        }
        r
  }

  /** Every URL the loop requests, in order, up to and including the delivering instance. */
  function Trace(instances: seq<string>, videoId: string, net: string -> Reply, decode: string -> Body): (t: seq<string>)
    decreases |instances|
    ensures |t| <= 2 * |instances|
    ensures |instances| > 0 ==> |t| >= 1 && t[0] == InfoUrl(instances[0], videoId)
  {
    if |instances| == 0 then []
    else
      Requests(instances[0], videoId, net, decode) +
        match TryInstance(instances[0], videoId, net, decode)
        case Delivered(_) => []
        case Failed(_) => Trace(instances[1..], videoId, net, decode)
  }

  /** Instance `k` delivers and every instance before it failed. */
  ghost predicate WinsAt(instances: seq<string>, videoId: string, net: string -> Reply, decode: string -> Body, k: int) {
    0 <= k < |instances| && TryInstance(instances[k], videoId, net, decode).Delivered? &&
    forall j :: 0 <= j < k ==> TryInstance(instances[j], videoId, net, decode).Failed?
  }

  /**
   * The loop returns nothing exactly when every instance fails; otherwise it
   * returns the text delivered by the first instance that delivers.
   */
  lemma {:induction false} FetchIsFirstDelivery(instances: seq<string>, videoId: string, net: string -> Reply, decode: string -> Body)
    decreases |instances|
    ensures Fetch(instances, videoId, net, decode).None? <==>
      forall k :: 0 <= k < |instances| ==> TryInstance(instances[k], videoId, net, decode).Failed?
    ensures Fetch(instances, videoId, net, decode).Some? ==>
      exists k :: WinsAt(instances, videoId, net, decode, k) &&
        Fetch(instances, videoId, net, decode).value == TryInstance(instances[k], videoId, net, decode).text
  {
    if |instances| > 0 {
      var rest := instances[1..];
      FetchIsFirstDelivery(rest, videoId, net, decode);
      if TryInstance(instances[0], videoId, net, decode).Failed? {
        forall k | 1 <= k < |instances|
          ensures TryInstance(instances[k], videoId, net, decode) == TryInstance(rest[k - 1], videoId, net, decode)
        {
        }
        if Fetch(rest, videoId, net, decode).Some? {
          var k :| WinsAt(rest, videoId, net, decode, k) &&
            Fetch(rest, videoId, net, decode).value == TryInstance(rest[k], videoId, net, decode).text;
          assert WinsAt(instances, videoId, net, decode, k + 1);
        }
      } else {
        assert WinsAt(instances, videoId, net, decode, 0);
      }
    }
  }

  /**
   * First success is final: instances after the one that delivered change
   * neither the result nor the requests made, so none of them is contacted,
   * even one that would offer a better-ranked language.
   */
  lemma {:induction false} LaterInstancesUntouched(
    tried: seq<string>, later: seq<string>, videoId: string, net: string -> Reply, decode: string -> Body)
    requires Fetch(tried, videoId, net, decode).Some?
    decreases |tried|
    ensures Fetch(tried + later, videoId, net, decode) == Fetch(tried, videoId, net, decode)
    ensures Trace(tried + later, videoId, net, decode) == Trace(tried, videoId, net, decode)
  {
    assert (tried + later)[0] == tried[0];
    if TryInstance(tried[0], videoId, net, decode).Failed? {
      assert (tried + later)[1..] == tried[1..] + later;
      LaterInstancesUntouched(tried[1..], later, videoId, net, decode);
    }
  }

  /** The URL is addressed to `instance`: it begins with it. */
  ghost predicate AddressedTo(u: string, instance: string) {
    |instance| <= |u| && u[..|instance|] == instance
  }

  /** Every request the loop makes goes to one of the listed instances. */
  lemma {:induction false} TraceStaysWithListedInstances(instances: seq<string>, videoId: string, net: string -> Reply, decode: string -> Body)
    decreases |instances|
    ensures forall u :: u in Trace(instances, videoId, net, decode) ==>
      exists k :: 0 <= k < |instances| && AddressedTo(u, instances[k])
  {
    if |instances| > 0 {
      var rest := instances[1..];
      TraceStaysWithListedInstances(rest, videoId, net, decode);
      var rs := Requests(instances[0], videoId, net, decode);
      var tail := if TryInstance(instances[0], videoId, net, decode).Delivered? then [] else Trace(rest, videoId, net, decode);
      assert Trace(instances, videoId, net, decode) == rs + tail;
      forall u | u in rs + tail
        ensures exists k :: 0 <= k < |instances| && AddressedTo(u, instances[k])
      {
        if u in rs {
          var i :| 0 <= i < |rs| && rs[i] == u;
          assert AddressedTo(u, instances[0]);
        } else {
          var k :| 0 <= k < |rest| && AddressedTo(u, rest[k]);
          assert instances[k + 1] == rest[k];
        }
      }
    }
  }

  /**
   * The download URL is the instance followed by the selected record's
   * `url`, and it is requested only after a 200 info response whose captions
   * yield a selection.
   */
  lemma DownloadUrlIsSelectedPath(instance: string, videoId: string, net: string -> Reply, decode: string -> Body)
    requires InfoStage(instance, videoId, net, decode).Download?
    ensures net(InfoUrl(instance, videoId)).Answered?
    ensures net(InfoUrl(instance, videoId)).response.status == 200
    ensures decode(net(InfoUrl(instance, videoId)).response.text).Listing?
    ensures
      var captions := decode(net(InfoUrl(instance, videoId)).response.text).captions;
      Select(captions).Picked? && captions[Select(captions).index].url.Text? &&
      InfoStage(instance, videoId, net, decode).url == instance + captions[Select(captions).index].url.s
  {
  }

  /**
   * Conversely, a 200 info response whose captions yield a pick with a
   * string `url` plans the download of the instance followed by that `url`,
   * whatever the pick's position in the list, and that download is the
   * attempt's second and last request.
   */
  lemma SelectionIsDownloaded(
    instance: string, videoId: string, net: string -> Reply, decode: string -> Body,
    captions: seq<Track>, k: nat, path: string)
    requires net(InfoUrl(instance, videoId)).Answered?
    requires net(InfoUrl(instance, videoId)).response.status == 200
    requires decode(net(InfoUrl(instance, videoId)).response.text) == Listing(captions)
    requires Select(captions) == Picked(k) && captions[k].url == Text(path)
    ensures InfoStage(instance, videoId, net, decode) == Download(instance + path)
    ensures Requests(instance, videoId, net, decode) == [InfoUrl(instance, videoId), instance + path]
  {
  }

  /**
   * An empty or absent captions list, or a reached record without the tested
   * key, abandons the instance after its info request: no download is issued.
   */
  lemma NoSelectionNoDownload(instance: string, videoId: string, net: string -> Reply, decode: string -> Body, captions: seq<Track>)
    requires net(InfoUrl(instance, videoId)).Answered?
    requires net(InfoUrl(instance, videoId)).response.status == 200
    requires decode(net(InfoUrl(instance, videoId)).response.text) == Listing(captions)
    requires captions == [] || Select(captions) == KeyError
    ensures TryInstance(instance, videoId, net, decode).Failed?
    ensures Requests(instance, videoId, net, decode) == [InfoUrl(instance, videoId)]
  {
  }

  /**
   * As shipped, `requests` is never imported, so every info request raises
   * `NameError`, which the handler swallows: every instance is tried once,
   * each with its info request only, and the result is nothing.
   */
  lemma {:induction false} EveryRequestRaisingFindsNothing(instances: seq<string>, videoId: string, net: string -> Reply, decode: string -> Body)
    requires forall u :: net(u) == Exception
    decreases |instances|
    ensures Fetch(instances, videoId, net, decode) == None
    ensures |Trace(instances, videoId, net, decode)| == |instances|
    ensures forall k :: 0 <= k < |instances| ==> Trace(instances, videoId, net, decode)[k] == InfoUrl(instances[k], videoId)
  {
    if |instances| > 0 {
      EveryRequestRaisingFindsNothing(instances[1..], videoId, net, decode);
      assert TryInstance(instances[0], videoId, net, decode) == Failed(InfoRaised);
    }
  }

  /** One failed instance: the loop moves on after that instance's requests. */
  lemma StepPastFailure(instances: seq<string>, i: nat, videoId: string, net: string -> Reply, decode: string -> Body)
    requires i < |instances| && TryInstance(instances[i], videoId, net, decode).Failed?
    ensures Fetch(instances[i..], videoId, net, decode) == Fetch(instances[i + 1..], videoId, net, decode)
    ensures Trace(instances[i..], videoId, net, decode) ==
      Requests(instances[i], videoId, net, decode) + Trace(instances[i + 1..], videoId, net, decode)
  {
  }

  /** One delivering instance: the loop ends with its text, after its requests. */
  lemma StepAtDelivery(instances: seq<string>, i: nat, videoId: string, net: string -> Reply, decode: string -> Body)
    requires i < |instances| && TryInstance(instances[i], videoId, net, decode).Delivered?
    ensures Fetch(instances[i..], videoId, net, decode) == Some(TryInstance(instances[i], videoId, net, decode).text)
    ensures Trace(instances[i..], videoId, net, decode) == Requests(instances[i], videoId, net, decode)
  {
  }

  /**
   * The `try` block of app.py:47-87 for one instance.  Every exception and
   * every failed check ends the attempt with the reason the handler would
   * have swallowed; `requested` records each URL passed to `net`.
   */
  method AttemptInstance(instance: string, videoId: string, net: string -> Reply, decode: string -> Body)
    returns (attempt: Attempt, ghost requested: seq<string>)
    ensures attempt == TryInstance(instance, videoId, net, decode)
    ensures requested == Requests(instance, videoId, net, decode)
  {
    // 1. video info, to find the caption tracks
    var infoUrl := instance + "/api/v1/videos/" + videoId;
    var reply := net(infoUrl);
    requested := [infoUrl];
    if reply.Exception? {
      return Failed(InfoRaised), requested;
    }
    if reply.response.status == 200 {
      var body := decode(reply.response.text);
      if body.Malformed? {
        return Failed(BadBody), requested;
      }
      var captions := body.captions;
      // 2. the best caption: Korean, then English, then the first
      var selected := SelectCaption(captions);
      if selected.KeyError? {
        return Failed(SelectionRaised), requested;
      }
      if selected.Picked? {
        // 3. download the text from the instance's own domain
        var path := captions[selected.index].url;
        if !path.Text? {
          return Failed(UrlRaised), requested;
        }
        var download := net(instance + path.s);
        requested := requested + [instance + path.s];
        if download.Exception? {
          return Failed(DownloadRaised), requested;
        }
        if download.response.status == 200 {
          return Delivered(download.response.text), requested;
        }
        return Failed(DownloadStatus(download.response.status)), requested;
      }
      return Failed(NoCaption), requested;
    }
    return Failed(InfoStatus(reply.response.status)), requested;
  }

  /**
   * The loop of app.py:46-89: the instances in list order; a failed attempt
   * moves on to the next instance; the first delivered text is returned at
   * once; after the last instance, nothing.  `requested` records every URL
   * passed to `net`, in order.
   */
  method GetTranscriptViaProxy(instances: seq<string>, videoId: string, net: string -> Reply, decode: string -> Body)
    returns (transcript: Option<string>, ghost requested: seq<string>)
    ensures transcript == Fetch(instances, videoId, net, decode)
    ensures requested == Trace(instances, videoId, net, decode)
  {
    requested := [];
    for i := 0 to |instances|
      invariant Fetch(instances, videoId, net, decode) == Fetch(instances[i..], videoId, net, decode)
      invariant Trace(instances, videoId, net, decode) == requested + Trace(instances[i..], videoId, net, decode)
    {
      var attempt, reqs := AttemptInstance(instances[i], videoId, net, decode);
      requested := requested + reqs;
      if attempt.Delivered? {
        StepAtDelivery(instances, i, videoId, net, decode);
        return Some(attempt.text), requested;
      }
      StepPastFailure(instances, i, videoId, net, decode);
    }
    return None, requested;
  }

  /** The five instances of app.py:36-42 are distinct, so each is tried once. */
  lemma InstancesAreDistinct()
    ensures |Instances| == 5
    ensures forall i, j :: 0 <= i < j < |Instances| ==> Instances[i] != Instances[j]
  {
  }
}
