/**
 * `extract_video_id` (app.py:23-27): `re.search` with the fixed pattern
 * `(?:v=|/)([0-9A-Za-z_-]{11}).*`, returning group 1 of the leftmost match.
 *
 * The pattern is modelled as a direct scan over the characters.  The
 * trailing `.*` always matches (possibly empty), so it imposes nothing; there
 * is no end anchor, so an identifier run longer than 11 characters still
 * matches and only its first 11 characters are captured.
 */
module VideoId {
  import opened Wrappers

  /** Length of the captured group, `{11}` in the pattern. */
  const IdLength: nat := 11

  /** The character class `[0-9A-Za-z_-]` (ASCII only). */
  predicate IsIdChar(c: char) {
    ('0' <= c <= '9') || ('A' <= c <= 'Z') || ('a' <= c <= 'z') || c == '_' || c == '-'
  }

  /** Reference definition: the 11 characters starting at `k` are all in the class. */
  ghost predicate IdRunAt(s: string, k: int) {
    0 <= k && k + IdLength <= |s| && forall j :: k <= j < k + IdLength ==> IsIdChar(s[j])
  }

  /**
   * Reference definition: the pattern has a match beginning at position `i`,
   * either through the `v=` alternative or through the `/` alternative.  At
   * one position at most one alternative can apply, since `s[i]` is either
   * `v` or `/`.
   */
  ghost predicate MatchesAt(s: string, i: int) {
    0 <= i < |s| &&
    ((s[i] == 'v' && i + 1 < |s| && s[i + 1] == '=' && IdRunAt(s, i + 2)) ||
     (s[i] == '/' && IdRunAt(s, i + 1)))
  }

  /** Group 1 of a match that begins at `i`. */
  ghost function CaptureAt(s: string, i: int): string
    requires MatchesAt(s, i)
  {
    var k := if s[i] == 'v' then i + 2 else i + 1;
    s[k..k + IdLength]
  }

  /** Scanner helper: the `{11}` repetition, checking positions `lo` to `hi - 1` one at a time. */
  predicate IdCharsIn(s: string, lo: nat, hi: nat)
    requires lo <= hi <= |s|
    decreases hi - lo
    ensures IdCharsIn(s, lo, hi) <==> forall j :: lo <= j < hi ==> IsIdChar(s[j])
  {
    lo == hi || (IsIdChar(s[lo]) && IdCharsIn(s, lo + 1, hi))
  }

  /** Scanner helper: `{11}` of the class can be consumed starting at `k`. */
  predicate IdRun(s: string, k: nat)
    ensures IdRun(s, k) <==> IdRunAt(s, k)
  {
    k + IdLength <= |s| && IdCharsIn(s, k, k + IdLength)
  }

  /** Reference definition: the pattern matches nowhere at or after `i`. */
  ghost predicate NoMatchFrom(s: string, i: int) {
    forall p :: i <= p < |s| ==> !MatchesAt(s, p)
  }

  /** Reference definition: `p` is the leftmost position at or after `i` where the pattern matches. */
  ghost predicate LeftmostFrom(s: string, i: int, p: int) {
    i <= p < |s| && MatchesAt(s, p) && forall q :: i <= q < p ==> !MatchesAt(s, q)
  }

  /**
   * Tries the start positions `i`, `i+1`, ... in order, as `re.search` does,
   * and at each position the `v=` alternative before the `/` alternative.
   */
  function SearchFrom(s: string, i: nat): (r: Option<string>)
    requires i <= |s|
    decreases |s| - i
    ensures r.Some? ==> |r.value| == IdLength && forall j :: 0 <= j < |r.value| ==> IsIdChar(r.value[j])
  {
    if i == |s| then None
    else if s[i] == 'v' && i + 1 < |s| && s[i + 1] == '=' && IdRun(s, i + 2) then
      Some(s[i + 2..i + 2 + IdLength])
    else if s[i] == '/' && IdRun(s, i + 1) then
      Some(s[i + 1..i + 1 + IdLength])
    else
      SearchFrom(s, i + 1)
  }

  /**
   * The scan finds the leftmost position at or after `i` where the pattern
   * matches and returns its capture; it returns nothing exactly when there is
   * no such position.
   */
  lemma {:induction false} SearchFromFindsLeftmost(s: string, i: nat)
    requires i <= |s|
    decreases |s| - i
    ensures SearchFrom(s, i).None? <==> NoMatchFrom(s, i)
    ensures SearchFrom(s, i).Some? ==>
      exists p :: LeftmostFrom(s, i, p) && SearchFrom(s, i).value == CaptureAt(s, p)
  {
    if i == |s| {
    } else if MatchesAt(s, i) {
      assert LeftmostFrom(s, i, i);
    } else {
      SearchFromFindsLeftmost(s, i + 1);
      if SearchFrom(s, i + 1).Some? {
        var p :| LeftmostFrom(s, i + 1, p) && SearchFrom(s, i + 1).value == CaptureAt(s, p);
        assert LeftmostFrom(s, i, p);
      }
    }
  }

  /** `extract_video_id(url)`: either nothing, or exactly 11 characters of the class. */
  function ExtractVideoId(url: string): (r: Option<string>)
    ensures r.Some? ==> |r.value| == IdLength && forall j :: 0 <= j < IdLength ==> IsIdChar(r.value[j])
  {
    SearchFrom(url, 0)
  }

  /**
   * `None` exactly when the pattern matches nowhere; otherwise group 1 of the
   * leftmost match, whatever follows it.
   */
  lemma ExtractVideoIdIsLeftmostMatch(url: string)
    ensures ExtractVideoId(url).None? <==> forall p :: 0 <= p < |url| ==> !MatchesAt(url, p)
    ensures ExtractVideoId(url).Some? ==>
      exists p :: LeftmostFrom(url, 0, p) && ExtractVideoId(url).value == CaptureAt(url, p)
  {
    SearchFromFindsLeftmost(url, 0);
  }

  /**
   * The leftmost match decides: if the pattern matches at `p` and nowhere
   * before, the result is exactly the 11 characters captured there, even when
   * the class run goes on past them or a later position also matches.
   */
  lemma LeftmostMatchWins(url: string, p: int)
    requires LeftmostFrom(url, 0, p)
    ensures ExtractVideoId(url) == Some(CaptureAt(url, p))
  {
    ExtractVideoIdIsLeftmostMatch(url);
    var p' :| LeftmostFrom(url, 0, p') && ExtractVideoId(url).value == CaptureAt(url, p');
    assert p' == p by {
      assert !(p' < p) && !(p < p');
    }
  }
}
