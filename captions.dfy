/**
 * Caption-track selection inside `get_transcript_via_proxy` (app.py:57-77).
 *
 * A track is a JSON record whose keys may be absent.  Reading an absent key
 * (`cap["language"]`, `cap["code"]`) raises `KeyError`, but only for the
 * records a scan actually reaches: the `or` at app.py:62 and app.py:69 skips
 * `code` when `language` already matches, and `break` stops the scan at the
 * first match.
 */
module Captions {
  import opened Wrappers

  /** The value under one key of a caption record. */
  datatype Field =
    | Missing            // the key is absent: reading it raises KeyError
    | Text(s: string)    // a JSON string
    | Other              // any other JSON value: equal to no string

  /** One element of the `captions` array. */
  datatype Track = Track(language: Field, code: Field, url: Field)

  /** Outcome of evaluating `cap["language"] == L or cap["code"] == C` on one record. */
  datatype Probe = Hit | Miss | Raise

  /** Outcome of one `for cap in captions: if ...: break` loop. */
  datatype ScanResult = Found(index: nat) | Exhausted | Raised

  /** What the three tiers leave in `selected_caption`, or the KeyError they raised. */
  datatype Selection = Picked(index: nat) | NoPick | KeyError

  /** Reference definition of a tier's match, for a record that has both keys. */
  predicate Matches(t: Track, language: string, code: string) {
    t.language == Text(language) || t.code == Text(code)
  }

  /** The record has both keys the tier tests read. */
  predicate HasKeys(t: Track) {
    !t.language.Missing? && !t.code.Missing?
  }

  /**
   * The tier's condition with Python's left-to-right, short-circuit `or`:
   * `language` is read first; `code` only when `language` did not match.
   */
  function Test(t: Track, language: string, code: string): (r: Probe)
    ensures r != Raise ==> (r == Hit <==> Matches(t, language, code))
    ensures HasKeys(t) ==> r != Raise
    ensures t.language == Text(language) ==> r == Hit
    ensures r == Raise <==> t.language.Missing? || (t.language != Text(language) && t.code.Missing?)
  {
    if t.language.Missing? then Raise
    else if t.language == Text(language) then Hit
    else if t.code.Missing? then Raise
    else if t.code == Text(code) then Hit
    else Miss
  }

  /**
   * One tier's loop from position `i` on: the first record that matches, or
   * the KeyError of the first record whose test raises, whichever comes first.
   */
  function ScanFrom(cs: seq<Track>, language: string, code: string, i: nat): (r: ScanResult)
    requires i <= |cs|
    decreases |cs| - i
    ensures r.Found? ==>
      i <= r.index < |cs| && Test(cs[r.index], language, code) == Hit &&
      forall j :: i <= j < r.index ==> Test(cs[j], language, code) == Miss
    ensures r.Exhausted? <==> forall j :: i <= j < |cs| ==> Test(cs[j], language, code) == Miss
    ensures r.Raised? ==>
      exists k :: i <= k < |cs| && Test(cs[k], language, code) == Raise &&
        forall j :: i <= j < k ==> Test(cs[j], language, code) == Miss
  {
    if i == |cs| then Exhausted
    else match Test(cs[i], language, code)
      case Hit => Found(i)
      case Raise => Raised
      case Miss => ScanFrom(cs, language, code, i + 1)
  }

  /**
   * The three tiers: first Korean match, else first English match, else the
   * first record, else nothing.  A KeyError in a tier ends the selection.
   */
  function Select(cs: seq<Track>): (r: Selection)
    ensures r.Picked? ==> r.index < |cs|
    ensures r.Picked? ==> !cs[r.index].language.Missing?
    ensures |cs| == 0 ==> r == NoPick
    ensures r == NoPick ==> |cs| == 0
  {
    match ScanFrom(cs, "Korean", "ko", 0)
    case Raised => KeyError
    case Found(i) => Picked(i)
    case Exhausted =>
      match ScanFrom(cs, "English", "en", 0)
      case Raised => KeyError
      case Found(i) => Picked(i)
      case Exhausted => if |cs| > 0 then Picked(0) else NoPick
  }

  /**
   * After a Korean tier that ran to the end without raising, every record
   * has already shown both keys, so the English tier never raises.
   */
  lemma EnglishTierNeverRaises(cs: seq<Track>)
    requires ScanFrom(cs, "Korean", "ko", 0).Exhausted?
    ensures !ScanFrom(cs, "English", "en", 0).Raised?
  {
  }

  /**
   * A KeyError comes only from the Korean tier: some record is reached by it
   * (every earlier one tested negative) and lacks the key being read.
   */
  lemma SelectRaisesOnlyInKoreanTier(cs: seq<Track>)
    ensures Select(cs) == KeyError <==>
      exists k :: 0 <= k < |cs| && Test(cs[k], "Korean", "ko") == Raise &&
        forall j :: 0 <= j < k ==> Test(cs[j], "Korean", "ko") == Miss
  {
  }

  /**
   * The Korean tier: the first record that is Korean by name or code is
   * picked, wherever it sits.  Only what the loop reads is needed: both keys
   * of the records before it, and of the picked record its `language` (its
   * `code` too only when the name does not match); records after it are
   * never read and may lack any key.
   */
  lemma SelectPrefersKorean(cs: seq<Track>, k: nat)
    requires k < |cs| && !cs[k].language.Missing? && Matches(cs[k], "Korean", "ko")
    requires forall j :: 0 <= j < k ==> HasKeys(cs[j]) && !Matches(cs[j], "Korean", "ko")
    ensures Select(cs) == Picked(k)
  {
  }

  /** The English tier, reached only when no record is Korean. */
  lemma SelectFallsBackToEnglish(cs: seq<Track>, k: nat)
    requires forall j :: 0 <= j < |cs| ==> HasKeys(cs[j])
    requires forall j :: 0 <= j < |cs| ==> !Matches(cs[j], "Korean", "ko")
    requires k < |cs| && Matches(cs[k], "English", "en")
    requires forall j :: 0 <= j < k ==> !Matches(cs[j], "English", "en")
    ensures Select(cs) == Picked(k)
  {
  }

  /** The last tier: with no Korean and no English record, the first record. */
  lemma SelectFallsBackToFirst(cs: seq<Track>)
    requires |cs| > 0
    requires forall j :: 0 <= j < |cs| ==> HasKeys(cs[j])
    requires forall j :: 0 <= j < |cs| ==> !Matches(cs[j], "Korean", "ko") && !Matches(cs[j], "English", "en")
    ensures Select(cs) == Picked(0)
  {
  }

  /**
   * The three loops of app.py:58-75 run imperatively: each `for` breaks at
   * its first match, a missing key ends the selection with KeyError, and the
   * result is exactly the tiered selection above.
   */
  method SelectCaption(captions: seq<Track>) returns (selected: Selection)
    ensures selected == Select(captions)
  {
    selected := NoPick;
    // Priority 1: Korean
    for i := 0 to |captions|
      invariant selected == NoPick
      invariant ScanFrom(captions, "Korean", "ko", 0) == ScanFrom(captions, "Korean", "ko", i)
    {
      var probe := Test(captions[i], "Korean", "ko");
      if probe == Raise {
        return KeyError;
      }
      if probe == Hit {
        selected := Picked(i);
        break;
      }
    }
    // Priority 2: English (if no Korean)
    if selected == NoPick {
      for i := 0 to |captions|
        invariant selected == NoPick
        invariant ScanFrom(captions, "English", "en", 0) == ScanFrom(captions, "English", "en", i)
      {
        var probe := Test(captions[i], "English", "en");
        if probe == Raise {
          return KeyError;
        }
        if probe == Hit {
          selected := Picked(i);
          break;
        }
      }
    }
    // Priority 3: first available
    if selected == NoPick && |captions| > 0 {
      selected := Picked(0);
    }
  }
}
