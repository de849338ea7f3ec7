/** The two bounded trackers of a node connection (`hdp_bridge/connection.py`): the envelope-id
    dedupe FIFO and the window of malformed frames. */
module Trackers {
  const SEEN_IDS_CAP := 256
  const MALFORMED_WINDOW_S := 60.0
  const MALFORMED_LIMIT := 10

  // ---- Reference: decisions taken over the unbounded history -----------------------------------

  function LastOf<T>(s: seq<T>, n: nat): seq<T> { if |s| <= n then s else s[|s| - n..] }

  /** Every id accepted so far, oldest first: a frame is accepted unless its id is among the last
      256 accepted ones. */
  function Accepted(frames: seq<string>): seq<string> {
    if frames == [] then []
    else
      var before := Accepted(frames[..|frames| - 1]);
      var id := frames[|frames| - 1];
      if id in LastOf(before, SEEN_IDS_CAP) then before else before + [id]
  }

  function Since(times: seq<real>, cutoff: real): seq<real> {
    if times == [] then []
    else Since(times[..|times| - 1], cutoff) + (if times[|times| - 1] >= cutoff then [times[|times| - 1]] else [])
  }

  ghost predicate NonDecreasing(times: seq<real>) {
    forall i, j :: 0 <= i <= j < |times| ==> times[i] <= times[j]
  }

  // ---- The bounded structures ----------------------------------------------------------------------

  /** What remembering an id leaves in the ordered dictionary: an id already there keeps its place. */
  function Remember(seen: seq<string>, id: string): seq<string> {
    LastOf(if id in seen then seen else seen + [id], SEEN_IDS_CAP)
  }

  function Observe(seen: seq<string>, id: string): seq<string> { if id in seen then seen else Remember(seen, id) }

  function ObserveAll(seen: seq<string>, frames: seq<string>): seq<string>
    decreases |frames|
  {
    if frames == [] then seen else Observe(ObserveAll(seen, frames[..|frames| - 1]), frames[|frames| - 1])
  }

  function Pruned(times: seq<real>, now: real): seq<real> { Since(times + [now], now - MALFORMED_WINDOW_S) }

  function PrunedAll(times: seq<real>): seq<real> {
    if times == [] then [] else Pruned(PrunedAll(times[..|times| - 1]), times[|times| - 1])
  }

  class FrameTrackers {
    var seenIds: seq<string>
    var malformedTimes: seq<real>

    constructor ()
      ensures seenIds == [] && malformedTimes == []
    {
      seenIds, malformedTimes := [], [];
    }

    method RememberId(id: string)
      requires |seenIds| <= SEEN_IDS_CAP
      modifies this`seenIds
      ensures seenIds == Remember(old(seenIds), id) && |seenIds| <= SEEN_IDS_CAP
    {
      if id !in seenIds { seenIds := seenIds + [id]; }
      if |seenIds| > SEEN_IDS_CAP { seenIds := seenIds[1..]; }
    }

    /** The dedupe gate at the head of `_handle_frame`. */
    method Admit(id: string) returns (duplicate: bool)
      requires |seenIds| <= SEEN_IDS_CAP
      modifies this`seenIds
      ensures duplicate <==> id in old(seenIds)
      ensures seenIds == Observe(old(seenIds), id) && |seenIds| <= SEEN_IDS_CAP
    {
      duplicate := id in seenIds;
      if !duplicate { RememberId(id); }
    }

    method RecordMalformed(now: real) returns (tooMany: bool)
      modifies this`malformedTimes
      ensures malformedTimes == Pruned(old(malformedTimes), now)
      ensures tooMany <==> |malformedTimes| > MALFORMED_LIMIT
    {
      malformedTimes := malformedTimes + [now];
      var cutoff := now - MALFORMED_WINDOW_S;
      var kept: seq<real> := [];
      for i := 0 to |malformedTimes|
        invariant kept == Since(malformedTimes[..i], cutoff)
      {
        assert malformedTimes[..i + 1][..i] == malformedTimes[..i];
        if malformedTimes[i] >= cutoff { kept := kept + [malformedTimes[i]]; }
      }
      assert malformedTimes[..|malformedTimes|] == malformedTimes;
      malformedTimes := kept;
      return |malformedTimes| > MALFORMED_LIMIT;
    }
  }

  // ---- The dedupe FIFO refines the full history -----------------------------------------------------

  /** The FIFO is always the last 256 accepted ids, so a frame is dropped exactly when its id is one
      of those. */
  lemma {:induction false} FifoIsLast256(frames: seq<string>, id: string)
    ensures ObserveAll([], frames) == LastOf(Accepted(frames), 256)
    ensures id in ObserveAll([], frames) <==> Accepted(frames + [id]) == Accepted(frames)
  {
    if frames != [] {
      FifoIsLast256(frames[..|frames| - 1], frames[|frames| - 1]);
    }
    assert (frames + [id])[..|frames|] == frames;
  }

  /** In terms of distance: two acceptances of one id are always more than 256 acceptances apart, and
      a repeated id is dropped exactly while its last acceptance is within that distance. */
  lemma {:induction false} RepeatsAreFarApart(frames: seq<string>, i: nat, j: nat)
    requires i < j < |Accepted(frames)| && Accepted(frames)[i] == Accepted(frames)[j]
    ensures j - i > 256
  {
    var before := frames[..|frames| - 1];
    var log := Accepted(before);
    if j < |log| {
      RepeatsAreFarApart(before, i, j);
    } else if j - i <= SEEN_IDS_CAP {
      InLast(log, SEEN_IDS_CAP, i);
    }
  }

  lemma InLast<T>(s: seq<T>, n: nat, i: nat)
    requires i < |s| && |s| - n <= i
    ensures s[i] in LastOf(s, n)
  {
    var tail := LastOf(s, n);
    assert tail[i - (|s| - |tail|)] == s[i];
  }

  lemma {:induction false} DroppedWhileNear(frames: seq<string>, i: nat)
    requires i < |Accepted(frames)|
    requires forall k :: i < k < |Accepted(frames)| ==> Accepted(frames)[k] != Accepted(frames)[i]
    ensures Accepted(frames)[i] in ObserveAll([], frames) <==> |Accepted(frames)| - i <= 256
  {
    var log := Accepted(frames);
    FifoIsLast256(frames, log[i]);
    var tail := LastOf(log, SEEN_IDS_CAP);
    if |log| - i <= SEEN_IDS_CAP {
      InLast(log, SEEN_IDS_CAP, i);
    } else {
      forall k | 0 <= k < |tail| ensures tail[k] != log[i] {
        assert tail[k] == log[k + (|log| - |tail|)];
      }
    }
  }

  // ---- The malformed window refines the full history -------------------------------------------------

  lemma {:induction false} SinceTwice(times: seq<real>, early: real, late: real)
    requires early <= late
    ensures Since(Since(times, early), late) == Since(times, late)
  {
    if times != [] {
      var before := times[..|times| - 1];
      SinceTwice(before, early, late);
      if times[|times| - 1] >= early {
        assert Since(times, early)[..|Since(times, early)| - 1] == Since(before, early);
      } else {
        assert Since(times, early) == Since(before, early) && Since(times, late) == Since(before, late);
      }
    }
  }

  lemma SinceAppend(times: seq<real>, now: real, cutoff: real)
    ensures Since(times + [now], cutoff) == Since(times, cutoff) + if now >= cutoff then [now] else []
  {
    assert (times + [now])[..|times|] == times;
  }

  /** On sorted times, what is recent is a suffix. */
  lemma {:induction false} SinceIsSuffix(times: seq<real>, cutoff: real, k: nat)
    requires NonDecreasing(times) && k <= |times|
    ensures |Since(times, cutoff)| >= k <==> (k == 0 || times[|times| - k] >= cutoff)
    decreases |times|
  {
    if times != [] {
      var before := times[..|times| - 1];
      SinceIsSuffix(before, cutoff, if k == 0 then 0 else k - 1);
      if k > 0 && times[|times| - 1] < cutoff {
        SinceIsSuffix(before, cutoff, 0);
        NoneRecent(times, cutoff);
      }
    }
  }

  lemma {:induction false} NoneRecent(times: seq<real>, cutoff: real)
    requires forall i :: 0 <= i < |times| ==> times[i] < cutoff
    ensures Since(times, cutoff) == []
  {
    if times != [] { NoneRecent(times[..|times| - 1], cutoff); }
  }

  /** The pruned list is the full history cut to the last 60 seconds, under a clock that does not
      run backwards; so the connection is closed exactly when, over all history, more than ten
      malformed frames arrived in that window, i.e. when the eleventh-last is recent enough. */
  lemma {:induction false} WindowIsExact(times: seq<real>)
    requires times != [] && NonDecreasing(times)
    ensures
      var now := times[|times| - 1];
      && PrunedAll(times) == Since(times, now - 60.0)
      && (|PrunedAll(times)| > MALFORMED_LIMIT <==> |times| > 10 && times[|times| - 11] >= now - 60.0)
  {
    var before, now := times[..|times| - 1], times[|times| - 1];
    var cutoff := now - MALFORMED_WINDOW_S;
    if before != [] {
      WindowIsExact(before);
      SinceTwice(before, before[|before| - 1] - MALFORMED_WINDOW_S, cutoff);
    }
    SinceAppend(PrunedAll(before), now, cutoff);
    SinceShrinks(times, cutoff);
    if |times| > MALFORMED_LIMIT {
      SinceIsSuffix(times, cutoff, MALFORMED_LIMIT + 1);
    }
  }

  lemma {:induction false} SinceShrinks(times: seq<real>, cutoff: real)
    ensures |Since(times, cutoff)| <= |times|
  {
    if times != [] { SinceShrinks(times[..|times| - 1], cutoff); }
  }
}
