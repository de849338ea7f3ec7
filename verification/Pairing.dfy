/** Six-digit pairing codes and the online-guessing budget (`hdp_bridge/pairing.py`).  Codes enter
    in normalised form; the hash that keys a row is taken to be injective. */
module Pairing {
  import opened Basics

  const TTL_MS := 5 * 60 * 1000
  const ATTEMPT_BUDGET := 5
  const MINT_ATTEMPTS := 20

  datatype Row = Row(createdAt: int, expiresAt: int, consumedAt: Option<int>, device: Option<string>, attempts: int,
      invalidatedAt: Option<int>)

  type Rows = map<string, Row>

  predicate Usable(r: Row) { r.consumedAt.None? && r.invalidatedAt.None? }

  predicate LiveRow(r: Row, now: int) { Usable(r) && r.expiresAt > now }

  predicate Live(rows: Rows, code: string, now: int) { code in rows && LiveRow(rows[code], now) }

  // ---- The operations as functions on the table -------------------------------------------------

  /** The first sample that does not collide with a live code. */
  function FirstFree(rows: Rows, samples: seq<string>, now: int): Option<string> {
    if samples == [] then None
    else if Live(rows, samples[0], now) then FirstFree(rows, samples[1..], now)
    else Some(samples[0])
  }

  function Minted(rows: Rows, code: string, now: int): Rows {
    rows[code := Row(now, now + TTL_MS, None, None, ATTEMPT_BUDGET, None)]
  }

  function BurnRow(r: Row, now: int): Row {
    var charged := if LiveRow(r, now) then r.(attempts := r.attempts - 1) else r;
    if Usable(charged) && charged.attempts <= 0 then charged.(invalidatedAt := Some(now)) else charged
  }

  function Burned(rows: Rows, now: int): Rows { map code | code in rows :: BurnRow(rows[code], now) }

  function Consumed(rows: Rows, code: string, device: string, now: int): Rows {
    if Live(rows, code, now) then rows[code := rows[code].(consumedAt := Some(now), device := Some(device))] else rows
  }

  datatype Status = Pending | ConsumedBy(device: string) | Expired | Invalidated | Unknown

  function StatusOf(rows: Rows, code: string, now: int): Status {
    if code !in rows then Unknown
    else if rows[code].consumedAt.Some? then ConsumedBy(rows[code].device.GetOr(""))
    else if rows[code].invalidatedAt.Some? then Invalidated
    else if rows[code].expiresAt <= now then Expired
    else Pending
  }

  /** Minting takes the first sample that is no live code, and gives up exactly if all of them are. */
  lemma {:induction false} FirstFreeExactly(rows: Rows, samples: seq<string>, now: int)
    ensures FirstFree(rows, samples, now).None? <==> forall i :: 0 <= i < |samples| ==> Live(rows, samples[i], now)
    ensures FirstFree(rows, samples, now).Some? ==>
              exists i :: 0 <= i < |samples| && samples[i] == FirstFree(rows, samples, now).value
                          && !Live(rows, samples[i], now) && forall j :: 0 <= j < i ==> Live(rows, samples[j], now)
  {
    if samples != [] {
      FirstFreeExactly(rows, samples[1..], now);
      assert forall j :: 0 < j < |samples| ==> samples[j] == samples[1..][j - 1];
      if Live(rows, samples[0], now) && FirstFree(rows, samples, now).Some? {
        var i :| 0 <= i < |samples[1..]| && samples[1..][i] == FirstFree(rows, samples, now).value
            && !Live(rows, samples[1..][i], now) && forall j :: 0 <= j < i ==> Live(rows, samples[1..][j], now);
        assert samples[i + 1] == samples[1..][i];
      }
    }
  }

  // ---- The table itself -----------------------------------------------------------------------------

  class PairingCodes {
    var rows: Rows

    constructor ()
      ensures rows == map[]
    {
      rows := map[];
    }

    /** `samples` are the random codes drawn, as many as may be needed. */
    method Mint(samples: seq<string>, now: int) returns (code: Option<string>)
      requires |samples| == MINT_ATTEMPTS
      modifies this
      ensures code == FirstFree(old(rows), samples, now)
      ensures rows == if code.Some? then Minted(old(rows), code.value, now) else old(rows)
    {
      for i := 0 to MINT_ATTEMPTS
        invariant rows == old(rows)
        invariant FirstFree(rows, samples, now) == FirstFree(rows, samples[i..], now)
      {
        var sample := samples[i];
        if sample in rows {
          var row := rows[sample];
          var stillLive := row.consumedAt.None? && row.invalidatedAt.None? && row.expiresAt > now;
          if stillLive { continue; }
          rows := rows - {sample};
        }
        rows := rows[sample := Row(now, now + TTL_MS, None, None, ATTEMPT_BUDGET, None)];
        assert rows == Minted(old(rows), sample, now);
        return Some(sample);
      }
      return None;
    }

    /** Two UPDATE statements in one transaction; returns how many codes the second one destroyed. */
    method Burn(now: int) returns (destroyed: nat)
      modifies this
      ensures rows == Burned(old(rows), now)
      ensures destroyed == |set code | code in rows && Usable(old(rows)[code]) && !Usable(rows[code])|
    {
      ghost var before := rows;
      rows := map code | code in rows :: if LiveRow(rows[code], now)
          then rows[code].(attempts := rows[code].attempts - 1) else rows[code];
      var dying := set code | code in rows && Usable(rows[code]) && rows[code].attempts <= 0;
      rows := map code | code in rows :: if code in dying then rows[code].(invalidatedAt := Some(now)) else rows[code];
      destroyed := |dying|;
      assert dying == set code | code in rows && Usable(before[code]) && !Usable(rows[code]);
    }

    method Consume(code: string, device: string, now: int) returns (won: bool)
      modifies this
      ensures rows == Consumed(old(rows), code, device, now) && won == Live(old(rows), code, now)
    {
      won := code in rows && rows[code].consumedAt.None? && rows[code].invalidatedAt.None?
          && rows[code].expiresAt > now;
      if won {
        rows := rows[code := rows[code].(consumedAt := Some(now), device := Some(device))];
      }
    }
  }

  // ---- Runs, and what a code's status means in terms of what happened -----------------------------

  datatype Op =
    | MintOp(samples: seq<string>, at: int)
    | BurnOp(at: int)
    | ConsumeOp(code: string, device: string, at: int)

  /** What happened: a code was minted, an attempt was charged, a code was redeemed. */
  datatype Event = Mint(code: string, at: int) | Charge(at: int) | Redeem(code: string, device: string)

  function Perform(rows: Rows, op: Op): (Rows, seq<Event>) {
    match op
    case MintOp(samples, at) =>
      var code := FirstFree(rows, samples, at);
      if code.Some? then (Minted(rows, code.value, at), [Mint(code.value, at)]) else (rows, [])
    case BurnOp(at) => (Burned(rows, at), [Charge(at)])
    case ConsumeOp(code, device, at) =>
      (Consumed(rows, code, device, at), if Live(rows, code, at) then [Redeem(code, device)] else [])
  }

  datatype History = History(rows: Rows, log: seq<Event>)

  function Step(h: History, op: Op): History {
    History(Perform(h.rows, op).0, h.log + Perform(h.rows, op).1)
  }

  function Run(h: History, ops: seq<Op>): History
    decreases |ops|
  {
    if ops == [] then h else Run(Step(h, ops[0]), ops[1..])
  }

  function Last(log: seq<Event>): Event
    requires log != []
  {
    log[|log| - 1]
  }

  /** When the code was last minted. */
  function MintedAt(log: seq<Event>, code: string): Option<int> {
    if log == [] then None
    else if Last(log).Mint? && Last(log).code == code then Some(Last(log).at)
    else MintedAt(log[..|log| - 1], code)
  }

  /** The failures charged since then, while it had not expired. */
  function Charges(log: seq<Event>, code: string): nat {
    if log == [] || (Last(log).Mint? && Last(log).code == code) then 0
    else
      var before := log[..|log| - 1];
      var minted := MintedAt(before, code);
      Charges(before, code) + if Last(log).Charge? && minted.Some? && Last(log).at < minted.value + TTL_MS then 1 else 0
  }

  /** Who redeemed it since then. */
  function RedeemedBy(log: seq<Event>, code: string): Option<string> {
    if log == [] || (Last(log).Mint? && Last(log).code == code) then None
    else if Last(log).Redeem? && Last(log).code == code then Some(Last(log).device)
    else RedeemedBy(log[..|log| - 1], code)
  }

  /** A code's status, told from the history alone. */
  function StatusFrom(log: seq<Event>, code: string, now: int): Status {
    if MintedAt(log, code).None? then Unknown
    else if RedeemedBy(log, code).Some? then ConsumedBy(RedeemedBy(log, code).value)
    else if Charges(log, code) >= ATTEMPT_BUDGET then Invalidated
    else if MintedAt(log, code).value + TTL_MS <= now then Expired
    else Pending
  }

  ghost predicate RowTells(h: History, code: string) {
    && (code in h.rows <==> MintedAt(h.log, code).Some?)
    && (code !in h.rows ==> RedeemedBy(h.log, code).None?)
    && (code in h.rows ==>
          var r := h.rows[code];
          && r.createdAt == MintedAt(h.log, code).value && r.expiresAt == r.createdAt + TTL_MS
          && (r.consumedAt.Some? <==> RedeemedBy(h.log, code).Some?)
          && r.device == RedeemedBy(h.log, code)
          && (r.consumedAt.Some? ==> r.invalidatedAt.None?)
          && (r.consumedAt.None? ==>
                && (r.invalidatedAt.Some? <==> Charges(h.log, code) >= ATTEMPT_BUDGET)
                && (r.invalidatedAt.None? ==> r.attempts == ATTEMPT_BUDGET - Charges(h.log, code))))
  }

  ghost predicate Faithful(h: History) { forall code :: RowTells(h, code) }

  lemma Appended(log: seq<Event>, e: Event, code: string)
    ensures
      var mine := e.Mint? && e.code == code;
      && MintedAt(log + [e], code) == (if mine then Some(e.at) else MintedAt(log, code))
      && Charges(log + [e], code) ==
           (if mine then 0
            else Charges(log, code) + if e.Charge? && MintedAt(log, code).Some?
                && e.at < MintedAt(log, code).value + TTL_MS then 1 else 0)
      && RedeemedBy(log + [e], code) ==
           (if mine then None else if e.Redeem? && e.code == code then Some(e.device) else RedeemedBy(log, code))
  {
    assert (log + [e])[..|log|] == log;
  }

  lemma StepFaithful(h: History, op: Op)
    requires Faithful(h)
    ensures Faithful(Step(h, op))
  {
    var events := Perform(h.rows, op).1;
    forall code ensures RowTells(Step(h, op), code) {
      assert RowTells(h, code);
      if events == [] {
        assert h.log + events == h.log;
      } else {
        Appended(h.log, events[0], code);
      }
    }
  }

  /** Over any run of minting (slots reused included), burning and consuming, at any times: a code's
      stored status is the one its history tells. */
  lemma {:induction false} RunsFaithful(h: History, ops: seq<Op>)
    requires Faithful(h)
    ensures Faithful(Run(h, ops))
    decreases |ops|
  {
    if ops != [] {
      StepFaithful(h, ops[0]);
      RunsFaithful(Step(h, ops[0]), ops[1..]);
    }
  }

  /** From an empty table, in particular: the status is exact; a pending code has been charged less
      than five times since its mint, its remaining budget is what is left of five and lies in 1..5;
      and consuming succeeds exactly when the status is pending. */
  lemma BudgetIsExact(ops: seq<Op>, code: string, device: string, now: int)
    ensures
      var h := Run(History(map[], []), ops);
      && StatusOf(h.rows, code, now) == StatusFrom(h.log, code, now)
      && (StatusFrom(h.log, code, now).Pending? ==>
            && h.rows[code].attempts == 5 - Charges(h.log, code) && 1 <= h.rows[code].attempts <= 5
            && MintedAt(h.log, code).Some? && now < MintedAt(h.log, code).value + 300_000)
      && (Live(h.rows, code, now) <==> StatusFrom(h.log, code, now).Pending?)
      && (Perform(h.rows, ConsumeOp(code, device, now)).1 == [Redeem(code, device)] <==>
           StatusFrom(h.log, code, now).Pending?)
  {
    RunsFaithful(History(map[], []), ops);
    assert RowTells(Run(History(map[], []), ops), code);
  }

  ghost predicate MintedIn(events: seq<Event>, code: string) {
    exists k :: 0 <= k < |events| && events[k].Mint? && events[k].code == code
  }

  /** Until it is minted anew, a code that was redeemed or charged five times never comes back. */
  lemma {:induction false} DeadUntilMinted(h: History, ops: seq<Op>, code: string, now: int)
    requires Faithful(h)
    requires RedeemedBy(h.log, code).Some? || Charges(h.log, code) >= ATTEMPT_BUDGET
    requires h.log <= Run(h, ops).log && !MintedIn(Run(h, ops).log[|h.log|..], code)
    ensures !Live(Run(h, ops).rows, code, now)
    decreases |ops|
  {
    if ops == [] {
      assert RowTells(h, code);
    } else {
      var next := Step(h, ops[0]);
      StepFaithful(h, ops[0]);
      LogGrows(next, ops[1..]);
      var last := Run(h, ops);
      assert last == Run(next, ops[1..]);
      var events := Perform(h.rows, ops[0]).1;
      assert forall k :: 0 <= k < |last.log| - |next.log| ==>
          last.log[|next.log|..][k] == last.log[|h.log|..][k + |events|];
      if events == [] {
        assert h.log + events == h.log;
      } else {
        Appended(h.log, events[0], code);
        assert last.log[|h.log|..][0] == next.log[|h.log|] == events[0];
      }
      DeadUntilMinted(next, ops[1..], code, now);
    }
  }

  lemma {:induction false} LogGrows(h: History, ops: seq<Op>)
    ensures h.log <= Run(h, ops).log
    decreases |ops|
  {
    if ops != [] {
      LogGrows(Step(h, ops[0]), ops[1..]);
    }
  }
}
