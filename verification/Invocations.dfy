/** The pending-invocation table (`hdp_bridge/invocations.py`).

    A `Slot` is everything known of one minted id: the entry's three futures and whether the id is
    still in the table.  The entry outlives its removal, because the coroutine that minted it keeps
    waiting on its futures.  The functions on `Slot` say what each operation does; `InvocationsMem`
    is the object, proved to do exactly that to the matching ids and nothing to the others. */
module Invocations {
  import opened Basics
  import opened Capabilities
  import opened Futures

  /** A `result` frame's payload once its shape has been checked. */
  datatype Payload = Payload(ok: bool, data: Option<map<string, Json>>, error: Option<map<string, Json>>)

  datatype Slot = Slot(
    deviceId: string, conn: ConnId, descriptor: Descriptor,
    live: bool,                  // the id is a key of the pending table
    ack: Cell<()>, result: Cell<Payload>, gone: Cell<Reason>)
  {
    predicate From(c: Option<ConnId>) { c.None? || c.value == conn }

    predicate Acks(c: Option<ConnId>) { live && !ack.Done() && From(c) }

    function MarkAcked(c: Option<ConnId>): Slot {
      if Acks(c) then this.(ack := Value(())) else this
    }

    predicate Takes(c: Option<ConnId>) { live && From(c) }

    function Resolve(payload: Payload, c: Option<ConnId>): Slot {
      if !Takes(c) then this
      else this.(live := false, result := if result.Done() then result else Value(payload))
    }

    function Expire(): Slot { this.(live := false) }

    /** Does a call to `_fail` with these filters reach this entry? */
    predicate Reached(device: Option<string>, c: Option<ConnId>) {
      live && (device.None? || device.value == deviceId) && From(c)
    }

    function Fail(reason: Reason, both: bool): Slot {
      Slot(deviceId, conn, descriptor, false,
           if ack.Done() then ack else Failure(reason),
           if result.Done() || (!ack.Done() && !both) then result else Failure(reason),
           if gone.Done() then gone else Value(reason))
    }

    function FailIf(device: Option<string>, c: Option<ConnId>, reason: Reason, both: bool): Slot {
      if Reached(device, c) then Fail(reason, both) else this
    }

    /** The last act of the cancel verb: release whichever future is still open, with a failure. */
    function CancelledByVerb(refusal: Payload): Slot {
      this.(ack := if ack.Done() then ack else Value(()), result := if result.Done() then result else Value(refusal))
    }

    /** `_cancel_and_drain` over the entry's futures. */
    function Drain(alsoGone: bool): Slot {
      this.(ack := ack.Cancel(), result := result.Cancel(), gone := if alsoGone then gone.Cancel() else gone)
    }
  }

  function NewSlot(deviceId: string, conn: ConnId, descriptor: Descriptor): Slot {
    Slot(deviceId, conn, descriptor, true, Unset, Unset, Unset)
  }

  /** A settled future stays as it is, and a removed id stays removed. */
  predicate Later(before: Slot, after: Slot) {
    && WriteOnce(before.ack, after.ack) && WriteOnce(before.result, after.result) && WriteOnce(before.gone, after.gone)
    && (after.live ==> before.live)
    && (after.deviceId, after.conn, after.descriptor) == (before.deviceId, before.conn, before.descriptor)
  }

  /** Failing both futures leaves no future of a failed entry open; failing one leaves open at most
      the result of an entry that was not acknowledged, whose owner looks at the ack first. */
  lemma FailReleases(s: Slot, reason: Reason, both: bool)
    ensures var f := s.Fail(reason, both);
            && !f.live && f.ack.Done() && f.gone.Done()
            && (both || s.ack.Done() ==> f.result.Done())
            && (!s.ack.Done() ==> f.ack == Failure(reason))
            && Later(s, f)
  {
  }

  // ---- The table ------------------------------------------------------------------------------

  class PendingInvocation {
    const deviceId: string
    const conn: ConnId
    const descriptor: Descriptor
    var ack: Cell<()>
    var result: Cell<Payload>
    var gone: Cell<Reason>

    constructor (deviceId: string, conn: ConnId, descriptor: Descriptor)
      ensures View(true) == NewSlot(deviceId, conn, descriptor)
    {
      this.deviceId, this.conn, this.descriptor := deviceId, conn, descriptor;
      ack, result, gone := Unset, Unset, Unset;
    }

    ghost function View(live: bool): Slot
      reads this
    {
      Slot(deviceId, conn, descriptor, live, ack, result, gone)
    }

    /** What one round of the failing loop does to the entry it has just removed. */
    method Fail(reason: Reason, both: bool)
      modifies this
      ensures View(false) == old(View(true)).Fail(reason, both)
    {
      if !gone.Done() {
        gone := Value(reason);
      }
      if !ack.Done() {
        ack := Failure(reason);
        if both && !result.Done() {
          result := Failure(reason);
        }
      } else if !result.Done() {
        result := Failure(reason);
      }
    }
  }

  class InvocationsMem {
    var pending: map<Id, PendingInvocation>
    var order: seq<Id>                             // every id in the order of minting, which the dictionary keeps
    ghost var minted: map<Id, PendingInvocation>

    ghost predicate Valid()
      reads this
    {
      Indexed() && Ordered()
    }

    ghost predicate Indexed()
      reads this`pending, this`minted
    {
      && pending.Keys <= minted.Keys
      && (forall id :: id in pending ==> pending[id] == minted[id])
      && (forall a, b :: a in minted && b in minted && a != b ==> minted[a] != minted[b])
    }

    ghost predicate Ordered()
      reads this`order, this`minted
    {
      Lists(order, minted.Keys)
    }

    ghost function Contents(): map<Id, Slot>
      reads this, minted.Values
    {
      map id | id in minted :: minted[id].View(id in pending)
    }

    constructor ()
      ensures Valid() && Contents() == map[]
    {
      pending, order, minted := map[], [], map[];
    }

    /** `id` is the fresh identifier just minted. */
    method MintFor(id: Id, deviceId: string, conn: ConnId, descriptor: Descriptor) returns (entry: PendingInvocation)
      requires Valid() && id !in minted
      modifies this
      ensures Valid() && fresh(entry) && id in pending && pending[id] == entry
      ensures Contents() == old(Contents())[id := NewSlot(deviceId, conn, descriptor)] && order == old(order) + [id]
    {
      entry := new PendingInvocation(deviceId, conn, descriptor);
      pending, order := pending[id := entry], order + [id];
      minted := minted[id := entry];
      ListsOneMore(old(order), old(minted.Keys), id);
      assert minted.Keys == old(minted.Keys) + {id};
    }

    method MarkAcked(id: Id, conn: Option<ConnId>) returns (accepted: bool)
      requires Valid()
      modifies if id in pending then {pending[id]} else {}
      ensures Valid()
      ensures accepted == (id in old(Contents()) && old(Contents())[id].Acks(conn))
      ensures Contents() == if id in old(Contents()) then old(Contents())[id := old(Contents())[id].MarkAcked(conn)]
          else old(Contents())
    {
      if id !in pending { return false; }
      var entry := pending[id];
      if entry.ack.Done() || (conn.Some? && entry.conn != conn.value) { return false; }
      entry.ack := Value(());
      return true;
    }

    method Resolve(id: Id, payload: Payload, conn: Option<ConnId>) returns (accepted: bool)
      requires Valid()
      modifies this`pending, if id in pending then {pending[id]} else {}
      ensures Valid()
      ensures accepted == (id in old(Contents()) && old(Contents())[id].Takes(conn))
      ensures Contents() == if id in old(Contents())
          then old(Contents())[id := old(Contents())[id].Resolve(payload, conn)] else old(Contents())
    {
      if id !in pending { return false; }
      var entry := pending[id];
      if conn.Some? && entry.conn != conn.value { return false; }
      Take(id, payload);
      return true;
    }

    /** Remove an entry and settle its result. */
    method Take(id: Id, payload: Payload)
      requires Valid() && id in pending
      modifies this`pending, pending[id]
      ensures Valid() && Contents() == old(Contents())[id := old(Contents())[id].Resolve(payload, None)]
    {
      var entry := pending[id];
      pending := pending - {id};
      if !entry.result.Done() {
        entry.result := Value(payload);
      }
      OthersStand(id);
    }

    /** Nothing but the entry of `id` has changed. */
    twostate predicate OnlyTouches(id: Id)
      requires old(Indexed()) && Indexed()
      reads this, minted.Values
    {
      && minted == old(minted)
      && forall other :: other in minted && other != id ==>
           (other in pending <==> other in old(pending)) && minted[other].View(true) == old(minted[other].View(true))
    }

    twostate lemma OthersSame(id: Id)
      requires old(Indexed()) && Indexed() && OnlyTouches(id)
      ensures forall other :: other in minted && other != id ==>
          minted[other].View(other in pending) == old(minted[other].View(other in pending))
    {
      forall other | other in minted && other != id
        ensures minted[other].View(other in pending) == old(minted[other].View(other in pending))
      {
        assert minted[other].View(true) == old(minted[other].View(true));
      }
    }

    twostate lemma OthersStand(id: Id)
      requires old(Indexed()) && Indexed() && OnlyTouches(id) && id in minted
      ensures Contents() == old(Contents())[id := minted[id].View(id in pending)]
    {
    }

    method Expire(id: Id) returns (entry: PendingInvocation?)
      requires Valid()
      modifies this`pending
      ensures Valid()
      ensures entry == if id in old(pending) then old(pending)[id] else null
      ensures Contents() == if id in old(Contents()) then old(Contents())[id := old(Contents())[id].Expire()]
          else old(Contents())
    {
      if id !in pending { return null; }
      entry := pending[id];
      pending := pending - {id};
    }

    /** The table is `start`, except that the first `i` ids have been through the loop. */
    ghost predicate FailedBefore(
      start: map<Id, Slot>, i: nat, device: Option<string>, conn: Option<ConnId>, reason: Reason, both: bool)
      reads this, minted.Values
    {
      && start.Keys == minted.Keys
      && forall k :: 0 <= k < |order| && order[k] in minted ==>
           minted[order[k]].View(order[k] in pending) ==
           if k < i then start[order[k]].FailIf(device, conn, reason, both) else start[order[k]]
    }

    /** Remove and fail one entry, if the filters reach it. */
    method FailOne(id: Id, device: Option<string>, conn: Option<ConnId>, reason: Reason, both: bool) returns (hit: bool)
      requires Indexed() && id in pending
      modifies this`pending, pending[id]
      ensures Indexed() && pending.Keys <= old(pending.Keys)
      ensures hit == old(minted[id].View(true)).Reached(device, conn)
      ensures minted[id].View(id in pending) == old(minted[id].View(true)).FailIf(device, conn, reason, both)
      ensures forall other :: other in minted && other != id ==>
                minted[other].View(other in pending) == old(minted[other].View(other in pending))
    {
      var entry := pending[id];
      hit := (device.None? || entry.deviceId == device.value) && (conn.None? || entry.conn == conn.value);
      if hit {
        pending := pending - {id};
        entry.Fail(reason, both);
      }
      OthersSame(id);
    }

    /** One round of the failing loop, for an id that may be gone already. */
    method FailNext(i: nat, ghost start: map<Id, Slot>,
                    device: Option<string>, conn: Option<ConnId>, reason: Reason, both: bool) returns (hit: bool)
      requires Valid() && i < |order| && FailedBefore(start, i, device, conn, reason, both)
      modifies this`pending, if order[i] in pending then {pending[order[i]]} else {}
      ensures Indexed() && pending.Keys <= old(pending.Keys)
      ensures order[i] in start && hit == start[order[i]].Reached(device, conn)
      ensures FailedBefore(start, i + 1, device, conn, reason, both)
    {
      var id := order[i];
      ListsOnce(order, minted.Keys, i);
      assert minted[id].View(id in pending) == start[id];
      if id in pending {
        hit := FailOne(id, device, conn, reason, both);
      } else {
        hit := false;
      }
    }

    /** The same, with the list of failed ids. */
    method Round(i: nat, ghost start: map<Id, Slot>, before: seq<Id>,
                 device: Option<string>, conn: Option<ConnId>, reason: Reason, both: bool) returns (failed: seq<Id>)
      requires Valid() && i < |order| && FailedBefore(start, i, device, conn, reason, both)
      requires before == ReachedIn(order[..i], start, device, conn)
      modifies this`pending, if order[i] in pending then {pending[order[i]]} else {}
      ensures Indexed() && pending.Keys <= old(pending.Keys)
      ensures FailedBefore(start, i + 1, device, conn, reason, both)
      ensures failed == ReachedIn(order[..i + 1], start, device, conn)
    {
      ReachedNext(order, i, start, device, conn);
      var hit := FailNext(i, start, device, conn, reason, both);
      failed := if hit then before + [order[i]] else before;
    }

    /** The failing loop, over the table's items in their order. */
    method FailEach(ghost start: map<Id, Slot>, device: Option<string>, conn: Option<ConnId>, reason: Reason,
        both: bool)
      returns (failed: seq<Id>)
      requires Valid() && FailedBefore(start, 0, device, conn, reason, both)
      modifies this`pending, pending.Values
      ensures Indexed()
      ensures FailedBefore(start, |order|, device, conn, reason, both)
      ensures failed == ReachedIn(order, start, device, conn)
    {
      failed := [];
      var i := 0;
      while i < |order|
        invariant i <= |order| && Indexed() && pending.Keys <= old(pending.Keys)
        invariant FailedBefore(start, i, device, conn, reason, both)
        invariant failed == ReachedIn(order[..i], start, device, conn)
      {
        assert order[i] in pending ==> pending[order[i]] == old(pending)[order[i]];
        failed := Round(i, start, failed, device, conn, reason, both);
        i := i + 1;
      }
      assert order[..i] == order;
    }

    /** Every entry the filters reach is removed and failed, and listed in the table's order; every
        other one is untouched. */
    method Fail(device: Option<string>, conn: Option<ConnId>, reason: Reason, both: bool) returns (failed: seq<Id>)
      requires Valid()
      modifies this`pending, pending.Values
      ensures Valid() && minted == old(minted)
      ensures Contents() == map id | id in old(Contents()) :: old(Contents())[id].FailIf(device, conn, reason, both)
      ensures failed == ReachedIn(order, old(Contents()), device, conn)
    {
      ghost var start := Contents();
      failed := FailEach(start, device, conn, reason, both);
      ListsExact(order, minted.Keys);
      forall id | id in minted ensures minted[id].View(id in pending) == start[id].FailIf(device, conn, reason, both) {
        var k :| 0 <= k < |order| && order[k] == id;
      }
    }

    /** `fail_all_for_device` */
    method FailAllForDevice(deviceId: string, reason: Reason, both: bool) returns (failed: seq<Id>)
      requires Valid()
      modifies this`pending, pending.Values
      ensures Valid()
      ensures Contents() ==
              map id | id in old(Contents()) :: old(Contents())[id].FailIf(Some(deviceId), None, reason, both)
      ensures failed == ReachedIn(order, old(Contents()), Some(deviceId), None)
      ensures forall id :: id in pending ==> pending[id].deviceId != deviceId
    {
      failed := Fail(Some(deviceId), None, reason, both);
      forall id | id in pending ensures pending[id].deviceId != deviceId {
        assert Contents()[id].live;
      }
    }

    /** `fail_all_for_connection` */
    method FailAllForConnection(conn: ConnId, reason: Reason) returns (failed: seq<Id>)
      requires Valid()
      modifies this`pending, pending.Values
      ensures Valid()
      ensures Contents() == map id | id in old(Contents()) ::
          old(Contents())[id].FailIf(None, Some(conn), reason, false)
      ensures failed == ReachedIn(order, old(Contents()), None, Some(conn))
      ensures forall id :: id in pending ==> pending[id].conn != conn
    {
      failed := Fail(None, Some(conn), reason, false);
      forall id | id in pending ensures pending[id].conn != conn {
        assert Contents()[id].live;
      }
    }
  }

  lemma ReachedNext(order: seq<Id>, i: nat, table: map<Id, Slot>, device: Option<string>, conn: Option<ConnId>)
    requires i < |order|
    ensures ReachedIn(order[..i + 1], table, device, conn) ==
            ReachedIn(order[..i], table, device, conn)
            + if order[i] in table && table[order[i]].Reached(device, conn) then [order[i]] else []
  {
    assert order[..i + 1][..i] == order[..i];
  }

  /** `order` names each of `ids` exactly once. */
  ghost predicate Lists(order: seq<Id>, ids: set<Id>) {
    if order == [] then ids == {}
    else
      var last := order[|order| - 1];
      last in ids && Lists(order[..|order| - 1], ids - {last})
  }

  lemma {:induction false} ListsExact(order: seq<Id>, ids: set<Id>)
    requires Lists(order, ids)
    ensures forall id :: id in ids <==> id in order
    ensures forall i, j :: 0 <= i < j < |order| ==> order[i] != order[j]
  {
    if order != [] {
      var front, last := order[..|order| - 1], order[|order| - 1];
      ListsExact(front, ids - {last});
      assert forall id :: id in order <==> id in front || id == last;
      assert forall i :: 0 <= i < |front| ==> order[i] == front[i] && front[i] in front;
    }
  }

  lemma ListsOnce(order: seq<Id>, ids: set<Id>, i: nat)
    requires Lists(order, ids) && i < |order|
    ensures order[i] in ids && forall k :: 0 <= k < |order| && k != i ==> order[k] != order[i]
  {
    ListsExact(order, ids);
  }

  lemma ListsOneMore(order: seq<Id>, ids: set<Id>, id: Id)
    requires Lists(order, ids) && id !in ids
    ensures Lists(order + [id], ids + {id})
  {
    assert (order + [id])[..|order|] == order && ids + {id} - {id} == ids;
  }

  /** The ids of `order` the filters reach, in that order. */
  function ReachedIn(order: seq<Id>, table: map<Id, Slot>, device: Option<string>, conn: Option<ConnId>): seq<Id> {
    if order == [] then []
    else
      var id := order[|order| - 1];
      ReachedIn(order[..|order| - 1], table, device, conn)
      + (if id in table && table[id].Reached(device, conn) then [id] else [])
  }
}
