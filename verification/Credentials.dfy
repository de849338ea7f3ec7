/** Device credentials (`hdp_bridge/credentials.py`): issued once, found by a scan over the live
    rows, revoked all together.  Hashing is taken to be injective. */
module Credentials {
  import opened Basics

  datatype Credential = Credential(device: string, secret: string, issuedAt: int, revokedAt: Option<int>)

  predicate Live(c: Credential) { c.revokedAt.None? }

  /** The device of the first live row that matches. */
  function Resolve(rows: seq<Credential>, presented: string): Option<string> {
    if rows == [] then None
    else if Live(rows[0]) && rows[0].secret == presented then Some(rows[0].device)
    else Resolve(rows[1..], presented)
  }

  function RevokeRow(c: Credential, device: string, now: int): Credential {
    if c.device == device && Live(c) then c.(revokedAt := Some(now)) else c
  }

  function Revoked(rows: seq<Credential>, device: string, now: int): seq<Credential> {
    seq(|rows|, i requires 0 <= i < |rows| => RevokeRow(rows[i], device, now))
  }

  /** The secrets are 256 random bits: no two rows share one. */
  ghost predicate Distinct(rows: seq<Credential>) {
    forall i, j :: 0 <= i < j < |rows| ==> rows[i].secret != rows[j].secret
  }

  class CredentialTable {
    var rows: seq<Credential>

    constructor ()
      ensures rows == []
    {
      rows := [];
    }

    method Issue(device: string, secret: string, now: int)
      modifies this
      ensures rows == old(rows) + [Credential(device, secret, now, None)]
    {
      rows := rows + [Credential(device, secret, now, None)];
    }

    method VerifyAndResolve(presented: string) returns (device: Option<string>)
      ensures device == Resolve(rows, presented)
    {
      for i := 0 to |rows|
        invariant Resolve(rows, presented) == Resolve(rows[i..], presented)
      {
        if rows[i].revokedAt.None? && rows[i].secret == presented { return Some(rows[i].device); }
      }
      return None;
    }

    /** Returns how many live credentials this call invalidated: zero exactly when it did nothing. */
    method Revoke(device: string, now: int) returns (affected: nat)
      modifies this
      ensures rows == Revoked(old(rows), device, now)
      ensures affected == |set i | 0 <= i < |rows| && rows[i] != old(rows)[i]|
      ensures affected == 0 <==> rows == old(rows)
    {
      ghost var before := rows;
      ghost var changed: set<int> := {};
      affected := 0;
      for i := 0 to |rows|
        invariant |rows| == |before|
        invariant forall k :: 0 <= k < |rows| ==>
            rows[k] == if k < i then RevokeRow(before[k], device, now) else before[k]
        invariant changed == set k | 0 <= k < i && rows[k] != before[k]
        invariant affected == |changed|
      {
        if rows[i].device == device && rows[i].revokedAt.None? {
          rows := rows[i := rows[i].(revokedAt := Some(now))];
          changed := changed + {i};
          affected := affected + 1;
        }
      }
      assert changed == set i | 0 <= i < |rows| && rows[i] != before[i];
      if affected != 0 {
        ghost var i :| i in changed;
        assert rows[i] != before[i];
      } else {
        assert forall k :: 0 <= k < |rows| && rows[k] != before[k] ==> k in changed;
        assert rows == before;
      }
    }
  }

  /** A presented secret resolves to a device exactly when a live row of that device holds it. */
  lemma {:induction false} ResolveExact(rows: seq<Credential>, presented: string)
    requires Distinct(rows)
    ensures forall device :: Resolve(rows, presented) == Some(device) <==>
              exists i :: 0 <= i < |rows| && Live(rows[i]) && rows[i].secret == presented && rows[i].device == device
  {
    if rows != [] {
      ResolveExact(rows[1..], presented);
      assert forall i :: 0 < i < |rows| ==> rows[i] == rows[1..][i - 1];
      assert forall i :: 0 <= i < |rows[1..]| ==> rows[1..][i] == rows[i + 1];
    }
  }

  /** After a revocation no secret resolves to the device, and every other device's still do. */
  lemma {:induction false} RevocationExact(rows: seq<Credential>, device: string, now: int, presented: string)
    requires Distinct(rows)
    ensures Resolve(Revoked(rows, device, now), presented) ==
            if Resolve(rows, presented) == Some(device) then None else Resolve(rows, presented)
  {
    if rows != [] {
      RevocationExact(rows[1..], device, now, presented);
      assert Revoked(rows, device, now)[1..] == Revoked(rows[1..], device, now);
      ResolveExact(rows[1..], presented);
      assert forall i :: 0 <= i < |rows[1..]| ==> rows[1..][i] == rows[i + 1];
    }
  }

  /** An issued secret resolves to its device, and changes nothing for the others. */
  lemma {:induction false} IssueResolves(rows: seq<Credential>, issued: Credential, presented: string)
    requires Distinct(rows + [issued]) && Live(issued)
    ensures Resolve(rows + [issued], presented) == if presented == issued.secret then Some(issued.device)
        else Resolve(rows, presented)
  {
    if rows != [] {
      assert (rows + [issued])[1..] == rows[1..] + [issued];
      IssueResolves(rows[1..], issued, presented);
      assert (rows + [issued])[0].secret != (rows + [issued])[|rows|].secret;
    }
  }
}
