/** The byte strings that get signed, and why a signature over one of them says nothing else
    (`hdp_bridge/device_keys.py`, `enrollment.py`).  Bytes are written as characters. */
module SignedBytes {
  import opened Basics
  import Bootstrap
  import opened Handshake

  const PAIR_CHALLENGE := "HDP/0 pair-challenge\0"
  const AUTH_CHALLENGE := "HDP/0 auth-challenge\0"
  const SENTINEL_DECISION := "HDP/0 sentinel-approval-decision\0"

  datatype Decision = Approve | Deny | Block

  function ContextBytes(c: Context): string {
    match c case PairContext => PAIR_CHALLENGE case AuthContext => AUTH_CHALLENGE
  }

  /** What a proof signs: the context, then the raw nonce. */
  function ChallengeBytes(c: Context, nonce: string): string { ContextBytes(c) + nonce }

  function Word(d: Decision): string {
    match d case Approve => "approve" case Deny => "deny" case Block => "block"
  }

  function Digits(n: nat): string {
    if n < 10 then [(n as char) + '0'] else Digits(n / 10) + [((n % 10) as char) + '0']
  }

  /** `str(n)` */
  function Decimal(n: int): string { if n < 0 then "-" + Digits(-n) else Digits(n) }

  /** What the primary device signs. */
  function DecisionBytes(id: string, d: Decision, expiresAt: int): string {
    SENTINEL_DECISION + (id + "\n" + Word(d) + "\n" + Decimal(expiresAt))
  }

  // ---- The format on the wire --------------------------------------------------------------------------

  /** The number a string of decimal digits stands for. */
  function Reading(digits: string): int {
    if digits == "" then 0 else Reading(digits[..|digits| - 1]) * 10 + (digits[|digits| - 1] as int - '0' as int)
  }

  lemma {:induction false} DigitsRead(n: nat)
    ensures Reading(Digits(n)) == n
  {
    if n >= 10 {
      DigitsRead(n / 10);
      assert Digits(n)[..|Digits(n)| - 1] == Digits(n / 10);
    }
  }

  lemma DecimalReads(at: int)
    ensures at >= 0 ==> Reading(Decimal(at)) == at
    ensures at < 0 ==> Decimal(at) != "" && Decimal(at)[0] == '-' && Reading(Decimal(at)[1..]) == -at
  {
    DigitsRead(if at < 0 then -at else at);
    assert at < 0 ==> Decimal(at)[1..] == Digits(-at);
  }

  /** Each message, byte for byte, as the other side must sign it. */
  lemma WireFormat(id: string, d: Decision, at: int, c: Context, nonce: string)
    ensures
      var word := match d case Approve => "approve" case Deny => "deny" case Block => "block";
      DecisionBytes(id, d, at) == "HDP/0 sentinel-approval-decision\0" + (id + "\n" + word + "\n" + Decimal(at))
    ensures ChallengeBytes(c, nonce) ==
              (if c == PairContext then "HDP/0 pair-challenge\0" else "HDP/0 auth-challenge\0") + nonce
    ensures at >= 0 ==> Reading(Decimal(at)) == at
    ensures at < 0 ==> Decimal(at) != "" && Decimal(at)[0] == '-' && Reading(Decimal(at)[1..]) == -at
  {
    DecimalReads(at);
  }

  // ---- One meaning each ------------------------------------------------------------------------------

  lemma {:induction false} DigitsOnly(n: nat)
    ensures Digits(n) != "" && forall c :: c in Digits(n) ==> '0' <= c <= '9'
  {
    if n >= 10 { DigitsOnly(n / 10); }
  }

  lemma {:induction false} DigitsInjective(m: nat, n: nat)
    requires Digits(m) == Digits(n)
    ensures m == n
  {
    var s := Digits(m);
    assert s[|s| - 1] == ((m % 10) as char) + '0' == ((n % 10) as char) + '0';
    assert m % 10 == n % 10;
    if m >= 10 { DigitsOnly(m / 10); }
    if n >= 10 { DigitsOnly(n / 10); }
    if m >= 10 && n >= 10 {
      assert Digits(m / 10) == s[..|s| - 1] == Digits(n / 10);
      DigitsInjective(m / 10, n / 10);
    }
  }

  lemma SignShows(n: int)
    ensures Decimal(n) != "" && (Decimal(n)[0] == '-' <==> n < 0)
  {
    DigitsOnly(if n < 0 then -n else n);
    assert n >= 0 ==> Decimal(n)[0] in Digits(n);
  }

  lemma DecimalInjective(m: int, n: int)
    requires Decimal(m) == Decimal(n)
    ensures m == n
  {
    SignShows(m);
    SignShows(n);
    if m < 0 && n < 0 {
      assert Digits(-m) == Decimal(m)[1..] == Decimal(n)[1..] == Digits(-n);
      DigitsInjective(-m, -n);
    } else if m >= 0 && n >= 0 {
      DigitsInjective(m, n);
    }
  }

  lemma LineFeedInside(a: string, x: string, b: string, y: string)
    requires a + "\n" + x == b + "\n" + y && |x| < |y|
    ensures '\n' in y
  {
    var s := a + "\n" + x;
    assert s[|a|] == '\n';
    assert y[|a| - |b| - 1] == (b + "\n" + y)[|a|];
  }

  /** Split at the last line feed. */
  lemma LastLine(a: string, x: string, b: string, y: string)
    requires a + "\n" + x == b + "\n" + y && '\n' !in x && '\n' !in y
    ensures a == b && x == y
  {
    if |x| < |y| { LineFeedInside(a, x, b, y); }
    if |y| < |x| { LineFeedInside(b, y, a, x); }
    var s := a + "\n" + x;
    assert a == s[..|a|] && b == s[..|b|];
    assert x == s[|s| - |x|..] && y == s[|s| - |y|..];
  }

  lemma DecimalIsOneLine(n: int)
    ensures '\n' !in Decimal(n)
  {
    DigitsOnly(if n < 0 then -n else n);
  }

  /** The signed bytes determine identifier, decision and expiry, whatever the identifier contains:
      an approval is never a denial, and never one of another enrollment or deadline. */
  lemma DecisionBytesInjective(id: string, d: Decision, at: int, id': string, d': Decision, at': int)
    requires DecisionBytes(id, d, at) == DecisionBytes(id', d', at')
    ensures id == id' && d == d' && at == at'
  {
    var all, all' := id + "\n" + Word(d) + "\n" + Decimal(at), id' + "\n" + Word(d') + "\n" + Decimal(at');
    assert all == DecisionBytes(id, d, at)[|SENTINEL_DECISION|..] == all';
    DecimalIsOneLine(at);
    DecimalIsOneLine(at');
    LastLine(id + "\n" + Word(d), Decimal(at), id' + "\n" + Word(d'), Decimal(at'));
    LastLine(id, Word(d), id', Word(d'));
    DecimalInjective(at, at');
    assert Word(d)[0] == Word(d')[0];
  }

  /** So do the candidate's: fingerprints are hexadecimal and keys base64, so they hold no line feed. */
  lemma CandidateBytesInjective(id: string, host: string, key: string, id': string, host': string, key': string)
    requires Bootstrap.CandidateBytes(id, host, key) == Bootstrap.CandidateBytes(id', host', key')
    requires '\n' !in host && '\n' !in host' && '\n' !in key && '\n' !in key'
    ensures (id, host, key) == (id', host', key')
  {
    var prefix := "HDP/0 usb-candidate-approval\0";
    var all, all' := id + "\n" + host + "\n" + key, id' + "\n" + host' + "\n" + key';
    assert all == Bootstrap.CandidateBytes(id, host, key)[|prefix|..];
    assert all' == Bootstrap.CandidateBytes(id', host', key')[|prefix|..];
    LastLine(id + "\n" + host, key, id' + "\n" + host', key');
    LastLine(id, host, id', host');
  }

  /** A signature over one kind of bytes is over no other kind: not an enrolling proof for a
      reconnecting one, whatever the nonces, nor a decision for either. */
  lemma DomainsSeparate(nonce: string, nonce': string, id: string, d: Decision, at: int, c: Context)
    ensures ChallengeBytes(PairContext, nonce) != ChallengeBytes(AuthContext, nonce')
    ensures ChallengeBytes(c, nonce) != DecisionBytes(id, d, at)
    ensures Bootstrap.CandidateBytes(id, nonce, nonce') !in {ChallengeBytes(c, nonce), DecisionBytes(id, d, at)}
  {
    assert Bootstrap.CandidateBytes(id, nonce, nonce')[6] == 'u';
    assert ChallengeBytes(PairContext, nonce)[6] == 'p' && ChallengeBytes(AuthContext, nonce')[6] == 'a';
    assert ChallengeBytes(c, nonce)[6] in {'p', 'a'} && DecisionBytes(id, d, at)[6] == 's';
  }

  lemma ChallengeBytesInjective(c: Context, nonce: string, c': Context, nonce': string)
    requires ChallengeBytes(c, nonce) == ChallengeBytes(c', nonce')
    ensures c == c' && nonce == nonce'
  {
    if c != c' {
      DomainsSeparate(nonce, nonce', "", Approve, 0, c);
      DomainsSeparate(nonce', nonce, "", Approve, 0, c);
    }
    assert nonce == ChallengeBytes(c, nonce)[|ContextBytes(c)|..];
    assert nonce' == ChallengeBytes(c', nonce')[|ContextBytes(c')|..];
  }

  // ---- All that a device key signs -----------------------------------------------------------------------

  /** The holder of a device key proves possession, consents to an enrollment as its candidate, and
      decides about others' as the primary: three kinds of message under one key. */
  datatype Signable =
    | ProofOf(context: Context, nonce: string)
    | DecisionOf(id: string, decision: Decision, expiresAt: int)
    | ConsentOf(id: string, host: string, key: string)

  function Bytes(m: Signable): string {
    match m
    case ProofOf(context, nonce) => ChallengeBytes(context, nonce)
    case DecisionOf(id, decision, expiresAt) => DecisionBytes(id, decision, expiresAt)
    case ConsentOf(id, host, key) => Bootstrap.CandidateBytes(id, host, key)
  }

  /** Fingerprints are hexadecimal and keys base64. */
  predicate OneLine(m: Signable) { m.ConsentOf? ==> '\n' !in m.host && '\n' !in m.key }

  /** What was signed tells the message. */
  lemma BytesInjective(m: Signable, n: Signable)
    requires Bytes(m) == Bytes(n) && (m.ConsentOf? && n.ConsentOf? ==> OneLine(m) && OneLine(n))
    ensures m == n
  {
    KindsSeparate(m, n);
    match m
    case ProofOf(context, nonce) => ChallengeBytesInjective(context, nonce, n.context, n.nonce);
    case DecisionOf(id, decision, at) => DecisionBytesInjective(id, decision, at, n.id, n.decision, n.expiresAt);
    case ConsentOf(id, host, key) => CandidateBytesInjective(id, host, key, n.id, n.host, n.key);
  }

  function Kind(m: Signable): nat { if m.ProofOf? then 0 else if m.DecisionOf? then 1 else 2 }

  lemma KindsSeparate(m: Signable, n: Signable)
    requires Bytes(m) == Bytes(n)
    ensures Kind(m) == Kind(n)
  {
    KindShows(m);
    KindShows(n);
  }

  lemma KindShows(m: Signable)
    ensures |Bytes(m)| > 6
    ensures Kind(m) == if Bytes(m)[6] == 's' then 1 else if Bytes(m)[6] == 'u' then 2 else 0
  {
  }

  /** Unforgeability, for one key: all that verifies under it are messages its holder signed. */
  ghost predicate HeldBy(verify: (string, string, string) -> bool, key: string, signed: set<Signable>) {
    forall payload, signature :: verify(key, payload, signature) ==> Spoken(signed, payload)
  }

  ghost predicate Spoken(signed: set<Signable>, payload: string) {
    exists own :: own in signed && payload == Bytes(own)
  }
}
