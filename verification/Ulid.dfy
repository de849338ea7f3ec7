/** The ULID codec and minting (`hdp-spec/hdp_proto/ids.py`).  A shift or mask of a non-negative
    integer is written as the division or remainder it is. */
module Ulid {
  import opened Basics
  import Text

  const ALPHABET := "0123456789ABCDEFGHJKMNPQRSTVWXYZ"
  const TIME_RANGE: nat := 0x1_0000_0000_0000
  const RANDOM_RANGE: nat := 0x1_0000_0000_0000_0000_0000

  datatype UlidError = BadLength | BadCharacter | TimeOutOfRange

  // ---- The codec as functions ------------------------------------------------------------------

  function Encode(value: nat, length: nat): (text: string)
    ensures |text| == length
  {
    if length == 0 then "" else Encode(value / 32, length - 1) + [ALPHABET[value % 32]]
  }

  /** `str.upper` of one character, as far as the alphabet can tell: besides the ASCII letters, five
      characters have an upper-case form made of alphabet characters only. */
  function UpperChar(c: char): (u: string)
    ensures 1 <= |u| <= 2
  {
    if 'a' <= c <= 'z' then [c - 'a' + 'A']
    else if c == '\U{00DF}' then "SS"
    else if c == '\U{017F}' then "S"
    else if c == '\U{FB00}' then "FF"
    else if c in {'\U{FB05}', '\U{FB06}'} then "ST"
    else [c]
  }

  function Upper(text: string): string {
    if text == "" then "" else UpperChar(text[0]) + Upper(text[1..])
  }

  function IndexFrom(c: char, i: nat): Option<nat>
    requires i <= |ALPHABET|
    decreases |ALPHABET| - i
  {
    if i == |ALPHABET| then None else if ALPHABET[i] == c then Some(i) else IndexFrom(c, i + 1)
  }

  function DigitOf(c: char): Option<nat> { IndexFrom(c, 0) }

  /** The number a text already in upper case denotes. */
  function Number(text: string): Option<nat> {
    if text == "" then Some(0)
    else
      var high := Number(text[..|text| - 1]);
      var digit := DigitOf(text[|text| - 1]);
      if high.Some? && digit.Some? then Some(high.value * 32 + digit.value) else None
  }

  function Format(time: nat, random: nat): (text: string)
    ensures |text| == 26
  {
    Encode(time, 10) + Encode(random, 16)
  }

  function Parse(text: string): Result<(nat, nat), UlidError> {
    if |text| != 26 then Err(BadLength)
    else
      var time := Number(Upper(text[..10]));
      if time.None? then Err(BadCharacter)
      else if time.value >= TIME_RANGE then Err(TimeOutOfRange)
      else
        var random := Number(Upper(text[10..]));
        if random.None? then Err(BadCharacter) else Ok((time.value, random.value))
  }

  // ---- The code --------------------------------------------------------------------------------

  method EncodeCrockford(value: nat, length: nat) returns (text: string)
    ensures text == Encode(value, length)
  {
    var chars := new char[length](_ => '0');
    var rest := value;
    for i := length downto 0
      invariant Encode(value, length) == Encode(rest, i) + chars[i..]
    {
      ghost var done := chars[i + 1..];
      chars[i] := ALPHABET[rest % 32];
      assert chars[i..] == [ALPHABET[rest % 32]] + done;
      rest := rest / 32;
    }
    assert chars[0..] == chars[..];
    text := chars[..];
  }

  method DecodeCrockford(text: string) returns (r: Result<nat, UlidError>)
    ensures r == if Number(Upper(text)).Some? then Ok(Number(Upper(text)).value) else Err(BadCharacter)
  {
    var upper := Upper(text);
    var value: nat := 0;
    for i := 0 to |upper|
      invariant Number(upper[..i]) == Some(value)
    {
      assert upper[..i + 1][..i] == upper[..i] && upper[..i + 1][i] == upper[i];
      var digit := DigitOf(upper[i]);
      if digit.None? {
        NoNumber(upper, i + 1);
        return Err(BadCharacter);
      }
      value := value * 32 + digit.value;
    }
    assert upper[..|upper|] == upper;
    return Ok(value);
  }

  method ParseUlid(text: string) returns (r: Result<(nat, nat), UlidError>)
    ensures r == Parse(text)
  {
    if |text| != 26 { return Err(BadLength); }
    var time := DecodeCrockford(text[..10]);
    if time.Err? { return Err(time.error); }
    if time.value >= TIME_RANGE { return Err(TimeOutOfRange); }
    var random := DecodeCrockford(text[10..]);
    if random.Err? { return Err(random.error); }
    return Ok((time.value, random.value));
  }

  /** The last minted pair, and the pair minted next: bumped and masked while the clock has not moved
      on, drawn afresh otherwise. */
  function Next(last: Option<(nat, nat)>, now: nat, entropy: nat): (nat, nat) {
    if last.Some? && now <= last.value.0 then (last.value.0, (last.value.1 + 1) % RANDOM_RANGE)
    else (now, entropy % RANDOM_RANGE)
  }

  class Minter {
    var last: Option<(nat, nat)>

    constructor ()
      ensures last == None
    {
      last := None;
    }

    method New(now: nat, entropy: nat) returns (text: string)
      modifies this
      ensures last == Some(Next(old(last), now, entropy))
      ensures text == Format(last.value.0, last.value.1)
    {
      var time, random := now, entropy % RANDOM_RANGE;
      if last.Some? && now <= last.value.0 {
        time := last.value.0;
        random := (last.value.1 + 1) % RANDOM_RANGE;
      }
      last := Some((time, random));
      var high := EncodeCrockford(time, 10);
      var low := EncodeCrockford(random, 16);
      text := high + low;
    }
  }

  // ---- The alphabet ---------------------------------------------------------------------------------

  lemma AlphabetSteps(i: nat)
    requires i + 1 < |ALPHABET|
    ensures ALPHABET[i] < ALPHABET[i + 1]
  {
  }

  lemma {:induction false} AlphabetSorted(i: nat, j: nat)
    requires i < j < |ALPHABET|
    ensures ALPHABET[i] < ALPHABET[j]
  {
    AlphabetSteps(j - 1);
    if i < j - 1 { AlphabetSorted(i, j - 1); }
  }

  lemma {:induction false} IndexFinds(c: char, i: nat)
    requires i <= |ALPHABET|
    ensures IndexFrom(c, i).Some? ==> i <= IndexFrom(c, i).value < |ALPHABET| && ALPHABET[IndexFrom(c, i).value] == c
    ensures IndexFrom(c, i).None? ==> forall k :: i <= k < |ALPHABET| ==> ALPHABET[k] != c
    decreases |ALPHABET| - i
  {
    if i < |ALPHABET| { IndexFinds(c, i + 1); }
  }

  /** The digits and the upper-case letters, but for the four that are easily misread. */
  lemma AlphabetExactly(c: char)
    ensures c in ALPHABET <==> ('0' <= c <= '9' || 'A' <= c <= 'Z') && c !in {'I', 'L', 'O', 'U'}
  {
    IndexFinds(c, 0);
    var found := DigitOf(c);
    if found.Some? { assert ALPHABET[found.value] == c; }
  }

  /** Digits and alphabet characters correspond one to one. */
  lemma DigitsExact(c: char, d: nat)
    requires d < 32
    ensures DigitOf(c) == Some(d) <==> c == ALPHABET[d]
  {
    IndexFinds(c, 0);
    var found := DigitOf(c);
    if found.Some? && c == ALPHABET[d] && found.value != d {
      if found.value < d { AlphabetSorted(found.value, d); } else { AlphabetSorted(d, found.value); }
    }
  }

  // ---- Round trips -----------------------------------------------------------------------------------

  function Pow32(n: nat): (p: nat)
    ensures p >= 1
  {
    if n == 0 then 1 else 32 * Pow32(n - 1)
  }

  lemma Widths()
    ensures Pow32(10) == 4 * TIME_RANGE && Pow32(16) == RANDOM_RANGE
  {
    assert Pow32(4) == 0x10_0000;
    assert Pow32(8) == 0x100_0000_0000;
    assert Pow32(10) == 0x4_0000_0000_0000;
    assert Pow32(12) == 0x1000_0000_0000_0000;
    assert Pow32(16) == RANDOM_RANGE;
  }

  lemma {:induction false} NoNumber(text: string, n: nat)
    requires n <= |text| && Number(text[..n]).None?
    ensures Number(text).None?
    decreases |text| - n
  {
    if n == |text| {
      assert text[..n] == text;
    } else {
      assert text[..n + 1][..n] == text[..n];
      NoNumber(text, n + 1);
    }
  }

  lemma {:induction false} NumberOfEncoded(value: nat, length: nat)
    requires value < Pow32(length)
    ensures Number(Encode(value, length)) == Some(value)
  {
    if length > 0 {
      NumberOfEncoded(value / 32, length - 1);
      DigitsExact(ALPHABET[value % 32], value % 32);
      var text := Encode(value, length);
      assert text[..|text| - 1] == Encode(value / 32, length - 1);
    }
  }

  lemma {:induction false} EncodedNumber(text: string)
    requires Number(text).Some?
    ensures Number(text).value < Pow32(|text|) && Encode(Number(text).value, |text|) == text
    decreases |text|
  {
    if text != "" {
      var high, c := text[..|text| - 1], text[|text| - 1];
      EncodedNumber(high);
      IndexFinds(c, 0);
      var d := DigitOf(c).value;
      var value := Number(text).value;
      assert value == Number(high).value * 32 + d;
      assert value / 32 == Number(high).value && value % 32 == d;
      assert text == high + [c];
    }
  }

  lemma {:induction false} UpperOfEncoded(value: nat, length: nat)
    ensures Upper(Encode(value, length)) == Encode(value, length)
  {
    if length > 0 {
      UpperOfEncoded(value / 32, length - 1);
      UpperAppend(Encode(value / 32, length - 1), [ALPHABET[value % 32]]);
      var c := ALPHABET[value % 32];
      if value % 32 < 31 { AlphabetSorted(value % 32, 31); }
      assert UpperChar(c) == [c];
      assert Upper([c]) == [c];
    }
  }

  lemma {:induction false} UpperAppend(a: string, b: string)
    ensures Upper(a + b) == Upper(a) + Upper(b)
    decreases |a|
  {
    if a == "" {
      assert a + b == b;
    } else {
      UpperAppend(a[1..], b);
      assert (a + b)[0] == a[0] && (a + b)[1..] == a[1..] + b;
    }
  }

  lemma {:induction false} UpperGrows(text: string)
    ensures |Upper(text)| >= |text|
    ensures |Upper(text)| == |text| <==> forall i :: 0 <= i < |text| ==> |UpperChar(text[i])| == 1
  {
    if text != "" {
      UpperGrows(text[1..]);
      assert text == [text[0]] + text[1..];
      if |Upper(text)| == |text| {
        assert forall i :: 0 < i < |text| ==> text[i] == text[1..][i - 1];
      }
    }
  }

  /** Formatting then parsing gives the pair back, precisely for 48-bit times; for anything that fits
      ten characters parsing otherwise refuses. */
  lemma ParseOfFormat(time: nat, random: nat)
    requires time < Pow32(10) && random < RANDOM_RANGE
    ensures Parse(Format(time, random)) == if time < TIME_RANGE then Ok((time, random)) else Err(TimeOutOfRange)
  {
    Widths();
    var text := Format(time, random);
    assert text[..10] == Encode(time, 10) && text[10..] == Encode(random, 16);
    UpperOfEncoded(time, 10);
    UpperOfEncoded(random, 16);
    NumberOfEncoded(time, 10);
    NumberOfEncoded(random, 16);
  }

  function LowerCase(text: string): string {
    if text == "" then ""
    else [if 'A' <= text[0] <= 'Z' then text[0] - 'A' + 'a' else text[0]] + LowerCase(text[1..])
  }

  lemma {:induction false} LowerAppend(a: string, b: string)
    ensures LowerCase(a + b) == LowerCase(a) + LowerCase(b) && |LowerCase(a)| == |a|
    decreases |a|
  {
    if a == "" {
      assert a + b == b;
    } else {
      LowerAppend(a[1..], b);
      assert (a + b)[0] == a[0] && (a + b)[1..] == a[1..] + b;
    }
  }

  predicate Plain(c: char) { '0' <= c <= '9' || 'A' <= c <= 'Z' }

  lemma DigitIsPlain(value: nat)
    ensures Plain(ALPHABET[value % 32])
  {
    AlphabetExactly(ALPHABET[value % 32]);
  }

  lemma LowerOne(c: char)
    requires Plain(c)
    ensures Upper(LowerCase([c])) == [c]
  {
    var d := if 'A' <= c <= 'Z' then c - 'A' + 'a' else c;
    assert LowerCase([c]) == [d];
    assert UpperChar(d) == [c];
    assert Upper([d]) == UpperChar(d) + Upper([d][1..]);
  }

  lemma {:induction false} UpperOfLower(value: nat, length: nat)
    ensures Upper(LowerCase(Encode(value, length))) == Encode(value, length)
  {
    if length > 0 {
      UpperOfLower(value / 32, length - 1);
      DigitIsPlain(value);
      LowerOneMore(Encode(value / 32, length - 1), ALPHABET[value % 32]);
    }
  }

  lemma LowerOneMore(text: string, c: char)
    requires Upper(LowerCase(text)) == text && Plain(c)
    ensures Upper(LowerCase(text + [c])) == text + [c]
  {
    LowerAppend(text, [c]);
    UpperAppend(LowerCase(text), LowerCase([c]));
    LowerOne(c);
  }

  /** A text in lower case is read all the same. */
  lemma ParseOfLowerCase(time: nat, random: nat)
    requires time < TIME_RANGE && random < RANDOM_RANGE
    ensures Parse(LowerCase(Format(time, random))) == Ok((time, random))
  {
    Widths();
    var high, low := Encode(time, 10), Encode(random, 16);
    LowerAppend(high, low);
    LowerAppend(low, "");
    assert low + "" == low;
    var text := LowerCase(Format(time, random));
    assert text[..10] == LowerCase(high) && text[10..] == LowerCase(low);
    UpperOfLower(time, 10);
    UpperOfLower(random, 16);
    NumberOfEncoded(time, 10);
    NumberOfEncoded(random, 16);
  }

  /** Parsing then formatting gives the upper-cased text back exactly when upper-casing expands no
      character, and the random part then has 80 bits. */
  lemma FormatOfParse(text: string)
    requires Parse(text).Ok?
    ensures
      var (time, random) := Parse(text).value;
      && time < TIME_RANGE
      && (Format(time, random) == Upper(text) <==> forall i :: 0 <= i < |text| ==> |UpperChar(text[i])| == 1)
      && (Format(time, random) == Upper(text) ==> random < RANDOM_RANGE)
  {
    Widths();
    var high, low := text[..10], text[10..];
    assert text == high + low;
    UpperAppend(high, low);
    UpperGrows(text);
    UpperGrows(high);
    UpperGrows(low);
    EncodedNumber(Upper(high));
    EncodedNumber(Upper(low));
  }

  predicate Ascii(c: char) { c < '\U{0080}' }

  lemma AsciiKeepsWidth(c: char)
    requires Ascii(c)
    ensures |UpperChar(c)| == 1
  {
  }

  /** In particular for every ASCII text. */
  lemma FormatOfAscii(text: string)
    requires Parse(text).Ok? && forall c :: c in text ==> Ascii(c)
    ensures Format(Parse(text).value.0, Parse(text).value.1) == Upper(text)
  {
    forall i | 0 <= i < |text| ensures |UpperChar(text[i])| == 1 {
      AsciiKeepsWidth(text[i]);
    }
    FormatOfParse(text);
  }

  /** Upper-casing a sharp s gives two digits, so a 26-character text with one in it can be accepted
      and yet need more than 80 bits for its random part. */
  lemma SharpSOverflows(high: string, low: string)
    requires high == seq(10, _ => '0') && low == ['\U{00DF}'] + seq(15, _ => '0')
    ensures Parse(high + low).Ok? && Parse(high + low).value.1 >= RANDOM_RANGE
    ensures Format(Parse(high + low).value.0, Parse(high + low).value.1) != Upper(high + low)
  {
    Zeros(10);
    SharpSLow(low);
    var text := high + low;
    assert text[..10] == high && text[10..] == low;
    UpperAppend(high, low);
  }

  lemma SharpSLow(low: string)
    requires low == ['\U{00DF}'] + seq(15, _ => '0')
    ensures |Upper(low)| == 17 && Number(Upper(low)).Some? && Number(Upper(low)).value >= RANDOM_RANGE
  {
    Zeros(15);
    assert low[1..] == seq(15, _ => '0');
    assert Upper(low) == "SS" + seq(15, _ => '0');
    Seventeen("SS" + seq(15, _ => '0'));
  }

  lemma Seventeen(upper: string)
    requires |upper| == 17 && upper[0] == 'S' && forall i :: 0 <= i < 17 ==> upper[i] == '0' || upper[i] == 'S'
    ensures Number(upper).Some? && Number(upper).value >= RANDOM_RANGE
  {
    AllDigits(upper);
    LeadingDigit(upper);
    Widths();
  }

  lemma {:induction false} Zeros(n: nat)
    ensures Upper(seq(n, _ => '0')) == seq(n, _ => '0') && Number(seq(n, _ => '0')) == Some(0)
  {
    var zeros := seq(n, _ => '0');
    if n > 0 {
      Zeros(n - 1);
      assert zeros[1..] == seq(n - 1, _ => '0') == zeros[..n - 1];
      assert ['0'] + zeros[1..] == zeros;
      DigitsExact('0', 0);
    }
  }

  lemma {:induction false} AllDigits(text: string)
    requires forall i :: 0 <= i < |text| ==> text[i] in {'0', 'S'}
    ensures Number(text).Some?
    decreases |text|
  {
    if text != "" {
      AllDigits(text[..|text| - 1]);
      DigitsExact('0', 0);
      DigitsExact('S', 25);
    }
  }

  lemma {:induction false} LeadingDigit(text: string)
    requires Number(text).Some? && text != "" && text[0] != '0'
    ensures Number(text).value >= Pow32(|text| - 1)
    decreases |text|
  {
    if |text| == 1 {
      IndexFinds(text[0], 0);
      assert text[..0] == "";
    } else {
      LeadingDigit(text[..|text| - 1]);
    }
  }

  // ---- Order -----------------------------------------------------------------------------------------

  lemma {:induction false} LessAppend(a: string, b: string, c: string, d: string)
    requires |a| == |b|
    ensures Text.Less(a + c, b + d) <==> Text.Less(a, b) || (a == b && Text.Less(c, d))
    decreases |a|
  {
    if a == "" {
      assert a + c == c && b + d == d;
    } else {
      assert (a + c)[1..] == a[1..] + c && (b + d)[1..] == b[1..] + d;
      LessAppend(a[1..], b[1..], c, d);
      assert a == [a[0]] + a[1..] && b == [b[0]] + b[1..];
    }
  }

  lemma {:induction false} EncodeOrder(v: nat, w: nat, length: nat)
    requires v < Pow32(length) && w < Pow32(length)
    ensures Text.Less(Encode(v, length), Encode(w, length)) <==> v < w
    ensures Encode(v, length) == Encode(w, length) <==> v == w
  {
    NumberOfEncoded(v, length);
    NumberOfEncoded(w, length);
    if length > 0 {
      EncodeOrder(v / 32, w / 32, length - 1);
      var c, d := ALPHABET[v % 32], ALPHABET[w % 32];
      LessAppend(Encode(v / 32, length - 1), Encode(w / 32, length - 1), [c], [d]);
      DigitOrder(v % 32, w % 32);
    }
  }

  lemma DigitOrder(i: nat, j: nat)
    requires i < 32 && j < 32
    ensures Text.Less([ALPHABET[i]], [ALPHABET[j]]) <==> i < j
    ensures ALPHABET[i] == ALPHABET[j] <==> i == j
  {
    if i < j { AlphabetSorted(i, j); }
    if j < i { AlphabetSorted(j, i); }
  }

  predicate PairLess(a: (nat, nat), b: (nat, nat)) { a.0 < b.0 || (a.0 == b.0 && a.1 < b.1) }

  /** String order is numeric order. */
  lemma FormatOrder(a: (nat, nat), b: (nat, nat))
    requires a.0 < Pow32(10) && b.0 < Pow32(10) && a.1 < RANDOM_RANGE && b.1 < RANDOM_RANGE
    ensures Text.Less(Format(a.0, a.1), Format(b.0, b.1)) <==> PairLess(a, b)
  {
    Widths();
    EncodeOrder(a.0, b.0, 10);
    EncodeOrder(a.1, b.1, 16);
    LessAppend(Encode(a.0, 10), Encode(b.0, 10), Encode(a.1, 16), Encode(b.1, 16));
  }

  // ---- Minting -----------------------------------------------------------------------------------------

  /** One call of `new`: what the clock read and what the system's randomness gave. */
  type Call = (nat, nat)

  function LastMinted(calls: seq<Call>): Option<(nat, nat)> {
    if calls == [] then None
    else Some(Next(LastMinted(calls[..|calls| - 1]), calls[|calls| - 1].0, calls[|calls| - 1].1))
  }

  /** The text the k-th call of a run returned. */
  function Minted(calls: seq<Call>, k: nat): string
    requires k < |calls|
  {
    var pair := LastMinted(calls[..k + 1]).value;
    Format(pair.0, pair.1)
  }

  /** The k-th call bumps a random part whose 80 bits are all ones. */
  predicate Wraps(calls: seq<Call>, k: nat)
    requires k < |calls|
  {
    var last := LastMinted(calls[..k]);
    last.Some? && calls[k].0 <= last.value.0 && last.value.1 == RANDOM_RANGE - 1
  }

  ghost predicate ClockFits(calls: seq<Call>) { forall k :: 0 <= k < |calls| ==> calls[k].0 < Pow32(10) }

  lemma {:induction false} MintedInRange(calls: seq<Call>)
    requires ClockFits(calls) && calls != []
    ensures LastMinted(calls).value.0 < Pow32(10) && LastMinted(calls).value.1 < RANDOM_RANGE
    decreases |calls|
  {
    if |calls| > 1 { MintedInRange(calls[..|calls| - 1]); }
  }

  lemma BumpWithin(random: nat)
    requires random < RANDOM_RANGE
    ensures (random + 1) % RANDOM_RANGE == if random == RANDOM_RANGE - 1 then 0 else random + 1
  {
  }

  /** Under any clock, even one that runs backwards, a call returns a text after the previous one
      exactly when it does not wrap. */
  lemma NextIsLater(calls: seq<Call>, k: nat)
    requires ClockFits(calls) && 0 < k < |calls|
    ensures Text.Less(Minted(calls, k - 1), Minted(calls, k)) <==> !Wraps(calls, k)
  {
    assert calls[..k + 1][..k] == calls[..k];
    MintedInRange(calls[..k]);
    MintedInRange(calls[..k + 1]);
    BumpWithin(LastMinted(calls[..k]).value.1);
    FormatOrder(LastMinted(calls[..k]).value, LastMinted(calls[..k + 1]).value);
  }

  lemma MintedReads(calls: seq<Call>, k: nat)
    requires k < |calls| && forall j :: 0 <= j < |calls| ==> calls[j].0 < TIME_RANGE
    ensures Parse(Minted(calls, k)) == Ok(LastMinted(calls[..k + 1]).value)
  {
    MintedBelow(calls[..k + 1]);
    var pair := LastMinted(calls[..k + 1]).value;
    Widths();
    ParseOfFormat(pair.0, pair.1);
  }

  /** What a text says: when the clock has moved on since the last one, the time it read and the
      randomness it drew; otherwise the last text's time, and its random part and one more. */
  lemma MintedSays(calls: seq<Call>, k: nat)
    requires k < |calls| && forall j :: 0 <= j < |calls| ==> calls[j].0 < TIME_RANGE
    ensures
      var said, last := Parse(Minted(calls, k)), LastMinted(calls[..k]);
      if k == 0 || calls[k].0 > last.value.0 then said == Ok((calls[k].0, calls[k].1 % RANDOM_RANGE))
      else !Wraps(calls, k) ==> said == Ok((last.value.0, last.value.1 + 1))
  {
    MintedReads(calls, k);
    assert calls[..k + 1][..k] == calls[..k];
    if k > 0 {
      MintedBelow(calls[..k]);
      var last := LastMinted(calls[..k]).value;
      BumpWithin(last.1);
    }
  }

  lemma {:induction false} MintedBelow(calls: seq<Call>)
    requires calls != [] && forall j :: 0 <= j < |calls| ==> calls[j].0 < TIME_RANGE
    ensures LastMinted(calls).value.0 < TIME_RANGE && LastMinted(calls).value.1 < RANDOM_RANGE
    decreases |calls|
  {
    if |calls| > 1 { MintedBelow(calls[..|calls| - 1]); }
  }

  /** So a run's texts strictly increase, and are all different, exactly when no call wraps. */
  lemma RunIncreases(calls: seq<Call>)
    requires ClockFits(calls)
    ensures (forall k :: 0 < k < |calls| ==> !Wraps(calls, k)) <==>
            (forall i, j :: 0 <= i < j < |calls| ==> Text.Less(Minted(calls, i), Minted(calls, j)))
  {
    if forall k :: 0 < k < |calls| ==> !Wraps(calls, k) {
      forall i, j | 0 <= i < j < |calls| ensures Text.Less(Minted(calls, i), Minted(calls, j)) {
        IncreasesTo(calls, i, j);
      }
    } else {
      var k :| 0 < k < |calls| && Wraps(calls, k);
      NextIsLater(calls, k);
    }
  }

  lemma {:induction false} IncreasesTo(calls: seq<Call>, i: nat, j: nat)
    requires ClockFits(calls) && i < j < |calls| && forall k :: 0 < k < |calls| ==> !Wraps(calls, k)
    ensures Text.Less(Minted(calls, i), Minted(calls, j))
  {
    NextIsLater(calls, j);
    if i < j - 1 {
      IncreasesTo(calls, i, j - 1);
      Text.LessTransitive(Minted(calls, i), Minted(calls, j - 1), Minted(calls, j));
    }
  }

  /** What takes the place of the overflow failure of the ULID specification (section
      "Monotonicity"): the text after the last one of a millisecond is the first one of it. */
  lemma WrapGoesBack(calls: seq<Call>, k: nat)
    requires ClockFits(calls) && 0 < k < |calls| && Wraps(calls, k)
    ensures Minted(calls, k) == Format(LastMinted(calls[..k]).value.0, 0)
    ensures Text.Less(Minted(calls, k), Minted(calls, k - 1))
  {
    assert calls[..k + 1][..k] == calls[..k];
    MintedInRange(calls[..k]);
    MintedInRange(calls[..k + 1]);
    FormatOrder(LastMinted(calls[..k + 1]).value, LastMinted(calls[..k]).value);
  }
}
