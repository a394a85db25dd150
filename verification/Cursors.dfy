/** Paging cursors: URL-safe base64 (section 5 of RFC 4648) over "stamp|identifier" or over a decimal row number. */
module Cursors {
  import opened Common

  /** A byte of text, as the character with that code. */
  type Byte = c: char | c as int < 256

  const BAR: Byte := '|'
  const MINUS: Byte := '-'
  const PLUS: Byte := '+'

  function Octet(n: int): Byte
    requires 0 <= n < 256
  {
    n as char
  }

  // ----- base64 -----

  function Digit(k: int): (c: char)
    requires 0 <= k < 64
    ensures c != '=' && c != '\n' && c != '\r'
  {
    if k < 26 then 'A' + k as char
    else if k < 52 then 'a' + (k - 26) as char
    else if k < 62 then '0' + (k - 52) as char
    else if k == 62 then '-'
    else '_'
  }

  function Value(c: char): (v: Option<int>)
    ensures v.Some? ==> 0 <= v.value < 64
  {
    if 'A' <= c <= 'Z' then Some(c as int - 'A' as int)
    else if 'a' <= c <= 'z' then Some(c as int - 'a' as int + 26)
    else if '0' <= c <= '9' then Some(c as int - '0' as int + 52)
    else if c == '-' then Some(62)
    else if c == '_' then Some(63)
    else None
  }

  lemma ValueOfDigit(k: int)
    requires 0 <= k < 64
    ensures Value(Digit(k)) == Some(k)
  {
  }

  function Encode(b: seq<Byte>): string {
    if b == [] then ""
    else if |b| == 1 then Pair(b[0] as int)
    else if |b| == 2 then Triple(b[0] as int, b[1] as int)
    else Group(b[0] as int, b[1] as int, b[2] as int) + Encode(b[3..])
  }

  function Sextets(k0: int, k1: int, k2: int, k3: int): string
    requires 0 <= k0 < 64 && 0 <= k1 < 64 && 0 <= k2 < 64 && 0 <= k3 < 64
  {
    [Digit(k0), Digit(k1), Digit(k2), Digit(k3)]
  }

  function Pair(x: int): string
    requires 0 <= x < 256
  {
    [Digit(x / 4), Digit(x % 4 * 16), '=', '=']
  }

  function Triple(x: int, y: int): string
    requires 0 <= x < 256 && 0 <= y < 256
  {
    [Digit(x / 4), Digit(x % 4 * 16 + y / 16), Digit(y % 16 * 4), '=']
  }

  function Group(x: int, y: int, z: int): string
    requires 0 <= x < 256 && 0 <= y < 256 && 0 <= z < 256
  {
    Sextets(x / 4, x % 4 * 16 + y / 16, y % 16 * 4 + z / 64, z % 64)
  }

  /** The decoder skips line breaks wherever they stand. */
  function WithoutBreaks(s: string): string {
    if s == "" then ""
    else if s[0] == '\n' || s[0] == '\r' then WithoutBreaks(s[1..])
    else [s[0]] + WithoutBreaks(s[1..])
  }

  /** Groups of four; padding ends the text; the spare bits before the padding are ignored. */
  function DecodeGroups(s: string): Option<seq<Byte>> {
    if s == "" then Some([])
    else if |s| < 4 then None
    else
      var v0, v1, v2, v3 := Value(s[0]), Value(s[1]), Value(s[2]), Value(s[3]);
      if v0.None? || v1.None? then None
      else if s[2] == '=' && s[3] == '=' && |s| == 4 then Some([Octet(v0.value * 4 + v1.value / 16)])
      else if v2.None? then None
      else if s[3] == '=' && |s| == 4 then
        Some([Octet(v0.value * 4 + v1.value / 16), Octet(v1.value % 16 * 16 + v2.value / 4)])
      else if v3.None? then None
      else
        match DecodeGroups(s[4..])
        case None => None
        case Some(rest) =>
          Some([Octet(v0.value * 4 + v1.value / 16), Octet(v1.value % 16 * 16 + v2.value / 4),
                Octet(v2.value % 4 * 64 + v3.value)] + rest)
  }

  function Decode(s: string): Option<seq<Byte>> {
    DecodeGroups(WithoutBreaks(s))
  }

  lemma {:induction false} EncodedHasNoBreaks(b: seq<Byte>)
    ensures forall i | 0 <= i < |Encode(b)| :: Encode(b)[i] != '\n' && Encode(b)[i] != '\r'
  {
    if |b| >= 3 {
      EncodedHasNoBreaks(b[3..]);
    }
  }

  /** Line breaks, and nothing else, are skipped wherever they stand. */
  lemma {:induction false} BreaksAreSkipped(a: string, b: string, c: char)
    ensures WithoutBreaks(a + [c] + b) == WithoutBreaks(a) + (if c == '\n' || c == '\r' then "" else [c]) + WithoutBreaks(b)
  {
    TakenApart(a, b, c);
    if a != "" {
      BreaksAreSkipped(a[1..], b, c);
    }
  }

  lemma TakenApart(a: string, b: string, c: char)
    ensures a == "" ==> (a + [c] + b)[0] == c && (a + [c] + b)[1..] == b
    ensures a != "" ==> (a + [c] + b)[0] == a[0] && (a + [c] + b)[1..] == a[1..] + [c] + b
  {
  }

  lemma {:induction false} NothingToSkip(s: string)
    requires forall i | 0 <= i < |s| :: s[i] != '\n' && s[i] != '\r'
    ensures WithoutBreaks(s) == s
  {
    if s != "" {
      NothingToSkip(s[1..]);
      assert s == [s[0]] + s[1..];
    }
  }

  /** The URL-safe alphabet of RFC 4648, section 5: capitals, small letters, figures, minus, underscore, each in order. */
  lemma AlphabetIs(k: int)
    requires 0 <= k < 63
    ensures Digit(0) == 'A' && Digit(25) == 'Z' && Digit(26) == 'a' && Digit(51) == 'z' && Digit(52) == '0' && Digit(61) == '9'
    ensures Digit(62) == '-' && Digit(63) == '_'
    ensures k !in {25, 51, 61, 62} ==> Digit(k + 1) as int == Digit(k) as int + 1
  {
  }

  /** The digits of three bytes are those of the same 24-bit number, most significant first; one or two bytes are filled
      up with zero bits, and the text with a padding character for each missing byte (RFC 4648, section 4). */
  lemma SameNumber(x: int, y: int, z: int)
    requires 0 <= x < 256 && 0 <= y < 256 && 0 <= z < 256
    ensures Group(x, y, z) == [Digit(x / 4), Digit(x % 4 * 16 + y / 16), Digit(y % 16 * 4 + z / 64), Digit(z % 64)]
    ensures x / 4 * 262144 + (x % 4 * 16 + y / 16) * 4096 + (y % 16 * 4 + z / 64) * 64 + z % 64 == x * 65536 + y * 256 + z
    ensures Triple(x, y) == Group(x, y, 0)[..3] + "=" && Pair(x) == Group(x, 0, 0)[..2] + "=="
  {
  }

  /** Three bytes regrouped into four sextets and back. */
  lemma Regroup(x: int, y: int, z: int)
    requires 0 <= x < 256 && 0 <= y < 256 && 0 <= z < 256
    ensures x / 4 * 4 + (x % 4 * 16 + y / 16) / 16 == x
    ensures (x % 4 * 16 + y / 16) % 16 * 16 + (y % 16 * 4 + z / 64) / 4 == y
    ensures (y % 16 * 4 + z / 64) % 4 * 64 + z % 64 == z
  {
  }

  lemma SextetsDecode(k0: int, k1: int, k2: int, k3: int, x: int, y: int, z: int, rest: string)
    requires 0 <= k0 < 64 && 0 <= k1 < 64 && 0 <= k2 < 64 && 0 <= k3 < 64
    requires x == k0 * 4 + k1 / 16 && y == k1 % 16 * 16 + k2 / 4 && z == k2 % 4 * 64 + k3
    requires DecodeGroups(rest).Some?
    ensures DecodeGroups([Digit(k0), Digit(k1), Digit(k2), Digit(k3)] + rest) ==
              Some([Octet(x), Octet(y), Octet(z)] + DecodeGroups(rest).value)
  {
    ValueOfDigit(k0);
    ValueOfDigit(k1);
    ValueOfDigit(k2);
    ValueOfDigit(k3);
    FourThenRest(Digit(k0), Digit(k1), Digit(k2), Digit(k3), rest);
    FourDecode([Digit(k0), Digit(k1), Digit(k2), Digit(k3)] + rest, k0, k1, k2, k3);
  }

  lemma FourThenRest(c0: char, c1: char, c2: char, c3: char, rest: string)
    ensures var s := [c0, c1, c2, c3] + rest;
            |s| >= 4 && s[0] == c0 && s[1] == c1 && s[2] == c2 && s[3] == c3 && s[4..] == rest
  {
  }

  lemma FourDecode(s: string, k0: int, k1: int, k2: int, k3: int)
    requires |s| >= 4 && DecodeGroups(s[4..]).Some?
    requires Value(s[0]) == Some(k0) && Value(s[1]) == Some(k1) && Value(s[2]) == Some(k2) && Value(s[3]) == Some(k3)
    ensures DecodeGroups(s) ==
              Some([Octet(k0 * 4 + k1 / 16), Octet(k1 % 16 * 16 + k2 / 4), Octet(k2 % 4 * 64 + k3)] + DecodeGroups(s[4..]).value)
  {
  }

  lemma GroupRoundTrip(x: int, y: int, z: int, rest: string)
    requires 0 <= x < 256 && 0 <= y < 256 && 0 <= z < 256
    requires DecodeGroups(rest).Some?
    ensures DecodeGroups(Group(x, y, z) + rest) == Some([Octet(x), Octet(y), Octet(z)] + DecodeGroups(rest).value)
  {
    Regroup(x, y, z);
    SextetsDecode(x / 4, x % 4 * 16 + y / 16, y % 16 * 4 + z / 64, z % 64, x, y, z, rest);
  }

  lemma PairRoundTrip(x: int)
    requires 0 <= x < 256
    ensures DecodeGroups(Pair(x)) == Some([Octet(x)])
  {
    ValueOfDigit(x / 4);
    ValueOfDigit(x % 4 * 16);
  }

  lemma TripleRoundTrip(x: int, y: int)
    requires 0 <= x < 256 && 0 <= y < 256
    ensures DecodeGroups(Triple(x, y)) == Some([Octet(x), Octet(y)])
  {
    ValueOfDigit(x / 4);
    ValueOfDigit(x % 4 * 16 + y / 16);
    ValueOfDigit(y % 16 * 4);
    Regroup(x, y, 0);
  }

  lemma ShortIs(b: seq<Byte>)
    ensures |b| == 1 ==> b == [b[0]]
    ensures |b| == 2 ==> b == [b[0], b[1]]
  {
  }

  lemma ShortRoundTrip(b: seq<Byte>)
    requires 1 <= |b| <= 2
    ensures DecodeGroups(Encode(b)) == Some(b)
  {
    ShortIs(b);
    if |b| == 1 {
      PairRoundTrip(b[0] as int);
    } else {
      TripleRoundTrip(b[0] as int, b[1] as int);
    }
  }

  lemma {:induction false} GroupsRoundTrip(b: seq<Byte>)
    ensures DecodeGroups(Encode(b)) == Some(b)
  {
    if 1 <= |b| <= 2 {
      ShortRoundTrip(b);
    } else if |b| >= 3 {
      GroupsRoundTrip(b[3..]);
      FirstGroup(b[0], b[1], b[2], b[3..], Encode(b[3..]));
      FirstThree(b);
    }
  }

  lemma FirstThree(b: seq<Byte>)
    requires |b| >= 3
    ensures b == [b[0], b[1], b[2]] + b[3..]
  {
  }

  lemma FirstGroup(x: Byte, y: Byte, z: Byte, rest: seq<Byte>, encoded: string)
    requires DecodeGroups(encoded) == Some(rest)
    ensures DecodeGroups(Group(x as int, y as int, z as int) + encoded) == Some([x, y, z] + rest)
  {
    GroupRoundTrip(x as int, y as int, z as int, encoded);
  }

  /** Decoding undoes encoding, for every byte string. */
  lemma Base64RoundTrip(b: seq<Byte>)
    ensures Decode(Encode(b)) == Some(b)
  {
    EncodedHasNoBreaks(b);
    NothingToSkip(Encode(b));
    GroupsRoundTrip(b);
  }

  // ----- row cursors -----

  function EncodeCursor(stamp: seq<Byte>, id: seq<Byte>): string {
    Encode(stamp + [BAR] + id)
  }

  /** Splits at the first bar. */
  function Cut(b: seq<Byte>): Option<(seq<Byte>, seq<Byte>)> {
    if b == [] then None
    else if b[0] == BAR then Some(([], b[1..]))
    else
      match Cut(b[1..])
      case None => None
      case Some((head, tail)) => Some(([b[0]] + head, tail))
  }

  function DecodeCursor(cursor: string): Option<(seq<Byte>, seq<Byte>)> {
    match Decode(cursor)
    case None => None
    case Some(b) => Cut(b)
  }

  lemma {:induction false} CutAtBar(stamp: seq<Byte>, id: seq<Byte>)
    requires BAR !in stamp
    ensures Cut(stamp + [BAR] + id) == Some((stamp, id))
  {
    var b := stamp + [BAR] + id;
    if stamp == [] {
      assert b[1..] == id;
    } else {
      assert b[1..] == stamp[1..] + [BAR] + id;
      CutAtBar(stamp[1..], id);
      assert stamp == [stamp[0]] + stamp[1..];
    }
  }

  lemma {:induction false} CutHeadHasNoBar(b: seq<Byte>)
    ensures Cut(b).Some? ==> BAR !in Cut(b).value.0
  {
    if b != [] {
      CutHeadHasNoBar(b[1..]);
    }
  }

  /** A row cursor comes back as it was made exactly when the stamp holds no bar; the identifier may hold any. */
  lemma CursorRoundTrip(stamp: seq<Byte>, id: seq<Byte>)
    ensures DecodeCursor(EncodeCursor(stamp, id)) == Some((stamp, id)) <==> BAR !in stamp
  {
    Base64RoundTrip(stamp + [BAR] + id);
    CutHeadHasNoBar(stamp + [BAR] + id);
    if BAR !in stamp {
      CutAtBar(stamp, id);
    }
  }

  // ----- sequence cursors -----

  const INT64_MAX := 0x7fff_ffff_ffff_ffff
  const INT64_MIN := -0x8000_0000_0000_0000

  function Decimal(n: nat): (b: seq<Byte>)
    ensures b != []
  {
    if n < 10 then [Octet('0' as int + n)] else Decimal(n / 10) + [Octet('0' as int + n % 10)]
  }

  function FormatInt(n: int): seq<Byte> {
    if n < 0 then [MINUS] + Decimal(-n) else Decimal(n)
  }

  predicate Digits(b: seq<Byte>) {
    forall i | 0 <= i < |b| :: '0' <= b[i] <= '9'
  }

  function Number(b: seq<Byte>): (n: int)
    requires Digits(b)
    ensures n >= 0
  {
    if b == [] then 0 else 10 * Number(b[..|b| - 1]) + (b[|b| - 1] as int - '0' as int)
  }

  /** An optional sign, at least one digit, and the value within 64 bits. */
  function ParseInt(b: seq<Byte>): Option<int> {
    var signed := b != [] && (b[0] == MINUS || b[0] == PLUS);
    var body := if signed then b[1..] else b;
    if body == [] || !Digits(body) then None
    else
      var n := if signed && b[0] == MINUS then -Number(body) else Number(body);
      if INT64_MIN <= n <= INT64_MAX then Some(n) else None
  }

  function EncodeSeqCursor(n: int): string {
    Encode(FormatInt(n))
  }

  function DecodeSeqCursor(cursor: string): Option<int> {
    match Decode(cursor)
    case None => None
    case Some(b) => ParseInt(b)
  }

  lemma {:induction false} DecimalRoundTrip(n: nat)
    ensures Digits(Decimal(n)) && Number(Decimal(n)) == n
    ensures Decimal(n)[0] != MINUS && Decimal(n)[0] != PLUS
  {
    if n >= 10 {
      DecimalRoundTrip(n / 10);
      assert Decimal(n)[..|Decimal(n)| - 1] == Decimal(n / 10);
      assert Decimal(n)[0] == Decimal(n / 10)[0];
    } else {
      assert Decimal(n)[..0] == [];
    }
  }

  lemma IntRoundTrip(n: int)
    ensures ParseInt(FormatInt(n)) == if INT64_MIN <= n <= INT64_MAX then Some(n) else None
  {
    var magnitude: nat := if n < 0 then -n else n;
    var digits := Decimal(magnitude);
    DecimalRoundTrip(magnitude);
    if n < 0 {
      assert ([MINUS] + digits)[1..] == digits;
    }
  }

  /** Numbers are written in figures, with a minus exactly when negative; a plus is read but never written. */
  lemma SignIs(n: int)
    ensures FormatInt(n)[0] == '-' <==> n < 0
    ensures n >= 0 ==> ParseInt(['+'] + Decimal(n)) == ParseInt(Decimal(n))
    ensures ParseInt([]) == None && ParseInt(['-']) == None && ParseInt(['+']) == None
  {
    DecimalRoundTrip(if n < 0 then -n else n);
    if n >= 0 {
      assert (['+'] + Decimal(n))[1..] == Decimal(n);
    }
  }

  /** Every 64-bit row number survives the trip, and nothing else is accepted. */
  lemma SeqCursorRoundTrip(n: int)
    ensures DecodeSeqCursor(EncodeSeqCursor(n)) ==
              if -9_223_372_036_854_775_808 <= n <= 9_223_372_036_854_775_807 then Some(n) else None
  {
    Base64RoundTrip(FormatInt(n));
    IntRoundTrip(n);
  }
}
