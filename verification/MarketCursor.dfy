/**
 The cursor of the service catalogue: a completed count and a commission id, written in decimal
 with a colon between them and encoded with the URL-safe alphabet of section 5 of RFC 4648
 without padding. Byte strings are strings of characters below 256.
 */
module MarketCursor {
  import opened Common

  const MAX_INT64: int := 0x7fff_ffff_ffff_ffff
  const MIN_INT64: int := -0x8000_0000_0000_0000
  const CURSOR_MAX: nat := 100

  ghost predicate Bytes(s: string) {
    forall i | 0 <= i < |s| :: s[i] as int < 256
  }

  ghost predicate Sextets(v: seq<int>) {
    forall i | 0 <= i < |v| :: 0 <= v[i] < 64
  }

  // ----------------------------------------------------------------- the alphabet

  function Symbol(v: int): char
    requires 0 <= v < 64
  {
    if v < 26 then ('A' as int + v) as char
    else if v < 52 then ('a' as int + v - 26) as char
    else if v < 62 then ('0' as int + v - 52) as char
    else if v == 62 then '-' else '_'
  }

  function SymbolValue(c: char): (r: Option<int>)
    ensures r.Some? ==> 0 <= r.value < 64
  {
    if 'A' <= c <= 'Z' then Some(c as int - 'A' as int)
    else if 'a' <= c <= 'z' then Some(c as int - 'a' as int + 26)
    else if '0' <= c <= '9' then Some(c as int - '0' as int + 52)
    else if c == '-' then Some(62) else if c == '_' then Some(63) else None
  }

  lemma SymbolRoundTrip(v: int)
    requires 0 <= v < 64
    ensures SymbolValue(Symbol(v)) == Some(v) && Symbol(v) != '\n' && Symbol(v) != '\r'
  {
  }

  function Symbols(values: seq<int>): (r: string)
    requires Sextets(values)
    ensures |r| == |values|
  {
    seq(|values|, i requires 0 <= i < |values| => Symbol(values[i]))
  }

  /** The values of an encoded string, without the line breaks the decoder skips; None on another character. */
  function Values(s: string): (r: Option<seq<int>>)
    ensures r.Some? ==> Sextets(r.value)
  {
    if s == "" then Some([])
    else
      var rest := Values(s[1..]);
      if s[0] == '\n' || s[0] == '\r' then rest
      else
        var v := SymbolValue(s[0]);
        if v.None? || rest.None? then None else Some([v.value] + rest.value)
  }

  lemma {:induction false} ValuesOfSymbols(values: seq<int>)
    requires Sextets(values)
    ensures Values(Symbols(values)) == Some(values)
  {
    if values != [] {
      SymbolRoundTrip(values[0]);
      ValuesOfSymbols(values[1..]);
      assert Symbols(values)[1..] == Symbols(values[1..]);
      assert values == [values[0]] + values[1..];
    }
  }

  /** Line breaks in an encoded string make no difference. */
  lemma {:induction false} BreaksAreSkipped(a: string, c: char, b: string)
    requires c == '\n' || c == '\r'
    ensures Values(a + [c] + b) == Values(a + b)
  {
    if a == "" {
      assert (a + [c] + b)[1..] == b && a + b == b;
    } else {
      BreaksAreSkipped(a[1..], c, b);
      assert (a + [c] + b)[1..] == a[1..] + [c] + b && (a + b)[1..] == a[1..] + b;
    }
  }

  // ----------------------------------------------------------------- groups of three bytes

  /** Six-bit values of a byte string; a last group of one or two bytes gives two or three values. */
  function Pack(s: string): (r: seq<int>)
    requires Bytes(s)
    ensures Sextets(r)
    ensures |r| == (4 * |s| + 2) / 3
  {
    if s == "" then []
    else
      var a := s[0] as int;
      if |s| == 1 then [a / 4, a % 4 * 16]
      else
        var b := s[1] as int;
        if |s| == 2 then [a / 4, a % 4 * 16 + b / 16, b % 16 * 4]
        else
          var c := s[2] as int;
          [a / 4, a % 4 * 16 + b / 16, b % 16 * 4 + c / 64, c % 64] + Pack(s[3..])
  }

  /**
   The bytes of a list of six-bit values; left-over bits of a last group are dropped, a single
   left-over value is an error.
   */
  function Unpack(v: seq<int>): Option<string>
    requires Sextets(v)
  {
    if v == [] then Some("")
    else if |v| == 1 then None
    else
      var first := (v[0] * 4 + v[1] / 16) as char;
      if |v| == 2 then Some([first])
      else
        var second := (v[1] % 16 * 16 + v[2] / 4) as char;
        if |v| == 3 then Some([first, second])
        else
          var third := (v[2] % 4 * 64 + v[3]) as char;
          var rest := Unpack(v[4..]);
          if rest.None? then None else Some([first, second, third] + rest.value)
  }

  /** Splitting three bytes into four values loses nothing. */
  lemma GroupRoundTrip(a: int, b: int, c: int)
    requires 0 <= a < 256 && 0 <= b < 256 && 0 <= c < 256
    ensures a / 4 * 4 + (a % 4 * 16 + b / 16) / 16 == a
    ensures (a % 4 * 16 + b / 16) % 16 * 16 + (b % 16 * 4 + c / 64) / 4 == b
    ensures (b % 16 * 4 + c / 64) % 4 * 64 + c % 64 == c
  {
  }

  lemma PackGroup(s: string)
    requires Bytes(s) && |s| >= 3
    ensures var v, a, b, c := Pack(s), s[0] as int, s[1] as int, s[2] as int;
            && |v| >= 4 && v[0] == a / 4 && v[1] == a % 4 * 16 + b / 16 && v[2] == b % 16 * 4 + c / 64 && v[3] == c % 64
            && v[4..] == Pack(s[3..])
  {
    var rest := Pack(s[3..]);
    assert Pack(s) == [s[0] as int / 4, s[0] as int % 4 * 16 + s[1] as int / 16,
                       s[1] as int % 16 * 4 + s[2] as int / 64, s[2] as int % 64] + rest;
  }

  lemma ShortRoundTrip(a: int, b: int)
    requires 0 <= a < 256 && 0 <= b < 256
    ensures a / 4 * 4 + a % 4 * 16 / 16 == a
    ensures a / 4 * 4 + (a % 4 * 16 + b / 16) / 16 == a
    ensures (a % 4 * 16 + b / 16) % 16 * 16 + b % 16 * 4 / 4 == b
  {
  }

  lemma UnpackOne(s: string)
    requires Bytes(s) && |s| == 1
    ensures Unpack(Pack(s)) == Some(s)
  {
    ShortRoundTrip(s[0] as int, 0);
    var v := Pack(s);
    assert v[0] * 4 + v[1] / 16 == s[0] as int;
    assert s == [s[0]];
  }

  lemma UnpackTwo(s: string)
    requires Bytes(s) && |s| == 2
    ensures Unpack(Pack(s)) == Some(s)
  {
    ShortRoundTrip(s[0] as int, s[1] as int);
    var v := Pack(s);
    assert v[0] * 4 + v[1] / 16 == s[0] as int && v[1] % 16 * 16 + v[2] / 4 == s[1] as int;
    assert s == [s[0], s[1]];
  }

  lemma GroupValues(v0: int, v1: int, v2: int, v3: int, a: int, b: int, c: int)
    requires 0 <= a < 256 && 0 <= b < 256 && 0 <= c < 256
    requires v0 == a / 4 && v1 == a % 4 * 16 + b / 16 && v2 == b % 16 * 4 + c / 64 && v3 == c % 64
    ensures v0 * 4 + v1 / 16 == a && v1 % 16 * 16 + v2 / 4 == b && v2 % 4 * 64 + v3 == c
  {
    GroupRoundTrip(a, b, c);
  }

  /** Unpacking a list whose first group stands for three known bytes. */
  lemma UnpackGroup(v: seq<int>, a: char, b: char, c: char, rest: string)
    requires Sextets(v) && |v| >= 4 && Unpack(v[4..]) == Some(rest)
    requires v[0] * 4 + v[1] / 16 == a as int && v[1] % 16 * 16 + v[2] / 4 == b as int
    requires v[2] % 4 * 64 + v[3] == c as int
    ensures Unpack(v) == Some([a, b, c] + rest)
  {
  }

  lemma UnpackThree(s: string)
    requires Bytes(s) && |s| >= 3 && Unpack(Pack(s[3..])) == Some(s[3..])
    ensures Unpack(Pack(s)) == Some([s[0], s[1], s[2]] + s[3..])
  {
    var v := Pack(s);
    PackGroup(s);
    GroupValues(v[0], v[1], v[2], v[3], s[0] as int, s[1] as int, s[2] as int);
    UnpackGroup(v, s[0], s[1], s[2], s[3..]);
  }

  lemma {:induction false} UnpackOfPack(s: string)
    requires Bytes(s)
    ensures Unpack(Pack(s)) == Some(s)
  {
    if |s| >= 3 {
      UnpackOfPack(s[3..]);
      UnpackThree(s);
      assert s == [s[0], s[1], s[2]] + s[3..];
    } else if |s| == 2 {
      UnpackTwo(s);
    } else if |s| == 1 {
      UnpackOne(s);
    }
  }

  function EncodeBase64(s: string): (r: string)
    requires Bytes(s)
    ensures |r| == (4 * |s| + 2) / 3
  {
    Symbols(Pack(s))
  }

  function DecodeBase64(s: string): Option<string> {
    var v := Values(s);
    if v.None? then None else Unpack(v.value)
  }

  lemma Base64RoundTrip(s: string)
    requires Bytes(s)
    ensures DecodeBase64(EncodeBase64(s)) == Some(s)
  {
    ValuesOfSymbols(Pack(s));
    UnpackOfPack(s);
  }

  // ----------------------------------------------------------------- decimal numbers

  /** strconv.FormatInt for a number that is not negative. */
  function FormatInt(n: nat): (r: string)
    ensures r != ""
  {
    var digit := ('0' as int + n % 10) as char;
    if n < 10 then [digit] else FormatInt(n / 10) + [digit]
  }

  predicate Digit(c: char) {
    '0' <= c <= '9'
  }

  /** The value of a string of digits; None on any other character. */
  function DigitsValue(s: string): (r: Option<nat>) {
    if s == "" then Some(0)
    else
      var before := DigitsValue(s[..|s| - 1]);
      var c := s[|s| - 1];
      if before.None? || !Digit(c) then None else Some(before.value * 10 + (c as int - '0' as int))
  }

  /** strconv.ParseInt(s, 10, 64) */
  function ParseInt(s: string): (r: Option<int>)
    ensures r.Some? ==> MIN_INT64 <= r.value <= MAX_INT64
  {
    if s == "" then None
    else
      var negative := s[0] == '-';
      var digits := if negative || s[0] == '+' then s[1..] else s;
      var value := DigitsValue(digits);
      if digits == "" || value.None? then None
      else if negative then (if value.value > -MIN_INT64 then None else Some(0 - value.value))
      else if value.value > MAX_INT64 then None else Some(value.value)
  }

  lemma {:induction false} FormatIsDigits(n: nat)
    ensures DigitsValue(FormatInt(n)) == Some(n)
    ensures forall i | 0 <= i < |FormatInt(n)| :: Digit(FormatInt(n)[i])
  {
    var digit := ('0' as int + n % 10) as char;
    if n < 10 {
      assert FormatInt(n)[..0] == "";
    } else {
      FormatIsDigits(n / 10);
      assert FormatInt(n)[..|FormatInt(n)| - 1] == FormatInt(n / 10);
    }
  }

  lemma ParseOfFormat(n: nat)
    requires n <= MAX_INT64
    ensures ParseInt(FormatInt(n)) == Some(n)
  {
    FormatIsDigits(n);
    assert FormatInt(n)[0] in FormatInt(n);
  }

  /** Signs are read, and a number outside 64 bits is refused. */
  lemma ParseSigned(digits: string, n: nat)
    requires digits != "" && Digit(digits[0]) && DigitsValue(digits) == Some(n)
    ensures ParseInt(digits) == if n <= 9223372036854775807 then Some(n) else None
    ensures ParseInt("+" + digits) == if n <= 9223372036854775807 then Some(n) else None
    ensures ParseInt("-" + digits) == if n <= 9223372036854775808 then Some(0 - n) else None
  {
    assert ("+" + digits)[1..] == digits && ("-" + digits)[1..] == digits;
  }

  function Power10(k: nat): nat {
    if k == 0 then 1 else 10 * Power10(k - 1)
  }

  lemma {:induction false} FormatLength(n: nat, k: nat)
    requires k >= 1 && n < Power10(k)
    ensures |FormatInt(n)| <= k
  {
    if n >= 10 { FormatLength(n / 10, k - 1); }
  }

  lemma Int64Length(n: nat)
    requires n <= MAX_INT64
    ensures |FormatInt(n)| <= 19
  {
    assert Power10(10) == 10000000000;
    assert Power10(19) == 10000000000000000000;
    FormatLength(n, 19);
  }

  // ----------------------------------------------------------------- the cursor

  function CursorText(count: nat, id: nat): string {
    FormatInt(count) + ":" + FormatInt(id)
  }

  lemma CursorTextIsBytes(count: nat, id: nat)
    ensures Bytes(CursorText(count, id))
  {
    FormatIsDigits(count);
    FormatIsDigits(id);
  }

  function EncodeCursor(count: nat, id: nat): string {
    CursorTextIsBytes(count, id);
    EncodeBase64(CursorText(count, id))
  }

  /** strings.Split(s, ":") when it gives two parts. */
  function SplitOnce(s: string): Option<(string, string)> {
    if s == "" then None
    else if s[0] == ':' then (if ':' in s[1..] then None else Some(("", s[1..])))
    else
      var rest := SplitOnce(s[1..]);
      if rest.None? then None else Some(([s[0]] + rest.value.0, rest.value.1))
  }

  lemma {:induction false} SplitJoined(a: string, b: string)
    requires ':' !in a && ':' !in b
    ensures SplitOnce(a + ":" + b) == Some((a, b))
  {
    var s := a + ":" + b;
    if a == "" {
      assert s[1..] == b;
    } else {
      SplitJoined(a[1..], b);
      assert s[1..] == a[1..] + ":" + b;
      assert a == [a[0]] + a[1..];
      assert a[0] in a;
    }
  }

  /** The cursor part of parseMarketServicesQuery for a cursor that is not empty; None when it is invalid. */
  function DecodeCursor(raw: string): (r: Option<(int, int)>)
    ensures r.Some? ==> 0 <= r.value.0 <= MAX_INT64 && 0 < r.value.1 <= MAX_INT64
  {
    if |raw| > CURSOR_MAX then None
    else
      var decoded := DecodeBase64(raw);
      if decoded.None? then None
      else
        var parts := SplitOnce(decoded.value);
        if parts.None? then None
        else
          var count, id := ParseInt(parts.value.0), ParseInt(parts.value.1);
          if count.None? || count.value < 0 || id.None? || id.value <= 0 then None
          else Some((count.value, id.value))
  }

  /** Decoding a cursor gives back the pair it was made from, for every count and id of the catalogue. */
  lemma CursorRoundTrip(count: nat, id: nat)
    requires count <= MAX_INT64 && 0 < id <= MAX_INT64
    ensures EncodeCursor(count, id) != "" && DecodeCursor(EncodeCursor(count, id)) == Some((count, id))
  {
    Int64Length(count);
    Int64Length(id);
    CursorTextIsBytes(count, id);
    Base64RoundTrip(CursorText(count, id));
    FormatIsDigits(count);
    FormatIsDigits(id);
    SplitJoined(FormatInt(count), FormatInt(id));
    ParseOfFormat(count);
    ParseOfFormat(id);
  }
}
