/** The text formats a session token is made of, each with its reader. */
module Utf8 {
  import opened Base

  function EncodeChar(c: char): (bytes: Bytes)
    ensures 1 <= |bytes| <= 4
  {
    var n := c as int;
    if n < 0x80 then [n]
    else if n < 0x800 then [0xC0 + n / 64, 0x80 + n % 64]
    else if n < 0x1_0000 then [0xE0 + n / 4096, 0x80 + n / 64 % 64, 0x80 + n % 64]
    else [0xF0 + n / 0x4_0000, 0x80 + n / 4096 % 64, 0x80 + n / 64 % 64, 0x80 + n % 64]
  }

  function Encode(s: string): Bytes {
    if s == "" then [] else EncodeChar(s[0]) + Encode(s[1..])
  }

  predicate Continues(bytes: Bytes, i: nat) {
    i < |bytes| && 0x80 <= bytes[i] < 0xC0
  }

  /** The six bits of a continuation byte. */
  function Low(b: byte): (n: nat)
    requires 0x80 <= b
    ensures n == b - 0x80
  {
    b - 0x80
  }

  predicate IsScalar(n: int) {
    0 <= n < 0xD800 || 0xE000 <= n < 0x11_0000
  }

  /** The character at the front, in its shortest form, and how many bytes it took. */
  function DecodeChar(bytes: Bytes): (r: Option<(char, nat)>)
    requires bytes != []
    ensures r.Some? ==> 1 <= r.value.1 <= |bytes|
  {
    var a: int := bytes[0];
    if a < 0x80 then Some((a as char, 1))
    else if 0xC0 <= a < 0xE0 && Continues(bytes, 1) then
      var n: int := (a - 0xC0) * 64 + Low(bytes[1]);
      if n >= 0x80 then Some((n as char, 2)) else None
    else if 0xE0 <= a < 0xF0 && Continues(bytes, 1) && Continues(bytes, 2) then
      var n: int := (a - 0xE0) * 4096 + Low(bytes[1]) * 64 + Low(bytes[2]);
      if n >= 0x800 && IsScalar(n) then Some((n as char, 3)) else None
    else if 0xF0 <= a < 0xF8 && Continues(bytes, 1) && Continues(bytes, 2) && Continues(bytes, 3) then
      var n: int := (a - 0xF0) * 0x4_0000 + Low(bytes[1]) * 4096 + Low(bytes[2]) * 64 + Low(bytes[3]);
      if n >= 0x1_0000 && IsScalar(n) then Some((n as char, 4)) else None
    else None
  }

  function Decode(bytes: Bytes): Option<string>
    decreases |bytes|
  {
    if bytes == [] then Some("")
    else
      match DecodeChar(bytes)
      case None => None
      case Some((c, n)) =>
        match Decode(bytes[n..])
        case None => None
        case Some(rest) => Some([c] + rest)
  }

  lemma Digits64(n: int)
    requires 0 <= n < 0x11_0000
    ensures n == n / 64 * 64 + n % 64
    ensures n == n / 4096 * 4096 + n / 64 % 64 * 64 + n % 64
    ensures n == n / 0x4_0000 * 0x4_0000 + n / 4096 % 64 * 4096 + n / 64 % 64 * 64 + n % 64
  {
    var a, b := n / 64, n % 64;
    var c, d := a / 64, a % 64;
    assert n == (c * 64 + d) * 64 + b;
    assert n / 4096 == c;
    assert c / 64 == n / 0x4_0000;
  }

  lemma DecodeCharOfEncodeChar(c: char, rest: Bytes)
    ensures DecodeChar(EncodeChar(c) + rest) == Some((c, |EncodeChar(c)|))
  {
    Digits64(c as int);
  }

  lemma {:induction false} DecodeOfEncode(s: string)
    ensures Decode(Encode(s)) == Some(s)
  {
    if s != "" {
      var first, rest := EncodeChar(s[0]), Encode(s[1..]);
      DecodeCharOfEncodeChar(s[0], rest);
      assert (first + rest)[|first|..] == rest;
      DecodeOfEncode(s[1..]);
      assert s == [s[0]] + s[1..];
    }
  }

  /** One text for each accepted byte string: nothing overlong gets through. */
  lemma {:induction false} EncodeOfDecode(bytes: Bytes)
    ensures Decode(bytes).Some? ==> Encode(Decode(bytes).value) == bytes
    decreases |bytes|
  {
    if Decode(bytes).Some? && bytes != [] {
      var n := FirstTaken(bytes);
      EncodeOfDecode(bytes[n..]);
    }
  }

  /** Text that was read starts with a character whose form is what stands in front; the rest is on its own. */
  lemma FirstTaken(bytes: Bytes) returns (n: nat)
    requires bytes != [] && Decode(bytes).Some?
    ensures 1 <= n <= |bytes| && Decode(bytes[n..]).Some?
    ensures Encode(Decode(bytes[n..]).value) == bytes[n..] ==> Encode(Decode(bytes).value) == bytes
  {
    n := DecodeChar(bytes).value.1;
    EncodeCharOfDecodeChar(bytes);
    EncodeFirst(DecodeChar(bytes).value.0, Decode(bytes[n..]).value);
    assert bytes == bytes[..n] + bytes[n..];
  }

  lemma EncodeFirst(c: char, rest: string)
    ensures Encode([c] + rest) == EncodeChar(c) + Encode(rest)
  {
    assert ([c] + rest)[1..] == rest;
  }

  lemma EncodeCharOfDecodeChar(bytes: Bytes)
    requires bytes != [] && DecodeChar(bytes).Some?
    ensures EncodeChar(DecodeChar(bytes).value.0) == bytes[..DecodeChar(bytes).value.1]
  {
    var n := DecodeChar(bytes).value.1;
    if n == 2 {
      EncodeOfTwo(bytes);
    } else if n == 3 {
      EncodeOfThree(bytes);
    } else if n == 4 {
      EncodeOfFour(bytes);
    }
  }

  lemma EncodeOfTwo(bytes: Bytes)
    requires bytes != [] && DecodeChar(bytes).Some? && DecodeChar(bytes).value.1 == 2
    ensures EncodeChar(DecodeChar(bytes).value.0) == bytes[..2]
  {
    Undigits(0, 0, bytes[0] - 0xC0, bytes[1] - 0x80);
  }

  lemma EncodeOfThree(bytes: Bytes)
    requires bytes != [] && DecodeChar(bytes).Some? && DecodeChar(bytes).value.1 == 3
    ensures EncodeChar(DecodeChar(bytes).value.0) == bytes[..3]
  {
    Undigits(0, bytes[0] - 0xE0, bytes[1] - 0x80, bytes[2] - 0x80);
  }

  lemma EncodeOfFour(bytes: Bytes)
    requires bytes != [] && DecodeChar(bytes).Some? && DecodeChar(bytes).value.1 == 4
    ensures EncodeChar(DecodeChar(bytes).value.0) == bytes[..4]
  {
    Undigits(bytes[0] - 0xF0, bytes[1] - 0x80, bytes[2] - 0x80, bytes[3] - 0x80);
  }

  lemma Undigits(a: int, b: int, c: int, d: int)
    requires 0 <= a < 64 && 0 <= b < 64 && 0 <= c < 64 && 0 <= d < 64
    ensures var n := a * 0x4_0000 + b * 4096 + c * 64 + d;
      n % 64 == d && n / 64 % 64 == c && n / 4096 % 64 == b && n / 0x4_0000 == a
      && n / 64 == a * 4096 + b * 64 + c && n / 4096 == a * 64 + b
  {
    var n := a * 0x4_0000 + b * 4096 + c * 64 + d;
    assert n == (a * 4096 + b * 64 + c) * 64 + d;
    assert n / 64 == (a * 64 + b) * 64 + c;
  }
}

/** Base64url without padding: section 5 of RFC 4648. */
module Base64Url {
  import opened Base

  function Letter(n: nat): (c: char)
    requires n < 64
    ensures c != '.'
  {
    if n < 26 then 'A' + n as char
    else if n < 52 then 'a' + (n - 26) as char
    else if n < 62 then '0' + (n - 52) as char
    else if n == 62 then '-'
    else '_'
  }

  function Value(c: char): (n: Option<nat>)
    ensures n.Some? ==> n.value < 64 && Letter(n.value) == c
  {
    if 'A' <= c <= 'Z' then Some(c as int - 'A' as int)
    else if 'a' <= c <= 'z' then Some(c as int - 'a' as int + 26)
    else if '0' <= c <= '9' then Some(c as int - '0' as int + 52)
    else if c == '-' then Some(62)
    else if c == '_' then Some(63)
    else None
  }

  lemma ValueOfLetter(n: nat)
    requires n < 64
    ensures Value(Letter(n)) == Some(n)
  {}

  function Letters(v: seq<nat>): (s: string)
    requires forall i :: 0 <= i < |v| ==> v[i] < 64
    ensures '.' !in s
  {
    if v == [] then "" else [Letter(v[0])] + Letters(v[1..])
  }

  function Values(s: string): (r: Option<seq<nat>>)
    ensures r.Some? ==> forall i :: 0 <= i < |r.value| ==> r.value[i] < 64
  {
    if s == "" then Some([])
    else
      match (Value(s[0]), Values(s[1..]))
      case (Some(v), Some(rest)) => Some([v] + rest)
      case _ => None
  }

  /** Four six-bit values for every three bytes; a short last group leaves its spare bits zero. */
  function Pack(b: Bytes): (v: seq<nat>)
    ensures forall i :: 0 <= i < |v| ==> v[i] < 64
  {
    if |b| == 0 then []
    else if |b| == 1 then [b[0] / 4, b[0] % 4 * 16]
    else if |b| == 2 then [b[0] / 4, b[0] % 4 * 16 + b[1] / 16, b[1] % 16 * 4]
    else [b[0] / 4, b[0] % 4 * 16 + b[1] / 16, b[1] % 16 * 4 + b[2] / 64, b[2] % 64] + Pack(b[3..])
  }

  /** Refuses a lone symbol at the end, and spare bits that are not zero. */
  function Unpack(v: seq<nat>): Option<Bytes>
    requires forall i :: 0 <= i < |v| ==> v[i] < 64
  {
    if |v| == 0 then Some([])
    else if |v| == 1 then None
    else if |v| == 2 then (if v[1] % 16 == 0 then Some([v[0] * 4 + v[1] / 16]) else None)
    else if |v| == 3 then
      (if v[2] % 4 == 0 then Some([v[0] * 4 + v[1] / 16, v[1] % 16 * 16 + v[2] / 4]) else None)
    else
      match Unpack(v[4..])
      case None => None
      case Some(rest) => Some([v[0] * 4 + v[1] / 16, v[1] % 16 * 16 + v[2] / 4, v[2] % 4 * 64 + v[3]] + rest)
  }

  function Encode(b: Bytes): string {
    Letters(Pack(b))
  }

  function Decode(s: string): Option<Bytes> {
    match Values(s)
    case None => None
    case Some(v) => Unpack(v)
  }

  lemma {:induction false} ValuesOfLetters(v: seq<nat>)
    requires forall i :: 0 <= i < |v| ==> v[i] < 64
    ensures Values(Letters(v)) == Some(v)
  {
    if v != [] {
      ValueOfLetter(v[0]);
      ValuesOfLetters(v[1..]);
      assert Letters(v)[1..] == Letters(v[1..]) && v == [v[0]] + v[1..];
    }
  }

  lemma {:induction false} LettersOfValues(s: string)
    ensures Values(s).Some? ==> Letters(Values(s).value) == s
  {
    if s != "" && Values(s).Some? {
      LettersOfValues(s[1..]);
      assert Values(s).value[1..] == Values(s[1..]).value;
    }
  }

  lemma Regroup(b0: byte, b1: byte, b2: byte)
    ensures b0 / 4 * 4 + (b0 % 4 * 16 + b1 / 16) / 16 == b0
    ensures (b0 % 4 * 16 + b1 / 16) % 16 * 16 + (b1 % 16 * 4 + b2 / 64) / 4 == b1
    ensures (b1 % 16 * 4 + b2 / 64) % 4 * 64 + b2 % 64 == b2
  {}

  lemma {:induction false} UnpackOfPack(b: Bytes)
    ensures Unpack(Pack(b)) == Some(b)
  {
    if |b| == 1 {
      Regroup(b[0], 0, 0);
      assert b == [b[0]];
    } else if |b| == 2 {
      Regroup(b[0], b[1], 0);
      assert b == [b[0], b[1]];
    } else if |b| >= 3 {
      Regroup(b[0], b[1], b[2]);
      UnpackOfPack(b[3..]);
      assert Pack(b)[4..] == Pack(b[3..]);
      assert b == [b[0], b[1], b[2]] + b[3..];
    }
  }

  lemma Ungroup(v0: nat, v1: nat, v2: nat, v3: nat)
    requires v0 < 64 && v1 < 64 && v2 < 64 && v3 < 64
    ensures var b0, b1, b2 := v0 * 4 + v1 / 16, v1 % 16 * 16 + v2 / 4, v2 % 4 * 64 + v3;
      b0 / 4 == v0 && b0 % 4 * 16 + b1 / 16 == v1 && b1 % 16 * 4 + b2 / 64 == v2 && b2 % 64 == v3
  {}

  lemma PackOfGroup(v: seq<nat>, rest: Bytes)
    requires |v| >= 4 && (forall i :: 0 <= i < |v| ==> v[i] < 64) && Pack(rest) == v[4..]
    ensures Pack([v[0] * 4 + v[1] / 16, v[1] % 16 * 16 + v[2] / 4, v[2] % 4 * 64 + v[3]] + rest) == v
  {
    Ungroup(v[0], v[1], v[2], v[3]);
    var group: Bytes := [v[0] * 4 + v[1] / 16, v[1] % 16 * 16 + v[2] / 4, v[2] % 4 * 64 + v[3]];
    assert (group + rest)[3..] == rest;
    assert v == [v[0], v[1], v[2], v[3]] + v[4..];
  }

  lemma {:induction false} PackOfUnpack(v: seq<nat>)
    requires forall i :: 0 <= i < |v| ==> v[i] < 64
    ensures Unpack(v).Some? ==> Pack(Unpack(v).value) == v
  {
    if |v| == 2 {
      Ungroup(v[0], v[1], 0, 0);
    } else if |v| == 3 {
      Ungroup(v[0], v[1], v[2], 0);
    } else if |v| >= 4 && Unpack(v).Some? {
      PackOfUnpack(v[4..]);
      PackOfGroup(v, Unpack(v[4..]).value);
    }
  }

  lemma DecodeOfEncode(b: Bytes)
    ensures Decode(Encode(b)) == Some(b)
  {
    ValuesOfLetters(Pack(b));
    UnpackOfPack(b);
  }

  /** Strict: only the one spelling the encoder gives is read. */
  lemma EncodeOfDecode(s: string)
    ensures Decode(s).Some? ==> Encode(Decode(s).value) == s
  {
    LettersOfValues(s);
    if Values(s).Some? { PackOfUnpack(Values(s).value); }
  }
}

/** Signed decimal text, as a 64-bit integer is printed and read. */
module Decimal {
  import opened Base

  const I64_MIN := -0x8000_0000_0000_0000
  const I64_MAX := 0x7FFF_FFFF_FFFF_FFFF

  predicate InI64(n: int) {
    I64_MIN <= n <= I64_MAX
  }

  function Digit(d: nat): (c: char)
    requires d < 10
    ensures '0' <= c <= '9'
  {
    '0' + d as char
  }

  function Digits(n: nat): (s: string)
    ensures s != "" && forall c :: c in s ==> '0' <= c <= '9'
  {
    if n < 10 then [Digit(n)] else Digits(n / 10) + [Digit(n % 10)]
  }

  function Print(n: int): (s: string)
    ensures s != "" && '.' !in s
  {
    if n < 0 then "-" + Digits(-n) else Digits(n)
  }

  function ParseDigits(s: string): Option<nat> {
    if s == "" then Some(0)
    else
      var c := s[|s| - 1];
      match ParseDigits(s[..|s| - 1])
      case None => None
      case Some(high) => if '0' <= c <= '9' then Some(high * 10 + (c as int - '0' as int)) else None
  }

  /** One optional sign, then at least one digit, within range. */
  function Parse(s: string): (r: Option<int>)
    ensures r.Some? ==> InI64(r.value)
  {
    var negative := s != "" && s[0] == '-';
    var signed := negative || (s != "" && s[0] == '+');
    var digits := if signed then s[1..] else s;
    if digits == "" then None
    else
      match ParseDigits(digits)
      case None => None
      case Some(magnitude) =>
        var n := if negative then 0 - magnitude as int else magnitude;
        if InI64(n) then Some(n) else None
  }

  lemma {:induction false} ParseOfDigits(n: nat)
    ensures ParseDigits(Digits(n)) == Some(n)
  {
    var s := Digits(n);
    if n >= 10 {
      ParseOfDigits(n / 10);
      assert s[..|s| - 1] == Digits(n / 10);
    } else {
      assert s[..0] == "";
    }
  }

  lemma ParseOfPrint(n: int)
    ensures Parse(Print(n)) == if -0x8000_0000_0000_0000 <= n <= 0x7FFF_FFFF_FFFF_FFFF then Some(n) else None
  {
    ParseOfDigits(if n < 0 then -n else n);
    if n < 0 {
      assert Print(n)[1..] == Digits(-n);
    } else {
      assert Digits(n)[0] in Digits(n);
    }
  }
}

module Hex {
  import opened Base

  function Digit(n: nat): (c: char)
    requires n < 16
    ensures c != '.' && c < 128 as char
  {
    if n < 10 then '0' + n as char else 'a' + (n - 10) as char
  }

  function Encode(b: Bytes): (s: string)
    ensures '.' !in s && |s| == 2 * |b|
  {
    if b == [] then "" else [Digit(b[0] / 16), Digit(b[0] % 16)] + Encode(b[1..])
  }

  lemma DigitIs(n: nat)
    requires n < 16
    ensures Digit(n) == "0123456789abcdef"[n]
  {}

  lemma DigitsDiffer(m: nat, n: nat)
    requires m < 16 && n < 16 && Digit(m) == Digit(n)
    ensures m == n
  {}

  /** Different bytes, different texts. */
  lemma {:induction false} EncodeIsInjective(a: Bytes, b: Bytes)
    ensures Encode(a) == Encode(b) <==> a == b
  {
    if a != [] && b != [] {
      EncodeIsInjective(a[1..], b[1..]);
      assert a == [a[0]] + a[1..] && b == [b[0]] + b[1..];
      if Encode(a) == Encode(b) {
        assert Encode(a)[0] == Encode(b)[0] && Encode(a)[1] == Encode(b)[1];
        assert Encode(a)[2..] == Encode(a[1..]) && Encode(b)[2..] == Encode(b[1..]);
        DigitsDiffer(a[0] / 16, b[0] / 16);
        DigitsDiffer(a[0] % 16, b[0] % 16);
      }
    }
  }
}

/** Fields with dots between them. */
module Dotted {
  predicate DotFree(parts: seq<string>) {
    forall i :: 0 <= i < |parts| ==> '.' !in parts[i]
  }

  function Split(s: string): (parts: seq<string>)
    ensures |parts| >= 1 && DotFree(parts)
  {
    if s == "" then [""]
    else
      var rest := Split(s[1..]);
      if s[0] == '.' then [""] + rest else [[s[0]] + rest[0]] + rest[1..]
  }

  function Join(parts: seq<string>): string
    requires |parts| >= 1
  {
    if |parts| == 1 then parts[0] else parts[0] + "." + Join(parts[1..])
  }

  lemma {:induction false} SplitField(field: string, rest: string)
    requires '.' !in field
    ensures Split(field + "." + rest) == [field] + Split(rest)
  {
    var s := field + "." + rest;
    if field == "" {
      assert s[1..] == rest;
    } else {
      SplitField(field[1..], rest);
      assert s[1..] == field[1..] + "." + rest && s[0] == field[0];
      assert field == [field[0]] + field[1..];
    }
  }

  lemma {:induction false} SplitAlone(field: string)
    requires '.' !in field
    ensures Split(field) == [field]
  {
    if field != "" {
      SplitAlone(field[1..]);
      assert field == [field[0]] + field[1..];
    }
  }

  lemma {:induction false} SplitOfJoin(parts: seq<string>)
    requires |parts| >= 1 && DotFree(parts)
    ensures Split(Join(parts)) == parts
  {
    if |parts| == 1 {
      SplitAlone(parts[0]);
    } else {
      SplitOfJoin(parts[1..]);
      SplitField(parts[0], Join(parts[1..]));
    }
  }

  lemma {:induction false} JoinOfSplit(s: string)
    ensures Join(Split(s)) == s
  {
    if s != "" {
      JoinOfSplit(s[1..]);
      var rest := Split(s[1..]);
      if s[0] == '.' {
        assert Split(s)[1..] == rest;
      } else {
        assert Split(s)[1..] == rest[1..];
      }
    }
  }
}
