/**
 The printable form of the account's encryption key: 160 bits as 32 Crockford
 base32 symbols in eight groups of four, and the way back from whatever the
 user typed. Rust's shifts, masks and ors over `u8` are written as division,
 remainder and addition.
 */
module EncryptionKey {
  import opened Base

  const KEY_BYTES := 20
  const KEY_CHARS := 32
  const ALPHABET := "0123456789ABCDEFGHJKMNPQRSTVWXYZ"

  datatype KeyError = Length(chars: nat) | Character(c: char)

  type bit = x: int | x == 0 || x == 1

  // ------------------------------------------------------- bits and folds

  function Pow2(n: nat): (p: nat)
    ensures p > 0
  {
    if n == 0 then 1 else 2 * Pow2(n - 1)
  }

  /** Shift the accumulator left and or in the next bit, most significant first. */
  function Fold(bits: seq<bit>): (acc: nat)
    ensures acc < Pow2(|bits|)
  {
    if bits == [] then 0
    else 2 * Fold(bits[..|bits| - 1]) + bits[|bits| - 1]
  }

  /** Bit `t` of a `width`-bit number, counted from the most significant. */
  function BitOf(n: nat, width: nat, t: nat): bit
    requires t < width
  {
    (n / Pow2(width - 1 - t)) % 2
  }

  /** All the bits of an array of bytes, across byte boundaries. */
  function Bits(bytes: Bytes): (bits: seq<bit>)
    ensures |bits| == 8 * |bytes|
  {
    seq(8 * |bytes|, k requires 0 <= k < 8 * |bytes| => BitOf(bytes[k / 8], 8, k % 8))
  }

  function SymbolBits(symbols: seq<nat>): (bits: seq<bit>)
    ensures |bits| == 5 * |symbols|
  {
    seq(5 * |symbols|, k requires 0 <= k < 5 * |symbols| => BitOf(symbols[k / 5], 5, k % 5))
  }

  function SymbolAt(bytes: Bytes, start: nat): (symbol: nat)
    requires start + 5 <= 8 * |bytes|
    ensures symbol < 32
  {
    Pow2Values();
    Fold(Bits(bytes)[start..start + 5])
  }

  function Symbols(bytes: Bytes): (symbols: seq<nat>)
    requires |bytes| == KEY_BYTES
    ensures |symbols| == KEY_CHARS
    ensures forall i :: 0 <= i < KEY_CHARS ==> symbols[i] < 32
  {
    seq(KEY_CHARS, i requires 0 <= i < KEY_CHARS => SymbolAt(bytes, 5 * i))
  }

  /** Byte `j` of the array whose bits are the symbols' bits. */
  function PackByte(symbols: seq<nat>, j: nat): byte
    requires |symbols| == KEY_CHARS && j < KEY_BYTES
  {
    Pow2Values();
    Fold(SymbolBits(symbols)[8 * j..8 * j + 8])
  }

  function Pack(symbols: seq<nat>): (bytes: Bytes)
    requires |symbols| == KEY_CHARS
    ensures |bytes| == KEY_BYTES
  {
    seq(KEY_BYTES, j requires 0 <= j < KEY_BYTES => PackByte(symbols, j))
  }

  lemma Pow2Values()
    ensures Pow2(0) == 1 && Pow2(1) == 2 && Pow2(2) == 4 && Pow2(3) == 8 && Pow2(4) == 16
    ensures Pow2(5) == 32 && Pow2(6) == 64 && Pow2(7) == 128 && Pow2(8) == 256
  {
    assert Pow2(3) == 2 * Pow2(2) && Pow2(4) == 2 * Pow2(3) && Pow2(5) == 2 * Pow2(4);
    assert Pow2(6) == 2 * Pow2(5) && Pow2(7) == 2 * Pow2(6) && Pow2(8) == 2 * Pow2(7);
  }

  lemma AtLeastOnce(d: nat, k: int)
    requires k >= 1
    ensures d * k >= d
  {}

  lemma Quotient(n: nat, d: nat, q: nat, r: nat)
    requires r < d && n == d * q + r
    ensures n / d == q
  {
    var q', r' := n / d, n % d;
    assert d * q' + r' == n;
    if q' < q {
      assert d * (q - q') == r' - r;
      AtLeastOnce(d, q - q');
    } else if q < q' {
      assert d * (q' - q) == r - r';
      AtLeastOnce(d, q' - q);
    }
  }

  /** Dropping the lowest bit and then `n` more is dropping `n + 1`. */
  lemma DropLowest(high: nat, low: bit, n: nat)
    ensures (2 * high + low) / Pow2(n + 1) == high / Pow2(n)
  {
    var p := Pow2(n);
    var q, r := high / p, high % p;
    assert 2 * (p * q) == (2 * p) * q;
    Quotient(2 * high + low, 2 * p, q, 2 * r + low);
  }

  /** The bits of a folded number are the bits it was folded from. */
  lemma {:induction false} BitOfFold(bits: seq<bit>, t: nat)
    requires t < |bits|
    ensures BitOf(Fold(bits), |bits|, t) == bits[t]
  {
    var n := |bits| - 1;
    if t < n {
      BitOfFold(bits[..n], t);
      DropLowest(Fold(bits[..n]), bits[n], n - 1 - t);
    }
  }

  /** Folding the bits of a number gives the number back. */
  lemma {:induction false} FoldOfBits(n: nat, bits: seq<bit>)
    requires n < Pow2(|bits|)
    requires forall t :: 0 <= t < |bits| ==> bits[t] == BitOf(n, |bits|, t)
    ensures Fold(bits) == n
  {
    if bits != [] {
      var w := |bits| - 1;
      forall t | 0 <= t < w ensures bits[..w][t] == BitOf(n / 2, w, t) {
        DropLowest(n / 2, n % 2, w - 1 - t);
        assert bits[t] == BitOf(n, |bits|, t);
      }
      FoldOfBits(n / 2, bits[..w]);
    }
  }

  /** Reading the packed array bit by bit gives the symbols' bits. */
  lemma BitsOfPack(symbols: seq<nat>)
    requires |symbols| == KEY_CHARS
    ensures Bits(Pack(symbols)) == SymbolBits(symbols)
  {
    forall k | 0 <= k < 160 ensures Bits(Pack(symbols))[k] == SymbolBits(symbols)[k] {
      var j := k / 8;
      BitOfFold(SymbolBits(symbols)[8 * j..8 * j + 8], k % 8);
    }
  }

  lemma SymbolBitsOfSymbols(bytes: Bytes)
    requires |bytes| == KEY_BYTES
    ensures SymbolBits(Symbols(bytes)) == Bits(bytes)
  {
    forall k | 0 <= k < 160 ensures SymbolBits(Symbols(bytes))[k] == Bits(bytes)[k] {
      var i := k / 5;
      BitOfFold(Bits(bytes)[5 * i..5 * i + 5], k % 5);
    }
  }

  lemma PackOfSymbols(bytes: Bytes)
    requires |bytes| == KEY_BYTES
    ensures Pack(Symbols(bytes)) == bytes
  {
    SymbolBitsOfSymbols(bytes);
    forall j | 0 <= j < KEY_BYTES ensures Pack(Symbols(bytes))[j] == bytes[j] {
      ByteOfBits(bytes, j);
    }
  }

  lemma SymbolOfBits(symbols: seq<nat>, i: nat)
    requires i < |symbols| && symbols[i] < 32
    ensures Fold(SymbolBits(symbols)[5 * i..5 * i + 5]) == symbols[i]
  {
    Pow2Values();
    FoldOfBits(symbols[i], SymbolBits(symbols)[5 * i..5 * i + 5]);
  }

  lemma SymbolsOfPack(symbols: seq<nat>)
    requires |symbols| == KEY_CHARS
    requires forall i :: 0 <= i < KEY_CHARS ==> symbols[i] < 32
    ensures Symbols(Pack(symbols)) == symbols
  {
    BitsOfPack(symbols);
    forall i | 0 <= i < KEY_CHARS ensures Symbols(Pack(symbols))[i] == symbols[i] {
      SymbolOfBits(symbols, i);
    }
  }

  // -------------------------------------------------------------- printing

  function Letters(symbols: seq<nat>): (s: string)
    requires forall i :: 0 <= i < |symbols| ==> symbols[i] < 32
    ensures |s| == |symbols|
    ensures forall i :: 0 <= i < |s| ==> s[i] == ALPHABET[symbols[i]]
  {
    seq(|symbols|, i requires 0 <= i < |symbols| => ALPHABET[symbols[i]])
  }

  /** `chunks(4)` joined with `-`. */
  function JoinGroups(s: string): string {
    if |s| <= 4 then s else s[..4] + "-" + JoinGroups(s[4..])
  }

  function FormatKey(bytes: Bytes): (s: string)
    requires |bytes| == KEY_BYTES
  {
    JoinGroups(Letters(Symbols(bytes)))
  }

  // --------------------------------------------------------------- reading

  /** Unicode's `White_Space` property, which Rust's `char::is_whitespace` reads. */
  predicate IsWhitespace(c: char) {
    || '\U{9}' <= c <= '\U{D}' || c == ' ' || c == '\U{85}' || c == '\U{A0}' || c == '\U{1680}'
    || '\U{2000}' <= c <= '\U{200A}' || c == '\U{2028}' || c == '\U{2029}' || c == '\U{202F}'
    || c == '\U{205F}' || c == '\U{3000}'
  }

  function ToUpper(c: char): char {
    if 'a' <= c <= 'z' then c - 'a' + 'A' else c
  }

  function FoldAlias(c: char): char {
    if c == 'I' || c == 'L' then '1' else if c == 'O' then '0' else c
  }

  /** What the typed text says once separators, case and lookalikes are gone. */
  function Folded(s: string): string {
    if s == [] then []
    else if IsWhitespace(s[0]) || s[0] == '-' then Folded(s[1..])
    else [FoldAlias(ToUpper(s[0]))] + Folded(s[1..])
  }

  function Position(alphabet: string, c: char): (p: Option<nat>)
    ensures p.Some? ==> p.value < |alphabet| && alphabet[p.value] == c
    ensures p.None? ==> c !in alphabet
  {
    if alphabet == [] then None
    else if alphabet[0] == c then Some(0)
    else
      match Position(alphabet[1..], c)
      case None => None
      case Some(p) => Some(p + 1)
  }

  /** Every character's place in the alphabet, or the first one that has none. */
  function ParseSymbols(s: string): (r: Result<seq<nat>, KeyError>)
    ensures r.Ok? ==> |r.value| == |s| && forall i :: 0 <= i < |s| ==> r.value[i] < 32 && ALPHABET[r.value[i]] == s[i]
    ensures r.Ok? <==> forall c :: c in s ==> c in ALPHABET
    ensures r.Err? ==> r.error.Character? && r.error.c in s && r.error.c !in ALPHABET
  {
    if s == [] then Ok([])
    else
      match Position(ALPHABET, s[0])
      case None => Err(Character(s[0]))
      case Some(p) =>
        match ParseSymbols(s[1..])
        case Err(e) => Err(e)
        case Ok(rest) => Ok([p] + rest)
  }

  function Normalize(input: string): Result<Bytes, KeyError> {
    var stripped := Folded(input);
    if |stripped| != KEY_CHARS then Err(Length(|stripped|))
    else
      match ParseSymbols(stripped)
      case Err(e) => Err(e)
      case Ok(symbols) => Ok(Pack(symbols))
  }

  /** The alphabet in code-point order: digits, then letters with gaps at I, L, O and U. */
  function LetterCode(i: nat): int {
    if i < 10 then 48 + i else if i < 18 then 55 + i else if i < 20 then 56 + i
    else if i < 22 then 57 + i else if i < 27 then 58 + i else 59 + i
  }

  lemma LetterCodes(i: nat)
    requires i < 32
    ensures ALPHABET[i] as int == LetterCode(i)
  {}

  // ---------------------------------------- the loops that set single bits

  /** `bytes[k / 8] |= 1 << (7 - k % 8)`. */
  function OrBit(b: byte, t: nat): (r: nat)
    requires t < 8
  {
    if BitOf(b, 8, t) == 1 then b else b + Pow2(7 - t)
  }

  function ByteBits(b: byte): (bits: seq<bit>)
    ensures |bits| == 8 && Fold(bits) == b
  {
    var bits := seq(8, u requires 0 <= u < 8 => BitOf(b, 8, u));
    Pow2Values();
    FoldOfBits(b, bits);
    bits
  }

  lemma OrBitFolds(b: byte, t: nat)
    requires t < 8
    ensures OrBit(b, t) == Fold(ByteBits(b)[t := 1])
  {
    var bits := ByteBits(b);
    if bits[t] == 0 {
      FoldUpdate(bits, t);
      assert Fold(bits[t := 1]) == b + Pow2(7 - t);
    } else {
      assert bits[t := 1] == bits;
    }
  }

  lemma OrBitSets(b: byte, t: nat)
    requires t < 8
    ensures OrBit(b, t) < 256
    ensures ByteBits(OrBit(b, t)) == ByteBits(b)[t := 1]
  {
    var updated := ByteBits(b)[t := 1];
    OrBitFolds(b, t);
    assert Pow2(8) == 256 by { Pow2Values(); }
    forall u | 0 <= u < 8 ensures ByteBits(OrBit(b, t))[u] == updated[u] {
      BitOfFold(updated, u);
    }
  }

  lemma {:induction false} FoldUpdate(bits: seq<bit>, t: nat)
    requires t < |bits| && bits[t] == 0
    ensures Fold(bits[t := 1]) == Fold(bits) + Pow2(|bits| - 1 - t)
  {
    var n := |bits| - 1;
    if t == n {
      assert bits[t := 1][..n] == bits[..n];
    } else {
      FoldUpdate(bits[..n], t);
      assert bits[t := 1][..n] == bits[..n][t := 1];
    }
  }

  function WithBit(bytes: Bytes, k: nat): (r: Bytes)
    requires k < 8 * |bytes|
    ensures |r| == |bytes|
  {
    OrBitSets(bytes[k / 8], k % 8);
    bytes[k / 8 := OrBit(bytes[k / 8], k % 8)]
  }

  lemma BitsWithBit(bytes: Bytes, k: nat)
    requires k < 8 * |bytes|
    ensures Bits(WithBit(bytes, k)) == Bits(bytes)[k := 1]
  {
    OrBitSets(bytes[k / 8], k % 8);
    forall m | 0 <= m < 8 * |bytes| ensures Bits(WithBit(bytes, k))[m] == Bits(bytes)[k := 1][m] {
      assert m == 8 * (m / 8) + m % 8 && k == 8 * (k / 8) + k % 8;
      assert Bits(bytes)[m] == ByteBits(bytes[m / 8])[m % 8];
      assert Bits(WithBit(bytes, k))[m] == ByteBits(WithBit(bytes, k)[m / 8])[m % 8];
    }
  }

  lemma ByteOfBits(a: Bytes, j: nat)
    requires j < |a|
    ensures Fold(Bits(a)[8 * j..8 * j + 8]) == a[j]
  {
    Pow2Values();
    FoldOfBits(a[j], Bits(a)[8 * j..8 * j + 8]);
  }

  /** The first `n` bits of `target`, the rest still zero. */
  function Masked(target: seq<bit>, n: nat): (bits: seq<bit>)
    ensures |bits| == |target|
  {
    seq(|target|, k requires 0 <= k < |target| => if k < n then target[k] else 0)
  }

  lemma BitsOfZeros(bytes: Bytes)
    requires forall j :: 0 <= j < |bytes| ==> bytes[j] == 0
    ensures forall k :: 0 <= k < 8 * |bytes| ==> Bits(bytes)[k] == 0
  {
    forall k | 0 <= k < 8 * |bytes| ensures Bits(bytes)[k] == 0 {
      assert bytes[k / 8] == 0;
      Quotient(0, Pow2(7 - k % 8), 0, 0);
    }
  }

  /** `normalize` as written: strip, look up, then set the bits one at a time. */
  method NormalizeInPlace(input: string) returns (r: Result<Bytes, KeyError>)
    ensures r == Normalize(input)
  {
    var stripped := Folded(input);
    if |stripped| != KEY_CHARS {
      return Err(Length(|stripped|));
    }
    var parsed := ParseSymbols(stripped);
    if parsed.Err? {
      return Err(parsed.error);
    }
    var bytes := SetBits(parsed.value);
    r := Ok(bytes);
  }

  method SetBits(symbols: seq<nat>) returns (bytes: Bytes)
    requires |symbols| == KEY_CHARS
    ensures bytes == Pack(symbols)
  {
    ghost var target := SymbolBits(symbols);
    var buffer := new byte[KEY_BYTES](_ => 0);
    BitsOfZeros(buffer[..]);
    for i := 0 to KEY_CHARS
      invariant Bits(buffer[..]) == Masked(target, 5 * i)
    {
      for offset := 0 to 5
        invariant Bits(buffer[..]) == Masked(target, 5 * i + offset)
      {
        var k := 5 * i + offset;
        assert target[k] == BitOf(symbols[i], 5, offset);
        if (symbols[i] / Pow2(4 - offset)) % 2 == 1 {
          ghost var before := buffer[..];
          BitsWithBit(before, k);
          OrBitSets(buffer[k / 8], k % 8);
          buffer[k / 8] := OrBit(buffer[k / 8], k % 8);
          assert buffer[..] == WithBit(before, k);
        }
        assert Masked(target, k + 1) == Masked(target, k)[k := target[k]];
      }
    }
    bytes := buffer[..];
    assert Masked(target, 160) == target;
    BitsOfPack(symbols);
    forall j | 0 <= j < KEY_BYTES ensures bytes[j] == Pack(symbols)[j] {
      ByteOfBits(bytes, j);
      ByteOfBits(Pack(symbols), j);
    }
  }

  // ------------------------------------------------------------ round trips

  lemma {:induction false} FoldedConcat(a: string, b: string)
    ensures Folded(a + b) == Folded(a) + Folded(b)
  {
    if a == [] {
      assert a + b == b;
    } else {
      FoldedConcat(a[1..], b);
      assert (a + b)[1..] == a[1..] + b;
    }
  }

  /** Upper-case letters and digits of the alphabet are their own folded form. */
  lemma {:induction false} FoldedOfLetters(s: string)
    requires forall c :: c in s ==> c in ALPHABET
    ensures Folded(s) == s
  {
    if s != [] {
      FoldedFromLetter(s);
      FoldedOfLetters(s[1..]);
    }
  }

  lemma FoldedFromLetter(s: string)
    requires s != [] && s[0] in ALPHABET
    ensures Folded(s) == [s[0]] + Folded(s[1..]) && s == [s[0]] + s[1..]
  {
    LetterIsFolded(s[0]);
  }

  lemma LetterIsFolded(c: char)
    requires c in ALPHABET
    ensures !IsWhitespace(c) && c != '-' && FoldAlias(ToUpper(c)) == c
  {
    LetterCodes(Position(ALPHABET, c).value);
  }

  lemma {:induction false} FoldedOfGroups(s: string)
    requires forall c :: c in s ==> c in ALPHABET
    ensures Folded(JoinGroups(s)) == s
  {
    if |s| <= 4 {
      FoldedOfLetters(s);
    } else {
      FoldedConcat(s[..4], "-" + JoinGroups(s[4..]));
      assert s[..4] + "-" + JoinGroups(s[4..]) == s[..4] + ("-" + JoinGroups(s[4..]));
      assert ("-" + JoinGroups(s[4..]))[1..] == JoinGroups(s[4..]);
      FoldedOfLetters(s[..4]);
      FoldedOfGroups(s[4..]);
    }
  }

  /** What `format_key` prints, without its hyphens. */
  lemma FoldedOfFormat(bytes: Bytes)
    requires |bytes| == KEY_BYTES
    ensures Folded(FormatKey(bytes)) == Letters(Symbols(bytes))
  {
    FoldedOfGroups(Letters(Symbols(bytes)));
  }

  lemma {:induction false} LettersInjective(a: seq<nat>, b: seq<nat>)
    requires |a| == |b|
    requires forall i :: 0 <= i < |a| ==> a[i] < 32 && b[i] < 32
    requires Letters(a) == Letters(b)
    ensures a == b
  {
    forall i | 0 <= i < |a| ensures a[i] == b[i] {
      assert Letters(a)[i] == Letters(b)[i];
      LetterCodes(a[i]);
      LetterCodes(b[i]);
    }
  }

  /** Typing back the key that was shown yields the very bytes it was made from. */
  lemma NormalizeOfFormat(bytes: Bytes)
    requires |bytes| == KEY_BYTES
    ensures Normalize(FormatKey(bytes)) == Ok(bytes)
  {
    FoldedOfFormat(bytes);
    var letters := Letters(Symbols(bytes));
    var parsed := ParseSymbols(letters);
    assert parsed.Ok?;
    LettersInjective(parsed.value, Symbols(bytes));
    PackOfSymbols(bytes);
  }

  /** What a person may make of one printed symbol: itself, in lower case, or a letter that looks like it. */
  predicate LooksLike(typed: char, printed: char) {
    || typed == printed
    || ('A' <= printed <= 'Z' && typed as int == printed as int + 32)
    || (printed == '0' && typed in {'O', 'o'})
    || (printed == '1' && typed in {'I', 'i', 'L', 'l'})
  }

  /** Typed off the screen, with hyphens and blanks anywhere or nowhere. */
  predicate Retypes(typed: string, printed: string)
    decreases |typed| + |printed|
  {
    if printed != "" && printed[0] == '-' then Retypes(typed, printed[1..])
    else if typed != "" && typed[0] in {'-', ' ', '\t', '\n', '\r'} then Retypes(typed[1..], printed)
    else if typed == "" || printed == "" then typed == printed
    else LooksLike(typed[0], printed[0]) && Retypes(typed[1..], printed[1..])
  }

  lemma LookalikeFolds(typed: char, printed: char)
    requires printed in ALPHABET && LooksLike(typed, printed)
    ensures !IsWhitespace(typed) && typed != '-' && FoldAlias(ToUpper(typed)) == printed
  {
    LetterIsFolded(printed);
    if 'A' <= printed <= 'Z' && typed as int == printed as int + 32 { LowerFolds(typed, printed); }
  }

  lemma LowerFolds(typed: char, printed: char)
    requires 'A' <= printed <= 'Z' && typed as int == printed as int + 32
    ensures !IsWhitespace(typed) && typed != '-' && ToUpper(typed) == printed == ToUpper(printed)
  {}

  lemma {:induction false} RetypedFolds(typed: string, printed: string)
    requires Retypes(typed, printed) && forall c :: c in printed ==> c in ALPHABET || c == '-'
    ensures Folded(typed) == Folded(printed)
    decreases |typed| + |printed|
  {
    if printed != "" && printed[0] == '-' {
      RetypedFolds(typed, printed[1..]);
    } else if typed != "" && typed[0] in {'-', ' ', '\t', '\n', '\r'} {
      RetypedFolds(typed[1..], printed);
    } else if typed != "" {
      LookalikeFolds(typed[0], printed[0]);
      LookalikeFolds(printed[0], printed[0]);
      RetypedFolds(typed[1..], printed[1..]);
    }
  }

  lemma {:induction false} GroupsAreLetters(s: string)
    requires forall c :: c in s ==> c in ALPHABET
    ensures forall c :: c in JoinGroups(s) ==> c in ALPHABET || c == '-'
  {
    if |s| > 4 { GroupsAreLetters(s[4..]); }
  }

  /** The key that was shown, however a person types it back, is read as the bytes it was made from. */
  lemma RetypedKeyIsRead(bytes: Bytes, typed: string)
    requires |bytes| == KEY_BYTES && Retypes(typed, FormatKey(bytes))
    ensures Normalize(typed) == Ok(bytes)
  {
    GroupsAreLetters(Letters(Symbols(bytes)));
    RetypedFolds(typed, FormatKey(bytes));
    NormalizeOfFormat(bytes);
  }

  /** Whatever was accepted prints back as exactly what was typed, folded. */
  lemma FormatOfNormalize(input: string)
    requires Normalize(input).Ok?
    ensures Folded(FormatKey(Normalize(input).value)) == Folded(input)
  {
    var symbols := ParseSymbols(Folded(input)).value;
    SymbolsOfPack(symbols);
    FoldedOfFormat(Pack(symbols));
  }

  /** Two accepted inputs name one key exactly when their folded forms agree. */
  lemma SameKeyIffSameFoldedForm(a: string, b: string)
    requires Normalize(a).Ok? && Normalize(b).Ok?
    ensures Normalize(a) == Normalize(b) <==> Folded(a) == Folded(b)
  {
    FormatOfNormalize(a);
    FormatOfNormalize(b);
  }

  /** Which inputs are accepted at all, and how the others are refused. */
  lemma NormalizeAccepts(input: string)
    ensures Normalize(input).Ok? <==>
            |Folded(input)| == KEY_CHARS && forall c :: c in Folded(input) ==> c in ALPHABET
    ensures Normalize(input).Err? && Normalize(input).error.Length? <==> |Folded(input)| != KEY_CHARS
  {
    var r := ParseSymbols(Folded(input));
  }

  /** Eight groups of four behind seven hyphens, every fifth character a hyphen. */
  lemma FormatShape(bytes: Bytes)
    requires |bytes| == KEY_BYTES
    ensures |FormatKey(bytes)| == KEY_CHARS + 7
    ensures forall i :: 0 <= i < 39 ==> (FormatKey(bytes)[i] == '-' <==> i % 5 == 4)
  {
    var letters := Letters(Symbols(bytes));
    forall i | 0 <= i < 32 ensures letters[i] != '-' { LetterCodes(Symbols(bytes)[i]); }
    GroupsShape(letters, 8);
  }

  lemma {:induction false} GroupsShape(s: string, groups: nat)
    requires |s| == 4 * groups && groups > 0 && '-' !in s
    ensures |JoinGroups(s)| == 5 * groups - 1
    ensures forall i :: 0 <= i < 5 * groups - 1 ==> (JoinGroups(s)[i] == '-' <==> i % 5 == 4)
  {
    var out := JoinGroups(s);
    if groups == 1 {
      assert out == s;
    } else {
      GroupsShape(s[4..], groups - 1);
      var rest := JoinGroups(s[4..]);
      assert out == s[..4] + "-" + rest;
      forall i | 0 <= i < 5 * groups - 1 ensures out[i] == '-' <==> i % 5 == 4 {
        if i < 4 {
          assert out[i] == s[i];
        } else if i > 4 {
          assert out[i] == rest[i - 5];
        }
      }
    }
  }
}
