/**
 * The base32 codec of the one-time-password secrets (packages/auth/src/totp.ts).
 *
 * It follows section 6 of RFC 4648 without padding. The program shifts through
 * a 32-bit accumulator it never masks; the accumulator here wraps at 2^32.
 */
module Base32 {
  import opened Prelude

  type Byte = n: nat | n < 256

  type Symbol = n: nat | n < 32

  const ALPHABET := "ABCDEFGHIJKLMNOPQRSTUVWXYZ234567"

  const WORD := 0x1_0000_0000

  datatype DecodeError = InvalidCharacter

  // ---------------------------------------------------------------------------
  // Bits, most significant first
  // ---------------------------------------------------------------------------

  function Pow(k: nat): (p: nat)
    ensures p >= 1
  {
    if k == 0 then 1 else 2 * Pow(k - 1)
  }

  function Bits(n: nat, width: nat): (bits: seq<bool>)
    ensures |bits| == width
  {
    if width == 0 then [] else Bits(n / 2, width - 1) + [n % 2 == 1]
  }

  function Value(bits: seq<bool>): nat {
    if |bits| == 0 then 0 else 2 * Value(bits[..|bits| - 1]) + if bits[|bits| - 1] then 1 else 0
  }

  function ByteBits(bytes: seq<Byte>): (bits: seq<bool>)
    ensures |bits| == 8 * |bytes|
  {
    if |bytes| == 0 then [] else ByteBits(bytes[..|bytes| - 1]) + Bits(bytes[|bytes| - 1], 8)
  }

  function SymbolBits(symbols: seq<Symbol>): (bits: seq<bool>)
    ensures |bits| == 5 * |symbols|
  {
    if |symbols| == 0 then [] else SymbolBits(symbols[..|symbols| - 1]) + Bits(symbols[|symbols| - 1], 5)
  }

  function Zeros(n: nat): seq<bool> { seq(n, i => false) }

  lemma {:induction false} PowAdd(a: nat, b: nat)
    ensures Pow(a + b) == Pow(a) * Pow(b)
  {
    if b > 0 {
      PowAdd(a, b - 1);
      assert Pow(a) * (2 * Pow(b - 1)) == 2 * (Pow(a) * Pow(b - 1));
    }
  }

  /** Bits of a number written as high and low part. */
  lemma {:induction false} BitsJoin(high: nat, low: nat, a: nat, b: nat)
    requires low < Pow(b)
    ensures Bits(high * Pow(b) + low, a + b) == Bits(high, a) + Bits(low, b)
  {
    if b > 0 {
      assert high * Pow(b) == 2 * (high * Pow(b - 1)) by { assert high * (2 * Pow(b - 1)) == 2 * (high * Pow(b - 1)); }
      BitsJoin(high, low / 2, a, b - 1);
      var n := high * Pow(b) + low;
      assert n / 2 == high * Pow(b - 1) + low / 2 && n % 2 == low % 2;
    } else {
      assert high * Pow(0) == high;
    }
  }

  lemma {:induction false} ValueBits(n: nat, width: nat)
    requires n < Pow(width)
    ensures Value(Bits(n, width)) == n
  {
    if width > 0 {
      ValueBits(n / 2, width - 1);
      assert Bits(n, width)[..width - 1] == Bits(n / 2, width - 1);
    }
  }

  lemma SameHalves(a: seq<bool>, b: seq<bool>, c: seq<bool>, d: seq<bool>)
    requires a + b == c + d && |a| == |c|
    ensures a == c && b == d
  {
    assert a == (a + b)[..|a|] && c == (c + d)[..|c|];
    assert b == (a + b)[|a|..] && d == (c + d)[|c|..];
  }

  lemma {:induction false} SymbolBitsInjective(a: seq<Symbol>, b: seq<Symbol>)
    requires SymbolBits(a) == SymbolBits(b)
    ensures a == b
  {
    assert 5 * |a| == 5 * |b|;
    if |a| > 0 {
      var n := |a| - 1;
      SameHalves(SymbolBits(a[..n]), Bits(a[n], 5), SymbolBits(b[..n]), Bits(b[n], 5));
      SymbolBitsInjective(a[..n], b[..n]);
      ValueBits(a[n], 5);
      ValueBits(b[n], 5);
      assert a == a[..n] + [a[n]] && b == b[..n] + [b[n]];
    }
  }

  lemma {:induction false} ByteBitsInjective(a: seq<Byte>, b: seq<Byte>)
    requires ByteBits(a) == ByteBits(b)
    ensures a == b
  {
    assert 8 * |a| == 8 * |b|;
    if |a| > 0 {
      var n := |a| - 1;
      SameHalves(ByteBits(a[..n]), Bits(a[n], 8), ByteBits(b[..n]), Bits(b[n], 8));
      ByteBitsInjective(a[..n], b[..n]);
      ValueBits(a[n], 8);
      ValueBits(b[n], 8);
      assert a == a[..n] + [a[n]] && b == b[..n] + [b[n]];
    }
  }

  // ---------------------------------------------------------------------------
  // What encoding and decoding mean
  // ---------------------------------------------------------------------------

  /** `symbols` spell the bits of `bytes`, followed by fewer than five zeros. */
  ghost predicate Encodes(bytes: seq<Byte>, symbols: seq<Symbol>) {
    exists pad: nat :: pad < 5 && SymbolBits(symbols) == ByteBits(bytes) + Zeros(pad)
  }

  /** `bytes` are the bits of `symbols`, without the fewer than eight that do not fill a byte. */
  ghost predicate Decodes(symbols: seq<Symbol>, bytes: seq<Byte>) {
    exists rest: seq<bool> :: |rest| < 8 && SymbolBits(symbols) == ByteBits(bytes) + rest
  }

  lemma EncodingUnique(bytes: seq<Byte>, a: seq<Symbol>, b: seq<Symbol>)
    requires Encodes(bytes, a) && Encodes(bytes, b)
    ensures a == b
    ensures |a| == (8 * |bytes| + 4) / 5
  {
    var x := PadOf(bytes, a);
    var y := PadOf(bytes, b);
    assert x == y;
    SymbolBitsInjective(a, b);
  }

  lemma PadOf(bytes: seq<Byte>, symbols: seq<Symbol>) returns (pad: nat)
    requires Encodes(bytes, symbols)
    ensures pad < 5 && SymbolBits(symbols) == ByteBits(bytes) + Zeros(pad)
    ensures 5 * |symbols| == 8 * |bytes| + pad
  {
    pad :| pad < 5 && SymbolBits(symbols) == ByteBits(bytes) + Zeros(pad);
    assert |SymbolBits(symbols)| == |ByteBits(bytes)| + |Zeros(pad)|;
  }

  lemma DecodingUnique(symbols: seq<Symbol>, a: seq<Byte>, b: seq<Byte>)
    requires Decodes(symbols, a) && Decodes(symbols, b)
    ensures a == b
  {
    var x: seq<bool> :| |x| < 8 && SymbolBits(symbols) == ByteBits(a) + x;
    var y: seq<bool> :| |y| < 8 && SymbolBits(symbols) == ByteBits(b) + y;
    SameBytes(a, x, b, y);
  }

  lemma SameBytes(a: seq<Byte>, x: seq<bool>, b: seq<Byte>, y: seq<bool>)
    requires |x| < 8 && |y| < 8 && ByteBits(a) + x == ByteBits(b) + y
    ensures a == b && x == y
  {
    assert |ByteBits(a) + x| == 8 * |a| + |x| && |ByteBits(b) + y| == 8 * |b| + |y|;
    assert |a| == |b|;
    SameHalves(ByteBits(a), x, ByteBits(b), y);
    ByteBitsInjective(a, b);
  }

  // ---------------------------------------------------------------------------
  // The accumulator
  // ---------------------------------------------------------------------------

  /** `(value << 8) | byte` and `(value << 5) | symbol` on 32 bits. */
  function PushByte(value: nat, byte: Byte): nat { value * 256 % WORD + byte }

  function PushSymbol(value: nat, symbol: Symbol): nat { value * 32 % WORD + symbol }

  /** `(value >>> k) & 31` and `(value >>> k) & 0xff`. */
  function TakeSymbol(value: nat, k: nat): Symbol { value / Pow(k) % 32 }

  function TakeByte(value: nat, k: nat): Byte { value / Pow(k) % 256 }

  /** `(value << k) & 31`. */
  function LastSymbol(value: nat, k: nat): Symbol { value * Pow(k) % WORD % 32 }

  /** The `bits` low bits of the accumulator: everything above them is stale. */
  function Pending(value: nat, bits: nat): seq<bool> { Bits(value, bits) }

  // ---------------------------------------------------------------------------
  // Arithmetic of shifts
  // ---------------------------------------------------------------------------

  lemma DivModIs(x: int, m: nat, q: int, r: int)
    requires 0 <= r < m && x == q * m + r
    ensures x / m == q && x % m == r
  {
    assert x == (x / m) * m + x % m;
    assert (x / m - q) * m == (x / m) * m - q * m;
    if x / m != q { MultipleApart(x / m - q, m); }
  }

  /** Shifting left on 32 bits and filling in: the low bits are those of the shifted low bits. */
  lemma PushLow(v: nat, k: nat, m: nat, c: nat, low: nat)
    requires m > 0 && low < k && m * k * c == WORD
    ensures m * k > 0 && (v * k % WORD + low) % (m * k) == v % m * k + low
  {
    var word, n, w := WORD, m * k, v * k / WORD;
    var q, p := v / m, v % m;
    assert v * k == q * n + p * k by { assert v == q * m + p; assert (q * m + p) * k == q * (m * k) + p * k; }
    assert w * word == (w * c) * n by { assert w * (n * c) == (w * c) * n; }
    assert v * k % word + low == (q - w * c) * n + (p * k + low) by { assert (q - w * c) * n == q * n - (w * c) * n; }
    assert p * k + low < n by { NatProduct(m - 1 - p, k); assert (m - 1 - p) * k == m * k - k - p * k; }
    NatProduct(p, k);
    DivModIs(v * k % word + low, n, q - w * c, p * k + low);
  }

  /** Reading `a` above the low `b`. */
  lemma TakeHigh(v: nat, a: nat, b: nat)
    requires a > 0 && b > 0 && a * b > 0
    ensures v % (a * b) == v / b % a * b + v % b
  {
    var q, r := v / b, v % b;
    var h, g := q / a, q % a;
    assert v == q * b + r && q == h * a + g;
    assert v == h * (a * b) + (g * b + r) by { assert (h * a + g) * b == h * (a * b) + g * b; }
    assert g * b + r < a * b by { NatProduct(a - 1 - g, b); assert (a - 1 - g) * b == a * b - b - g * b; }
    NatProduct(g, b);
    DivModIs(v, a * b, h, g * b + r);
  }

  lemma Pows()
    ensures Pow(5) == 32 && Pow(8) == 256 && Pow(32) == WORD
  {
    assert Pow(8) == 256;
    PowAdd(8, 8);
    PowAdd(16, 16);
  }

  lemma HalfMod(n: nat, m: nat)
    requires m > 0
    ensures n % (2 * m) / 2 == n / 2 % m && n % (2 * m) % 2 == n % 2
  {
    var h := n / 2;
    assert h == (h / m) * m + h % m;
    assert (h / m) * (2 * m) == 2 * ((h / m) * m);
    DivModIs(n, 2 * m, h / m, 2 * (h % m) + n % 2);
  }

  /** `Bits` reads the low bits only. */
  lemma {:induction false} BitsMod(n: nat, width: nat)
    ensures Bits(n % Pow(width), width) == Bits(n, width)
  {
    if width > 0 {
      HalfMod(n, Pow(width - 1));
      BitsMod(n / 2, width - 1);
    }
  }

  // ---------------------------------------------------------------------------
  // What the shifts do to the pending bits
  // ---------------------------------------------------------------------------

  /** Pushing `k` bits appends them; that the accumulator wraps at 32 bits is never seen. */
  lemma PushBits(value: nat, bits: nat, k: nat, low: nat)
    requires bits + k <= 32 && low < Pow(k)
    ensures Pending(value * Pow(k) % WORD + low, bits + k) == Pending(value, bits) + Bits(low, k)
  {
    PushValue(value, bits, k, low);
    BitsJoin(value % Pow(bits), low, bits, k);
    BitsMod(value * Pow(k) % WORD + low, bits + k);
    BitsMod(value, bits);
  }

  lemma PushValue(value: nat, bits: nat, k: nat, low: nat)
    requires bits + k <= 32 && low < Pow(k)
    ensures (value * Pow(k) % WORD + low) % Pow(bits + k) == value % Pow(bits) * Pow(k) + low
  {
    Pows();
    PowAdd(bits, k);
    PowAdd(bits + k, 32 - bits - k);
    PushLow(value, Pow(k), Pow(bits), Pow(32 - bits - k), low);
  }

  lemma PushByteBits(value: nat, bits: nat, byte: Byte)
    requires bits <= 24
    ensures Pending(PushByte(value, byte), bits + 8) == Pending(value, bits) + Bits(byte, 8)
  {
    Pows();
    PushBits(value, bits, 8, byte);
  }

  lemma PushSymbolBits(value: nat, bits: nat, symbol: Symbol)
    requires bits <= 27
    ensures Pending(PushSymbol(value, symbol), bits + 5) == Pending(value, bits) + Bits(symbol, 5)
  {
    Pows();
    PushBits(value, bits, 5, symbol);
  }

  /** Taking the top `k` pending bits leaves the others pending. */
  lemma TakeBits(value: nat, bits: nat, k: nat)
    requires k <= bits
    ensures Pending(value, bits) == Bits(value / Pow(bits - k) % Pow(k), k) + Pending(value, bits - k)
  {
    PowAdd(k, bits - k);
    TakeHigh(value, Pow(k), Pow(bits - k));
    BitsJoin(value / Pow(bits - k) % Pow(k), value % Pow(bits - k), k, bits - k);
    BitsMod(value, bits);
    BitsMod(value, bits - k);
  }

  /** The last symbol carries what is pending and is filled up with zeros. */
  lemma LastSymbolBits(value: nat, bits: nat)
    requires 1 <= bits <= 4
    ensures Bits(LastSymbol(value, 5 - bits), 5) == Pending(value, bits) + Zeros(5 - bits)
  {
    Pows();
    PushBits(value, bits, 5 - bits, 0);
    BitsMod(value * Pow(5 - bits) % WORD, 5);
    ZeroBits(5 - bits);
  }

  lemma {:induction false} ZeroBits(n: nat)
    ensures Bits(0, n) == Zeros(n)
  {
    if n > 0 { ZeroBits(n - 1); }
  }

  // ---------------------------------------------------------------------------
  // Encoding
  // ---------------------------------------------------------------------------

  /** What has been written and what is still pending spell what has been read. */
  ghost predicate Spelled(read: seq<bool>, written: seq<bool>, value: nat, bits: nat) {
    read == written + Pending(value, bits)
  }

  lemma PushByteSpells(read: seq<bool>, written: seq<bool>, value: nat, bits: nat, byte: Byte)
    requires bits <= 4 && Spelled(read, written, value, bits)
    ensures Spelled(read + Bits(byte, 8), written, PushByte(value, byte), bits + 8)
  {
    PushByteBits(value, bits, byte);
  }

  lemma TakeSymbolSpells(read: seq<bool>, output: seq<Symbol>, value: nat, bits: nat)
    requires bits >= 5 && Spelled(read, SymbolBits(output), value, bits)
    ensures Spelled(read, SymbolBits(output + [TakeSymbol(value, bits - 5)]), value, bits - 5)
  {
    Pows();
    TakeBits(value, bits, 5);
  }

  lemma LastSymbolSpells(read: seq<bool>, output: seq<Symbol>, value: nat, bits: nat)
    requires 1 <= bits <= 4 && Spelled(read, SymbolBits(output), value, bits)
    ensures SymbolBits(output + [LastSymbol(value, 5 - bits)]) == read + Zeros(5 - bits)
  {
    LastSymbolBits(value, bits);
  }

  /** The inner loop of `base32Encode`: writes while five bits are pending. */
  method EmitSymbols(output0: seq<Symbol>, value: nat, bits0: nat, ghost read: seq<bool>)
    returns (output: seq<Symbol>, bits: nat)
    requires Spelled(read, SymbolBits(output0), value, bits0)
    ensures bits < 5 && Spelled(read, SymbolBits(output), value, bits)
  {
    output, bits := output0, bits0;
    while bits >= 5
      invariant Spelled(read, SymbolBits(output), value, bits)
    {
      TakeSymbolSpells(read, output, value, bits);
      output := output + [TakeSymbol(value, bits - 5)];
      bits := bits - 5;
    }
  }

  /** The outer loop of `base32Encode`, as far as the symbols; the alphabet is applied below. */
  method EncodeSymbols(buffer: seq<Byte>) returns (output: seq<Symbol>)
    ensures Encodes(buffer, output)
  {
    var bits: nat, value: nat := 0, 0;
    output := [];
    ghost var read: seq<bool> := [];
    for i := 0 to |buffer|
      invariant bits < 5
      invariant read == ByteBits(buffer[..i])
      invariant Spelled(read, SymbolBits(output), value, bits)
    {
      PushByteSpells(read, SymbolBits(output), value, bits, buffer[i]);
      ByteBitsNext(buffer, i);
      read := read + Bits(buffer[i], 8);
      value := PushByte(value, buffer[i]);
      output, bits := EmitSymbols(output, value, bits + 8, read);
    }
    assert buffer[..|buffer|] == buffer;
    output := FlushSymbols(output, value, bits, read);
  }

  lemma ByteBitsNext(bytes: seq<Byte>, i: nat)
    requires i < |bytes|
    ensures ByteBits(bytes[..i + 1]) == ByteBits(bytes[..i]) + Bits(bytes[i], 8)
  {
    assert bytes[..i + 1][..i] == bytes[..i];
  }

  /** What is still pending goes into one last symbol, filled up with zeros. */
  method FlushSymbols(output0: seq<Symbol>, value: nat, bits: nat, ghost read: seq<bool>) returns (output: seq<Symbol>)
    requires bits <= 4 && Spelled(read, SymbolBits(output0), value, bits)
    ensures exists pad: nat :: pad < 5 && SymbolBits(output) == read + Zeros(pad)
  {
    output := output0;
    if bits > 0 {
      LastSymbolSpells(read, output, value, bits);
      output := output + [LastSymbol(value, 5 - bits)];
    } else {
      assert SymbolBits(output) == read + Zeros(0);
    }
  }

  // ---------------------------------------------------------------------------
  // Decoding
  // ---------------------------------------------------------------------------

  lemma PushSymbolSpells(read: seq<bool>, written: seq<bool>, value: nat, bits: nat, symbol: Symbol)
    requires bits <= 7 && Spelled(read, written, value, bits)
    ensures Spelled(read + Bits(symbol, 5), written, PushSymbol(value, symbol), bits + 5)
  {
    PushSymbolBits(value, bits, symbol);
  }

  lemma TakeByteSpells(read: seq<bool>, out: seq<Byte>, value: nat, bits: nat)
    requires bits >= 8 && Spelled(read, ByteBits(out), value, bits)
    ensures Spelled(read, ByteBits(out + [TakeByte(value, bits - 8)]), value, bits - 8)
  {
    Pows();
    TakeBits(value, bits, 8);
    assert (out + [TakeByte(value, bits - 8)])[..|out|] == out;
  }

  /** The loop of `base32Decode` on symbols already looked up. */
  method DecodeSymbols(symbols: seq<Symbol>) returns (out: seq<Byte>)
    ensures Decodes(symbols, out)
  {
    var bits: nat, value: nat := 0, 0;
    out := [];
    ghost var read: seq<bool> := [];
    for i := 0 to |symbols|
      invariant bits < 8
      invariant read == SymbolBits(symbols[..i])
      invariant Spelled(read, ByteBits(out), value, bits)
    {
      PushSymbolSpells(read, ByteBits(out), value, bits, symbols[i]);
      SymbolBitsNext(symbols, i);
      read := read + Bits(symbols[i], 5);
      value := PushSymbol(value, symbols[i]);
      bits := bits + 5;
      if bits >= 8 {
        TakeByteSpells(read, out, value, bits);
        out := out + [TakeByte(value, bits - 8)];
        bits := bits - 8;
      }
    }
    assert symbols[..|symbols|] == symbols;
    SpelledDecodes(symbols, out, value, bits);
  }

  lemma SymbolBitsNext(symbols: seq<Symbol>, i: nat)
    requires i < |symbols|
    ensures SymbolBits(symbols[..i + 1]) == SymbolBits(symbols[..i]) + Bits(symbols[i], 5)
  {
    assert symbols[..i + 1][..i] == symbols[..i];
  }

  lemma SpelledDecodes(symbols: seq<Symbol>, out: seq<Byte>, value: nat, bits: nat)
    requires bits < 8 && Spelled(SymbolBits(symbols), ByteBits(out), value, bits)
    ensures Decodes(symbols, out)
  {
    assert |Pending(value, bits)| < 8;
  }

  // ---------------------------------------------------------------------------
  // The alphabet
  // ---------------------------------------------------------------------------

  /** Position of `c` in the alphabet: `BASE32_ALPHABET.indexOf`. */
  function IndexOf(c: char): Option<Symbol> {
    if 'A' <= c <= 'Z' then Some(c as int - 'A' as int)
    else if '2' <= c <= '7' then Some(c as int - '2' as int + 26)
    else None
  }

  /** `IndexOf` is the inverse of the alphabet of RFC 4648, table 3. */
  lemma AlphabetIndex(c: char, n: Symbol)
    ensures |ALPHABET| == 32
    ensures IndexOf(c) == Some(n) <==> ALPHABET[n] == c
  {
  }

  function Letters(symbols: seq<Symbol>): (s: string)
    ensures |s| == |symbols|
  {
    seq(|symbols|, i requires 0 <= i < |symbols| => ALPHABET[symbols[i]])
  }

  /** `base32Encode`. */
  method Base32Encode(buffer: seq<Byte>) returns (output: string)
    ensures exists symbols :: Encodes(buffer, symbols) && output == Letters(symbols)
    ensures |output| == (8 * |buffer| + 4) / 5
  {
    var symbols := EncodeSymbols(buffer);
    EncodingUnique(buffer, symbols, symbols);
    output := Letters(symbols);
  }

  predicate IsSpace(c: char) {
    || '\U{0009}' <= c <= '\U{000D}' || c == ' ' || c == '\U{00A0}' || c == '\U{1680}'
    || '\U{2000}' <= c <= '\U{200A}' || c == '\U{2028}' || c == '\U{2029}' || c == '\U{202F}'
    || c == '\U{205F}' || c == '\U{3000}' || c == '\U{FEFF}'
  }

  function Upper(c: char): char { if 'a' <= c <= 'z' then (c as int - 32) as char else c }

  function UpperCase(s: string): string { seq(|s|, i requires 0 <= i < |s| => Upper(s[i])) }

  function StripPadding(s: string): string {
    if |s| > 0 && s[|s| - 1] == '=' then StripPadding(s[..|s| - 1]) else s
  }

  function DropSpaces(s: string): string {
    if |s| == 0 then [] else DropSpaces(s[..|s| - 1]) + if IsSpace(s[|s| - 1]) then [] else [s[|s| - 1]]
  }

  /** Upper case, then trailing `=` off, then white space out: in that order. */
  function Clean(input: string): string { DropSpaces(StripPadding(UpperCase(input))) }

  ghost predicate Readable(clean: string) { forall c :: c in clean ==> IndexOf(c).Some? }

  function Symbols(clean: string): (symbols: seq<Symbol>)
    requires Readable(clean)
  {
    seq(|clean|, i requires 0 <= i < |clean| => assert clean[i] in clean; IndexOf(clean[i]).value)
  }

  /** `base32Decode`. */
  method Base32Decode(input: string) returns (result: Result<seq<Byte>, DecodeError>)
    ensures result.Ok? <==> Readable(Clean(input))
    ensures result.Ok? ==> Decodes(Symbols(Clean(input)), result.value)
  {
    var clean := Clean(input);
    var symbols: seq<Symbol> := [];
    for i := 0 to |clean|
      invariant Readable(clean[..i]) && symbols == Symbols(clean[..i])
    {
      var idx := IndexOf(clean[i]);
      if idx.None? {
        assert clean[i] in clean;
        return Err(InvalidCharacter);
      }
      assert clean[..i + 1] == clean[..i] + [clean[i]];
      symbols := symbols + [idx.value];
    }
    assert clean[..|clean|] == clean;
    var out := DecodeSymbols(symbols);
    result := Ok(out);
  }

  // ---------------------------------------------------------------------------
  // Round trips
  // ---------------------------------------------------------------------------

  lemma LettersRead(symbols: seq<Symbol>)
    ensures Readable(Letters(symbols)) && Symbols(Letters(symbols)) == symbols
  {
    forall i | 0 <= i < |symbols| ensures IndexOf(Letters(symbols)[i]) == Some(symbols[i]) {
      AlphabetIndex(ALPHABET[symbols[i]], symbols[i]);
    }
  }

  lemma {:induction false} DropSpacesNone(s: string)
    requires forall c :: c in s ==> !IsSpace(c)
    ensures DropSpaces(s) == s
  {
    if |s| > 0 {
      DropSpacesNone(s[..|s| - 1]);
      assert s == s[..|s| - 1] + [s[|s| - 1]];
    }
  }

  lemma {:induction false} StripPaddingOff(s: string, pad: nat)
    requires |s| == 0 || s[|s| - 1] != '='
    ensures StripPadding(s + seq(pad, i => '=')) == s
  {
    var padded := s + seq(pad, i => '=');
    if pad > 0 {
      assert padded[..|padded| - 1] == s + seq(pad - 1, i => '=');
      StripPaddingOff(s, pad - 1);
    } else {
      assert padded == s;
    }
  }

  lemma LettersClean(symbols: seq<Symbol>, pad: nat)
    ensures Clean(Letters(symbols) + seq(pad, i => '=')) == Letters(symbols)
  {
    var s := Letters(symbols);
    var padded := s + seq(pad, i => '=');
    forall c | c in s ensures Upper(c) == c && !IsSpace(c) && c != '=' {
      var i :| 0 <= i < |s| && s[i] == c;
      AlphabetIndex(c, symbols[i]);
    }
    assert UpperCase(padded) == padded by {
      forall i | 0 <= i < |padded| ensures Upper(padded[i]) == padded[i] {
        if i < |s| { assert padded[i] in s; }
      }
    }
    assert |s| > 0 ==> s[|s| - 1] in s;
    StripPaddingOff(s, pad);
    DropSpacesNone(s);
  }

  /**
   * Decoding an encoding gives the bytes back, for every byte sequence, and
   * also when the padding RFC 4648 asks for has been added to it.
   */
  lemma EncodeDecodes(bytes: seq<Byte>, symbols: seq<Symbol>, pad: nat, decoded: seq<Byte>)
    requires Encodes(bytes, symbols)
    ensures Readable(Clean(Letters(symbols) + seq(pad, i => '=')))
    ensures Decodes(Symbols(Clean(Letters(symbols) + seq(pad, i => '='))), decoded) <==> decoded == bytes
  {
    LettersClean(symbols, pad);
    LettersRead(symbols);
    if Decodes(symbols, decoded) { DecodingUnique(symbols, decoded, bytes); }
  }

  method RoundTrip(bytes: seq<Byte>) returns (result: Result<seq<Byte>, DecodeError>)
    ensures result == Ok(bytes)
  {
    var encoded := Base32Encode(bytes);
    ghost var symbols :| Encodes(bytes, symbols) && encoded == Letters(symbols);
    assert encoded + seq(0, i => '=') == encoded;
    result := Base32Decode(encoded);
    EncodeDecodes(bytes, symbols, 0, bytes);
    EncodeDecodes(bytes, symbols, 0, result.value);
  }

  /**
   * The other way round holds exactly for canonical text: encoding what was
   * decoded gives the same symbols if and only if the bits beyond the last
   * whole byte are fewer than five and all zero.
   */
  lemma DecodeEncodesIff(symbols: seq<Symbol>, bytes: seq<Byte>)
    requires Decodes(symbols, bytes)
    ensures Encodes(bytes, symbols) <==>
      var rest := SymbolBits(symbols)[8 * |bytes|..]; |rest| < 5 && rest == Zeros(|rest|)
  {
    var rest: seq<bool> :| |rest| < 8 && SymbolBits(symbols) == ByteBits(bytes) + rest;
    assert SymbolBits(symbols)[8 * |bytes|..] == rest;
    if Encodes(bytes, symbols) {
      var pad: nat :| pad < 5 && SymbolBits(symbols) == ByteBits(bytes) + Zeros(pad);
      SameHalves(ByteBits(bytes), rest, ByteBits(bytes), Zeros(pad));
    }
  }
}
