/** src/totp.ts:11-54: base32 with padding (section 6 of RFC 4648).

    The accumulator is a JavaScript 32-bit integer that is never masked down;
    here it is the unsigned reading of those 32 bits. */
module Base32 {
  import opened Core

  type Byte = b: int | 0 <= b < 256

  /** Bits in a byte, and in a symbol. */
  const BYTE: nat := 8
  const SYMBOL: nat := 5

  function Pow2(k: nat): (p: nat)
    ensures p >= 1
  {
    if k == 0 then 1 else 2 * Pow2(k - 1)
  }

  /** value >>> k */
  function Shr(value: nat, k: nat): nat {
    if k == 0 then value else Shr(value / 2, k - 1)
  }

  /** One bit shifted in at the bottom; the top bit of the 32 falls off. */
  function Shift1(value: nat, low: nat): nat {
    value * 2 % 0x1_0000_0000 + low % 2
  }

  /** (value << k) | low, for a low of at most k bits. */
  function ShiftIn(value: nat, k: nat, low: nat): nat
    requires low < Pow2(k)
  {
    if k == 0 then value else Shift1(ShiftIn(value, k - 1, low / 2), low)
  }

  /** BASE32_ALPHABET[i] */
  function Symbol(i: int): char
    requires 0 <= i < 32
  {
    if i < 26 then 'A' + i as char else '2' + (i - 26) as char
  }

  /** BASE32_ALPHABET.indexOf(c) */
  function IndexOf(c: char): int {
    if 'A' <= c <= 'Z' then (c - 'A') as int
    else if '2' <= c <= '7' then 26 + (c - '2') as int
    else -1
  }

  /** The alphabet of section 6 of RFC 4648, as the source spells it. */
  const ALPHABET := "ABCDEFGHIJKLMNOPQRSTUVWXYZ234567"

  lemma SymbolInAlphabet(i: int)
    requires 0 <= i < 32
    ensures |ALPHABET| == 32 && Symbol(i) == ALPHABET[i] && IndexOf(ALPHABET[i]) == i
  {
  }

  /** indexOf: the place of a character in the alphabet, or -1 for none. */
  lemma IndexInAlphabet(c: char)
    ensures |ALPHABET| == 32 && (c in ALPHABET <==> IndexOf(c) != -1)
    ensures c in ALPHABET ==> 0 <= IndexOf(c) < 32 && ALPHABET[IndexOf(c)] == c
  {
    if c in ALPHABET {
      var i :| 0 <= i < |ALPHABET| && ALPHABET[i] == c;
      SymbolInAlphabet(i);
    }
    if IndexOf(c) != -1 {
      SymbolInAlphabet(IndexOf(c));
    }
  }

  predicate AllSymbols(s: string) {
    forall i :: 0 <= i < |s| ==> IndexOf(s[i]) >= 0
  }

  // ---- What the two directions mean ------------------------------------------

  /** The k low bits of v, most significant first. */
  function Bits(v: nat, k: nat): (bits: seq<bool>)
    ensures |bits| == k
  {
    if k == 0 then [] else Bits(v / 2, k - 1) + [v % 2 == 1]
  }

  function Zeros(k: nat): seq<bool> {
    seq(k, _ => false)
  }

  function BitsOfBytes(bytes: seq<Byte>): (bits: seq<bool>)
    ensures |bits| == 8 * |bytes|
  {
    if bytes == [] then [] else BitsOfBytes(bytes[..|bytes| - 1]) + Bits(bytes[|bytes| - 1], BYTE)
  }

  function BitsOfSymbols(s: string): (bits: seq<bool>)
    requires AllSymbols(s)
    ensures |bits| == 5 * |s|
  {
    if s == "" then [] else BitsOfSymbols(s[..|s| - 1]) + Bits(IndexOf(s[|s| - 1]), SYMBOL)
  }

  function Padding(n: nat): string {
    seq(n, _ => '=')
  }

  /** Section 6 of RFC 4648: the bits of the input, zero-filled to whole 5-bit
      groups, one symbol a group, then padded to a multiple of eight. */
  ghost predicate Encodes(bytes: seq<Byte>, symbols: string, fill: nat, pad: nat) {
    && AllSymbols(symbols)
    && fill < 5 && BitsOfSymbols(symbols) == BitsOfBytes(bytes) + Zeros(fill)
    && pad < 8 && (|symbols| + pad) % 8 == 0
  }

  ghost predicate IsEncoding(bytes: seq<Byte>, s: string) {
    exists symbols, fill, pad :: Encodes(bytes, symbols, fill, pad) && s == symbols + Padding(pad)
  }

  function Upper(s: string): string {
    seq(|s|, i requires 0 <= i < |s| => if 'a' <= s[i] <= 'z' then s[i] - 'a' + 'A' else s[i])
  }

  function WithoutPadding(s: string): string {
    if s != "" && s[|s| - 1] == '=' then WithoutPadding(s[..|s| - 1]) else s
  }

  function WithoutSpace(s: string): string {
    if s == "" then ""
    else WithoutSpace(s[..|s| - 1]) + if IsSpace(s[|s| - 1]) then "" else [s[|s| - 1]]
  }

  function Clean(input: string): string {
    WithoutSpace(WithoutPadding(Upper(input)))
  }

  /** None when a character is not in the alphabet; otherwise the whole bytes
      of the bit string, the last bits that fill no byte dropped. */
  ghost predicate IsDecoding(input: string, r: Option<seq<Byte>>) {
    var clean := Clean(input);
    if !AllSymbols(clean) then r == None
    else
      && r.Some?
      && 5 * |clean| - 8 * |r.value| < 8
      && BitsOfBytes(r.value) <= BitsOfSymbols(clean)
  }

  // ---- What decoding overlooks -------------------------------------------------

  lemma {:induction false} SpaceSplits(a: string, b: string)
    ensures WithoutSpace(a + b) == WithoutSpace(a) + WithoutSpace(b)
  {
    if b == "" {
      assert a + b == a;
    } else {
      var n := |b| - 1;
      SpaceSplits(a, b[..n]);
      assert (a + b)[..|a| + n] == a + b[..n];
    }
  }

  lemma SpaceAlone(c: char)
    ensures WithoutSpace([c]) == if IsSpace(c) then "" else [c]
  {
    assert [c][..0] == "";
  }

  lemma {:induction false} PaddingGoes(s: string, n: nat)
    ensures WithoutPadding(s + Padding(n)) == WithoutPadding(s)
  {
    if n == 0 {
      assert s + Padding(n) == s;
    } else {
      PaddingGoes(s, n - 1);
      OnePadGoes(s + Padding(n - 1));
      assert s + Padding(n) == (s + Padding(n - 1)) + ['='];
    }
  }

  lemma {:induction false} OnePadGoes(s: string)
    ensures WithoutPadding(s + ['=']) == WithoutPadding(s)
  {
    var t := s + ['='];
    assert t[..|t| - 1] == s;
  }

  lemma {:induction false} InkKeepsPadding(s: string)
    requires s == "" || s[|s| - 1] != '='
    ensures WithoutPadding(s) == s
  {
  }

  lemma UpperThrough(a: string, space: char, b: string, n: nat)
    requires IsSpace(space)
    ensures Upper(a + [space] + b + Padding(n)) == Upper(a) + [space] + Upper(b) + Padding(n)
    ensures Upper(a + b) == Upper(a) + Upper(b) == Upper(Upper(a + b))
  {
  }

  /** Text that ends in a symbol decodes alike in either case, with white space
      anywhere inside it, and with any padding after it. */
  lemma DecodingOverlooks(a: string, space: char, b: string, n: nat)
    requires IsSpace(space) && b != "" && b[|b| - 1] != '='
    ensures Clean(a + [space] + b + Padding(n)) == Clean(a + b) == Clean(Upper(a + b))
  {
    var x, y := Upper(a), Upper(b);
    UpperThrough(a, space, b, n);
    PaddingGoes(x + [space] + y, n);
    InkKeepsPadding(x + [space] + y);
    InkKeepsPadding(x + y);
    SpaceSplits(x + [space], y);
    SpaceSplits(x, [space]);
    SpaceSplits(x, y);
    SpaceAlone(space);
  }

  /** The same text in either case. */
  ghost predicate SameLetters(s: string, t: string) {
    |s| == |t| && forall i :: 0 <= i < |s| ==> s[i] == t[i] || (s[i], t[i]) in LETTERS || (t[i], s[i]) in LETTERS
  }

  ghost const LETTERS: set<(char, char)> := set c: char | 'A' <= c <= 'Z' :: (c, c - 'A' + 'a')

  /** Letters of either case decode alike. */
  lemma {:induction false} CaseOverlooked(s: string, t: string)
    requires SameLetters(s, t)
    ensures Clean(s) == Clean(t)
  {
    assert Upper(s) == Upper(t);
  }

  /** White space after padding is not overlooked: the padding before it stays, and
      no byte sequence decodes from it. */
  lemma SpaceAfterPaddingRejects(s: string, space: char, r: Option<seq<Byte>>)
    requires IsSpace(space) && IsDecoding(s + "=" + [space], r)
    ensures r == None
  {
    var text := Upper(s + "=" + [space]);
    assert text == Upper(s) + "=" + [space];
    InkKeepsPadding(text);
    SpaceSplits(Upper(s) + "=", [space]);
    SpaceSplits(Upper(s), "=");
    SpaceAlone('=');
    SpaceAlone(space);
    var clean := Clean(s + "=" + [space]);
    assert clean == WithoutSpace(Upper(s)) + "=";
    assert clean[|clean| - 1] == '=' && IndexOf('=') == -1;
  }

  // ---- Shifting and bits -----------------------------------------------------

  lemma {:induction false} HighPartInvisible(high: nat, low: nat, m: nat, k: nat)
    requires k <= m
    ensures Bits(high * Pow2(m) + low, k) == Bits(low, k)
  {
    if k > 0 {
      var half := high * Pow2(m - 1);
      assert high * Pow2(m) == 2 * half;
      HighPartInvisible(high, low / 2, m - 1, k - 1);
    }
  }

  lemma {:induction false} LowBitsSurviveWrap(v: nat, m: nat, k: nat)
    requires k <= m
    ensures Bits(v % Pow2(m), k) == Bits(v, k)
  {
    var q, r := QuotientAndRemainder(v, Pow2(m));
    HighPartInvisible(q, r, m, k);
  }

  lemma QuotientAndRemainder(v: nat, p: nat) returns (q: nat, r: nat)
    requires p > 0
    ensures v == q * p + r && r == v % p
  {
    q, r := v / p, v % p;
  }

  lemma {:induction false} Shift1Parts(v: nat, low: nat)
    ensures Shift1(v, low) / 2 == v % 0x8000_0000 && Shift1(v, low) % 2 == low % 2
  {
  }

  lemma {:induction false} Shift1Appends(v: nat, k: nat, low: nat)
    requires k <= 31
    ensures Bits(Shift1(v, low), k + 1) == Bits(v, k) + [low % 2 == 1]
  {
    Word();
    Shift1Parts(v, low);
    LowBitsSurviveWrap(v, 31, k);
  }

  /** Shifting j bits in extends the low bits held, while they fit in the word. */
  lemma {:induction false} ShiftInAppends(v: nat, k: nat, j: nat, low: nat)
    requires k + j <= 32 && low < Pow2(j)
    ensures Bits(ShiftIn(v, j, low), k + j) == Bits(v, k) + Bits(low, j)
  {
    if j > 0 {
      ShiftInAppends(v, k, j - 1, low / 2);
      Shift1Appends(ShiftIn(v, j - 1, low / 2), k + j - 1, low);
    }
  }

  lemma {:induction false} ShiftOutSplits(v: nat, k: nat, j: nat)
    ensures Bits(v, k + j) == Bits(Shr(v, j), k) + Bits(v, j)
  {
    if j > 0 {
      ShiftOutSplits(v / 2, k, j - 1);
    }
  }

  lemma {:induction false} ZeroBits(k: nat)
    ensures Bits(0, k) == Zeros(k)
  {
    if k > 0 {
      ZeroBits(k - 1);
    }
  }

  lemma {:induction false} Pow2Adds(a: nat, b: nat)
    ensures Pow2(a + b) == Pow2(a) * Pow2(b)
  {
    if b > 0 {
      Pow2Adds(a, b - 1);
      assert Pow2(a) * (2 * Pow2(b - 1)) == 2 * (Pow2(a) * Pow2(b - 1));
    }
  }

  lemma Word()
    ensures Pow2(31) == 0x8000_0000
  {
    assert Pow2(7) == 128 && Pow2(8) == 256;
    Pow2Adds(8, 8);
    Pow2Adds(16, 8);
    Pow2Adds(24, 7);
  }

  lemma Powers()
    ensures Pow2(SYMBOL) == 32 && Pow2(BYTE) == 256
  {
    assert Pow2(5) == 32 && Pow2(8) == 256;
  }

  lemma {:induction false} BytesAppend(bytes: seq<Byte>, b: Byte)
    ensures BitsOfBytes(bytes + [b]) == BitsOfBytes(bytes) + Bits(b, BYTE)
  {
    assert (bytes + [b])[..|bytes|] == bytes;
  }

  lemma {:induction false} LowSymbol(v: nat)
    ensures Bits(v % 32, SYMBOL) == Bits(v, SYMBOL)
  {
    Powers();
    LowBitsSurviveWrap(v, SYMBOL, SYMBOL);
  }

  lemma {:induction false} LowByte(v: nat)
    ensures Bits(v % 256, BYTE) == Bits(v, BYTE)
  {
    Powers();
    LowBitsSurviveWrap(v, BYTE, BYTE);
  }

  lemma SymbolIndex(i: int)
    requires 0 <= i < 32
    ensures IndexOf(Symbol(i)) == i
  {
  }

  lemma {:induction false} SymbolsAppend(s: string, v: nat)
    requires AllSymbols(s)
    ensures AllSymbols(s + [Symbol(v % 32)])
    ensures BitsOfSymbols(s + [Symbol(v % 32)]) == BitsOfSymbols(s) + Bits(v, SYMBOL)
  {
    var c := Symbol(v % 32);
    SymbolIndex(v % 32);
    LowSymbol(v);
    var next := s + [c];
    assert next[..|s|] == s && next[|s|] == c;
  }

  // ---- The loops -------------------------------------------------------------

  /** `done` and then the low `bits` bits of the accumulator are exactly `all`. */
  ghost predicate Holds(done: seq<bool>, value: nat, bits: nat, all: seq<bool>) {
    done + Bits(value, bits) == all
  }

  lemma {:induction false} Take(done: seq<bool>, value: nat, bits: nat, all: seq<bool>, k: nat, low: nat)
    requires bits + k <= 32 && low < Pow2(k)
    requires Holds(done, value, bits, all)
    ensures Holds(done, ShiftIn(value, k, low), bits + k, all + Bits(low, k))
  {
    ShiftInAppends(value, bits, k, low);
  }

  lemma Give(done: seq<bool>, value: nat, bits: nat, all: seq<bool>, k: nat)
    requires k <= bits && Holds(done, value, bits, all)
    ensures Holds(done + Bits(Shr(value, bits - k), k), value, bits - k, all)
  {
    ShiftOutSplits(value, k, bits - k);
  }

  lemma {:induction false} TakeByte(done: seq<bool>, value: nat, bits: nat, buf: seq<Byte>, i: nat)
    requires bits < 5 && i < |buf|
    requires Holds(done, value, bits, BitsOfBytes(buf[..i]))
    ensures buf[i] < Pow2(BYTE)
    ensures Holds(done, ShiftIn(value, BYTE, buf[i]), bits + 8, BitsOfBytes(buf[..i + 1]))
  {
    Powers();
    assert buf[..i + 1] == buf[..i] + [buf[i]];
    BytesAppend(buf[..i], buf[i]);
    Take(done, value, bits, BitsOfBytes(buf[..i]), BYTE, buf[i]);
  }

  lemma {:induction false} GiveSymbol(output: string, value: nat, bits: nat, all: seq<bool>)
    requires bits >= 5 && AllSymbols(output) && Holds(BitsOfSymbols(output), value, bits, all)
    ensures var next := output + [Symbol(Shr(value, bits - 5) % 32)];
            AllSymbols(next) && Holds(BitsOfSymbols(next), value, bits - 5, all)
  {
    var high := Shr(value, bits - 5);
    Give(BitsOfSymbols(output), value, bits, all, SYMBOL);
    SymbolsAppend(output, high);
  }

  lemma {:induction false} GiveLastSymbol(output: string, value: nat, bits: nat, all: seq<bool>)
    requires 0 < bits < 5 && AllSymbols(output) && Holds(BitsOfSymbols(output), value, bits, all)
    ensures var next := output + [Symbol(ShiftIn(value, 5 - bits, 0) % 32)];
            AllSymbols(next) && BitsOfSymbols(next) == all + Zeros(5 - bits)
  {
    var fill := 5 - bits;
    Take(BitsOfSymbols(output), value, bits, all, fill, 0);
    ZeroBits(fill);
    SymbolsAppend(output, ShiftIn(value, fill, 0));
  }

  lemma IndexRange(c: char)
    ensures -1 <= IndexOf(c) < 32
  {
  }

  lemma SymbolsExtend(s: string, i: nat)
    requires i < |s| && AllSymbols(s[..i]) && IndexOf(s[i]) >= 0
    ensures AllSymbols(s[..i + 1])
    ensures BitsOfSymbols(s[..i + 1]) == BitsOfSymbols(s[..i]) + Bits(IndexOf(s[i]), SYMBOL)
  {
    assert s[..i + 1][..i] == s[..i];
  }

  lemma {:induction false} TakeSymbol(done: seq<bool>, value: nat, bits: nat, s: string, i: nat)
    requires bits < 8 && i < |s| && AllSymbols(s[..i]) && IndexOf(s[i]) >= 0
    requires Holds(done, value, bits, BitsOfSymbols(s[..i]))
    ensures IndexOf(s[i]) < Pow2(SYMBOL) && AllSymbols(s[..i + 1])
    ensures Holds(done, ShiftIn(value, SYMBOL, IndexOf(s[i])), bits + 5, BitsOfSymbols(s[..i + 1]))
  {
    Powers();
    IndexRange(s[i]);
    SymbolsExtend(s, i);
    Take(done, value, bits, BitsOfSymbols(s[..i]), SYMBOL, IndexOf(s[i]));
  }

  lemma GiveByte(bytes: seq<Byte>, value: nat, bits: nat, all: seq<bool>)
    requires bits >= 8 && Holds(BitsOfBytes(bytes), value, bits, all)
    ensures Holds(BitsOfBytes(bytes + [Shr(value, bits - 8) % 256]), value, bits - 8, all)
  {
    Give(BitsOfBytes(bytes), value, bits, all, BYTE);
    LowByte(Shr(value, bits - 8));
    BytesAppend(bytes, Shr(value, bits - 8) % 256);
  }

  method Encode(buf: seq<Byte>) returns (output: string)
    ensures IsEncoding(buf, output)
  {
    var bits, value := 0, 0;
    output := "";
    for i := 0 to |buf|
      invariant 0 <= bits < 5 && AllSymbols(output)
      invariant Holds(BitsOfSymbols(output), value, bits, BitsOfBytes(buf[..i]))
    {
      TakeByte(BitsOfSymbols(output), value, bits, buf, i);
      value := ShiftIn(value, BYTE, buf[i]);
      bits := bits + 8;
      output, bits := GiveSymbols(output, value, bits, BitsOfBytes(buf[..i + 1]));
    }
    assert buf[..|buf|] == buf;
    ghost var fill := if bits > 0 then 5 - bits else 0;
    if bits > 0 {
      GiveLastSymbol(output, value, bits, BitsOfBytes(buf));
      output := output + [Symbol(ShiftIn(value, 5 - bits, 0) % 32)];
    } else {
      NothingLeft(output, value, BitsOfBytes(buf));
    }
    output := Pad(output, buf, fill);
  }

  /** The inner loop: as many symbols as the bits held make up. */
  method GiveSymbols(done: string, value: nat, held: nat, ghost all: seq<bool>) returns (output: string, bits: nat)
    requires AllSymbols(done) && Holds(BitsOfSymbols(done), value, held, all)
    ensures bits < 5 && AllSymbols(output) && Holds(BitsOfSymbols(output), value, bits, all)
  {
    output, bits := done, held;
    while bits >= 5
      invariant AllSymbols(output) && Holds(BitsOfSymbols(output), value, bits, all)
    {
      GiveSymbol(output, value, bits, all);
      output := output + [Symbol(Shr(value, bits - 5) % 32)];
      bits := bits - 5;
    }
  }

  lemma {:induction false} NothingLeft(output: string, value: nat, all: seq<bool>)
    requires AllSymbols(output) && Holds(BitsOfSymbols(output), value, 0, all)
    ensures BitsOfSymbols(output) == all + Zeros(0)
  {
  }

  /** The closing loop: '=' up to a multiple of eight characters. */
  method Pad(symbols: string, ghost buf: seq<Byte>, ghost fill: nat) returns (output: string)
    requires AllSymbols(symbols) && fill < 5 && BitsOfSymbols(symbols) == BitsOfBytes(buf) + Zeros(fill)
    ensures IsEncoding(buf, output)
  {
    ghost var pad, goal := 0, PaddingLength(|symbols|);
    output := symbols;
    while |output| % 8 != 0
      invariant output == symbols + Padding(pad) && pad <= goal
      decreases goal - pad
    {
      output := output + "=";
      pad := pad + 1;
    }
    PaddedEncodes(buf, symbols, fill, pad);
  }

  function PaddingLength(n: nat): (pad: nat)
    ensures pad < 8 && (n + pad) % 8 == 0
  {
    (8 - n % 8) % 8
  }

  lemma PaddedEncodes(buf: seq<Byte>, symbols: string, fill: nat, pad: nat)
    requires Encodes(buf, symbols, fill, pad)
    ensures IsEncoding(buf, symbols + Padding(pad))
  {
  }

  method Decode(input: string) returns (r: Option<seq<Byte>>)
    ensures IsDecoding(input, r)
  {
    var clean := Clean(input);
    var bits, value := 0, 0;
    var bytes: seq<Byte> := [];
    for i := 0 to |clean|
      invariant 0 <= bits < 8 && AllSymbols(clean[..i])
      invariant Holds(BitsOfBytes(bytes), value, bits, BitsOfSymbols(clean[..i]))
    {
      var idx := IndexOf(clean[i]);
      if idx == -1 {
        return None;
      }
      TakeSymbol(BitsOfBytes(bytes), value, bits, clean, i);
      value := ShiftIn(value, SYMBOL, idx);
      bits := bits + 5;
      if bits >= 8 {
        GiveByte(bytes, value, bits, BitsOfSymbols(clean[..i + 1]));
        bytes := bytes + [Shr(value, bits - 8) % 256];
        bits := bits - 8;
      }
    }
    assert clean[..|clean|] == clean;
    WholeBytes(input, bytes, value, bits);
    return Some(bytes);
  }

  lemma {:induction false} WholeBytes(input: string, bytes: seq<Byte>, value: nat, bits: nat)
    requires bits < 8 && AllSymbols(Clean(input))
    requires Holds(BitsOfBytes(bytes), value, bits, BitsOfSymbols(Clean(input)))
    ensures IsDecoding(input, Some(bytes))
  {
  }

  // ---- The round trip --------------------------------------------------------

  lemma {:induction false} BitsDetermine(x: nat, y: nat, k: nat)
    requires x < Pow2(k) && y < Pow2(k) && Bits(x, k) == Bits(y, k)
    ensures x == y
  {
    if k > 0 {
      var a, b := Bits(x / 2, k - 1), Bits(y / 2, k - 1);
      assert Bits(x, k)[..k - 1] == a && Bits(y, k)[..k - 1] == b;
      assert Bits(x, k)[k - 1] == Bits(y, k)[k - 1];
      BitsDetermine(x / 2, y / 2, k - 1);
    }
  }

  lemma PartsAgree(a: seq<bool>, b: seq<bool>, c: seq<bool>, d: seq<bool>)
    requires a + b == c + d && |a| == |c|
    ensures a == c && b == d
  {
    assert a == (a + b)[..|a|] && b == (a + b)[|a|..];
  }

  lemma {:induction false} BytesDetermined(a: seq<Byte>, b: seq<Byte>)
    requires BitsOfBytes(a) == BitsOfBytes(b)
    ensures a == b
  {
    if a != [] {
      var n := |a| - 1;
      Powers();
      PartsAgree(BitsOfBytes(a[..n]), Bits(a[n], BYTE), BitsOfBytes(b[..n]), Bits(b[n], BYTE));
      BitsDetermine(a[n], b[n], 8);
      BytesDetermined(a[..n], b[..n]);
      assert a == a[..n] + [a[n]] && b == b[..n] + [b[n]];
    }
  }

  lemma {:induction false} SymbolsDetermined(s: string, t: string)
    requires AllSymbols(s) && AllSymbols(t) && BitsOfSymbols(s) == BitsOfSymbols(t)
    ensures s == t
  {
    if s != "" {
      var n := |s| - 1;
      Powers();
      PartsAgree(BitsOfSymbols(s[..n]), Bits(IndexOf(s[n]), SYMBOL),
                 BitsOfSymbols(t[..n]), Bits(IndexOf(t[n]), SYMBOL));
      BitsDetermine(IndexOf(s[n]), IndexOf(t[n]), 5);
      SymbolsDetermined(s[..n], t[..n]);
      assert s == s[..n] + [s[n]] && t == t[..n] + [t[n]];
    }
  }

  /** 5s = 8n + fill with fill < 5, and s + pad a multiple of 8, fix everything. */
  lemma GroupCounts(n: nat, s: nat, fill: nat, pad: nat)
    requires fill < 5 && 5 * s == 8 * n + fill && pad < 8 && (s + pad) % 8 == 0
    ensures s == (8 * n + 4) / 5 && s + pad == 8 * ((n + 4) / 5)
  {
  }

  lemma EncodesCounts(bytes: seq<Byte>, symbols: string, fill: nat, pad: nat)
    requires Encodes(bytes, symbols, fill, pad)
    ensures |symbols| == (8 * |bytes| + 4) / 5 && |symbols| + pad == 8 * ((|bytes| + 4) / 5)
    ensures 5 * |symbols| == 8 * |bytes| + fill
  {
    assert |BitsOfSymbols(symbols)| == |BitsOfBytes(bytes)| + fill;
    GroupCounts(|bytes|, |symbols|, fill, pad);
  }

  /** There is one encoding of given bytes. */
  lemma EncodingIsUnique(bytes: seq<Byte>, s: string, t: string)
    requires IsEncoding(bytes, s) && IsEncoding(bytes, t)
    ensures s == t
  {
    var a, fillA, padA :| Encodes(bytes, a, fillA, padA) && s == a + Padding(padA);
    var b, fillB, padB :| Encodes(bytes, b, fillB, padB) && t == b + Padding(padB);
    EncodesCounts(bytes, a, fillA, padA);
    EncodesCounts(bytes, b, fillB, padB);
    SymbolsDetermined(a, b);
  }

  lemma {:induction false} CleanKeepsSymbols(symbols: string, pad: nat)
    requires AllSymbols(symbols)
    ensures Clean(symbols + Padding(pad)) == symbols
    decreases pad, |symbols|
  {
    var s := symbols + Padding(pad);
    assert Upper(s) == s;
    if pad > 0 {
      assert s[..|s| - 1] == symbols + Padding(pad - 1);
      assert Upper(s[..|s| - 1]) == s[..|s| - 1];
      CleanKeepsSymbols(symbols, pad - 1);
    } else {
      assert s == symbols;
      NoSpaceInSymbols(symbols);
    }
  }

  lemma SymbolsAreInk(c: char)
    requires IndexOf(c) >= 0
    ensures !IsSpace(c) && c != '='
  {
  }

  lemma {:induction false} NoSpaceInSymbols(symbols: string)
    requires AllSymbols(symbols)
    ensures WithoutSpace(symbols) == symbols && WithoutPadding(symbols) == symbols
  {
    if symbols != "" {
      var n := |symbols| - 1;
      SymbolsAreInk(symbols[n]);
      NoSpaceInSymbols(symbols[..n]);
      assert symbols == symbols[..n] + [symbols[n]];
    }
  }

  /** Decoding undoes encoding, for every byte sequence. */
  lemma DecodingUndoesEncoding(bytes: seq<Byte>, s: string, r: Option<seq<Byte>>)
    requires IsEncoding(bytes, s) && IsDecoding(s, r)
    ensures r == Some(bytes)
  {
    var symbols, fill, pad :| Encodes(bytes, symbols, fill, pad) && s == symbols + Padding(pad);
    CleanKeepsSymbols(symbols, pad);
    var all := BitsOfSymbols(symbols);
    assert |all| == 8 * |bytes| + fill;
    assert |r.value| == |bytes|;
    assert all[..8 * |bytes|] == BitsOfBytes(bytes);
    assert all[..8 * |bytes|] == BitsOfBytes(r.value);
    BytesDetermined(r.value, bytes);
  }

  /** An encoding is alphabet characters, then padding, in whole groups of eight. */
  lemma EncodingShape(bytes: seq<Byte>, s: string)
    requires IsEncoding(bytes, s)
    ensures |s| == 8 * ((|bytes| + 4) / 5)
    ensures exists n: nat :: n <= |s| && AllSymbols(s[..n]) && s[n..] == Padding(|s| - n)
  {
    var symbols, fill, pad :| Encodes(bytes, symbols, fill, pad) && s == symbols + Padding(pad);
    EncodesCounts(bytes, symbols, fill, pad);
    assert s[..|symbols|] == symbols && s[|symbols|..] == Padding(pad);
  }

  method RoundTrip(bytes: seq<Byte>) returns (back: Option<seq<Byte>>)
    ensures back == Some(bytes)
  {
    var s := Encode(bytes);
    back := Decode(s);
    DecodingUndoesEncoding(bytes, s, back);
  }
}
