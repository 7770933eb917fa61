/** The Base64 codec of FastDFS/common/fdfs_base64.c: any alphabet, line length and separator.
    Shifts and masks are written as multiplication, division and remainder by powers of two. */
module Base64 {
  import opened Sequences

  type Byte = x: int | 0 <= x < 256

  const IGNORE := -1
  const PAD := -2

  /** The three characters that base64_init_ex takes. */
  datatype Alphabet = Alphabet(plus: Byte, slash: Byte, pad: Byte)

  // ----------------------------------------------------------------- the two tables

  function CharOf(a: Alphabet, v: nat): Byte
    requires v < 64
  {
    if v < 26 then 65 + v else if v < 52 then 97 + (v - 26) else if v < 62 then 48 + (v - 52)
    else if v == 62 then a.plus else a.slash
  }

  /** The alphabet of section 4 of RFC 4648, up to its last two characters. */
  const LETTERS: string :=
    "ABCDEFGHIJKLM" + "NOPQRSTUVWXYZ" + "abcdefghijklm" + "nopqrstuvwxyz" + "0123456789"

  /** The character for a six-bit value. */
  ghost function Symbol(a: Alphabet, v: nat): int
    requires v < 64 && |LETTERS| == 62
  {
    if v < 62 then LETTERS[v] as int else if v == 62 then a.plus else a.slash
  }

  lemma Letters1(a: Alphabet, v: nat)
    requires v < 13
    ensures |"ABCDEFGHIJKLM"| == 13 && "ABCDEFGHIJKLM"[v] as int == CharOf(a, v)
  {
  }

  lemma Letters2(a: Alphabet, v: nat)
    requires v < 13
    ensures |"NOPQRSTUVWXYZ"| == 13 && "NOPQRSTUVWXYZ"[v] as int == CharOf(a, v + 13)
  {
  }

  lemma Letters3(a: Alphabet, v: nat)
    requires v < 13
    ensures |"abcdefghijklm"| == 13 && "abcdefghijklm"[v] as int == CharOf(a, v + 26)
  {
  }

  lemma Letters4(a: Alphabet, v: nat)
    requires v < 13
    ensures |"nopqrstuvwxyz"| == 13 && "nopqrstuvwxyz"[v] as int == CharOf(a, v + 39)
  {
  }

  lemma Letters5(a: Alphabet, v: nat)
    requires v < 10
    ensures |"0123456789"| == 10 && "0123456789"[v] as int == CharOf(a, v + 52)
  {
  }

  lemma SymbolIs(a: Alphabet, v: nat)
    requires v < 64
    ensures |LETTERS| == 62 && Symbol(a, v) == CharOf(a, v)
  {
    hide CharOf;
    Letters1(a, if v < 13 then v else 0);
    Letters2(a, if 13 <= v < 26 then v - 13 else 0);
    Letters3(a, if 26 <= v < 39 then v - 26 else 0);
    Letters4(a, if 39 <= v < 52 then v - 39 else 0);
    Letters5(a, if 52 <= v < 62 then v - 52 else 0);
    LastTwo(a);
  }

  lemma LastTwo(a: Alphabet)
    ensures CharOf(a, 62) == a.plus && CharOf(a, 63) == a.slash
  {
  }

  /** The last of the values below n that is written as `c`. */
  function LastValue(a: Alphabet, c: Byte, n: nat): int
    requires n <= 64
  {
    if n == 0 then IGNORE else if CharOf(a, n - 1) == c then n - 1 else LastValue(a, c, n - 1)
  }

  function ValueOf(a: Alphabet, c: Byte): int {
    if c == a.pad then PAD else LastValue(a, c, 64)
  }

  predicate Alphanumeric(c: Byte) {
    65 <= c <= 90 || 97 <= c <= 122 || 48 <= c <= 57
  }

  predicate Good(a: Alphabet) {
    && a.plus != a.slash && a.plus != a.pad && a.slash != a.pad
    && !Alphanumeric(a.plus) && !Alphanumeric(a.slash) && !Alphanumeric(a.pad)
  }

  /** Every value is read back from its character. */
  ghost predicate Inverts(a: Alphabet) {
    forall v: nat :: v < 64 ==> ValueOf(a, CharOf(a, v)) == v
  }

  lemma {:induction false} LastValueIs(a: Alphabet, c: Byte, n: nat)
    requires n <= 64
    ensures var v := LastValue(a, c, n);
            if v == IGNORE then forall k: nat :: k < n ==> CharOf(a, k) != c
            else 0 <= v < n && CharOf(a, v) == c && forall k: nat :: v < k < n ==> CharOf(a, k) != c
  {
    if n > 0 { LastValueIs(a, c, n - 1); }
  }

  lemma AlphanumericValue(a: Alphabet, c: Byte)
    ensures Alphanumeric(c) <==> exists k: nat :: k < 62 && CharOf(a, k) == c
  {
    if 65 <= c <= 90 { assert CharOf(a, c - 65) == c; }
    if 97 <= c <= 122 { assert CharOf(a, c - 97 + 26) == c; }
    if 48 <= c <= 57 { assert CharOf(a, c - 48 + 52) == c; }
  }

  lemma GoodInverts(a: Alphabet)
    ensures Good(a) <==> Inverts(a)
  {
    AlphanumericValue(a, a.plus);
    AlphanumericValue(a, a.slash);
    AlphanumericValue(a, a.pad);
    assert CharOf(a, 62) == a.plus && CharOf(a, 63) == a.slash;
    forall v: nat | v < 64 ensures Good(a) ==> ValueOf(a, CharOf(a, v)) == v {
      LastValueIs(a, CharOf(a, v), 64);
    }
    if Inverts(a) {
      forall v: nat, w: nat | v < w < 64 ensures CharOf(a, v) != CharOf(a, w) {
        assert ValueOf(a, CharOf(a, v)) == v && ValueOf(a, CharOf(a, w)) == w;
      }
      forall v: nat | v < 64 ensures CharOf(a, v) != a.pad {
        assert ValueOf(a, CharOf(a, v)) == v;
      }
    }
  }

  ghost predicate Tables(a: Alphabet, v2c: seq<Byte>, c2v: seq<int>) {
    && |v2c| == 64 && |c2v| == 256
    && (forall v: nat :: v < 64 ==> v2c[v] == CharOf(a, v))
    && (forall c: Byte :: c2v[c] == ValueOf(a, c))
  }

  /** The table-filling loops of base64_init_ex. */
  method BuildTables(a: Alphabet) returns (v2c: seq<Byte>, c2v: seq<int>)
    ensures Tables(a, v2c, c2v) && |LETTERS| == 62
    ensures v2c[62] == a.plus && v2c[63] == a.slash && forall v: nat :: v < 62 ==> v2c[v] == LETTERS[v] as int
  {
    v2c := seq(64, _ => 0);
    for i := 0 to 26
      invariant |v2c| == 64 && forall v: nat :: v < i ==> v2c[v] == CharOf(a, v)
    {
      v2c := v2c[i := 65 + i];
    }
    for i := 0 to 26
      invariant |v2c| == 64 && forall v: nat :: v < i + 26 ==> v2c[v] == CharOf(a, v)
    {
      v2c := v2c[i + 26 := 97 + i];
    }
    for i := 0 to 10
      invariant |v2c| == 64 && forall v: nat :: v < i + 52 ==> v2c[v] == CharOf(a, v)
    {
      v2c := v2c[i + 52 := 48 + i];
    }
    v2c := v2c[62 := a.plus][63 := a.slash];

    c2v := seq(256, _ => 0);
    for i := 0 to 256
      invariant |c2v| == 256 && forall c: Byte :: c < i ==> c2v[c] == IGNORE
    {
      c2v := c2v[i := IGNORE];
    }
    for i := 0 to 64
      invariant |c2v| == 256 && forall c: Byte :: c2v[c] == LastValue(a, c, i)
    {
      c2v := c2v[v2c[i] := i];
    }
    c2v := c2v[a.pad := PAD];
    forall v: nat | v < 62 ensures |LETTERS| == 62 && LETTERS[v] as int == CharOf(a, v) { SymbolIs(a, v); }
  }

  // ----------------------------------------------------------------- encoding

  /** The four six-bit values of three bytes. */
  function Sextets(b0: Byte, b1: Byte, b2: Byte): (r: seq<nat>)
    ensures |r| == 4 && forall i :: 0 <= i < 4 ==> r[i] < 64
  {
    [b0 / 4, b0 % 4 * 16 + b1 / 16, b1 % 16 * 4 + b2 / 64, b2 % 64]
  }

  function Quad(a: Alphabet, b0: Byte, b1: Byte, b2: Byte): (r: seq<Byte>)
    ensures |r| == 4
  {
    var v := Sextets(b0, b1, b2);
    [CharOf(a, v[0]), CharOf(a, v[1]), CharOf(a, v[2]), CharOf(a, v[3])]
  }

  function Pads(a: Alphabet, n: nat, padded: bool): seq<Byte> {
    if padded then seq(n, _ => a.pad) else []
  }

  /** The encoding without line breaks (section 4 of RFC 4648). */
  function Data(a: Alphabet, s: seq<Byte>, padded: bool): seq<Byte> {
    if |s| == 0 then []
    else if |s| == 1 then Quad(a, s[0], 0, 0)[..2] + Pads(a, 2, padded)
    else if |s| == 2 then Quad(a, s[0], s[1], 0)[..3] + Pads(a, 1, padded)
    else Quad(a, s[0], s[1], s[2]) + Data(a, s[3..], padded)
  }

  // ----------------------------------------------------------------- the encoding as a number

  /** The digits to that base make up a number, the first one counting most. */
  function Number(ds: seq<int>, base: nat): int {
    if ds == [] then 0 else Number(ds[..|ds| - 1], base) * base + ds[|ds| - 1]
  }

  predicate SixBit(ds: seq<int>) {
    forall i :: 0 <= i < |ds| ==> 0 <= ds[i] < 64
  }

  /** Zero bits are added to a last group of one or two bytes, up to a multiple of six bits. */
  function Scale(n: nat): nat {
    if n % 3 == 0 then 1 else if n % 3 == 1 then 16 else 4
  }

  /** As many digits to the base 64 as the bytes need, which make up the same number as the bytes. */
  ghost predicate SameNumber(s: seq<Byte>, ds: seq<int>) {
    SixBit(ds) && |ds| == (|s| * 8 + 5) / 6 && Number(ds, 64) == Number(s, 256) * Scale(|s|)
  }

  ghost predicate Spells(a: Alphabet, ds: seq<int>, d: seq<Byte>) {
    SixBit(ds) && |LETTERS| == 62 && |d| == |ds| && forall i :: 0 <= i < |d| ==> d[i] == Symbol(a, ds[i])
  }

  /** Section 4 of RFC 4648: the bytes are one big number; its digits to the base 64 are spelled in the alphabet, with
      or without padding to a multiple of four characters. */
  ghost predicate Encodes(a: Alphabet, s: seq<Byte>, padded: bool, d: seq<Byte>) {
    exists ds, e :: SameNumber(s, ds) && Spells(a, ds, e) && d == e + Pads(a, (3 - |s| % 3) % 3, padded)
  }

  lemma {:induction false} NumberAppend(ds: seq<int>, es: seq<int>, base: nat)
    ensures Number(ds + es, base) == Number(ds, base) * Power(base, |es|) + Number(es, base)
  {
    if es == [] {
      assert ds + es == ds;
    } else {
      var n := |es| - 1;
      NumberAppend(ds, es[..n], base);
      assert (ds + es)[..|ds| + n] == ds + es[..n];
      Distribute(Number(ds, base), Power(base, n), Number(es[..n], base), base);
    }
  }

  function Power(base: nat, n: nat): nat {
    if n == 0 then 1 else Power(base, n - 1) * base
  }

  lemma Distribute(x: int, p: nat, y: int, base: nat)
    ensures (x * p + y) * base == x * (p * base) + y * base
  {
  }

  /** Digits are determined by their number. */
  lemma {:induction false} DigitsUnique(ds: seq<int>, es: seq<int>)
    requires SixBit(ds) && SixBit(es) && |ds| == |es| && Number(ds, 64) == Number(es, 64)
    ensures ds == es
  {
    if ds != [] {
      var n := |ds| - 1;
      var x, y := Number(ds[..n], 64), Number(es[..n], 64);
      assert x * 64 + ds[n] == y * 64 + es[n];
      assert x == y && ds[n] == es[n];
      DigitsUnique(ds[..n], es[..n]);
      assert ds == ds[..n] + [ds[n]] && es == es[..n] + [es[n]];
    }
  }

  lemma NumberThree(b0: int, b1: int, b2: int, base: nat)
    ensures Number([b0], base) == b0 && Number([b0, b1], base) == b0 * base + b1
    ensures Number([b0, b1, b2], base) == (b0 * base + b1) * base + b2
  {
    assert [b0][..0] == [] && [b0, b1][..1] == [b0] && [b0, b1, b2][..2] == [b0, b1];
  }

  lemma NumberFour(v0: int, v1: int, v2: int, v3: int)
    ensures Number([v0, v1, v2, v3], 64) == v0 * 262144 + v1 * 4096 + v2 * 64 + v3
  {
    NumberThree(v0, v1, v2, 64);
    assert [v0, v1, v2, v3][..3] == [v0, v1, v2];
  }

  /** Three bytes are four digits. */
  lemma GroupNumber(b0: Byte, b1: Byte, b2: Byte)
    ensures Number(Sextets(b0, b1, b2), 64) == b0 * 65536 + b1 * 256 + b2
  {
    NumberFour(b0 / 4, b0 % 4 * 16 + b1 / 16, b1 % 16 * 4 + b2 / 64, b2 % 64);
  }

  lemma QuadSpells(a: Alphabet, b0: Byte, b1: Byte, b2: Byte)
    ensures Spells(a, Sextets(b0, b1, b2), Quad(a, b0, b1, b2))
  {
    var v := Sextets(b0, b1, b2);
    SymbolIs(a, v[0]);
    SymbolIs(a, v[1]);
    SymbolIs(a, v[2]);
    SymbolIs(a, v[3]);
    hide Symbol, CharOf, Sextets;
  }

  lemma OneByteNumber(b0: Byte)
    ensures SameNumber([b0], Sextets(b0, 0, 0)[..2])
  {
    var v0, v1 := b0 / 4, b0 % 4 * 16;
    NumberThree(v0, v1, 0, 64);
    NumberThree(b0, 0, 0, 256);
    assert Sextets(b0, 0, 0)[..2] == [v0, v1];
  }

  lemma TwoBytesNumber(b0: Byte, b1: Byte)
    ensures SameNumber([b0, b1], Sextets(b0, b1, 0)[..3])
  {
    var v0, v1, v2 := b0 / 4, b0 % 4 * 16 + b1 / 16, b1 % 16 * 4;
    NumberThree(v0, v1, v2, 64);
    NumberThree(b0, b1, 0, 256);
    assert Sextets(b0, b1, 0)[..3] == [v0, v1, v2];
  }

  /** 256^n, with zero bits added, is as many digits to the base 64. */
  lemma {:induction false} PowersMatch(n: nat)
    ensures Power(256, n) * Scale(n) == Power(64, (n * 8 + 5) / 6)
  {
    if n < 3 {
      FirstPowers();
    } else {
      var q := ((n - 3) * 8 + 5) / 6;
      PowersMatch(n - 3);
      assert (n * 8 + 5) / 6 == q + 4 && Scale(n) == Scale(n - 3);
      PowerUp(256, n - 3);
      PowerUp(64, q);
      assert Power(64, q + 4) == Power(64, q + 3) * 64;
      hide Power, Scale;
      Shift24(Power(256, n - 3), Scale(n), Power(64, q));
    }
  }

  lemma FirstPowers()
    ensures Power(256, 0) == 1 && Power(256, 1) == 256 && Power(256, 2) == 65536
    ensures Power(64, 0) == 1 && Power(64, 1) == 64 && Power(64, 2) == 4096 && Power(64, 3) == 262144
  {
    assert Power(256, 1) == 256 && Power(64, 1) == 64 && Power(64, 2) == 4096;
  }

  lemma Shift24(p: nat, k: nat, q: nat)
    requires p * k == q
    ensures p * 256 * 256 * 256 * k == q * 64 * 64 * 64 * 64
  {
    assert p * 256 * 256 * 256 * k == p * k * 16777216;
  }

  lemma PowerUp(base: nat, n: nat)
    ensures Power(base, n + 3) == Power(base, n) * base * base * base
  {
    assert Power(base, n + 3) == Power(base, n + 2) * base;
    assert Power(base, n + 2) == Power(base, n + 1) * base;
  }

  lemma GroupSameNumber(b0: Byte, b1: Byte, b2: Byte, s: seq<Byte>, ds: seq<int>)
    requires SameNumber(s, ds)
    ensures SameNumber([b0, b1, b2] + s, Sextets(b0, b1, b2) + ds)
  {
    var v, m, p := Sextets(b0, b1, b2), b0 * 65536 + b1 * 256 + b2, Power(256, |s|);
    assert SixBit(v + ds) && |v + ds| == |ds| + 4 && |[b0, b1, b2] + s| == |s| + 3;
    var n, q := Number(s, 256), Power(64, |ds|);
    MoreDigits(|s|);
    hide *;
    NumberAppend(v, ds, 64);
    NumberAppend([b0, b1, b2], s, 256);
    NumberThree(b0, b1, b2, 256);
    GroupNumber(b0, b1, b2);
    PowersMatch(|s|);
    Horner(b0, b1, b2);
    SameMeans(s, ds);
    ScaleUp(m, p, n, Scale(|s|), q, Number(ds, 64));
    SameIs([b0, b1, b2] + s, v + ds);
  }

  lemma SameMeans(s: seq<Byte>, ds: seq<int>)
    requires SameNumber(s, ds)
    ensures |ds| == (|s| * 8 + 5) / 6 && Number(ds, 64) == Number(s, 256) * Scale(|s|)
  {
  }

  lemma SameIs(s: seq<Byte>, ds: seq<int>)
    requires SixBit(ds) && |ds| == (|s| * 8 + 5) / 6 && Number(ds, 64) == Number(s, 256) * Scale(|s|)
    ensures SameNumber(s, ds)
  {
  }

  lemma Horner(b0: int, b1: int, b2: int)
    ensures (b0 * 256 + b1) * 256 + b2 == b0 * 65536 + b1 * 256 + b2
  {
  }

  lemma MoreDigits(n: nat)
    ensures Scale(n + 3) == Scale(n) && ((n + 3) * 8 + 5) / 6 == (n * 8 + 5) / 6 + 4
  {
  }

  lemma ScaleUp(m: int, p: nat, x: int, k: nat, q: nat, y: int)
    requires p * k == q && x * k == y
    ensures (m * p + x) * k == m * q + y
  {
    assert (m * p + x) * k == m * (p * k) + x * k;
  }

  lemma SpellsAppend(a: Alphabet, ds: seq<int>, d: seq<Byte>, es: seq<int>, e: seq<Byte>)
    requires Spells(a, ds, d) && Spells(a, es, e)
    ensures Spells(a, ds + es, d + e)
  {
    hide Symbol;
  }

  lemma SpellsPrefix(a: Alphabet, ds: seq<int>, d: seq<Byte>, n: nat)
    requires Spells(a, ds, d) && n <= |d|
    ensures Spells(a, ds[..n], d[..n])
  {
    hide Symbol;
  }

  /** The encoding without line breaks is that of the standard. */
  lemma {:induction false} DataEncodes(a: Alphabet, s: seq<Byte>, padded: bool)
    ensures Encodes(a, s, padded, Data(a, s, padded))
    decreases |s|
  {
    hide SameNumber, Spells, Sextets, Quad, CharOf;
    if |s| == 0 {
      NothingEncodes(a, padded);
    } else if |s| == 1 {
      var v, q := Sextets(s[0], 0, 0), Quad(a, s[0], 0, 0);
      OneByteNumber(s[0]);
      QuadSpells(a, s[0], 0, 0);
      SpellsPrefix(a, v, q, 2);
      assert s == [s[0]];
    } else if |s| == 2 {
      var v, q := Sextets(s[0], s[1], 0), Quad(a, s[0], s[1], 0);
      TwoBytesNumber(s[0], s[1]);
      QuadSpells(a, s[0], s[1], 0);
      SpellsPrefix(a, v, q, 3);
      assert s == [s[0], s[1]];
    } else {
      DataEncodes(a, s[3..], padded);
      var ds, e :| SameNumber(s[3..], ds) && Spells(a, ds, e)
                   && Data(a, s[3..], padded) == e + Pads(a, (3 - |s[3..]| % 3) % 3, padded);
      var v, q := Sextets(s[0], s[1], s[2]), Quad(a, s[0], s[1], s[2]);
      QuadSpells(a, s[0], s[1], s[2]);
      SpellsAppend(a, v, q, ds, e);
      GroupSameNumber(s[0], s[1], s[2], s[3..], ds);
      assert s == [s[0], s[1], s[2]] + s[3..];
      Assoc(q, e, Pads(a, (3 - |s| % 3) % 3, padded));
    }
  }

  lemma NothingEncodes(a: Alphabet, padded: bool)
    ensures Encodes(a, [], padded, [])
  {
    SymbolIs(a, 0);
    assert SameNumber([], []) && Spells(a, [], []);
    assert [] + Pads(a, 0, padded) == [];
  }

  /** The standard leaves no choice. */
  lemma EncodesUnique(a: Alphabet, s: seq<Byte>, padded: bool, d: seq<Byte>, d': seq<Byte>)
    requires Encodes(a, s, padded, d) && Encodes(a, s, padded, d')
    ensures d == d'
  {
    var n := (3 - |s| % 3) % 3;
    var ds, e :| SameNumber(s, ds) && Spells(a, ds, e) && d == e + Pads(a, n, padded);
    var ds', e' :| SameNumber(s, ds') && Spells(a, ds', e') && d' == e' + Pads(a, n, padded);
    DigitsUnique(ds, ds');
    assert e == e';
  }

  /** The data cut into lines of w characters. */
  function Lines(d: seq<Byte>, w: nat, sep: seq<Byte>): seq<Byte>
    requires w > 0
    decreases |d|
  {
    if |d| <= w then d else d[..w] + sep + Lines(d[w..], w, sep)
  }

  function LastLine(n: nat, w: nat): nat
    requires w > 0
    decreases n
  {
    if n <= w then n else LastLine(n - w, w)
  }

  /** Whole groups of four that fit a line; a line holds at least one. */
  function Width(lineLength: int): (w: nat)
    ensures w >= 4 && w % 4 == 0
  {
    if lineLength < 4 then 4 else lineLength / 4 * 4
  }

  /** Where no group fits the line length, there is a separator even before the first. */
  function Broken(d: seq<Byte>, lineLength: int, sep: seq<Byte>): seq<Byte> {
    if lineLength == 0 || d == [] then d
    else (if lineLength < 4 then sep else []) + Lines(d, Width(lineLength), sep)
  }

  lemma {:induction false} LastLineFits(n: nat, w: nat)
    requires w >= 4 && w % 4 == 0 && n % 4 == 0
    ensures LastLine(n, w) <= w && LastLine(n, w) % 4 == 0 && (n > 0 ==> LastLine(n, w) > 0)
    decreases n
  {
    if n > w { LastLineFits(n - w, w); }
  }

  lemma {:induction false} LinesAppend(d: seq<Byte>, q: seq<Byte>, w: nat, sep: seq<Byte>)
    requires w > 0 && 0 < |q| <= w && d != []
    requires LastLine(|d|, w) + |q| <= w || LastLine(|d|, w) == w
    ensures Lines(d + q, w, sep) == Lines(d, w, sep) + (if LastLine(|d|, w) == w then sep + q else q)
    ensures LastLine(|d + q|, w) == if LastLine(|d|, w) == w then |q| else LastLine(|d|, w) + |q|
    decreases |d|
  {
    if |d| > w {
      var rest, added := d[w..], if LastLine(|d|, w) == w then sep + q else q;
      LinesAppend(rest, q, w, sep);
      CutConcat(d, q, w);
      Assoc(d[..w] + sep, Lines(rest, w, sep), added);
    } else if |d| == w {
      CutConcat(d, q, w);
      assert d[..w] == d && d[w..] + q == q;
      Assoc(d, sep, q);
    }
  }

  lemma {:induction false} DataAppend(a: Alphabet, s: seq<Byte>, t: seq<Byte>, padded: bool)
    requires |s| % 3 == 0
    ensures Data(a, s + t, padded) == Data(a, s, padded) + Data(a, t, padded)
    ensures |Data(a, s, padded)| == |s| / 3 * 4
    decreases |s|
  {
    if s == [] {
      assert s + t == t;
    } else {
      DataAppend(a, s[3..], t, padded);
      CutConcat(s, t, 3);
      Assoc(Quad(a, s[0], s[1], s[2]), Data(a, s[3..], padded), Data(a, t, padded));
    }
  }

  lemma Split(q: nat, r: nat)
    ensures r < 4 ==> (q * 4 + r) / 4 == q && (q * 4 + r) % 4 == r
    ensures r < 16 ==> (q * 16 + r) / 16 == q && (q * 16 + r) % 16 == r
    ensures r < 64 ==> (q * 64 + r) / 64 == q && (q * 64 + r) % 64 == r
  {
  }

  lemma SplitCombined(b0: Byte, b1: Byte, b2: Byte)
    ensures var m := b0 * 65536 + b1 * 256 + b2;
            Sextets(b0, b1, b2) == [m / 64 / 64 / 64 % 64, m / 64 / 64 % 64, m / 64 % 64, m % 64]
  {
    var v0, v1, v2, v3 := b0 / 4, b0 % 4 * 16 + b1 / 16, b1 % 16 * 4 + b2 / 64, b2 % 64;
    var m2 := v0 * 64 + v1;
    var m1 := m2 * 64 + v2;
    assert m1 * 64 + v3 == b0 * 65536 + b1 * 256 + b2;
    SplitThrice(v0, v1, v2, v3, m2, m1, m1 * 64 + v3);
  }

  lemma SplitThrice(v0: nat, v1: nat, v2: nat, v3: nat, m2: nat, m1: nat, m: nat)
    requires v0 < 64 && v1 < 64 && v2 < 64 && v3 < 64
    requires m2 == v0 * 64 + v1 && m1 == m2 * 64 + v2 && m == m1 * 64 + v3
    ensures m % 64 == v3 && m / 64 % 64 == v2 && m / 64 / 64 % 64 == v1 && m / 64 / 64 / 64 % 64 == v0
  {
    Split(m1, v3);
    Split(m2, v2);
    Split(v0, v1);
    Split(0, v0);
  }

  /** The encoder after the data `d`: its output and its position in the line. */
  ghost predicate Written(d: seq<Byte>, lineLength: int, sep: seq<Byte>, dest: seq<Byte>, linePos: nat) {
    && |d| % 4 == 0 && dest == Broken(d, lineLength, sep)
    && (lineLength != 0 ==> linePos == LastLine(|d|, Width(lineLength)))
  }

  lemma BreaksWhenFull(linePos: nat, lineLength: int)
    requires lineLength != 0 && linePos % 4 == 0 && linePos <= Width(lineLength)
    ensures linePos > 0 ==> (linePos + 4 > lineLength <==> linePos == Width(lineLength))
    ensures linePos == 0 ==> (linePos + 4 > lineLength <==> lineLength < 4)
    ensures linePos < Width(lineLength) ==> linePos + 4 <= Width(lineLength)
  {
  }

  /** The encoder adds a group of `q` characters, of which the last may still be cut off. */
  lemma GroupWritten(d: seq<Byte>, lineLength: int, sep: seq<Byte>, dest: seq<Byte>, linePos: nat, q: seq<Byte>)
    requires Written(d, lineLength, sep, dest, linePos) && 0 < |q| <= 4
    ensures var breaks := linePos + 4 > lineLength;
            && Broken(d + q, lineLength, sep) == dest + (if breaks && lineLength != 0 then sep else []) + q
            && (lineLength != 0 ==> LastLine(|d + q|, Width(lineLength)) == if breaks then |q| else linePos + |q|)
  {
    if lineLength == 0 {
      assert dest + [] == dest;
      return;
    }
    var w := Width(lineLength);
    LastLineFits(|d|, w);
    BreaksWhenFull(linePos, lineLength);
    hide Width;
    if d == [] {
      assert d + q == q;
    } else {
      var lead: seq<Byte> := if lineLength < 4 then sep else [];
      LinesAppend(d, q, w, sep);
      Assoc(lead, Lines(d, w, sep), if linePos == w then sep + q else q);
      Assoc(dest, sep, q);
      assert dest + [] == dest;
    }
  }

  lemma GroupAdded(d: seq<Byte>, lineLength: int, sep: seq<Byte>, dest: seq<Byte>, linePos: nat, q: seq<Byte>)
    requires Written(d, lineLength, sep, dest, linePos) && |q| == 4
    ensures var breaks := linePos + 4 > lineLength;
            Written(d + q, lineLength, sep, dest + (if breaks && lineLength != 0 then sep else []) + q,
                    if breaks then 4 else linePos + 4)
  {
    GroupWritten(d, lineLength, sep, dest, linePos, q);
    hide Broken, LastLine, Width;
  }

  // ----------------------------------------------------------------- decoding

  function Triple(v0: nat, v1: nat, v2: nat, v3: nat): (r: seq<Byte>)
    requires v0 < 64 && v1 < 64 && v2 < 64 && v3 < 64
    ensures |r| == 3
  {
    [v0 * 4 + v1 / 16, v1 % 16 * 16 + v2 / 4, v2 % 4 * 64 + v3]
  }

  /** The values of the characters that are not ignored. */
  function Values(a: Alphabet, s: seq<Byte>): seq<int> {
    if s == [] then []
    else (if ValueOf(a, s[0]) == IGNORE then [] else [ValueOf(a, s[0])]) + Values(a, s[1..])
  }

  function Bits(v: int): (r: nat)
    ensures r < 64
  {
    if 0 <= v < 64 then v else 0
  }

  /** The bytes of all complete groups. */
  function Bytes(vs: seq<int>): seq<Byte>
  {
    if |vs| < 4 then []
    else Triple(Bits(vs[0]), Bits(vs[1]), Bits(vs[2]), Bits(vs[3])) + Bytes(vs[4..])
  }

  function Dummies(vs: seq<int>): nat {
    if vs == [] then 0 else (if vs[0] == PAD then 1 else 0) + Dummies(vs[1..])
  }

  lemma ValueRange(a: Alphabet, c: Byte)
    ensures ValueOf(a, c) == PAD || ValueOf(a, c) == IGNORE || 0 <= ValueOf(a, c) < 64
  {
    LastValueIs(a, c, 64);
  }

  lemma {:induction false} ValuesAppend(a: Alphabet, s: seq<Byte>, t: seq<Byte>)
    ensures Values(a, s + t) == Values(a, s) + Values(a, t)
  {
    if s == [] {
      assert s + t == t;
    } else {
      hide ValueOf;
      ValuesAppend(a, s[1..], t);
      assert (s + t)[1..] == s[1..] + t;
      Assoc(if ValueOf(a, s[0]) == IGNORE then [] else [ValueOf(a, s[0])], Values(a, s[1..]), Values(a, t));
    }
  }

  lemma {:induction false} DummiesAppend(vs: seq<int>, ws: seq<int>)
    ensures Dummies(vs + ws) == Dummies(vs) + Dummies(ws)
  {
    if vs == [] {
      assert vs + ws == ws;
    } else {
      DummiesAppend(vs[1..], ws);
      assert (vs + ws)[1..] == vs[1..] + ws;
    }
  }

  lemma {:induction false} BytesAppend(vs: seq<int>, ws: seq<int>)
    requires |vs| % 4 == 0
    ensures Bytes(vs + ws) == Bytes(vs) + Bytes(ws)
    decreases |vs|
  {
    if vs == [] {
      assert vs + ws == ws;
    } else {
      hide Triple, Bits;
      BytesAppend(vs[4..], ws);
      CutConcat(vs, ws, 4);
      var first := Triple(Bits(vs[0]), Bits(vs[1]), Bits(vs[2]), Bits(vs[3]));
      assert Bytes(vs + ws) == first + Bytes((vs + ws)[4..]);
      Assoc(first, Bytes(vs[4..]), Bytes(ws));
    }
  }

  lemma Quotient(q: nat, r: nat)
    ensures r < 256 ==> (q * 256 + r) / 256 == q && (q * 256 + r) % 256 == r
    ensures r < 65536 ==> (q * 65536 + r) / 65536 == q && (q * 65536 + r) % 65536 == r
  {
  }

  lemma Digits(p: nat, q: Byte, r: Byte)
    ensures var m := p * 65536 + q * 256 + r; m / 65536 == p && m % 65536 / 256 == q && m % 256 == r
  {
    Quotient(p, q * 256 + r);
    Quotient(q, r);
    Quotient(p * 256 + q, r);
  }

  lemma JoinCombined(v0: nat, v1: nat, v2: nat, v3: nat)
    requires v0 < 64 && v1 < 64 && v2 < 64 && v3 < 64
    ensures var m := ((v0 * 64 + v1) * 64 + v2) * 64 + v3;
            Triple(v0, v1, v2, v3) == [m / 65536, m % 65536 / 256, m % 256]
    ensures var r := Triple(v0, v1, v2, v3);
            var m: int := r[0] as int * 65536 + r[1] as int * 256 + r[2] as int;
            m == ((v0 * 64 + v1) * 64 + v2) * 64 + v3
  {
    var r := Triple(v0, v1, v2, v3);
    Digits(r[0], r[1], r[2]);
  }

  // ----------------------------------------------------------------- round trips

  /** What base64_decode leaves in its destination; none where the length it reports is negative. */
  datatype Decoded = Decoded(bytes: seq<Byte>) | BadLength

  ghost function DecodeOf(a: Alphabet, s: seq<Byte>): Decoded {
    var vs := Values(a, s);
    if |vs| % 4 != 0 then Decoded([])
    else var n := |Bytes(vs)| - Dummies(vs);
      if n < 0 then BadLength else Decoded(Bytes(vs)[..n])
  }

  /** Separators that the decoder does not see. */
  ghost predicate Silent(a: Alphabet, sep: seq<Byte>) {
    forall i :: 0 <= i < |sep| ==> ValueOf(a, sep[i]) == IGNORE
  }

  lemma {:induction false} SilentValues(a: Alphabet, sep: seq<Byte>)
    requires Silent(a, sep)
    ensures Values(a, sep) == []
  {
    if sep != [] { SilentValues(a, sep[1..]); }
  }

  lemma {:induction false} LinesValues(a: Alphabet, d: seq<Byte>, w: nat, sep: seq<Byte>)
    requires w > 0 && Silent(a, sep)
    ensures Values(a, Lines(d, w, sep)) == Values(a, d)
    decreases |d|
  {
    if |d| > w {
      LinesValues(a, d[w..], w, sep);
      SilentValues(a, sep);
      ValuesAppend(a, d[..w] + sep, Lines(d[w..], w, sep));
      ValuesAppend(a, d[..w], sep);
      ValuesAppend(a, d[..w], d[w..]);
      assert d == d[..w] + d[w..];
    }
  }

  lemma BrokenValues(a: Alphabet, d: seq<Byte>, lineLength: int, sep: seq<Byte>)
    requires Silent(a, sep)
    ensures Values(a, Broken(d, lineLength, sep)) == Values(a, d)
  {
    var w := Width(lineLength);
    LinesValues(a, d, w, sep);
    SilentValues(a, sep);
    ValuesAppend(a, sep, Lines(d, w, sep));
    assert [] + Lines(d, w, sep) == Lines(d, w, sep);
  }

  /** The values that the data stand for. */
  function DataValues(s: seq<Byte>): seq<int> {
    if |s| == 0 then []
    else if |s| == 1 then Sextets(s[0], 0, 0)[..2] + [PAD, PAD]
    else if |s| == 2 then Sextets(s[0], s[1], 0)[..3] + [PAD]
    else Sextets(s[0], s[1], s[2]) + DataValues(s[3..])
  }

  lemma {:induction false} CharsRead(a: Alphabet, s: seq<Byte>, vs: seq<int>)
    requires |s| == |vs| && forall i :: 0 <= i < |s| ==> ValueOf(a, s[i]) == vs[i] != IGNORE
    ensures Values(a, s) == vs
  {
    if s != [] { CharsRead(a, s[1..], vs[1..]); }
  }

  lemma QuadRead(a: Alphabet, b0: Byte, b1: Byte, b2: Byte)
    requires Inverts(a)
    ensures forall i :: 0 <= i < 4 ==> ValueOf(a, Quad(a, b0, b1, b2)[i]) == Sextets(b0, b1, b2)[i]
  {
  }

  lemma {:induction false} DataRead(a: Alphabet, s: seq<Byte>)
    requires Inverts(a)
    ensures Values(a, Data(a, s, true)) == DataValues(s)
  {
    if |s| == 0 {
    } else if |s| == 1 {
      QuadRead(a, s[0], 0, 0);
      CharsRead(a, Data(a, s, true), DataValues(s));
    } else if |s| == 2 {
      QuadRead(a, s[0], s[1], 0);
      CharsRead(a, Data(a, s, true), DataValues(s));
    } else {
      QuadRead(a, s[0], s[1], s[2]);
      CharsRead(a, Quad(a, s[0], s[1], s[2]), Sextets(s[0], s[1], s[2]));
      DataRead(a, s[3..]);
      ValuesAppend(a, Quad(a, s[0], s[1], s[2]), Data(a, s[3..], true));
    }
  }

  lemma TripleSextets(b0: Byte, b1: Byte, b2: Byte)
    ensures var v := Sextets(b0, b1, b2); Triple(v[0], v[1], v[2], v[3]) == [b0, b1, b2]
  {
  }

  function Extra(n: nat): nat {
    if n % 3 == 0 then 0 else 3 - n % 3
  }

  ghost predicate Means(vs: seq<int>, s: seq<Byte>) {
    && |vs| % 4 == 0 && Dummies(vs) == Extra(|s|)
    && |Bytes(vs)| == |s| + Extra(|s|) && Bytes(vs)[..|s|] == s
  }

  lemma OneGroup(v0: int, v1: int, v2: int, v3: int)
    ensures Bytes([v0, v1, v2, v3]) == Triple(Bits(v0), Bits(v1), Bits(v2), Bits(v3))
    ensures v0 != PAD && v1 != PAD && v3 == PAD ==> Dummies([v0, v1, v2, v3]) == if v2 == PAD then 2 else 1
  {
    assert [v0, v1, v2, v3][4..] == [];
    assert [v0, v1, v2, v3] == [v0, v1] + ([v2] + [v3]);
    DummiesAppend([v0, v1], [v2] + [v3]);
    DummiesAppend([v2], [v3]);
    DummyCount([v0, v1]);
    DummyCount([v2]);
    DummyCount([v3]);
  }

  lemma OneByteMeans(b0: Byte)
    ensures Means(DataValues([b0]), [b0])
  {
    var v := Sextets(b0, 0, 0);
    TripleSextets(b0, 0, 0);
    OneGroup(v[0], v[1], PAD, PAD);
    assert DataValues([b0]) == [v[0], v[1], PAD, PAD];
    hide Dummies, Bytes;
  }

  lemma TwoBytesMean(b0: Byte, b1: Byte)
    ensures Means(DataValues([b0, b1]), [b0, b1])
  {
    var v := Sextets(b0, b1, 0);
    TripleSextets(b0, b1, 0);
    OneGroup(v[0], v[1], v[2], PAD);
    assert DataValues([b0, b1]) == [v[0], v[1], v[2], PAD];
    hide Dummies, Bytes;
  }

  lemma GroupBytes(b0: Byte, b1: Byte, b2: Byte, vs: seq<int>)
    ensures Bytes(Sextets(b0, b1, b2) + vs) == [b0, b1, b2] + Bytes(vs)
    ensures Dummies(Sextets(b0, b1, b2) + vs) == Dummies(vs)
  {
    var v := Sextets(b0, b1, b2);
    TripleSextets(b0, b1, b2);
    DummiesAppend(v, vs);
    DummyCount(v);
    CutConcat(v, vs, 4);
    assert v[4..] + vs == vs;
    assert Bits(v[0]) == v[0] && Bits(v[1]) == v[1] && Bits(v[2]) == v[2] && Bits(v[3]) == v[3];
    hide Sextets, Triple, Bits;
  }

  lemma GroupMeans(b0: Byte, b1: Byte, b2: Byte, vs: seq<int>, s: seq<Byte>)
    requires Means(vs, s)
    ensures Means(Sextets(b0, b1, b2) + vs, [b0, b1, b2] + s)
  {
    GroupBytes(b0, b1, b2, vs);
    hide Sextets, Bytes, Dummies;
    assert ([b0, b1, b2] + Bytes(vs))[..3 + |s|] == [b0, b1, b2] + Bytes(vs)[..|s|];
  }

  lemma {:induction false} DataValuesMean(s: seq<Byte>)
    ensures Means(DataValues(s), s)
  {
    if |s| >= 3 {
      DataValuesMean(s[3..]);
      GroupMeans(s[0], s[1], s[2], DataValues(s[3..]), s[3..]);
      assert s == [s[0], s[1], s[2]] + s[3..];
    } else if |s| == 2 {
      TwoBytesMean(s[0], s[1]);
      assert s == [s[0], s[1]];
    } else if |s| == 1 {
      OneByteMeans(s[0]);
      assert s == [s[0]];
    }
  }

  /** Decoding inverts padded encoding, for every line length and every separator that is not read as data. */
  lemma RoundTrip(a: Alphabet, s: seq<Byte>, lineLength: int, sep: seq<Byte>)
    requires Good(a) && Silent(a, sep)
    ensures DecodeOf(a, Broken(Data(a, s, true), lineLength, sep)) == Decoded(s)
  {
    GoodInverts(a);
    BrokenValues(a, Data(a, s, true), lineLength, sep);
    DataRead(a, s);
    DataValuesMean(s);
  }

  lemma {:induction false} DummyCount(vs: seq<int>)
    ensures (forall i :: 0 <= i < |vs| ==> vs[i] == PAD) ==> Dummies(vs) == |vs|
    ensures (forall i :: 0 <= i < |vs| ==> vs[i] != PAD) ==> Dummies(vs) == 0
  {
    if vs != [] { DummyCount(vs[1..]); }
  }

  lemma SextetsTriple(v: nat)
    requires v < 64
    ensures var s := Triple(v, v, v, v); Sextets(s[0], s[1], s[2]) == [v, v, v, v]
  {
    hide Sextets, Triple;
    var s, m2 := Triple(v, v, v, v), v * 64 + v;
    var m1 := m2 * 64 + v;
    JoinCombined(v, v, v, v);
    SplitCombined(s[0], s[1], s[2]);
    SplitThrice(v, v, v, v, m2, m1, m1 * 64 + v);
  }

  /** A value that is not read back from its character spoils some message. */
  lemma Spoiled(a: Alphabet, v: nat)
    requires v < 64 && ValueOf(a, CharOf(a, v)) != v
    ensures DecodeOf(a, Data(a, Triple(v, v, v, v), true)) != Decoded(Triple(v, v, v, v))
  {
    var s, c := Triple(v, v, v, v), CharOf(a, v);
    var w := ValueOf(a, c);
    SextetsTriple(v);
    LastValueIs(a, c, 64);
    ValueRange(a, c);
    assert Data(a, s, true) == [c, c, c, c] by {
      assert Data(a, s[3..], true) == [];
    }
    var vs := [w, w, w, w];
    CharsRead(a, [c, c, c, c], vs);
    DummyCount(vs);
    hide ValueOf, Data, CharOf, Values;
    assert Bytes(vs) == Triple(Bits(w), Bits(w), Bits(w), Bits(w));
    if w != PAD {
      assert Bytes(vs)[..3] == Triple(w, w, w, w);
      assert Triple(w, w, w, w)[0] / 4 == w && s[0] / 4 == v;
    }
  }

  /** Padded encoding without line breaks is undone for every message exactly when the alphabet is good. */
  lemma RoundTripIff(a: Alphabet)
    ensures Good(a) <==> forall s: seq<Byte> :: DecodeOf(a, Data(a, s, true)) == Decoded(s)
  {
    GoodInverts(a);
    if Good(a) {
      forall s: seq<Byte> ensures DecodeOf(a, Data(a, s, true)) == Decoded(s) {
        RoundTrip(a, s, 0, []);
      }
    } else {
      var v: nat :| v < 64 && ValueOf(a, CharOf(a, v)) != v;
      Spoiled(a, v);
    }
  }

  /** What base64_decode_auto hands to base64_decode. */
  function PaddedOut(a: Alphabet, d: seq<Byte>): seq<Byte> {
    if |d| % 4 == 0 then d else d + seq(4 - |d| % 4, _ => a.pad)
  }

  lemma PaddedOutQuad(a: Alphabet, q: seq<Byte>, d: seq<Byte>)
    requires |q| == 4
    ensures PaddedOut(a, q + d) == q + PaddedOut(a, d)
  {
    assert |q + d| % 4 == |d| % 4;
  }

  lemma {:induction false} PaddedOutData(a: Alphabet, s: seq<Byte>)
    ensures PaddedOut(a, Data(a, s, false)) == Data(a, s, true)
  {
    if |s| >= 3 {
      PaddedOutData(a, s[3..]);
      var q, d := Quad(a, s[0], s[1], s[2]), Data(a, s[3..], false);
      PaddedOutQuad(a, q, d);
    }
  }

  lemma Thirds(n: nat)
    ensures (n + 3 + 2) / 3 == (n + 2) / 3 + 1 && (0 < n <= 3 ==> (n + 2) / 3 == 1)
  {
  }

  lemma {:induction false} DataLength(a: Alphabet, s: seq<Byte>)
    ensures |Data(a, s, true)| == (|s| + 2) / 3 * 4 && |Data(a, s, true)| % 4 == 0
  {
    hide Quad;
    if s == [] {
      assert |Data(a, s, true)| == 0;
    } else if |s| < 3 {
      assert |Data(a, s, true)| == 4;
      Thirds(|s|);
    } else {
      assert |Data(a, s, true)| == 4 + |Data(a, s[3..], true)|;
      hide Data;
      DataLength(a, s[3..]);
      Thirds(|s| - 3);
    }
  }

  /** Without line breaks base64_decode_auto undoes the unpadded encoding too. */
  lemma AutoRoundTrip(a: Alphabet, s: seq<Byte>, padded: bool)
    requires Good(a)
    ensures DecodeOf(a, PaddedOut(a, Data(a, s, padded))) == Decoded(s)
  {
    PaddedOutData(a, s);
    RoundTrip(a, s, 0, []);
    DataLength(a, s);
    hide Data, DecodeOf;
  }

  // ----------------------------------------------------------------- the length of the output

  function LineBreaks(n: nat, w: nat): nat
    requires w > 0
    decreases n
  {
    if n <= w then 0 else 1 + LineBreaks(n - w, w)
  }

  /** The separators among n data characters. */
  function Separators(n: nat, lineLength: int): nat {
    if lineLength == 0 || n == 0 then 0
    else (if lineLength < 4 then 1 else 0) + LineBreaks(n, Width(lineLength))
  }

  lemma {:induction false} LinesLength(d: seq<Byte>, w: nat, sep: seq<Byte>)
    requires w > 0
    ensures |Lines(d, w, sep)| == |d| + LineBreaks(|d|, w) * |sep|
    decreases |d|
  {
    if |d| > w {
      LinesLength(d[w..], w, sep);
      var k := LineBreaks(|d| - w, w);
      assert (1 + k) * |sep| == |sep| + k * |sep|;
    }
  }

  lemma BrokenLength(d: seq<Byte>, lineLength: int, sep: seq<Byte>)
    ensures |Broken(d, lineLength, sep)| == |d| + Separators(|d|, lineLength) * |sep|
  {
    if lineLength != 0 && d != [] {
      var w := Width(lineLength);
      LinesLength(d, w, sep);
      var k := LineBreaks(|d|, w);
      assert (1 + k) * |sep| == |sep| + k * |sep|;
    }
  }

  /** C's division, towards zero. */
  function CDiv(a: int, b: int): int
    requires b != 0
  {
    var q := (if a < 0 then -a else a) / (if b < 0 then -b else b);
    if (a < 0) == (b < 0) then q else -q
  }

  /** base64_get_encode_length */
  function EncodeLength(n: nat, lineLength: int, sepLength: nat): int {
    var chars := (n + 2) / 3 * 4;
    if lineLength == 0 then chars
    else
      var lines := CDiv(chars + lineLength - 1, lineLength) - 1;
      if lines > 0 then chars + lines * sepLength else chars
  }

  lemma DivideLess(x: int, w: int)
    requires w > 0
    ensures (x + w) / w == x / w + 1
  {
    var q := (x + w) / w - x / w - 1;
    assert x + w == (x + w) / w * w + (x + w) % w && x == x / w * w + x % w;
    assert q * w == (x + w) / w * w - x / w * w - w;
    assert q > 0 ==> q * w >= w;
    assert q < 0 ==> q * w <= -w;
  }

  lemma {:induction false} LineBreaksCount(n: nat, w: nat)
    requires w > 0 && n > 0
    ensures LineBreaks(n, w) == (n + w - 1) / w - 1
    decreases n
  {
    if n > w {
      LineBreaksCount(n - w, w);
      DivideLess(n - 1, w);
    } else {
      DivideLess(n - 1, w);
      assert (n - 1) / w == 0 by { SmallQuotient(n - 1, w); }
    }
  }

  lemma SmallQuotient(x: nat, w: nat)
    requires x < w
    ensures x / w == 0
  {
  }

  /** The announced length is exact for a line length that is 0 or a multiple of 4. */
  lemma LengthExact(a: Alphabet, s: seq<Byte>, lineLength: nat, sep: seq<Byte>)
    requires lineLength % 4 == 0
    ensures EncodeLength(|s|, lineLength, |sep|) == |Broken(Data(a, s, true), lineLength, sep)|
  {
    var d := Data(a, s, true);
    DataLength(a, s);
    BrokenLength(d, lineLength, sep);
    hide Broken, Data;
    if lineLength != 0 {
      if |d| > 0 {
        LineBreaksCount(|d|, lineLength);
      } else {
        SmallQuotient(lineLength - 1, lineLength);
      }
    }
  }

  lemma FourLines(n: nat)
    requires n > 0
    ensures (4 * n + n - 1) / n == 4
  {
    DivideLess(n - 1, n);
    DivideLess(2 * n - 1, n);
    DivideLess(3 * n - 1, n);
    DivideLess(4 * n - 1, n);
    SmallQuotient(n - 1, n);
  }

  /** How far it is off for some message when the line length is not. */
  lemma LengthWrong(lineLength: nat)
    requires lineLength % 4 != 0
    ensures var groups := if lineLength < 4 then 4 else lineLength;
            Separators(4 * groups, lineLength) != (4 * groups + lineLength - 1) / lineLength - 1
  {
    if lineLength < 4 {
      assert LineBreaks(16, 4) == 3 by {
        assert LineBreaks(16, 4) == 1 + LineBreaks(12, 4) && LineBreaks(12, 4) == 1 + LineBreaks(8, 4);
      }
    } else {
      var n, w := 4 * lineLength, Width(lineLength);
      assert LineBreaks(n, w) >= 4 by {
        assert LineBreaks(n, w) == 1 + LineBreaks(n - w, w);
        assert LineBreaks(n - w, w) == 1 + LineBreaks(n - w - w, w);
        assert LineBreaks(n - w - w, w) == 1 + LineBreaks(n - w - w - w, w);
        assert LineBreaks(n - w - w - w, w) >= 1;
      }
      FourLines(lineLength);
    }
  }

  lemma AnnouncedLength(groups: nat, lineLength: nat, sepLength: nat)
    requires lineLength % 4 != 0 && groups == if lineLength < 4 then 4 else lineLength
    ensures EncodeLength(3 * groups, lineLength, sepLength)
         == 4 * groups + ((4 * groups + lineLength - 1) / lineLength - 1) * sepLength
  {
    if lineLength >= 4 { FourLines(lineLength); }
  }

  lemma LengthsDiffer(groups: nat, lineLength: nat, m: nat)
    requires lineLength % 4 != 0 && m > 0 && groups == if lineLength < 4 then 4 else lineLength
    ensures EncodeLength(3 * groups, lineLength, m) != 4 * groups + Separators(4 * groups, lineLength) * m
  {
    LengthWrong(lineLength);
    AnnouncedLength(groups, lineLength, m);
    hide Separators, EncodeLength;
    var n, k := (4 * groups + lineLength - 1) / lineLength - 1, Separators(4 * groups, lineLength);
    if n < k { Smaller(n, k, m); } else { Smaller(k, n, m); }
  }

  lemma LengthWrongFor(a: Alphabet, lineLength: nat, sep: seq<Byte>) returns (s: seq<Byte>)
    requires lineLength % 4 != 0 && sep != []
    ensures EncodeLength(|s|, lineLength, |sep|) != |Broken(Data(a, s, true), lineLength, sep)|
  {
    hide Broken, Data, Separators, EncodeLength;
    var groups := if lineLength < 4 then 4 else lineLength;
    s := seq(3 * groups, _ => 0);
    LengthsDiffer(groups, lineLength, |sep|);
    DataLength(a, s);
    BrokenLength(Data(a, s, true), lineLength, sep);
  }

  lemma Smaller(n: int, k: int, m: int)
    requires n < k && m > 0
    ensures n * m < k * m
  {
  }

  lemma NegativeDivision(lineLength: int)
    requires lineLength < 0
    ensures CDiv(4 + lineLength - 1, lineLength) <= 0
  {
    var m := -lineLength;
    if m > 3 { SmallQuotient(m - 3, m); } else { assert 3 - m >= 0 && (3 - m) / m >= 0; }
  }

  lemma NegativeAnnounced(lineLength: int, sepLength: nat)
    requires lineLength < 0
    ensures EncodeLength(3, lineLength, sepLength) == 4
  {
    NegativeDivision(lineLength);
    hide CDiv;
  }

  /** With a negative line length there is a separator before every group, and none is announced. */
  lemma NegativeLength(a: Alphabet, lineLength: int, sep: seq<Byte>)
    requires lineLength < 0 && sep != []
    ensures var s: seq<Byte> := [0, 0, 0];
            EncodeLength(|s|, lineLength, |sep|) != |Broken(Data(a, s, true), lineLength, sep)|
  {
    var s: seq<Byte> := [0, 0, 0];
    assert Separators(4, lineLength) == 1;
    hide Broken, Data, EncodeLength, Separators;
    DataLength(a, s);
    BrokenLength(Data(a, s, true), lineLength, sep);
    NegativeAnnounced(lineLength, |sep|);
  }

  /** The announced length is exact for every message exactly when the line length is 0 or a positive multiple of 4
      or separators are empty. */
  lemma LengthExactIff(a: Alphabet, lineLength: int, sep: seq<Byte>)
    ensures ((lineLength >= 0 && lineLength % 4 == 0) || sep == []) <==>
            forall s: seq<Byte> :: EncodeLength(|s|, lineLength, |sep|) == |Broken(Data(a, s, true), lineLength, sep)|
  {
    hide Broken, Data, Separators;
    if (lineLength >= 0 && lineLength % 4 == 0) || sep == [] {
      forall s: seq<Byte> ensures EncodeLength(|s|, lineLength, |sep|) == |Broken(Data(a, s, true), lineLength, sep)| {
        if sep != [] {
          LengthExact(a, s, lineLength, sep);
        } else {
          DataLength(a, s);
          BrokenLength(Data(a, s, true), lineLength, sep);
        }
      }
    } else if lineLength < 0 {
      NegativeLength(a, lineLength, sep);
    } else {
      var s := LengthWrongFor(a, lineLength, sep);
    }
  }

  // ----------------------------------------------------------------- the codec

  const NEWLINE: Byte := 10

  function Combined(part: seq<int>): nat {
    if part == [] then 0 else Combined(part[..|part| - 1]) * 64 + Bits(part[|part| - 1])
  }

  lemma OneMoreCombined(part: seq<int>, v: int)
    ensures Combined(part + [v]) == Combined(part) * 64 + Bits(v) && Combined([]) == 0
  {
    assert (part + [v])[..|part|] == part;
  }

  lemma CombinedFour(v0: int, v1: int, v2: int, v3: int)
    ensures Combined([v0, v1, v2, v3]) == ((Bits(v0) * 64 + Bits(v1)) * 64 + Bits(v2)) * 64 + Bits(v3)
  {
    hide Combined, Bits;
    OneMoreCombined([], v0);
    OneMoreCombined([v0], v1);
    OneMoreCombined([v0, v1], v2);
    OneMoreCombined([v0, v1, v2], v3);
    assert [] + [v0] == [v0] && [v0] + [v1] == [v0, v1];
    assert [v0, v1] + [v2] == [v0, v1, v2] && [v0, v1, v2] + [v3] == [v0, v1, v2, v3];
  }

  lemma CombinedGroup(p: seq<int>)
    requires |p| == 4
    ensures var m := Combined(p);
            m < 16777216 && Bytes(p) == [m / 65536, m % 65536 / 256, m % 256]
  {
    assert p == [p[0], p[1], p[2], p[3]];
    CombinedFour(p[0], p[1], p[2], p[3]);
    OneGroup(p[0], p[1], p[2], p[3]);
    JoinCombined(Bits(p[0]), Bits(p[1]), Bits(p[2]), Bits(p[3]));
    hide Combined, Bytes, Bits, Triple;
  }

  /** The decoder in the middle of the values: `full` groups are done, `part` is not. */
  ghost predicate Decoding(full: seq<int>, part: seq<int>, written: seq<Byte>, combined: nat, dummies: nat) {
    && |full| % 4 == 0 && |part| < 4 && written == Bytes(full)
    && dummies == Dummies(full + part) && (part != [] ==> combined == Combined(part))
  }

  lemma OneMoreDummy(full: seq<int>, part: seq<int>, v: int)
    ensures Dummies(full + (part + [v])) == Dummies(full + part) + if v == PAD then 1 else 0
  {
    DummiesAppend(full + part, [v]);
    DummyCount([v]);
    Assoc(full, part, [v]);
  }

  lemma GroupDone(full: seq<int>, part: seq<int>)
    requires |full| % 4 == 0 && |part| == 4
    ensures var m := Combined(part);
            m < 16777216 && Bytes(full + part) == Bytes(full) + [m / 65536, m % 65536 / 256, m % 256]
    ensures full + part + [] == full + part
  {
    CombinedGroup(part);
    BytesAppend(full, part);
  }

  /** The switch on `cycle` in base64_decode; `v` is the value before a PAD becomes 0. */
  method TakeValue(written: seq<Byte>, cycle: nat, combined: nat, dummies: nat, v: int,
                   ghost full: seq<int>, ghost part: seq<int>)
    returns (written': seq<Byte>, cycle': nat, combined': nat, dummies': nat,
             ghost full': seq<int>, ghost part': seq<int>)
    requires Decoding(full, part, written, combined, dummies) && cycle == |part| && (v == PAD || 0 <= v < 64)
    ensures Decoding(full', part', written', combined', dummies') && cycle' == |part'|
    ensures full' + part' == full + part + [v]
  {
    hide Combined, Bytes, Dummies;
    written', combined', dummies', full' := written, combined, dummies, full;
    var value := v;
    if value == PAD {
      value := 0;
      dummies' := dummies + 1;
    }
    OneMoreDummy(full, part, v);
    OneMoreCombined(part, v);
    Assoc(full, part, [v]);
    part' := part + [v];
    if cycle == 0 {
      combined', cycle' := value, 1;
    } else {
      combined', cycle' := combined * 64 + value, cycle + 1;
    }
    if cycle' == 4 {
      GroupDone(full, part');
      full', part' := full + part', [];
      written' := written + [combined' / 65536, combined' % 65536 / 256, combined' % 256];
      cycle' := 0;
    }
  }

  lemma DecodingEnds(a: Alphabet, s: seq<Byte>, full: seq<int>, part: seq<int>, written: seq<Byte>,
                     combined: nat, dummies: nat)
    requires Values(a, s) == full + part && Decoding(full, part, written, combined, dummies)
    ensures DecodeOf(a, s) == if part != [] then Decoded([])
                              else if |written| < dummies then BadLength else Decoded(written[..|written| - dummies])
  {
    hide Bytes, Dummies, Values, Combined;
    assert part == [] ==> full + part == full;
    assert |full + part| % 4 == |part|;
  }

  lemma OneMoreChar(a: Alphabet, s: seq<Byte>, i: nat)
    requires i < |s|
    ensures Values(a, s[..i + 1]) == Values(a, s[..i]) + (if ValueOf(a, s[i]) == IGNORE then [] else [ValueOf(a, s[i])])
  {
    assert s[..i + 1] == s[..i] + [s[i]];
    ValuesAppend(a, s[..i], [s[i]]);
    assert [s[i]][1..] == [];
  }

  lemma NewlineSilent(a: Alphabet)
    ensures Silent(a, [NEWLINE]) <==> NEWLINE !in [a.plus, a.slash, a.pad]
  {
    LastValueIs(a, NEWLINE, 64);
    AlphanumericValue(a, NEWLINE);
    assert CharOf(a, 62) == a.plus && CharOf(a, 63) == a.slash;
    assert Silent(a, [NEWLINE]) <==> ValueOf(a, [NEWLINE][0]) == IGNORE;
  }

  class Codec {
    var lineLength: int
    var separator: seq<Byte>
    var valueToChar: seq<Byte>
    var charToValue: seq<int>
    var pad: Byte
    ghost var alphabet: Alphabet

    ghost predicate Valid()
      reads this
    {
      Tables(alphabet, valueToChar, charToValue) && pad == alphabet.pad
    }

    /** base64_init_ex */
    method InitEx(length: int, plus: Byte, slash: Byte, padding: Byte)
      modifies this
      ensures Valid() && alphabet == Alphabet(plus, slash, padding) && lineLength == length && separator == [NEWLINE]
      ensures Silent(alphabet, separator) <==> NEWLINE !in [plus, slash, padding]
    {
      lineLength, separator, pad := length, [NEWLINE], padding;
      alphabet := Alphabet(plus, slash, padding);
      valueToChar, charToValue := BuildTables(Alphabet(plus, slash, padding));
      NewlineSilent(alphabet);
    }

    /** base64_set_line_length: the nearest multiple of 4 towards zero. */
    method SetLineLength(length: int)
      requires Valid()
      modifies this`lineLength
      ensures Valid() && lineLength % 4 == 0 && -4 < length - lineLength < 4
      ensures length >= 0 ==> 0 <= lineLength <= length
      ensures length < 0 ==> length <= lineLength <= 0
    {
      lineLength := if length >= 0 then length / 4 * 4 else -(-length / 4 * 4);
    }

    /** base64_get_encode_length */
    method GetEncodeLength(n: nat) returns (length: int)
      requires Valid()
      ensures length == EncodeLength(n, lineLength, |separator|)
      ensures lineLength >= 0 && lineLength % 4 == 0 ==>
                forall s: seq<Byte> :: |s| == n ==> length == |Broken(Data(alphabet, s, true), lineLength, separator)|
    {
      length := (n + 2) / 3 * 4;
      if lineLength != 0 {
        var lines := CDiv(length + lineLength - 1, lineLength) - 1;
        if lines > 0 {
          length := length + lines * |separator|;
        }
      }
      if lineLength >= 0 && lineLength % 4 == 0 {
        forall s: seq<Byte> | |s| == n ensures length == |Broken(Data(alphabet, s, true), lineLength, separator)| {
          LengthExact(alphabet, s, lineLength, separator);
        }
      }
    }

    /** One turn of the loop of base64_encode_ex. */
    method EncodeGroup(dest: seq<Byte>, linePos: nat, b0: Byte, b1: Byte, b2: Byte)
      returns (dest': seq<Byte>, linePos': nat)
      requires Valid()
      ensures linePos' == if linePos + 4 > lineLength then 4 else linePos + 4
      ensures dest' == dest + (if linePos + 4 > lineLength && lineLength != 0 then separator else [])
                       + Quad(alphabet, b0, b1, b2)
    {
      dest', linePos' := dest, linePos + 4;
      if linePos' > lineLength {
        if lineLength != 0 {
          dest' := dest' + separator;
        }
        linePos' := 4;
      }
      assert dest + [] == dest;
      var combined := b0 * 65536 + b1 * 256 + b2;
      SplitCombined(b0, b1, b2);
      var c3 := combined % 64;
      combined := combined / 64;
      var c2 := combined % 64;
      combined := combined / 64;
      var c1 := combined % 64;
      combined := combined / 64;
      var c0 := combined % 64;
      assert Sextets(b0, b1, b2) == [c0, c1, c2, c3];
      dest' := dest' + [valueToChar[c0], valueToChar[c1], valueToChar[c2], valueToChar[c3]];
    }

    /** The loop of base64_encode_ex over the whole groups. */
    method EncodeWhole(src: seq<Byte>, whole: nat, ghost padded: bool) returns (dest: seq<Byte>, linePos: nat)
      requires Valid() && whole % 3 == 0 && whole <= |src|
      ensures Written(Data(alphabet, src[..whole], padded), lineLength, separator, dest, linePos)
    {
      dest, linePos := [], 0;
      var i := 0;
      assert Written(Data(alphabet, src[..i], padded), lineLength, separator, dest, linePos);
      hide Quad, Tables, Data, Written;
      while i < whole
        invariant 0 <= i <= whole && i % 3 == 0
        invariant Written(Data(alphabet, src[..i], padded), lineLength, separator, dest, linePos)
      {
        NextGroup(i, whole);
        WholeGroup(alphabet, src, i, padded);
        GroupAdded(Data(alphabet, src[..i], padded), lineLength, separator, dest, linePos,
                   Quad(alphabet, src[i], src[i + 1], src[i + 2]));
        dest, linePos := EncodeGroup(dest, linePos, src[i], src[i + 1], src[i + 2]);
        i := i + 3;
      }
    }

    /** base64_encode_ex */
    method Encode(src: seq<Byte>, padded: bool) returns (dest: seq<Byte>)
      requires Valid()
      ensures dest == Broken(Data(alphabet, src, padded), lineLength, separator)
      ensures Encodes(alphabet, src, padded, Data(alphabet, src, padded))
      ensures lineLength == 0 ==> Encodes(alphabet, src, padded, dest)
    {
      DataEncodes(alphabet, src, padded);
      hide Encodes;
      if |src| == 0 {
        return [];
      }
      hide Quad, Tables, Broken;
      var whole := |src| / 3 * 3;
      var leftover := |src| - whole;
      var linePos: nat;
      dest, linePos := EncodeWhole(src, whole, padded);
      ghost var d, q := Data(alphabet, src[..whole], padded), Data(alphabet, src[whole..], padded);
      DataAppend(alphabet, src[..whole], src[whole..], padded);
      assert src == src[..whole] + src[whole..];
      if leftover == 0 {
        assert d + q == d;
        return;
      }
      GroupWritten(d, lineLength, separator, dest, linePos, q);
      ghost var before := dest + if linePos + 4 > lineLength && lineLength != 0 then separator else [];
      dest, linePos := EncodeGroup(dest, linePos, src[whole], if leftover == 2 then src[whole + 1] else 0, 0);
      dest := Finish(dest, leftover, padded, before, src[whole..]);
    }

    /** The leftover bytes: padding characters overwrite the end of the last group, or it is cut off. */
    method Finish(dest: seq<Byte>, leftover: nat, padded: bool, ghost before: seq<Byte>, ghost tail: seq<Byte>)
      returns (dest': seq<Byte>)
      requires Valid() && 1 <= leftover <= 2 && |tail| == leftover
      requires dest == before + Quad(alphabet, tail[0], if leftover == 2 then tail[1] else 0, 0)
      ensures dest' == before + Data(alphabet, tail, padded)
    {
      var n := |dest|;
      if leftover == 1 {
        dest' := if padded then dest[n - 1 := pad][n - 2 := pad] else dest[..n - 2];
      } else {
        dest' := if padded then dest[n - 1 := pad] else dest[..n - 1];
      }
    }

    /** base64_decode: the bytes written and the length reported. */
    method Decode(src: seq<Byte>) returns (written: seq<Byte>, length: int)
      requires Valid()
      ensures length <= |written|
      ensures DecodeOf(alphabet, src) == if length < 0 then BadLength else Decoded(written[..length])
    {
      var cycle: nat, combined: nat, dummies: nat := 0, 0, 0;
      written := [];
      ghost var full: seq<int>, part: seq<int> := [], [];
      assert Decoding(full, part, written, combined, dummies);
      hide Decoding, Dummies, Bytes, ValueOf, DecodeOf;
      for i := 0 to |src|
        invariant Values(alphabet, src[..i]) == full + part && cycle == |part|
        invariant Decoding(full, part, written, combined, dummies)
      {
        var value := charToValue[src[i]];
        OneMoreChar(alphabet, src, i);
        ValueRange(alphabet, src[i]);
        if value != IGNORE {
          written, cycle, combined, dummies, full, part :=
            TakeValue(written, cycle, combined, dummies, value, full, part);
        }
      }
      assert src[..|src|] == src;
      DecodingEnds(alphabet, src, full, part, written, combined, dummies);
      if cycle != 0 {
        return written, 0;
      }
      length := |written| - dummies;
    }

    /** base64_decode_auto */
    method DecodeAuto(src: seq<Byte>) returns (written: seq<Byte>, length: int)
      requires Valid()
      ensures length <= |written|
      ensures DecodeOf(alphabet, PaddedOut(alphabet, src)) ==
              if length < 0 then BadLength else Decoded(written[..length])
    {
      var remain := |src| % 4;
      if remain == 0 {
        written, length := Decode(src);
      } else {
        var padding := pad;
        written, length := Decode(src + seq(4 - remain, _ => padding));
      }
    }
  }

  lemma NextGroup(i: nat, whole: nat)
    requires i % 3 == 0 && whole % 3 == 0 && i < whole
    ensures i + 3 <= whole && (i + 3) % 3 == 0
  {
  }

  lemma WholeGroup(a: Alphabet, s: seq<Byte>, i: nat, padded: bool)
    requires i % 3 == 0 && i + 3 <= |s|
    ensures Data(a, s[..i + 3], padded) == Data(a, s[..i], padded) + Quad(a, s[i], s[i + 1], s[i + 2])
  {
    var g := [s[i], s[i + 1], s[i + 2]];
    assert s[..i + 3] == s[..i] + g;
    DataAppend(a, s[..i], g, padded);
    assert Data(a, g, padded) == Quad(a, s[i], s[i + 1], s[i + 2]) + Data(a, g[3..], padded);
    assert Data(a, g[3..], padded) == [];
  }
}
