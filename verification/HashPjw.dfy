/** Bit operations on numbers without sign, as C has them. */
module BitOps {

  /** `a ^ b`. */
  function Xor(a: nat, b: nat): nat
    decreases a + b
  {
    if a == 0 && b == 0 then 0 else 2 * Xor(a / 2, b / 2) + (a + b) % 2
  }

  /** `a & b`. */
  function And(a: nat, b: nat): nat
    decreases a + b
  {
    if a == 0 && b == 0 then 0 else 2 * And(a / 2, b / 2) + if a % 2 == 1 && b % 2 == 1 then 1 else 0
  }

  function Pow2(k: nat): (p: nat)
    ensures p > 0
  {
    if k == 0 then 1 else 2 * Pow2(k - 1)
  }

  /** Bit `k` of `a`. */
  function Bit(a: nat, k: nat): nat {
    if k == 0 then a % 2 else Bit(a / 2, k - 1)
  }

  /** The last bit, and the number without it. */
  lemma Split(x: nat) returns (h: nat, u: nat)
    ensures x == 2 * h + u && u < 2 && h == x / 2
  {
    h, u := x / 2, x % 2;
  }

  lemma BitOf(h: nat, u: nat, k: nat)
    requires u < 2
    ensures Bit(2 * h + u, k) == if k == 0 then u else Bit(h, k - 1)
  {
    assert (2 * h + u) / 2 == h;
  }

  /** Both operate bit by bit. */
  lemma {:induction false} BitByBit(a: nat, b: nat, k: nat)
    ensures Bit(Xor(a, b), k) == (Bit(a, k) + Bit(b, k)) % 2
    ensures Bit(And(a, b), k) == if Bit(a, k) == 1 && Bit(b, k) == 1 then 1 else 0
    decreases k
  {
    var c, u := Split(a);
    var d, v := Split(b);
    XorLastBit(c, d, u, v);
    AndLastBit(c, d, u, v);
    BitOf(c, u, k);
    BitOf(d, v, k);
    BitOf(Xor(c, d), (u + v) % 2, k);
    BitOf(And(c, d), if u == 1 && v == 1 then 1 else 0, k);
    if k > 0 { BitByBit(c, d, k - 1); }
  }

  lemma {:induction false} XorZero(a: nat)
    ensures Xor(a, 0) == a
  {
    if a > 0 { XorZero(a / 2); }
  }

  lemma {:induction false} XorSelf(a: nat)
    ensures Xor(a, a) == 0
  {
    if a > 0 { XorSelf(a / 2); }
  }

  lemma {:induction false} AndZero(a: nat)
    ensures And(a, 0) == 0
  {
    if a > 0 { AndZero(a / 2); }
  }

  /** The last bit apart from the rest. */
  lemma XorLastBit(a: nat, b: nat, x: nat, y: nat)
    requires x < 2 && y < 2
    ensures Xor(2 * a + x, 2 * b + y) == 2 * Xor(a, b) + (x + y) % 2
  {
    assert (2 * a + x) / 2 == a && (2 * b + y) / 2 == b;
  }

  lemma AndLastBit(a: nat, b: nat, x: nat, y: nat)
    requires x < 2 && y < 2
    ensures And(2 * a + x, 2 * b + y) == 2 * And(a, b) + if x == 1 && y == 1 then 1 else 0
  {
    assert (2 * a + x) / 2 == a && (2 * b + y) / 2 == b;
  }

  lemma XorDouble(a: nat, b: nat, c: nat, x: nat, y: nat, u: nat, v: nat)
    requires u < 2 && v < 2 && Xor(a + x, b + y) == c + Xor(x, y)
    ensures Xor(2 * a + (2 * x + u), 2 * b + (2 * y + v)) == 2 * c + Xor(2 * x + u, 2 * y + v)
  {
    XorLastBit(a + x, b + y, u, v);
    XorLastBit(x, y, u, v);
    assert 2 * (a + x) + u == 2 * a + (2 * x + u) && 2 * (b + y) + v == 2 * b + (2 * y + v);
  }

  /** `a << k`, in as many bits as it takes. */
  function Shl(a: nat, k: nat): nat {
    if k == 0 then a else 2 * Shl(a, k - 1)
  }

  /** The last `k` bits apart from the rest. */
  lemma {:induction false} XorLastBits(k: nat, a: nat, b: nat, x: nat, y: nat)
    requires x < Pow2(k) && y < Pow2(k)
    ensures Xor(Shl(a, k) + x, Shl(b, k) + y) == Shl(Xor(a, b), k) + Xor(x, y)
  {
    if k > 0 {
      var x1, u := Split(x);
      var y1, v := Split(y);
      XorLastBits(k - 1, a, b, x1, y1);
      XorDouble(Shl(a, k - 1), Shl(b, k - 1), Shl(Xor(a, b), k - 1), x1, y1, u, v);
    }
  }

  lemma AndDouble(a: nat, b: nat, c: nat, x: nat, u: nat)
    requires u < 2 && And(a + x, b) == c
    ensures And(2 * a + (2 * x + u), 2 * b) == 2 * c
  {
    AndLastBit(a + x, b, u, 0);
    assert 2 * (a + x) + u == 2 * a + (2 * x + u);
  }

  /** A mask for everything but the last `k` bits. */
  lemma {:induction false} AndLastBits(k: nat, a: nat, b: nat, x: nat)
    requires x < Pow2(k)
    ensures And(Shl(a, k) + x, Shl(b, k)) == Shl(And(a, b), k)
  {
    if k > 0 {
      var x1, u := Split(x);
      AndLastBits(k - 1, a, b, x1);
      AndDouble(Shl(a, k - 1), Shl(b, k - 1), Shl(And(a, b), k - 1), x1, u);
    }
  }

  lemma {:induction false} ShlMore(a: nat, j: nat, k: nat)
    ensures Shl(a, j + k) == Shl(Shl(a, j), k) && Pow2(j) == Shl(1, j)
  {
    if k > 0 { ShlMore(a, j, k - 1); } else { PowIsShl(j); }
  }

  lemma {:induction false} PowIsShl(j: nat)
    ensures Pow2(j) == Shl(1, j)
  {
    if j > 0 { PowIsShl(j - 1); }
  }

  lemma ShlFour(a: nat)
    ensures Shl(a, 4) == 16 * a
  {
    assert Shl(a, 0) == a && Shl(a, 1) == 2 * Shl(a, 0) && Shl(a, 2) == 2 * Shl(a, 1);
    assert Shl(a, 3) == 2 * Shl(a, 2) && Shl(a, 4) == 2 * Shl(a, 3);
  }

  lemma ShlWord(a: nat)
    ensures Shl(a, 28) == 0x1000_0000 * a
  {
    ShlMore(a, 4, 4);
    ShlMore(a, 8, 4);
    ShlMore(a, 12, 4);
    ShlMore(a, 16, 4);
    ShlMore(a, 20, 4);
    ShlMore(a, 24, 4);
    ShlFour(a);
    ShlFour(16 * a);
    ShlFour(256 * a);
    ShlFour(4096 * a);
    ShlFour(65536 * a);
    ShlFour(1048576 * a);
    ShlFour(16777216 * a);
  }

  lemma Powers()
    ensures Pow2(4) == 16 && Pow2(28) == 0x1000_0000
  {
    PowIsShl(4);
    PowIsShl(28);
    ShlFour(1);
    ShlWord(1);
  }

  /** A mask of ones for the last `k` bits. */
  lemma {:induction false} AndOnes(k: nat, t: nat)
    requires t < Pow2(k)
    ensures And(t, Pow2(k) - 1) == t
  {
    if k > 0 {
      var h, u := Split(t);
      AndOnes(k - 1, h);
      AndLastBit(h, Pow2(k - 1) - 1, u, 1);
    }
  }
}

/** The string hash used with the table, and the key-value pairs it indexes. */
module HashPjw {
  import opened BitOps
  import opened CStrings
  import opened HashTable

  type Char = c: int | 0 <= c < 256

  const WORD := 0x1_0000_0000

  /** A C character widened to an unsigned int: char is signed. */
  function Widen(c: Char): nat {
    if c < 128 then c else WORD - 256 + c
  }

  /** One turn of the loop of `hashpjw`, in 32-bit arithmetic. */
  function Fold1(val: nat, c: Char): nat {
    var v := (val * 16 % WORD + Widen(c)) % WORD;
    var tmp := And(v, 0xF000_0000);
    if tmp != 0 then Xor(Xor(v, tmp / 0x100_0000), tmp) else v
  }

  /** The mask picks the top four bits. */
  lemma TopBits(v: nat)
    requires v < WORD
    ensures And(v, 0xF000_0000) == 0x1000_0000 * (v / 0x1000_0000)
  {
    var top, rest := v / 0x1000_0000, v % 0x1000_0000;
    Powers();
    AndLastBits(28, top, 15, rest);
    ShlWord(top);
    ShlWord(15);
    AndOnes(4, top);
  }

  /** Bits 4 to 7 of `v` flipped by `top`. */
  function Flipped(v: nat, top: nat): int {
    v - 16 * (v / 16 % 16) + 16 * Xor(v / 16 % 16, top)
  }

  lemma {:induction false} XorSmall(k: nat, a: nat, b: nat)
    requires a < Pow2(k) && b < Pow2(k)
    ensures Xor(a, b) < Pow2(k)
  {
    if k > 0 { XorSmall(k - 1, a / 2, b / 2); }
  }

  lemma LowNibbleApart(q: nat, low: nat, top: nat)
    requires low < 16
    ensures Xor(16 * q + low, 16 * top) == 16 * Xor(q, top) + low
  {
    Powers();
    XorLastBits(4, q, top, low, 0);
    ShlFour(q);
    ShlFour(top);
    ShlFour(Xor(q, top));
    XorZero(low);
  }

  lemma Nibbles(v: nat)
    ensures v == 16 * (v / 16) + v % 16 && v % 16 < 16
  {
  }

  lemma FlipsNibble(v: nat, top: nat)
    requires top < 16
    ensures Xor(v, 16 * top) == Flipped(v, top)
  {
    var q := v / 16;
    Nibbles(v);
    LowNibbleApart(q, v % 16, top);
    FlipsLow(q, top);
  }

  lemma FlipsLow(q: nat, top: nat)
    requires top < 16
    ensures Xor(q, top) == q - q % 16 + Xor(q % 16, top)
  {
    Nibbles(q);
    HighApart(q / 16, q % 16, top);
  }

  lemma HighApart(high: nat, nib: nat, top: nat)
    requires nib < 16 && top < 16
    ensures Xor(16 * high + nib, top) == 16 * high + Xor(nib, top)
  {
    Powers();
    XorLastBits(4, high, 0, nib, top);
    ShlFour(high);
    ShlFour(0);
    XorZero(high);
  }

  lemma ClearsTop(w: nat, top: nat)
    requires w / 0x1000_0000 == top
    ensures Xor(w, 0x1000_0000 * top) == w % 0x1000_0000
  {
    TopApart(top, w % 0x1000_0000);
  }

  lemma TopApart(top: nat, rest: nat)
    requires rest < 0x1000_0000
    ensures Xor(0x1000_0000 * top + rest, 0x1000_0000 * top) == rest
  {
    Powers();
    XorLastBits(28, top, top, rest, 0);
    XorSelf(top);
    ShlWord(top);
    ShlWord(0);
    XorZero(rest);
  }

  /** The number the characters read so far make, and one more, in 32 bits. */
  function Shifted(val: nat, c: Char): nat {
    (16 * val + Widen(c)) % WORD
  }

  /** The body of the loop, as arithmetic on the shifted sum. */
  lemma MixIs(v: nat)
    requires v < WORD
    ensures var tmp, top := And(v, 0xF000_0000), v / 0x1000_0000;
      var r := if tmp != 0 then Xor(Xor(v, tmp / 0x100_0000), tmp) else v;
      0 <= Flipped(v, top) && r == Flipped(v, top) % 0x1000_0000
  {
    var top := v / 0x1000_0000;
    TopBits(v);
    FlippedTop(v, top);
    if top == 0 {
      XorZero(v / 16 % 16);
    } else {
      FlipsNibble(v, top);
      ClearsTop(Flipped(v, top), top);
    }
  }

  /** One turn, as arithmetic: the top four bits of the shifted sum leave it, and flip bits 4 to 7. */
  lemma StepIs(val: nat, c: Char)
    ensures var v := Shifted(val, c); Fold1(val, c) == Flipped(v, v / 0x1000_0000) % 0x1000_0000
    ensures Fold1(val, c) < 0x1000_0000
  {
    assert (val * 16 % WORD + Widen(c)) % WORD == Shifted(val, c);
    MixIs(Shifted(val, c));
  }

  lemma InPlace(v: nat, x: nat)
    requires x < 16
    ensures var w := v - 16 * (v / 16 % 16) + 16 * x; 0 <= w && w / 256 == v / 256
  {
    Nibbles(v);
    Nibbles(v / 16);
    var high, low := v / 16 / 16, v % 16;
    assert v / 256 == high;
    assert v - 16 * (v / 16 % 16) + 16 * x == 256 * high + (16 * x + low);
  }

  lemma FlippedTop(v: nat, top: nat)
    requires top < 16
    ensures 0 <= Flipped(v, top) && Flipped(v, top) / 0x1000_0000 == v / 0x1000_0000
  {
    Powers();
    XorSmall(4, v / 16 % 16, top);
    InPlace(v, Xor(v / 16 % 16, top));
    SameTop(v);
    SameTop(Flipped(v, top));
  }

  lemma SameTop(v: nat)
    ensures v / 0x1000_0000 == v / 256 / 0x10_0000
  {
  }

  function Accumulate(val: nat, s: seq<Char>): nat
    decreases |s|
  {
    if s == [] then val else Accumulate(Fold1(val, s[0]), s[1..])
  }

  /** The accumulator never keeps a bit above 2^28, whatever the characters. */
  lemma {:induction false} AccumulatorBounded(val: nat, s: seq<Char>)
    requires val < 0x1000_0000
    ensures Accumulate(val, s) < 0x1000_0000
    decreases |s|
  {
    if s != [] {
      StepIs(val, s[0]);
      AccumulatorBounded(Fold1(val, s[0]), s[1..]);
    }
  }

  function Pow16(k: nat): (p: nat)
    ensures p > 0
  {
    if k == 0 then 1 else 16 * Pow16(k - 1)
  }

  /** The characters as digits to the base 16, the first one first. */
  function Digits(s: seq<Char>): nat {
    if s == [] then 0 else s[0] * Pow16(|s| - 1) + Digits(s[1..])
  }

  ghost predicate Ascii(s: seq<Char>) {
    forall i :: 0 <= i < |s| ==> 0 < s[i] < 128
  }

  lemma FlippedNone(v: nat)
    ensures Flipped(v, 0) == v
  {
    XorZero(v / 16 % 16);
  }

  lemma PlainStep(val: nat, c: Char)
    requires c < 128 && 16 * val + c < 0x1000_0000
    ensures Fold1(val, c) == 16 * val + c
  {
    var v := 16 * val + c;
    assert Shifted(val, c) == v && v / 0x1000_0000 == 0 && v % 0x1000_0000 == v;
    StepIs(val, c);
    FlippedNone(v);
  }

  lemma {:induction false} DigitsSmall(s: seq<Char>)
    requires Ascii(s)
    ensures Digits(s) <= 9 * Pow16(|s|)
  {
    if s != [] {
      var p, c := Pow16(|s| - 1), s[0];
      DigitsSmall(s[1..]);
      Scaled(c, 127, p);
    }
  }

  lemma Scaled(c: nat, d: nat, p: nat)
    requires c <= d
    ensures c * p <= d * p
  {
  }

  lemma Regrouped(val: nat, c: nat, p: nat)
    requires p > 0
    ensures val * (16 * p) + c * p == (16 * val + c) * p && 16 * val + c <= (16 * val + c) * p
  {
  }

  lemma {:induction false} AccumulatesDigits(val: nat, s: seq<Char>)
    requires Ascii(s) && val * Pow16(|s|) + Digits(s) < 0x1000_0000
    ensures Accumulate(val, s) == val * Pow16(|s|) + Digits(s)
    decreases |s|
  {
    if s != [] {
      Regrouped(val, s[0], Pow16(|s| - 1));
      PlainStep(val, s[0]);
      AccumulatesDigits(16 * val + s[0], s[1..]);
    }
  }

  function Pjw(s: seq<Char>): (r: int)
    ensures 0 <= r < 1024
  {
    Accumulate(0, Before(s, 0)) % 1024
  }

  /** Strings of up to six plain characters hash to their digits modulo 1024. */
  lemma ShortStrings(s: seq<Char>)
    requires Ascii(s) && |s| <= 6
    ensures Accumulate(0, s) == Digits(s) && Pjw(s) == Digits(s) % 1024
  {
    DigitsSmall(s);
    SixDigits(|s|);
    AccumulatesDigits(0, s);
    BeforeWhole(s, 0);
  }

  lemma SixDigits(n: nat)
    requires n <= 6
    ensures 9 * Pow16(n) < 0x1000_0000
  {
    assert Pow16(2) == 256 && Pow16(3) == 16 * Pow16(2) && Pow16(4) == 16 * Pow16(3);
    assert Pow16(5) == 16 * Pow16(4) && Pow16(6) == 16 * Pow16(5);
  }

  /** `hashpjw`: the loop over the characters. */
  method HashPjw(s: seq<Char>) returns (r: int)
    ensures r == Pjw(s)
  {
    var val: nat := 0;
    var i := 0;
    assert s[0..] == s;
    while i < |s| && s[i] != 0
      invariant 0 <= i <= |s|
      invariant Accumulate(val, Before(s[i..], 0)) == Accumulate(0, Before(s, 0))
      invariant val < 0x1000_0000
    {
      StepIs(val, s[i]);
      assert s[i..][1..] == s[i + 1..];
      assert Before(s[i..], 0)[1..] == Before(s[i + 1..], 0);
      val := (val * 16 % WORD + Widen(s[i])) % WORD;
      var tmp := And(val, 0xF000_0000);
      if tmp != 0 {
        val := Xor(val, tmp / 0x100_0000);
        val := Xor(val, tmp);
      }
      i := i + 1;
    }
    r := val % 1024;
  }

  datatype Kv = Kv(key: seq<Char>, value: seq<Char>)

  function HashKv(kv: Kv): int {
    Pjw(kv.key)
  }

  /** `match_sweet_list_kv`: equal as C strings. */
  predicate MatchKv(a: Kv, b: Kv) {
    Before(a.key, 0) == Before(b.key, 0)
  }

  /** The hash and the comparison meet what the table needs. */
  lemma KvLawful()
    ensures Lawful(HashKv, MatchKv)
  {
  }
}
