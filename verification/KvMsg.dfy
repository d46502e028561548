/** Key-value messages of the clone pattern: the 8-byte sequence number on the wire. */
module KvMsg {
  const INT64_HALF: int := 0x8000_0000_0000_0000
  const INT64_SPAN: int := 0x1_0000_0000_0000_0000

  /** `(sequence >> bits) & 255`, with `weight` = 2^bits. */
  function ByteAt(n: int, weight: int): int
    requires weight > 0
  {
    (n / weight) % 256
  }

  /** The frame `kvmsg_set_sequence` writes: eight bytes, most significant first. */
  function Encode(n: int): (b: seq<int>)
    ensures |b| == 8 && forall i :: 0 <= i < 8 ==> 0 <= b[i] < 256
  {
    [ByteAt(n, 0x100_0000_0000_0000), ByteAt(n, 0x1_0000_0000_0000), ByteAt(n, 0x100_0000_0000),
     ByteAt(n, 0x1_0000_0000), ByteAt(n, 0x100_0000), ByteAt(n, 0x1_0000), ByteAt(n, 0x100), ByteAt(n, 1)]
  }

  /** A 64-bit two's complement result. */
  function Wrap64(x: int): int {
    (x + INT64_HALF) % INT64_SPAN - INT64_HALF
  }

  /** The sum `kvmsg_sequence` computes, with byte 5 given the weight `five`. */
  function DecodeWith(b: seq<int>, five: int): int
    requires |b| == 8
  {
    Wrap64(b[0] * 0x100_0000_0000_0000 + b[1] * 0x1_0000_0000_0000 + b[2] * 0x100_0000_0000
           + b[3] * 0x1_0000_0000 + b[4] * 0x100_0000 + b[5] * five + b[6] * 0x100 + b[7])
  }

  /** `kvmsg_sequence` as written: byte 5 is shifted by 26. */
  function Decode(b: seq<int>): int
    requires |b| == 8
  {
    DecodeWith(b, 0x400_0000)
  }

  /** What a reader sees of the sequence number `n` a writer set. */
  function Seen(n: int): int {
    Decode(Encode(n))
  }

  // ------------------------------------------------------------------ the bytes of n

  lemma LowPair(n: int)
    ensures n / 1 == n && n == 0x1_0000 * (n / 0x1_0000) + 0x100 * ByteAt(n, 0x100) + ByteAt(n, 1)
  {
    assert n / 0x100 == 256 * (n / 0x1_0000) + ByteAt(n, 0x100);
  }

  lemma NextPair(n: int)
    ensures n / 0x1_0000 == 0x1_0000 * (n / 0x1_0000_0000) + 0x100 * ByteAt(n, 0x100_0000) + ByteAt(n, 0x1_0000)
  {
    assert n / 0x100_0000 == 256 * (n / 0x1_0000_0000) + ByteAt(n, 0x100_0000);
    assert n / 0x1_0000 == 256 * (n / 0x100_0000) + ByteAt(n, 0x1_0000);
  }

  lemma LowBytes(n: int)
    ensures n == (n / 0x1_0000_0000) * 0x1_0000_0000 + ByteAt(n, 0x100_0000) * 0x100_0000
               + ByteAt(n, 0x1_0000) * 0x1_0000 + ByteAt(n, 0x100) * 0x100 + ByteAt(n, 1)
  {
    LowPair(n);
    NextPair(n);
  }

  predicate IsInt64(n: int) {
    -INT64_HALF <= n < INT64_HALF
  }

  /** The unsigned reading of a 64-bit number. */
  function Unsigned(n: int): int {
    if n < 0 then n + INT64_SPAN else n
  }

  lemma HighBytes(n: int)
    requires IsInt64(n)
    ensures n / 0x1_0000_0000 == ByteAt(n, 0x100_0000_0000_0000) * 0x100_0000 + ByteAt(n, 0x1_0000_0000_0000) * 0x1_0000
                               + ByteAt(n, 0x100_0000_0000) * 0x100 + ByteAt(n, 0x1_0000_0000)
                               - if n < 0 then 0x1_0000_0000 else 0
  {
    assert n / 0x1_0000_0000 == 256 * (n / 0x100_0000_0000) + ByteAt(n, 0x1_0000_0000);
    assert n / 0x100_0000_0000 == 256 * (n / 0x1_0000_0000_0000) + ByteAt(n, 0x100_0000_0000);
    assert n / 0x1_0000_0000_0000 == 256 * (n / 0x100_0000_0000_0000) + ByteAt(n, 0x1_0000_0000_0000);
    assert -128 <= n / 0x100_0000_0000_0000 < 128;
  }

  /** The weighted sum of the bytes is the number itself, read as unsigned. */
  lemma BytesSum(n: int)
    requires IsInt64(n)
    ensures var b := Encode(n);
      Unsigned(n) == b[0] * 0x100_0000_0000_0000 + b[1] * 0x1_0000_0000_0000 + b[2] * 0x100_0000_0000
                   + b[3] * 0x1_0000_0000 + b[4] * 0x100_0000 + b[5] * 0x1_0000 + b[6] * 0x100 + b[7]
  {
    LowBytes(n);
    HighBytes(n);
  }

  lemma WrapDrops(x: int)
    requires IsInt64(x)
    ensures Wrap64(x) == x && Wrap64(x + INT64_SPAN) == x
  {
  }

  /** With the weight the encoder implies, decoding undoes encoding, for every 64-bit number. */
  lemma RoundTrip(n: int)
    requires IsInt64(n)
    ensures DecodeWith(Encode(n), 0x1_0000) == n
  {
    BytesSum(n);
    WrapDrops(n);
  }

  /** The decoder as written adds byte 5 again at the wrong place. */
  lemma SeenIs(n: int)
    requires IsInt64(n)
    ensures Seen(n) == Wrap64(n + ByteAt(n, 0x1_0000) * 0x3FF_0000)
  {
    BytesSum(n);
  }

  /** It returns the number written exactly when bits 16 to 23 of it are zero. */
  lemma SeenIffByteClear(n: int)
    requires IsInt64(n)
    ensures Seen(n) == n <==> ByteAt(n, 0x1_0000) == 0
  {
    SeenIs(n);
  }

  lemma MovedByteIsClear(hi: int, b: int, lo: int)
    requires 0 <= lo < 0x1_0000
    ensures ByteAt(0x100_0000 * hi + 0x400_0000 * b + lo, 0x1_0000) == 0
  {
    var m := 0x100_0000 * hi + 0x400_0000 * b + lo;
    assert m / 0x1_0000 == 256 * (hi + 4 * b);
  }

  lemma SplitAround(n: int)
    ensures n == 0x100_0000 * (n / 0x100_0000) + 0x1_0000 * ByteAt(n, 0x1_0000) + n % 0x1_0000
  {
    assert n / 0x1_0000 == 256 * (n / 0x100_0000) + ByteAt(n, 0x1_0000);
  }

  /** Byte 5 ends up ten bits higher; the sum may pass the top of the range once. */
  lemma SeenMoves(n: int) returns (hi: int)
    requires IsInt64(n)
    ensures Seen(n) == 0x100_0000 * hi + 0x400_0000 * ByteAt(n, 0x1_0000) + n % 0x1_0000
  {
    SeenIs(n);
    SplitAround(n);
    var x := n + ByteAt(n, 0x1_0000) * 0x3FF_0000;
    hi := n / 0x100_0000;
    if x >= INT64_HALF {
      WrapDrops(x - INT64_SPAN);
      hi := hi - 0x100_0000_0000;
    } else {
      WrapDrops(x);
    }
  }

  /** Reading twice, as a snapshot's closing number is read, changes nothing more. */
  lemma SeenIdempotent(n: int)
    requires IsInt64(n)
    ensures Seen(Seen(n)) == Seen(n)
  {
    var m := Seen(n);
    assert ByteAt(m, 0x1_0000) == 0 by {
      var hi := SeenMoves(n);
      MovedByteIsClear(hi, ByteAt(n, 0x1_0000), n % 0x1_0000);
    }
    SeenIffByteClear(m);
  }

  const LIMIT: int := 0x100_0000

  lemma SeenSmall(n: int)
    requires 0 <= n < LIMIT
    ensures Seen(n) == n + (n / 0x1_0000) * 0x3FF_0000
  {
    SeenIs(n);
    assert ByteAt(n, 0x1_0000) == n / 0x1_0000;
    WrapDrops(n + (n / 0x1_0000) * 0x3FF_0000);
  }

  lemma QuotientGrows(i: int, j: int)
    requires i <= j
    ensures i / 0x1_0000 <= j / 0x1_0000
  {
  }

  /** Below 2^24 numbers are seen in order. */
  lemma SeenIncreases(i: int, j: int)
    requires 0 <= i < j < LIMIT
    ensures 0 <= Seen(i) < Seen(j)
  {
    SeenSmall(i);
    SeenSmall(j);
    QuotientGrows(i, j);
  }

  /** At 2^24 the order breaks: that number is seen far below its predecessor. */
  lemma SeenDropsAtLimit()
    ensures Seen(LIMIT) == LIMIT < Seen(LIMIT - 1)
  {
    SeenIffByteClear(LIMIT);
    SeenSmall(LIMIT - 1);
  }

  /** Sequence numbers up to `n` are seen in order if and only if `n` is below 2^24. */
  lemma OrderedIffBelowLimit(n: int)
    requires 0 <= n < INT64_HALF
    ensures (forall i, j :: 0 <= i < j <= n ==> Seen(i) < Seen(j)) <==> n < LIMIT
  {
    if n < LIMIT {
      forall i, j | 0 <= i < j <= n ensures Seen(i) < Seen(j) { SeenIncreases(i, j); }
    } else {
      SeenDropsAtLimit();
    }
  }

  // ------------------------------------------------------------------- beyond the first block

  /** Numbers below this are decoded without passing the top of the 64-bit range. */
  const TOP: int := INT64_HALF - 0x4_0000_0000

  lemma ByteInBlock(q: int, r: int)
    requires 0 <= r < LIMIT
    ensures ByteAt(LIMIT * q + r, 0x1_0000) == r / 0x1_0000
  {
    assert (LIMIT * q + r) / 0x1_0000 == 256 * q + r / 0x1_0000;
  }

  /** Every block of 2^24 numbers is seen as the first one is, moved to its place. */
  lemma SeenInBlock(q: int, r: int)
    requires 0 <= q && 0 <= r < LIMIT && LIMIT * q + r < TOP
    ensures Seen(LIMIT * q + r) == LIMIT * q + Seen(r)
  {
    var n, x := LIMIT * q + r, (r / 0x1_0000) * 0x3FF_0000;
    ByteInBlock(q, r);
    assert Seen(n) == Wrap64(n + x) by { SeenIs(n); }
    assert Seen(r) == r + x by { SeenSmall(r); }
    WrapDrops(n + x);
  }

  lemma SplitBlock(n: int)
    ensures n == LIMIT * (n / LIMIT) + n % LIMIT && 0 <= n % LIMIT < LIMIT
  {
  }

  lemma SeenInOneBlock(q: int, a: int, b: int)
    requires 0 <= q && 0 <= a < b < LIMIT && LIMIT * q + b < TOP
    ensures Seen(LIMIT * q + a) < Seen(LIMIT * q + b)
  {
    SeenInBlock(q, a);
    SeenInBlock(q, b);
    SeenIncreases(a, b);
  }

  /** Within a block numbers are seen in order. */
  lemma SeenIncreasesInBlock(i: int, j: int)
    requires 0 <= i < j < TOP && i / LIMIT == j / LIMIT
    ensures Seen(i) < Seen(j)
  {
    SplitBlock(i);
    SplitBlock(j);
    SeenInOneBlock(i / LIMIT, i % LIMIT, j % LIMIT);
  }

  lemma SeenAtStart(q: int)
    requires 0 <= q && LIMIT * q < TOP
    ensures Seen(LIMIT * q) == LIMIT * q
  {
    SeenIffByteClear(0);
    SeenInBlock(q, 0);
  }

  lemma SeenAtEnd(q: int)
    requires 0 <= q && LIMIT * q + (LIMIT - 1) < TOP
    ensures Seen(LIMIT * q + (LIMIT - 1)) > LIMIT * q + LIMIT
  {
    SeenInBlock(q, LIMIT - 1);
    SeenDropsAtLimit();
  }

  /** At the end of every block the order breaks. */
  lemma SeenDropsAtEdge(q: int, last: int)
    requires 0 <= q && last == LIMIT * q + (LIMIT - 1) && last + 1 < TOP
    ensures Seen(last + 1) < Seen(last)
  {
    SeenAtEnd(q);
    SeenAtStart(q + 1);
    assert LIMIT * (q + 1) == last + 1;
  }
}
