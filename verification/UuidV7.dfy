/** The default id generator (manager.go:260-276): version 7 UUIDs as section 5.7 of RFC 9562 lays them
    out, and the order it puts on them. */
module UuidV7 {
  import opened Types
  import opened ByteOrder
  import opened Pagination

  const HYPHEN: bv8 := 45

  /** `0` to `9`, `a` to `f`. */
  const DIGITS: Text := [48, 49, 50, 51, 52, 53, 54, 55, 56, 57, 97, 98, 99, 100, 101, 102]

  const TWO_TO_48: int := 0x1_0000_0000_0000
  const TWO_TO_64: int := 0x1_0000_0000_0000_0000

  /** A byte by its value. Masks and shifts are written as the remainders and quotients they are. */
  type Byte = n: int | 0 <= n < 256

  function High(x: Byte): bv8 {
    DIGITS[x / 16]
  }

  function Low(x: Byte): bv8 {
    DIGITS[x % 16]
  }

  /** The conversion to an unsigned 64-bit number. */
  function Unsigned(ms: int): nat {
    ms % TWO_TO_64
  }

  /** The number shifted right by `n` bytes. */
  function Shifted(u: nat, n: nat): nat {
    if n == 0 then u else Shifted(u, n - 1) / 256
  }

  /** Byte `k` of the low six, the most significant first. */
  function TimeByte(u: nat, k: nat): Byte
    requires k < 6
  {
    Shifted(u, 5 - k) % 256
  }

  function TimeBytes(u: nat): (bytes: seq<Byte>)
    ensures |bytes| == 6
  {
    seq(6, k requires 0 <= k < 6 => TimeByte(u, k))
  }

  /** Version 7 in the upper half of byte 6. */
  function Version(r: Byte): Byte {
    r % 16 + 0x70
  }

  /** The two variant bits on top of byte 8. */
  function Variant(r: Byte): Byte {
    r % 64 + 0x80
  }

  /** Timestamp, version and variant over the random bytes. */
  function Stamped(random: seq<Byte>, ms: int): (bytes: seq<Byte>)
    requires |random| == 16
    ensures |bytes| == 16
  {
    TimeBytes(Unsigned(ms)) + [Version(random[6]), random[7], Variant(random[8])] + random[9..]
  }

  /** Two characters per element. */
  function Pairs<T, U>(b: seq<T>, high: T -> U, low: T -> U): (text: seq<U>)
    ensures |text| == 2 * |b|
  {
    if b == [] then [] else Pairs(b[..|b| - 1], high, low) + [high(b[|b| - 1]), low(b[|b| - 1])]
  }

  /** In groups of 4, 2, 2, 2 and 6 elements. */
  function Grouped<T, U>(b: seq<T>, high: T -> U, low: T -> U, mark: U): (text: seq<U>)
    requires |b| == 16
    ensures |text| == 36
  {
    Pairs(b[..4], high, low) + [mark] + Pairs(b[4..6], high, low) + [mark] + Pairs(b[6..8], high, low) + [mark]
    + Pairs(b[8..10], high, low) + [mark] + Pairs(b[10..], high, low)
  }

  function Formatted(b: seq<Byte>): (text: Text)
    requires |b| == 16
    ensures |text| == 36
  {
    Grouped(b, High, Low, HYPHEN)
  }

  function Uuid(random: seq<Byte>, ms: int): (text: Text)
    requires |random| == 16
    ensures |text| == 36
  {
    Formatted(Stamped(random, ms))
  }

  lemma ShiftedBy(u: nat)
    ensures Shifted(u, 0) == u && Shifted(u, 1) == u / 0x100 && Shifted(u, 2) == u / 0x1_0000
    ensures Shifted(u, 3) == u / 0x100_0000 && Shifted(u, 4) == u / 0x1_0000_0000
    ensures Shifted(u, 5) == u / 0x100_0000_0000
  {
    assert Shifted(u, 1) == Shifted(u, 0) / 256 && Shifted(u, 2) == Shifted(u, 1) / 256;
    assert Shifted(u, 3) == Shifted(u, 2) / 256 && Shifted(u, 4) == Shifted(u, 3) / 256;
    assert Shifted(u, 5) == Shifted(u, 4) / 256;
  }

  /** Stamps the random bytes in place and prints them. */
  method NewUUIDv7(b: array<Byte>, ms: int) returns (text: Text)
    requires b.Length == 16
    modifies b
    ensures b[..] == Stamped(old(b[..]), ms)
    ensures text == Uuid(old(b[..]), ms)
  {
    var u := Unsigned(ms);
    ShiftedBy(u);
    b[0] := u / 0x100_0000_0000 % 256;
    b[1] := u / 0x1_0000_0000 % 256;
    b[2] := u / 0x100_0000 % 256;
    b[3] := u / 0x1_0000 % 256;
    b[4] := u / 0x100 % 256;
    b[5] := u % 256;
    b[6] := Version(b[6]);
    b[8] := Variant(b[8]);
    assert b[..] == Stamped(old(b[..]), ms);
    text := Grouped(b[..], High, Low, HYPHEN);
  }

  // ---------------------------------------------------------------- where each byte is printed

  /** Where byte `k` is printed, two characters long, between the hyphens. */
  function Place(k: nat): (p: nat) {
    if k < 4 then 2 * k
    else if k < 6 then 2 * k + 1
    else if k < 8 then 2 * k + 2
    else if k < 10 then 2 * k + 3
    else 2 * k + 4
  }

  lemma {:induction false} PairAt<T, U>(b: seq<T>, high: T -> U, low: T -> U, k: nat)
    requires k < |b|
    ensures Pairs(b, high, low)[2 * k] == high(b[k]) && Pairs(b, high, low)[2 * k + 1] == low(b[k])
  {
    if k < |b| - 1 {
      PairAt(b[..|b| - 1], high, low, k);
    }
  }

  lemma GroupedAt<T, U>(b: seq<T>, high: T -> U, low: T -> U, mark: U, k: nat)
    requires |b| == 16 && k < 16
    ensures Grouped(b, high, low, mark)[Place(k)] == high(b[k])
    ensures Grouped(b, high, low, mark)[Place(k) + 1] == low(b[k])
  {
    if k < 4 {
      PairAt(b[..4], high, low, k);
    } else if k < 6 {
      PairAt(b[4..6], high, low, k - 4);
    } else if k < 8 {
      PairAt(b[6..8], high, low, k - 6);
    } else if k < 10 {
      PairAt(b[8..10], high, low, k - 8);
    } else {
      PairAt(b[10..], high, low, k - 10);
    }
  }

  lemma MarksAt<T, U>(b: seq<T>, high: T -> U, low: T -> U, mark: U)
    requires |b| == 16
    ensures forall i :: i in {8, 13, 18, 23} ==> Grouped(b, high, low, mark)[i] == mark
  {
  }

  /** Every position is a hyphen or belongs to a byte. */
  function ByteAt(i: nat): (k: nat)
    requires i < 36 && i !in {8, 13, 18, 23}
    ensures k < 16 && (i == Place(k) || i == Place(k) + 1)
  {
    if i < 8 then i / 2
    else if i < 13 then (i - 1) / 2
    else if i < 18 then (i - 2) / 2
    else if i < 23 then (i - 3) / 2
    else (i - 4) / 2
  }

  /** The digit's value, for the sixteen digits. */
  function DigitValue(c: bv8): (n: int)
    ensures 0 <= n < 16
  {
    if c == 48 then 0 else if c == 49 then 1 else if c == 50 then 2 else if c == 51 then 3
    else if c == 52 then 4 else if c == 53 then 5 else if c == 54 then 6 else if c == 55 then 7
    else if c == 56 then 8 else if c == 57 then 9 else if c == 97 then 10 else if c == 98 then 11
    else if c == 99 then 12 else if c == 100 then 13 else if c == 101 then 14 else 15
  }

  lemma DigitUndone(n: int)
    requires 0 <= n < 16
    ensures DigitValue(DIGITS[n]) == n
  {
  }

  /** The byte whose two digits are at `Place(k)`. */
  function ReadByte(text: Text, k: nat): Byte
    requires |text| == 36 && k < 16
  {
    16 * DigitValue(text[Place(k)]) + DigitValue(text[Place(k) + 1])
  }

  /** Printing can be undone, so the text carries every bit. */
  lemma PrintingUndone(b: seq<Byte>, k: nat)
    requires |b| == 16 && k < 16
    ensures ReadByte(Formatted(b), k) == b[k]
  {
    GroupedAt(b, High, Low, HYPHEN, k);
    DigitUndone(b[k] / 16);
    DigitUndone(b[k] % 16);
  }

  // ---------------------------------------------------------------- layout

  /** `0` to `9` and `a` to `f`. */
  predicate IsHexDigit(c: bv8) {
    48 <= c <= 57 || 97 <= c <= 102
  }

  lemma DigitIsHex(n: int)
    requires 0 <= n < 16
    ensures IsHexDigit(DIGITS[n])
  {
  }

  lemma HexAt(b: seq<Byte>, i: nat)
    requires |b| == 16 && i < 36 && i !in {8, 13, 18, 23}
    ensures IsHexDigit(Formatted(b)[i])
  {
    var k := ByteAt(i);
    GroupedAt(b, High, Low, HYPHEN, k);
    DigitIsHex(b[k] / 16);
    DigitIsHex(b[k] % 16);
  }

  /** Version digit 7, variant digit 8, 9, a or b, hyphens where they belong and lower-case hexadecimal digits
      everywhere else. */
  lemma Layout(random: seq<Byte>, ms: int)
    requires |random| == 16
    ensures var text := Uuid(random, ms);
            && text[8] == text[13] == text[18] == text[23] == 45
            && text[14] == 55
            && text[19] in [56, 57, 97, 98]
            && forall i :: 0 <= i < 36 && i !in {8, 13, 18, 23} ==> IsHexDigit(text[i])
  {
    var b := Stamped(random, ms);
    MarksAt(b, High, Low, HYPHEN);
    GroupedAt(b, High, Low, HYPHEN, 6);
    GroupedAt(b, High, Low, HYPHEN, 8);
    forall i | 0 <= i < 36 && i !in {8, 13, 18, 23} ensures IsHexDigit(Uuid(random, ms)[i]) {
      HexAt(b, i);
    }
  }

  /** The number the first `n` bytes of the text spell. */
  function Spelled(text: Text, n: nat): nat
    requires |text| == 36 && n <= 6
  {
    if n == 0 then 0 else 256 * Spelled(text, n - 1) + ReadByte(text, n - 1)
  }

  /** The millisecond in the text. */
  function Timestamp(text: Text): nat
    requires |text| == 36
  {
    Spelled(text, 6)
  }

  function Scaled(q: nat, n: nat): nat {
    if n == 0 then q else 256 * Scaled(q, n - 1)
  }

  lemma ScaledSix(q: nat)
    ensures Scaled(q, 6) == q * TWO_TO_48
  {
    assert Scaled(q, 1) == 256 * Scaled(q, 0) && Scaled(q, 2) == 256 * Scaled(q, 1)
           && Scaled(q, 3) == 256 * Scaled(q, 2);
    assert Scaled(q, 4) == 256 * Scaled(q, 3) && Scaled(q, 5) == 256 * Scaled(q, 4);
  }

  lemma {:induction false} ShiftSplit(q: nat, r: nat, n: nat)
    requires n <= 6
    ensures Shifted(Scaled(q, 6) + r, n) == Scaled(q, 6 - n) + Shifted(r, n)
  {
    if n > 0 {
      ShiftSplit(q, r, n - 1);
    }
  }

  /** The six low bytes do not see what is above them. */
  lemma LowBytes(u: nat, k: nat)
    requires k < 6
    ensures TimeByte(u, k) == TimeByte(u % TWO_TO_48, k)
  {
    ScaledSix(u / TWO_TO_48);
    ShiftSplit(u / TWO_TO_48, u % TWO_TO_48, 5 - k);
  }

  lemma {:induction false} SpelledShifted(random: seq<Byte>, ms: int, n: nat)
    requires |random| == 16 && n <= 6
    ensures Spelled(Uuid(random, ms), n) == Shifted(Unsigned(ms) % TWO_TO_48, 6 - n)
  {
    if n == 0 {
      ShiftedBy(Unsigned(ms) % TWO_TO_48);
    } else {
      SpelledShifted(random, ms, n - 1);
      PrintingUndone(Stamped(random, ms), n - 1);
      LowBytes(Unsigned(ms), n - 1);
    }
  }

  lemma Remainder(x: int, q: int, r: int)
    requires x == q * TWO_TO_48 + r && 0 <= r < TWO_TO_48
    ensures x % TWO_TO_48 == r
  {
  }

  lemma UnsignedLow(ms: int)
    ensures Unsigned(ms) % TWO_TO_48 == ms % TWO_TO_48
  {
    var q, u := ms / TWO_TO_64, Unsigned(ms);
    Remainder(ms, q * 0x1_0000 + u / TWO_TO_48, u % TWO_TO_48);
  }

  lemma Below48(ms: int)
    requires 0 <= ms < TWO_TO_48
    ensures ms % TWO_TO_48 == ms
  {
  }

  /** The timestamp is recoverable: its low 48 bits, which is all of it below 2 to the 48. */
  lemma TimestampRecovered(random: seq<Byte>, ms: int)
    requires |random| == 16
    ensures Timestamp(Uuid(random, ms)) == ms % TWO_TO_48
    ensures 0 <= ms < TWO_TO_48 ==> Timestamp(Uuid(random, ms)) == ms
  {
    var text := Uuid(random, ms);
    var low := Unsigned(ms) % TWO_TO_48;
    assert Timestamp(text) == low by {
      SpelledShifted(random, ms, 6);
    }
    assert low == ms % TWO_TO_48 by {
      UnsignedLow(ms);
    }
    if 0 <= ms < TWO_TO_48 {
      Below48(ms);
    }
  }

  lemma SameTextSameBytes(x: seq<Byte>, y: seq<Byte>)
    requires |x| == |y| == 16 && Formatted(x) == Formatted(y)
    ensures x == y
  {
    forall k | 0 <= k < 16 ensures x[k] == y[k] {
      PrintingUndone(x, k);
      PrintingUndone(y, k);
    }
  }

  lemma SameTimeBytes(s: int, t: int)
    requires s % TWO_TO_48 == t % TWO_TO_48
    ensures TimeBytes(Unsigned(s)) == TimeBytes(Unsigned(t))
  {
    UnsignedLow(s);
    UnsignedLow(t);
    forall k | 0 <= k < 6 ensures TimeByte(Unsigned(s), k) == TimeByte(Unsigned(t), k) {
      LowBytes(Unsigned(s), k);
      LowBytes(Unsigned(t), k);
    }
  }

  predicate SameRandomBits(a: seq<Byte>, b: seq<Byte>)
    requires |a| == |b| == 16
  {
    a[6] % 16 == b[6] % 16 && a[7] == b[7] && a[8] % 64 == b[8] % 64 && a[9..] == b[9..]
  }

  lemma SameBytesSameBits(a: seq<Byte>, b: seq<Byte>, s: int, t: int)
    requires |a| == |b| == 16 && Stamped(a, s) == Stamped(b, t)
    ensures SameRandomBits(a, b)
  {
    var x, y := Stamped(a, s), Stamped(b, t);
    assert x[9..] == a[9..] && y[9..] == b[9..];
    assert x[6] == y[6] && x[7] == y[7] && x[8] == y[8];
  }

  lemma SameBitsSameText(a: seq<Byte>, b: seq<Byte>, s: int, t: int)
    requires |a| == |b| == 16 && s % TWO_TO_48 == t % TWO_TO_48 && SameRandomBits(a, b)
    ensures Uuid(a, s) == Uuid(b, t)
  {
    SameTimeBytes(s, t);
  }

  /** Two ids are equal exactly if their timestamps and their 74 free random bits are. */
  lemma {:induction false} SameIdExactly(a: seq<Byte>, b: seq<Byte>, s: int, t: int)
    requires |a| == |b| == 16
    ensures Uuid(a, s) == Uuid(b, t) <==> s % TWO_TO_48 == t % TWO_TO_48 && SameRandomBits(a, b)
  {
    if s % TWO_TO_48 == t % TWO_TO_48 && SameRandomBits(a, b) {
      SameBitsSameText(a, b, s, t);
    } else if Uuid(a, s) == Uuid(b, t) {
      TimestampRecovered(a, s);
      TimestampRecovered(b, t);
      SameTextSameBytes(Stamped(a, s), Stamped(b, t));
      SameBytesSameBits(a, b, s, t);
      assert false;
    }
  }

  // ---------------------------------------------------------------- order

  lemma {:induction false} BelowAt(a: Text, b: Text, k: nat)
    requires k < |a| && k < |b| && a[..k] == b[..k] && a[k] < b[k]
    ensures Below(a, b)
  {
    if k > 0 {
      assert a[0] == a[..k][0] && b[0] == b[..k][0];
      assert a[1..][..k - 1] == a[..k][1..] && b[1..][..k - 1] == b[..k][1..];
      BelowAt(a[1..], b[1..], k - 1);
    }
  }

  lemma {:induction false} ShiftedSame(u: nat, v: nat, n: nat, m: nat)
    requires n <= m && Shifted(u, n) == Shifted(v, n)
    ensures Shifted(u, m) == Shifted(v, m)
  {
    if n < m {
      ShiftedSame(u, v, n, m - 1);
    }
  }

  /** The first byte in which two timestamps differ has the order they have. */
  lemma FirstDifference(u: nat, v: nat, n: nat) returns (k: nat)
    requires n <= 5 && Shifted(u, n) < Shifted(v, n) && Shifted(v, 5) < 256
    ensures k < 6 && TimeByte(u, k) < TimeByte(v, k) && forall i :: 0 <= i < k ==> TimeByte(u, i) == TimeByte(v, i)
    decreases 5 - n
  {
    if n == 5 {
      k := 0;
    } else if Shifted(u, n + 1) == Shifted(v, n + 1) {
      k := 5 - n;
      forall i | 0 <= i < k ensures TimeByte(u, i) == TimeByte(v, i) {
        ShiftedSame(u, v, n + 1, 5 - i);
      }
    } else {
      k := FirstDifference(u, v, n + 1);
    }
  }

  lemma TopByte(u: nat)
    requires u < TWO_TO_48
    ensures Shifted(u, 5) < 256
  {
    ShiftedBy(u);
  }

  lemma DigitsOrdered(m: int, n: int)
    requires 0 <= m < n < 16
    ensures DIGITS[m] < DIGITS[n]
  {
  }

  lemma BytesOrdered(m: Byte, n: Byte)
    requires m < n
    ensures m / 16 != n / 16 ==> High(m) < High(n)
    ensures m / 16 == n / 16 ==> High(m) == High(n) && Low(m) < Low(n)
  {
    if m / 16 == n / 16 {
      DigitsOrdered(m % 16, n % 16);
    } else {
      DigitsOrdered(m / 16, n / 16);
    }
  }

  lemma SamePrefix<T, U>(x: seq<T>, y: seq<T>, high: T -> U, low: T -> U, mark: U, k: nat)
    requires |x| == |y| == 16 && k < 16 && forall i :: 0 <= i < k ==> x[i] == y[i]
    ensures Grouped(x, high, low, mark)[..Place(k)] == Grouped(y, high, low, mark)[..Place(k)]
  {
    forall i | 0 <= i < Place(k) ensures Grouped(x, high, low, mark)[i] == Grouped(y, high, low, mark)[i] {
      if i in {8, 13, 18, 23} {
        MarksAt(x, high, low, mark);
        MarksAt(y, high, low, mark);
      } else {
        GroupedAt(x, high, low, mark, ByteAt(i));
        GroupedAt(y, high, low, mark, ByteAt(i));
      }
    }
  }

  lemma BelowPair(a: Text, b: Text, p: nat)
    requires p + 1 < |a| && p + 1 < |b| && a[..p] == b[..p]
    requires a[p] < b[p] || (a[p] == b[p] && a[p + 1] < b[p + 1])
    ensures Below(a, b)
  {
    if a[p] < b[p] {
      BelowAt(a, b, p);
    } else {
      assert a[..p + 1] == a[..p] + [a[p]] && b[..p + 1] == b[..p] + [b[p]];
      BelowAt(a, b, p + 1);
    }
  }

  /** Printing keeps the order of the bytes. */
  lemma {:induction false} PrintedOrder(x: seq<Byte>, y: seq<Byte>, k: nat)
    requires |x| == |y| == 16 && k < 16 && (forall i :: 0 <= i < k ==> x[i] == y[i]) && x[k] < y[k]
    ensures Below(Formatted(x), Formatted(y))
  {
    SamePrefix(x, y, High, Low, HYPHEN, k);
    GroupedAt(x, High, Low, HYPHEN, k);
    GroupedAt(y, High, Low, HYPHEN, k);
    BytesOrdered(x[k], y[k]);
    BelowPair(Formatted(x), Formatted(y), Place(k));
  }

  lemma {:induction false} EarlierBelow(x: seq<Byte>, y: seq<Byte>, a: int, b: int)
    requires |x| == |y| == 16 && 0 <= a < b < TWO_TO_48
    ensures Below(Uuid(x, a), Uuid(y, b))
  {
    TopByte(b);
    var k := FirstDifference(a, b, 0);
    PrintedOrder(Stamped(x, a), Stamped(y, b), k);
  }

  /** Main result. For any random bytes, ids of different milliseconds are ordered as their times are. */
  lemma {:induction false} OrderedByTime(x: seq<Byte>, y: seq<Byte>, a: int, b: int)
    requires |x| == |y| == 16 && 0 <= a < TWO_TO_48 && 0 <= b < TWO_TO_48 && a != b
    ensures Below(Uuid(x, a), Uuid(y, b)) <==> a < b
  {
    if a < b {
      EarlierBelow(x, y, a, b);
    } else {
      EarlierBelow(y, x, b, a);
      Asymmetric(Uuid(y, b), Uuid(x, a));
    }
  }

  /** The draws of one generator. */
  datatype Draw = Draw(random: seq<Byte>, ms: int)

  predicate Growing(draws: seq<Draw>) {
    && (forall i :: 0 <= i < |draws| ==> |draws[i].random| == 16 && 0 <= draws[i].ms < TWO_TO_48)
    && (forall i, j :: 0 <= i < j < |draws| ==> draws[i].ms < draws[j].ms)
  }

  /** So a listing sorted by id, in whatever order the store returned it, is in creation order, as long as
      no two records were created in one millisecond. */
  lemma SortedIsCreationOrder<T>(created: seq<T>, draws: seq<Draw>, key: KeyOf<T>, listed: seq<T>)
    requires Growing(draws) && |draws| == |created|
    requires forall i :: 0 <= i < |created| ==> key(created[i]) == Uuid(draws[i].random, draws[i].ms)
    requires Sorted(listed, key) && multiset(listed) == multiset(created)
    ensures listed == created
  {
    forall i, j | 0 <= i < j < |created| ensures Below(key(created[i]), key(created[j])) {
      OrderedByTime(draws[i].random, draws[j].random, draws[i].ms, draws[j].ms);
    }
    SortedDistinct(listed, created, key);
    SortedUnique(listed, created, key);
  }

  /** A sorted arrangement of items with distinct keys is strictly sorted. */
  lemma SortedDistinct<T>(listed: seq<T>, strict: seq<T>, key: KeyOf<T>)
    requires Sorted(listed, key) && StrictlySorted(strict, key) && multiset(listed) == multiset(strict)
    ensures StrictlySorted(listed, key)
  {
    forall i, j | 0 <= i < j < |listed| ensures Below(key(listed[i]), key(listed[j])) {
      Trichotomy(key(listed[i]), key(listed[j]));
      if key(listed[i]) == key(listed[j]) {
        SameKeySameItem(listed, strict, key, i, j);
        CountsTwice(listed, i, j);
        CountsOnce(strict, key, listed[i]);
        assert false;
      }
    }
  }

  lemma SameKeySameItem<T>(listed: seq<T>, strict: seq<T>, key: KeyOf<T>, i: nat, j: nat)
    requires StrictlySorted(strict, key) && multiset(listed) == multiset(strict)
    requires i < |listed| && j < |listed| && key(listed[i]) == key(listed[j])
    ensures listed[i] == listed[j]
  {
    assert listed[i] in multiset(strict) && listed[j] in multiset(strict);
    var m :| 0 <= m < |strict| && strict[m] == listed[i];
    var n :| 0 <= n < |strict| && strict[n] == listed[j];
    Irreflexive(key(listed[i]));
  }

  lemma {:induction false} CountsOnce<T>(s: seq<T>, key: KeyOf<T>, x: T)
    requires StrictlySorted(s, key)
    ensures multiset(s)[x] <= 1
  {
    if s != [] {
      var n := |s| - 1;
      assert s == s[..n] + [s[n]];
      CountsOnce(s[..n], key, x);
      if s[n] == x && x in s[..n] {
        var i :| 0 <= i < n && s[i] == x;
        Irreflexive(key(x));
      }
    }
  }
}
