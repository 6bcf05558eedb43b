/**
 Version 1 UUIDs: section 4.1.4 of RFC 4122 (a 60-bit count of 100 ns since
 1582-10-15), and the fixed-width arithmetic of Go's `time` package around it.

 Two facts about the libraries are taken as given: the encoder writes the low 60
 bits of the count into the layout of RFC 4122, and `UnixNano` wraps as int64.
 */
module TimeUuid {
  import opened Records

  type UUID = u: seq<Byte> | |u| == 16 witness seq(16, _ => 0)

  const TWO_60: int := 0x1000_0000_0000_0000
  const TWO_63: int := 0x8000_0000_0000_0000
  const TWO_64: int := 0x1_0000_0000_0000_0000

  const TICKS_PER_SECOND: int := 10_000_000
  const NANOS_PER_SECOND: int := 1_000_000_000
  const TIME_BASE: int := -12_219_292_800          // 1582-10-15 in Unix seconds
  const ZERO_TIME: int := -62_135_596_800          // Go's zero time in Unix seconds

  function WrapInt64(x: int): (r: int)
    ensures -TWO_63 <= r < TWO_63 && (r - x) % TWO_64 == 0
    ensures -TWO_63 <= x < TWO_63 ==> r == x
  {
    (x + TWO_63) % TWO_64 - TWO_63
  }

  // Byte `k` of a two's complement integer, byte 0 being the lowest: byte(t >> 8k).
  function ByteOf(t: int, k: nat): Byte
    decreases k, t
  {
    if k == 0 then t % 256 else ByteOf(t / 256, k - 1)
  }

  // The 16 bytes for a tick count: low, middle and high time fields, clock sequence, node.
  function FromTicks(t: int, clock: int, node: seq<Byte>): UUID
    requires |node| == 6
  {
    [ByteOf(t, 3), ByteOf(t, 2), ByteOf(t, 1), ByteOf(t, 0), ByteOf(t, 5), ByteOf(t, 4),
     16 + ByteOf(t, 7) % 16, ByteOf(t, 6), 128 + ByteOf(clock, 1) % 64, ByteOf(clock, 0)] + node
  }

  function Version(u: UUID): int { u[6] as int / 16 }

  // `n` bytes as a number, the first being the lowest.
  function Number(bytes: seq<Byte>): nat {
    if bytes == [] then 0 else bytes[0] + 256 * Number(bytes[1..])
  }

  function Ticks(u: UUID): int { Number([u[3], u[2], u[1], u[0], u[5], u[4], u[7], u[6] % 16]) }

  // The instant a tick count stands for, in unbounded Unix nanoseconds.
  function Instant(ticks: int): int { ticks * 100 + TIME_BASE * NANOS_PER_SECOND }

  // uuid.Time().UnixNano(): only version 1 carries a time; the others read as the zero time.
  function UnixNano(u: UUID): int {
    if Version(u) != 1 then WrapInt64(ZERO_TIME * NANOS_PER_SECOND)
    else
      var ticks := Ticks(u);
      WrapInt64((ticks / TICKS_PER_SECOND + TIME_BASE) * NANOS_PER_SECOND + ticks % TICKS_PER_SECOND * 100)
  }

  // UUIDFromTime for a time given as Unix seconds and nanoseconds.
  function FromTime(seconds: int, nanos: int, clock: int, node: seq<Byte>): UUID
    requires |node| == 6 && 0 <= nanos < NANOS_PER_SECOND
  {
    FromTicks((seconds - TIME_BASE) * TICKS_PER_SECOND + nanos / 100, clock, node)
  }

  function Pow256(n: nat): int { if n == 0 then 1 else 256 * Pow256(n - 1) }

  // The low `n` bytes of `t`, lowest first, are `t` modulo 256^n.
  lemma {:induction false} BytesAreRemainder(t: int, bytes: seq<Byte>)
    requires forall k :: 0 <= k < |bytes| ==> bytes[k] == ByteOf(t, k)
    ensures exists high :: t == high * Pow256(|bytes|) + Number(bytes)
    decreases |bytes|
  {
    if bytes == [] {
      assert t == t * Pow256(0) + Number(bytes);
    } else {
      var rest := bytes[1..];
      forall k | 0 <= k < |rest| ensures rest[k] == ByteOf(t / 256, k) { assert rest[k] == bytes[k + 1]; }
      BytesAreRemainder(t / 256, rest);
      var high :| t / 256 == high * Pow256(|rest|) + Number(rest);
      assert t == high * Pow256(|bytes|) + Number(bytes) by {
        assert t == 256 * (t / 256) + t % 256;
        assert 256 * (high * Pow256(|rest|)) == high * (256 * Pow256(|rest|));
      }
    }
  }

  lemma {:induction false} NumberSnoc(bytes: seq<Byte>, b: Byte)
    ensures Number(bytes + [b]) == Number(bytes) + Pow256(|bytes|) * b
  {
    if bytes == [] {
      assert [b][1..] == [];
    } else {
      assert (bytes + [b])[1..] == bytes[1..] + [b];
      NumberSnoc(bytes[1..], b);
      assert 256 * (Pow256(|bytes| - 1) * b) == Pow256(|bytes|) * b;
    }
  }

  lemma {:induction false} NumberBound(bytes: seq<Byte>)
    ensures 0 <= Number(bytes) < Pow256(|bytes|)
  {
    if bytes != [] { NumberBound(bytes[1..]); }
  }

  lemma Pow256Of7()
    ensures Pow256(7) == 0x100_0000_0000_0000
  {
    assert Pow256(3) == 0x100_0000;
    assert Pow256(6) == 0x1_0000_0000_0000;
  }

  /** The layout keeps the low 60 bits of the count and sets version 1. */
  lemma TicksRoundTrip(t: int, clock: int, node: seq<Byte>)
    requires |node| == 6
    ensures Ticks(FromTicks(t, clock, node)) == t % TWO_60
    ensures Version(FromTicks(t, clock, node)) == 1
  {
    var low := [ByteOf(t, 0), ByteOf(t, 1), ByteOf(t, 2), ByteOf(t, 3), ByteOf(t, 4), ByteOf(t, 5), ByteOf(t, 6)];
    var top := ByteOf(t, 7);
    var u := FromTicks(t, clock, node);
    assert [u[3], u[2], u[1], u[0], u[5], u[4], u[7], u[6] % 16] == low + [top % 16];
    NumberSnoc(low, top % 16);
    NumberSnoc(low, top);
    NumberBound(low);
    Pow256Of7();
    BytesAreRemainder(t, low + [top]);
    var high :| t == high * Pow256(8) + Number(low + [top]);
    assert Pow256(8) == 256 * Pow256(7);
    Reduce(t, Ticks(u), high * 16 + top / 16);
  }

  lemma Reduce(t: int, r: int, q: int)
    requires t == q * TWO_60 + r && 0 <= r < TWO_60
    ensures r == t % TWO_60
  {
  }

  lemma TicksRange(u: UUID)
    ensures 0 <= Ticks(u) < TWO_60
  {
    var low := [u[3], u[2], u[1], u[0], u[5], u[4], u[7]];
    assert [u[3], u[2], u[1], u[0], u[5], u[4], u[7], u[6] % 16] == low + [u[6] % 16];
    NumberSnoc(low, u[6] % 16);
    NumberBound(low);
    Pow256Of7();
  }

  /** For a version 1 UUID, UnixNano is the instant, reduced to int64. */
  lemma NanoIsInstant(u: UUID)
    requires Version(u) == 1
    ensures UnixNano(u) == WrapInt64(Instant(Ticks(u)))
  {
    var ticks := Ticks(u);
    assert ticks == ticks / TICKS_PER_SECOND * TICKS_PER_SECOND + ticks % TICKS_PER_SECOND;
  }

  // ---------------------------------------------------------------- the layout and the epochs, spelled out

  // Big-endian reading of two bytes.
  function Word(u: UUID, at: nat): nat
    requires at + 1 < 16
  {
    256 * u[at] as int + u[at + 1] as int
  }

  /**
   The fields of section 4.1.2 of RFC 4122, each most significant byte first:
   time_low, time_mid, time_hi_and_version, clock_seq_hi_and_reserved with
   clock_seq_low, and node.
   */
  lemma LayoutIsRfc(t: int, clock: int, node: seq<Byte>)
    requires |node| == 6
    ensures var u := FromTicks(t, clock, node);
            && Word(u, 2) == t % 0x1_0000 && Word(u, 0) == t / 0x1_0000 % 0x1_0000
            && Word(u, 4) == t / 0x1_0000_0000 % 0x1_0000
            && Word(u, 6) == 0x1000 + t / 0x1_0000_0000_0000 % 0x1000
            && Word(u, 8) == 0x8000 + clock % 0x4000
            && u[10..] == node
  {
    TimeWords(t, clock, node);
    Shifts(t);
    assert Shifted(clock, 0) == clock;
  }

  lemma TimeWords(t: int, clock: int, node: seq<Byte>)
    requires |node| == 6
    ensures var u := FromTicks(t, clock, node);
            && Word(u, 2) == Shifted(t, 0) % 0x1_0000 && Word(u, 0) == Shifted(t, 2) % 0x1_0000
            && Word(u, 4) == Shifted(t, 4) % 0x1_0000
            && Word(u, 6) == 0x1000 + Shifted(t, 6) % 0x1000
            && Word(u, 8) == 0x8000 + Shifted(clock, 0) % 0x4000
            && u[10..] == node
  {
    WordAt(t, 0);
    WordAt(t, 2);
    WordAt(t, 4);
    WordAt(t, 6);
    WordAt(clock, 0);
    Narrow(Shifted(t, 6), 256 * ByteOf(t, 7) as int + ByteOf(t, 6) as int);
    Narrow(Shifted(clock, 0), 256 * ByteOf(clock, 1) as int + ByteOf(clock, 0) as int);
    VersionWord(ByteOf(t, 7), ByteOf(t, 6));
    ClockWord(ByteOf(clock, 1), ByteOf(clock, 0));
  }

  lemma Narrow(x: int, word: int)
    requires word == x % 0x1_0000
    ensures word % 0x1000 == x % 0x1000 && word % 0x4000 == x % 0x4000
  {
    var high := x / 0x1_0000;
    Mod12(x, 16 * high + word / 0x1000, word % 0x1000);
    Mod14(x, 4 * high + word / 0x4000, word % 0x4000);
  }

  lemma Mod12(x: int, q: int, r: int)
    requires x == 0x1000 * q + r && 0 <= r < 0x1000
    ensures x % 0x1000 == r
  {
  }

  lemma Mod14(x: int, q: int, r: int)
    requires x == 0x4000 * q + r && 0 <= r < 0x4000
    ensures x % 0x4000 == r
  {
  }

  lemma VersionWord(high: Byte, low: Byte)
    ensures 256 * (16 + high % 16) as int + low as int == 0x1000 + (256 * high as int + low as int) % 0x1000
  {
  }

  lemma ClockWord(high: Byte, low: Byte)
    ensures 256 * (128 + high % 64) as int + low as int == 0x8000 + (256 * high as int + low as int) % 0x4000
  {
  }

  // The number shifted right by `k` bytes.
  function Shifted(t: int, k: nat): int
    decreases k, t
  {
    if k == 0 then t else Shifted(t / 256, k - 1)
  }

  lemma {:induction false} ByteOfShifted(t: int, k: nat, j: nat)
    ensures ByteOf(t, k + j) == ByteOf(Shifted(t, k), j)
    decreases k
  {
    if k > 0 { ByteOfShifted(t / 256, k - 1, j); }
  }

  // Two bytes from the k-th on.
  lemma WordAt(t: int, k: nat)
    ensures 256 * ByteOf(t, k + 1) as int + ByteOf(t, k) as int == Shifted(t, k) % 0x1_0000
  {
    var s := Shifted(t, k);
    ByteOfShifted(t, k, 0);
    ByteOfShifted(t, k, 1);
    assert ByteOf(s, 1) == ByteOf(s / 256, 0);
  }

  lemma Shifts(t: int)
    ensures Shifted(t, 0) == t && Shifted(t, 2) == t / 0x1_0000
    ensures Shifted(t, 4) == t / 0x1_0000_0000 && Shifted(t, 6) == t / 0x1_0000_0000_0000
  {
    ShiftTwo(t, 0);
    ShiftTwo(t, 2);
    ShiftTwo(t, 4);
  }

  lemma {:induction false} ShiftTwo(t: int, k: nat)
    ensures Shifted(t, k + 2) == Shifted(t, k) / 0x1_0000
    decreases k
  {
    if k == 0 {
      assert Shifted(t, 2) == Shifted(t / 256, 1) == Shifted(t / 256 / 256, 0);
    } else {
      ShiftTwo(t / 256, k - 1);
    }
  }

  lemma Powers()
    ensures Pow256(2) == 0x1_0000 && Pow256(4) == 0x1_0000_0000 && Pow256(6) == 0x1_0000_0000_0000
  {
    assert Pow256(3) == 0x100_0000;
  }

  /** Reading gives the version and the count from those same fields. */
  lemma ReadsRfc(u: UUID)
    ensures Version(u) == Word(u, 6) / 0x1000
    ensures Ticks(u) == (0x1_0000 * Word(u, 0) + Word(u, 2)) + 0x1_0000_0000 * Word(u, 4)
                        + 0x1_0000_0000_0000 * (Word(u, 6) % 0x1000)
  {
    var a, b := [u[3], u[2]], [u[1], u[0]];
    var mid, high := [u[5], u[4]], [u[7], u[6] % 16];
    assert [u[3], u[2], u[1], u[0], u[5], u[4], u[7], u[6] % 16] == ((a + b) + mid) + high;
    NumberConcat(a + b + mid, high);
    NumberConcat(a + b, mid);
    NumberConcat(a, b);
    NumberOfTwo(u[3], u[2]);
    NumberOfTwo(u[1], u[0]);
    NumberOfTwo(u[5], u[4]);
    NumberOfTwo(u[7], u[6] % 16);
    Powers();
  }

  lemma NumberOfTwo(low: Byte, high: Byte)
    ensures Number([low, high]) == low as int + 256 * high as int
  {
    assert [low, high][1..] == [high] && [high][1..] == [];
    assert Number([high]) == high as int + 256 * Number([]);
  }

  lemma {:induction false} NumberConcat(a: seq<Byte>, b: seq<Byte>)
    ensures Number(a + b) == Number(a) + Pow256(|a|) * Number(b)
  {
    if a == [] {
      assert a + b == b;
    } else {
      assert (a + b)[1..] == a[1..] + b;
      NumberConcat(a[1..], b);
      assert Pow256(|a|) == 256 * Pow256(|a| - 1);
      Distribute(Number(a[1..]), Pow256(|a| - 1), Number(b));
    }
  }

  lemma Distribute(x: int, p: int, n: int)
    ensures 256 * (x + p * n) == 256 * x + (256 * p) * n
  {
  }

  // Days before the first of January of a year, in the Gregorian calendar, from that of year 1.
  function DaysBefore(year: nat): int
    requires year >= 1
  {
    365 * (year - 1) + (year - 1) / 4 - (year - 1) / 100 + (year - 1) / 400
  }

  /** The epochs: 15 October 1582 (day 287 of its year, counting from 0), 1 January of the years 1 and 1901. */
  lemma EpochsAreDates()
    ensures TIME_BASE == 86_400 * (DaysBefore(1582) + 287 - DaysBefore(1970))
    ensures ZERO_TIME == 86_400 * (DaysBefore(1) - DaysBefore(1970))
    ensures START_OF_1901 == 86_400 * (DaysBefore(1901) - DaysBefore(1970)) * NANOS_PER_SECOND
    ensures Instant(0) == TIME_BASE * 1_000_000_000 && Instant(1) == Instant(0) + 100
  {
  }

  // ---------------------------------------------------------------- the sentinel

  function Sentinel(clock: int, node: seq<Byte>): UUID
    requires |node| == 6
  {
    FromTime(ZERO_TIME, 0, clock, node)
  }

  const SENTINEL_NANO: int := -2_183_678_560_443_957_248

  /** Twice reduced, the zero time's UUID reads as an instant late in 1900. */
  lemma SentinelTime(clock: int, node: seq<Byte>)
    requires |node| == 6
    ensures UnixNano(Sentinel(clock, node)) == SENTINEL_NANO
  {
    var t := (ZERO_TIME - TIME_BASE) * TICKS_PER_SECOND;
    TicksRoundTrip(t, clock, node);
    NanoIsInstant(Sentinel(clock, node));
  }

  // An id the loop of GetStateHash can prefer to its sentinel.
  predicate Beats(u: UUID) { UnixNano(u) > SENTINEL_NANO }

  // An id of the range the scheme works for: after the sentinel, within int64 nanoseconds.
  predicate InRange(u: UUID) { Version(u) == 1 && SENTINEL_NANO < Instant(Ticks(u)) < TWO_63 }

  /**
   An id beats the sentinel exactly when it is of version 1 and its instant, counted
   from the sentinel in the wrapping int64 arithmetic, comes before the int64 limit.
   Up to that limit (in 2262) this means that the instant is after the sentinel, or
   before int64 nanoseconds begin (in 1677).
   */
  lemma BeatsIff(u: UUID)
    ensures Beats(u) <==>
            Version(u) == 1 && (Instant(Ticks(u)) - SENTINEL_NANO - 1) % TWO_64 < TWO_63 - SENTINEL_NANO - 1
    ensures Version(u) == 1 && Instant(Ticks(u)) < TWO_63 ==>
              (Beats(u) <==> Instant(Ticks(u)) > SENTINEL_NANO || Instant(Ticks(u)) < -TWO_63)
  {
    TicksRange(u);
    if Version(u) == 1 {
      NanoIsInstant(u);
      WrapAfter(Instant(Ticks(u)));
    } else {
      OtherVersionsNeverBeat(u);
    }
  }

  lemma WrapAfter(x: int)
    requires Instant(0) <= x < Instant(TWO_60)
    ensures WrapInt64(x) > SENTINEL_NANO <==> (x - SENTINEL_NANO - 1) % TWO_64 < TWO_63 - SENTINEL_NANO - 1
    ensures x < TWO_63 ==> (WrapInt64(x) > SENTINEL_NANO <==> x > SENTINEL_NANO || x < -TWO_63)
  {
  }

  const START_OF_1901: int := -2_177_452_800 * NANOS_PER_SECOND

  /** Every id from 1901 up to the int64 limit beats the sentinel and reads as its own instant. */
  lemma IdsSince1901Beat(u: UUID)
    requires Version(u) == 1 && START_OF_1901 <= Instant(Ticks(u)) < TWO_63
    ensures InRange(u) && Beats(u) && UnixNano(u) == Instant(Ticks(u))
  {
    NanoIsInstant(u);
  }

  lemma InRangeBeats(u: UUID)
    requires InRange(u)
    ensures Beats(u) && UnixNano(u) == Instant(Ticks(u))
  {
    NanoIsInstant(u);
  }

  /** Ids of another version never beat it: their zero time wraps to an earlier reading. */
  lemma OtherVersionsNeverBeat(u: UUID)
    requires Version(u) != 1
    ensures !Beats(u) && UnixNano(u) == -6_795_364_578_871_345_152
  {
  }

  /** Past the int64 limit the scheme fails: this id of the year 2300 does not beat the sentinel. */
  lemma LateIdsCanLose(clock: int, node: seq<Byte>)
    requires |node| == 6
    ensures !Beats(FromTime(10_413_792_000, 0, clock, node))
  {
    TicksRoundTrip((10_413_792_000 - TIME_BASE) * TICKS_PER_SECOND, clock, node);
    NanoIsInstant(FromTime(10_413_792_000, 0, clock, node));
  }

  // ---------------------------------------------------------------- the fallback

  // UUIDFromTime(time.Unix(0, birthDate))
  function FromBirthDate(birthDate: int, clock: int, node: seq<Byte>): UUID
    requires |node| == 6
  {
    FromTime(birthDate / NANOS_PER_SECOND, birthDate % NANOS_PER_SECOND, clock, node)
  }

  /** The UUID of a positive birth date lies at most 100 ns before it, never after. */
  lemma FallbackBound(birthDate: int, clock: int, node: seq<Byte>)
    requires 0 < birthDate < TWO_63 && |node| == 6
    ensures var u := FromBirthDate(birthDate, clock, node);
            InRange(u) && UnixNano(u) <= birthDate < UnixNano(u) + 100
  {
    var u := FromBirthDate(birthDate, clock, node);
    var t := (birthDate / NANOS_PER_SECOND - TIME_BASE) * TICKS_PER_SECOND + birthDate % NANOS_PER_SECOND / 100;
    TicksRoundTrip(t, clock, node);
    assert t == birthDate / 100 - TIME_BASE * TICKS_PER_SECOND;
    assert t % TWO_60 == t;
    NanoIsInstant(u);
  }

  /** So an id whose instant is past the birth date by a tick or more has the larger count. */
  lemma LaterIdIsGreater(birthDate: int, clock: int, node: seq<Byte>, u: UUID)
    requires 0 < birthDate < TWO_63 && |node| == 6 && InRange(u)
    ensures UnixNano(u) > birthDate ==> Ticks(u) > Ticks(FromBirthDate(birthDate, clock, node))
  {
    FallbackBound(birthDate, clock, node);
    InRangeBeats(u);
    InRangeBeats(FromBirthDate(birthDate, clock, node));
  }
}
