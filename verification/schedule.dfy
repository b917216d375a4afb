/** The transmission timeline of sendLoop: datagram intervals in whole nanoseconds with the
    remainder carried over, and late resets. */
module Schedule {
  import opened Arithmetic
  import opened Slots
  import opened Controller
  import opened TokenBucket

  const DATAGRAM_NUMERATOR := 10_528_000_000_000  // 1316 bytes in bits, times nanoseconds in a second
  const LATE_RESET_INTERVALS := 4

  datatype Timeline = Timeline(next: nat, remainder: nat, bitrate: nat)

  function ActiveBitrate(cfg: Config, transport: nat): nat {
    if cfg.mode == Cbr then cfg.target else Max(MINIMUM_VBR_RATE, Min(transport, MAXIMUM_RATE))
  }

  function Interval(rate: nat): nat
    requires rate > 0
  {
    DATAGRAM_NUMERATOR / rate
  }

  predicate Late(t: Timeline, now: nat, rate: nat)
    requires rate > 0
  {
    now > t.next && now - t.next > Interval(rate) * LATE_RESET_INTERVALS
  }

  /** Before a datagram: a new bitrate drops the remainder, lateness drops remainder and backlog. */
  function Prepare(t: Timeline, now: nat, rate: nat): Timeline
    requires rate > 0
  {
    var t1 := if t.bitrate != rate then t.(bitrate := rate, remainder := 0) else t;
    if Late(t1, now, rate) then t1.(next := now, remainder := 0) else t1
  }

  /** After a datagram: one interval further, plus a nanosecond when the remainder fills one. */
  function Advance(t: Timeline, rate: nat): Timeline
    requires rate > 0
  {
    var sum := t.remainder + DATAGRAM_NUMERATOR % rate;
    if sum >= rate then t.(next := t.next + Interval(rate) + sum / rate, remainder := sum % rate)
    else t.(next := t.next + Interval(rate), remainder := sum)
  }

  /** The offset of slot j in its datagram. */
  function SlotOffset(j: nat, rate: nat): nat {
    MultiplyDivide(j * 188 * 8, 1_000_000_000, rate)
  }

  predicate InRange(rate: nat) {
    0 < rate <= MAXIMUM_RATE
  }

  predicate Sound(t: Timeline) {
    t.bitrate > 0 ==> t.remainder < t.bitrate
  }

  // Spacing of the slots

  function SpacingBelow(rate: nat): nat
    requires rate > 0
  {
    SLOT_NUMERATOR / rate
  }

  lemma {:induction false} SlotOffsetIs(j: nat, rate: nat)
    requires rate > 0
    ensures SlotOffset(j, rate) == j * SLOT_NUMERATOR / rate
  {
    assert j * 188 * 8 * 1_000_000_000 == j * SLOT_NUMERATOR;
  }

  lemma {:induction false} SlotsAreSpaced(j: nat, rate: nat)
    requires rate > 0
    ensures SlotOffset(0, rate) == 0
    ensures SlotOffset(j, rate) + SpacingBelow(rate) <= SlotOffset(j + 1, rate)
      <= SlotOffset(j, rate) + SpacingBelow(rate) + 1
    ensures SlotOffset(7, rate) == Interval(rate)
  {
    SlotOffsetIs(0, rate);
    SlotOffsetIs(j, rate);
    SlotOffsetIs(j + 1, rate);
    SlotOffsetIs(7, rate);
    assert (j + 1) * SLOT_NUMERATOR == j * SLOT_NUMERATOR + SLOT_NUMERATOR;
    FloorSum(j * SLOT_NUMERATOR, SLOT_NUMERATOR, rate);
  }

  /** No supported rate has slots less than 7,520 ns apart or more than the token bound allows. */
  lemma {:induction false} SpacingBounds(rate: nat)
    requires InRange(rate)
    ensures SpacingBelow(rate) >= 7_520
    ensures SlotGap(rate, SpacingBelow(rate) + 2)
    ensures rate >= 100_000 ==> SpacingBelow(rate) + 2 <= 15_040_002
    ensures Interval(rate) > 0
  {
    TimesAtMost(7_520, rate, MAXIMUM_RATE);
    DivisionAtLeast(SLOT_NUMERATOR, rate, 7_520);
    DivisionAtLeast(DATAGRAM_NUMERATOR, rate, 7_520);
    var s := SpacingBelow(rate);
    assert s * rate <= SLOT_NUMERATOR;
    assert (s + 2) * rate == s * rate + 2 * rate;
    if rate >= 100_000 {
      TimesAtMost(s, 100_000, rate);
    }
  }

  /** The next datagram starts behind the last slot of this one, one slot spacing on (rounding and
      carried remainder included). */
  lemma {:induction false} NextDatagramSpacing(t: Timeline, rate: nat)
    requires rate > 0 && t.remainder < rate
    ensures var last := t.next + SlotOffset(6, rate);
            last + SpacingBelow(rate) <= Advance(t, rate).next <= last + SpacingBelow(rate) + 2
    ensures Advance(t, rate).remainder < rate && Advance(t, rate).bitrate == t.bitrate
  {
    SlotsAreSpaced(6, rate);
    var sum := t.remainder + DATAGRAM_NUMERATOR % rate;
    if sum >= rate {
      DivisionIs(sum, rate, 1);
    }
  }

  // No drift

  /** Datagram k of a constant-rate timeline: start plus k ideal intervals, the remainder included. */
  predicate OnIdeal(t: Timeline, start: nat, k: nat, rate: nat) {
    && t.bitrate == rate && t.remainder < rate
    && t.next * rate + t.remainder == start * rate + k * DATAGRAM_NUMERATOR
  }

  /** The ideal due time of datagram k, rounded down. */
  function DatagramDue(start: nat, k: nat, rate: nat): nat
    requires rate > 0
  {
    start + k * DATAGRAM_NUMERATOR / rate
  }

  lemma {:induction false} AdvanceStaysIdeal(t: Timeline, start: nat, k: nat, rate: nat)
    requires rate > 0 && OnIdeal(t, start, k, rate)
    ensures OnIdeal(Advance(t, rate), start, k + 1, rate)
  {
    var q, r := Interval(rate), DATAGRAM_NUMERATOR % rate;
    assert q * rate + r == DATAGRAM_NUMERATOR;
    assert (t.next + q) * rate == t.next * rate + q * rate;
    assert (t.next + q + 1) * rate == (t.next + q) * rate + rate;
    assert (k + 1) * DATAGRAM_NUMERATOR == k * DATAGRAM_NUMERATOR + DATAGRAM_NUMERATOR;
    var sum := t.remainder + r;
    if sum >= rate {
      DivisionIs(sum, rate, 1);
      assert sum % rate == sum - rate;
    }
  }

  /** The due time of datagram k, exactly. */
  lemma {:induction false} IdealDue(t: Timeline, start: nat, k: nat, rate: nat)
    requires rate > 0 && OnIdeal(t, start, k, rate)
    ensures t.next == DatagramDue(start, k, rate)
  {
    var elapsed := t.next - start;
    assert elapsed * rate == t.next * rate - start * rate;
    if t.next < start {
      TimesAtMost(rate, t.next + 1, start);
    }
    DivisionIs(k * DATAGRAM_NUMERATOR, rate, elapsed);
  }

  /** Slot j of datagram k is due at the ideal time of slot 7 * k + j, or one nanosecond before it. */
  lemma {:induction false} SlotTimeIdeal(t: Timeline, start: nat, k: nat, j: nat, rate: nat)
    requires rate > 0 && OnIdeal(t, start, k, rate)
    ensures var ideal := start + (7 * k + j) * SLOT_NUMERATOR / rate;
            ideal - 1 <= t.next + SlotOffset(j, rate) <= ideal
  {
    IdealDue(t, start, k, rate);
    SlotOffsetIs(j, rate);
    assert (7 * k + j) * SLOT_NUMERATOR == k * DATAGRAM_NUMERATOR + j * SLOT_NUMERATOR;
    FloorSum(k * DATAGRAM_NUMERATOR, j * SLOT_NUMERATOR, rate);
  }

  /** The first datagram due `x` nanoseconds or more after the start. */
  function FirstDue(x: nat, rate: nat): nat {
    (x * rate + DATAGRAM_NUMERATOR - 1) / DATAGRAM_NUMERATOR
  }

  lemma {:induction false} FirstDueIs(k: nat, rate: nat, x: nat)
    requires rate > 0
    ensures DatagramDue(0, k, rate) < x <==> k < FirstDue(x, rate)
  {
    var a := k * DATAGRAM_NUMERATOR;
    if a / rate >= x {
      TimesAtMost(rate, x, a / rate);
      assert x * rate <= a;
    } else {
      TimesAtMost(rate, a / rate + 1, x);
      assert a < x * rate;
    }
    assert a < x * rate <==> k < FirstDue(x, rate);
  }

  /** The datagrams due in any window of a constant-rate timeline differ from the ideal count of the
      window by less than one. */
  lemma {:induction false} WindowCount(rate: nat, x: nat, y: nat)
    requires rate > 0 && x <= y
    ensures FirstDue(x, rate) <= FirstDue(y, rate)
    ensures -DATAGRAM_NUMERATOR
            < (FirstDue(y, rate) - FirstDue(x, rate)) * DATAGRAM_NUMERATOR - (y - x) * rate
            < DATAGRAM_NUMERATOR
  {
    TimesAtMost(rate, x, y);
    assert (y - x) * rate == y * rate - x * rate;
  }
}
