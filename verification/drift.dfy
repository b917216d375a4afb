/** The send loop does not drift: at a constant bitrate, CBR or VBR, from the start, from a bitrate change
    or from a late reset on, datagrams and slots stay on the ideal line for as long as nothing resets it. */
module Drift {
  import opened Arithmetic
  import opened TransportStream
  import opened Slots
  import opened Controller
  import opened Schedule
  import opened TokenBucket
  import opened SendLoop

  ghost predicate ConstantBitrate(cfg: Config, l: LoopState, ticks: seq<Tick>, rate: nat)
    requires Running(cfg, l)
  {
    forall k :: 0 <= k < |ticks| ==> RateAt(cfg, RunLoop(cfg, l, ticks[..k]).state, ticks[k]) == rate
  }

  /** The next datagram is number `first` of an ideal line from `start` on; a timeline with another
      bitrate, the fresh one included, begins a line of its own. */
  predicate AtDatagram(t: Timeline, start: nat, first: nat, rate: nat) {
    OnIdeal(t, start, first, rate) || (first == 0 && t.next == start && t.bitrate != rate)
  }

  /** A run at constant bitrate without a late reset, from datagram `first` of a line on. */
  ghost predicate Steady(cfg: Config, l: LoopState, ticks: seq<Tick>, start: nat, first: nat, rate: nat)
    requires Running(cfg, l)
  {
    && rate > 0 && AtDatagram(l.timeline, start, first, rate)
    && ConstantBitrate(cfg, l, ticks, rate) && AlwaysInTime(cfg, l, ticks)
  }

  /** CBR has a constant bitrate in every run. */
  lemma {:induction false} CbrIsConstant(cfg: Config, l: LoopState, ticks: seq<Tick>)
    requires Running(cfg, l) && cfg.mode == Cbr
    ensures ConstantBitrate(cfg, l, ticks, cfg.target)
  {
    hide RunLoop, Update, Running;
  }

  /** At the ideal time of slot n, rounded down, or one nanosecond earlier. */
  predicate NearIdeal(time: nat, start: nat, n: nat, rate: nat)
    requires rate > 0
  {
    var ideal := start + n * SLOT_NUMERATOR / rate;
    ideal - 1 <= time <= ideal
  }

  /** One datagram of an ideal line. */
  lemma {:induction false} SlotsAreIdeal(t: Timeline, start: nat, k: nat, rate: nat)
    requires rate > 0 && OnIdeal(t, start, k, rate)
    ensures OnIdeal(Advance(t, rate), start, k + 1, rate)
    ensures t.next + SlotOffset(0, rate) == t.next == DatagramDue(start, k, rate)
    ensures forall j :: 0 <= j < TS_PACKETS_PER_DATAGRAM ==>
      NearIdeal(t.next + SlotOffset(j, rate), start, 7 * k + j, rate)
  {
    hide Advance, OnIdeal, SlotOffset, DatagramDue, NearIdeal;
    IdealDue(t, start, k, rate);
    AdvanceStaysIdeal(t, start, k, rate);
    SlotsAreSpaced(0, rate);
    forall j | 0 <= j < TS_PACKETS_PER_DATAGRAM
      ensures NearIdeal(t.next + SlotOffset(j, rate), start, 7 * k + j, rate)
    {
      SlotTimeIdeal(t, start, k, j, rate);
      NearIs(t.next + SlotOffset(j, rate), start, 7 * k + j, rate);
    }
  }

  lemma {:induction false} NearIs(time: nat, start: nat, n: nat, rate: nat)
    requires rate > 0
    ensures NearIdeal(time, start, n, rate)
            <==> start + n * SLOT_NUMERATOR / rate - 1 <= time <= start + n * SLOT_NUMERATOR / rate
  {
  }

  /** What an iteration does when its prepared timeline is on a line. */
  lemma {:induction false} IterateOnLine(cfg: Config, l: LoopState, tick: Tick, start: nat, k: nat)
    requires Running(cfg, l)
    requires OnIdeal(Prepare(l.timeline, tick.now, RateAt(cfg, l, tick)), start, k, RateAt(cfg, l, tick))
    ensures var r := Iterate(cfg, l, tick);
            var rate := RateAt(cfg, l, tick);
            && OnIdeal(r.state.timeline, start, k + 1, rate)
            && r.inputs[0].time == DatagramDue(start, k, rate)
            && forall j :: 0 <= j < |r.inputs| ==> NearIdeal(r.inputs[j].time, start, 7 * k + j, rate)
  {
    hide Update, Prepare, Advance, OnIdeal, RunSlots, SlotOffset, DatagramDue, NearIdeal;
    SlotsAreIdeal(Prepare(l.timeline, tick.now, RateAt(cfg, l, tick)), start, k, RateAt(cfg, l, tick));
  }

  lemma {:induction false} IterateIsIdeal(cfg: Config, l: LoopState, tick: Tick, start: nat, k: nat)
    requires Running(cfg, l) && InTime(cfg, l, tick)
    requires AtDatagram(l.timeline, start, k, RateAt(cfg, l, tick))
    ensures var r := Iterate(cfg, l, tick);
            var rate := RateAt(cfg, l, tick);
            && OnIdeal(r.state.timeline, start, k + 1, rate)
            && r.inputs[0].time == DatagramDue(start, k, rate)
            && forall j :: 0 <= j < |r.inputs| ==> NearIdeal(r.inputs[j].time, start, 7 * k + j, rate)
  {
    assert OnIdeal(Prepare(l.timeline, tick.now, RateAt(cfg, l, tick)), start, k, RateAt(cfg, l, tick)) by {
      hide RateAt, Running;
    }
    hide *;
    IterateOnLine(cfg, l, tick, start, k);
  }

  /** A late reset begins a line of its own at the clock reading: its datagram is number 0 of it, the
      next one number 1. */
  lemma {:induction false} LateResetStartsLine(cfg: Config, l: LoopState, tick: Tick)
    requires Running(cfg, l) && !InTime(cfg, l, tick)
    ensures var r := Iterate(cfg, l, tick);
            var rate := RateAt(cfg, l, tick);
            && AtDatagram(r.state.timeline, tick.now, 1, rate)
            && r.inputs[0].time == tick.now
            && forall j :: 0 <= j < |r.inputs| ==> NearIdeal(r.inputs[j].time, tick.now, j, rate)
  {
    hide RateAt, Running, Iterate, NearIdeal;
    LateStartsLine(l.timeline, tick.now, RateAt(cfg, l, tick));
    hide Prepare, OnIdeal;
    IterateOnLine(cfg, l, tick, tick.now, 0);
  }

  lemma {:induction false} LateStartsLine(t: Timeline, now: nat, rate: nat)
    requires rate > 0 && now > t.next + 4 * (10_528_000_000_000 / rate)
    ensures OnIdeal(Prepare(t, now, rate), now, 0, rate)
    ensures DatagramDue(now, 0, rate) == now
  {
  }

  lemma {:induction false} SteadyPrefix(cfg: Config, l: LoopState, ticks: seq<Tick>, start: nat, first: nat, rate: nat,
                                        k: nat)
    requires Running(cfg, l) && Steady(cfg, l, ticks, start, first, rate) && k < |ticks|
    ensures Steady(cfg, l, ticks[..k], start, first, rate)
    ensures var before := RunLoop(cfg, l, ticks[..k]).state;
            InTime(cfg, before, ticks[k]) && RateAt(cfg, before, ticks[k]) == rate
  {
    hide InTime, RunLoop, Running, RateAt, AtDatagram, AlwaysInTime;
    AlwaysInTimePrefix(cfg, l, ticks, k);
    forall i | 0 <= i < k ensures RateAt(cfg, RunLoop(cfg, l, ticks[..k][..i]).state, ticks[..k][i]) == rate {
      assert ticks[..k][..i] == ticks[..i];
    }
  }

  /** A steady run stays on its line. */
  lemma {:induction false} LoopStaysOnLine(cfg: Config, l: LoopState, ticks: seq<Tick>, start: nat, first: nat,
                                           rate: nat)
    requires Running(cfg, l) && Steady(cfg, l, ticks, start, first, rate)
    ensures AtDatagram(RunLoop(cfg, l, ticks).state.timeline, start, first + |ticks|, rate)
    decreases |ticks|
  {
    hide Iterate, Running, InTime, OnIdeal, RateAt, ConstantBitrate, AlwaysInTime;
    if ticks != [] {
      var n := |ticks| - 1;
      SteadyPrefix(cfg, l, ticks, start, first, rate, n);
      LoopStaysOnLine(cfg, l, ticks[..n], start, first, rate);
      IterateIsIdeal(cfg, RunLoop(cfg, l, ticks[..n]).state, ticks[n], start, first + n);
    }
  }

  /** Slot j of datagram k, in the run and in its own iteration. */
  lemma {:induction false} DatagramAt(cfg: Config, l: LoopState, ticks: seq<Tick>, k: nat, j: nat)
    requires Running(cfg, l) && k < |ticks| && j < TS_PACKETS_PER_DATAGRAM
    ensures RunLoop(cfg, l, ticks).inputs[7 * k + j]
      == Iterate(cfg, RunLoop(cfg, l, ticks[..k]).state, ticks[k]).inputs[j]
    decreases |ticks|
  {
    hide Iterate, Running;
    var n := |ticks| - 1;
    if k < n {
      DatagramAt(cfg, l, ticks[..n], k, j);
      assert ticks[..n][..k] == ticks[..k];
    }
  }

  /** Constant bitrate without a late reset does not drift: datagram k of every such run is due at the
      start of its line plus (first + k) * 10528 * 10^9 / rate nanoseconds, rounded down, and each of its
      slots at the slot's ideal time rounded down or one nanosecond earlier. */
  lemma {:induction false} LoopDoesNotDrift(cfg: Config, l: LoopState, ticks: seq<Tick>, start: nat, first: nat,
                                            rate: nat, k: nat, j: nat)
    requires Running(cfg, l) && Steady(cfg, l, ticks, start, first, rate)
    requires k < |ticks| && j < TS_PACKETS_PER_DATAGRAM
    ensures var inputs := RunLoop(cfg, l, ticks).inputs;
            && inputs[7 * k].time == DatagramDue(start, first + k, rate)
            && NearIdeal(inputs[7 * k + j].time, start, 7 * (first + k) + j, rate)
  {
    hide Iterate, RunLoop, InTime, Running, NearIdeal, DatagramDue, RateAt, AtDatagram, ConstantBitrate, AlwaysInTime;
    SteadyPrefix(cfg, l, ticks, start, first, rate, k);
    LoopStaysOnLine(cfg, l, ticks[..k], start, first, rate);
    DatagramAt(cfg, l, ticks, k, 0);
    DatagramAt(cfg, l, ticks, k, j);
    IterateIsIdeal(cfg, RunLoop(cfg, l, ticks[..k]).state, ticks[k], start, first + k);
  }

  // Datagrams in a window

  /** How many of the first n datagrams are due from `from` on and before `to`. */
  function CountDue(inputs: seq<SlotInput>, n: nat, from: nat, to: nat): nat
    requires 7 * n <= |inputs|
  {
    if n == 0 then 0
    else CountDue(inputs, n - 1, from, to) + if from <= inputs[7 * (n - 1)].time < to then 1 else 0
  }

  /** Nanoseconds of the line before a point in time. */
  function Since(start: nat, time: nat): nat {
    if time > start then time - start else 0
  }

  /** The datagrams counted are those with numbers between the first due in the window and the first due
      behind it, as far as the run goes. */
  lemma {:induction false} CountIs(inputs: seq<SlotInput>, n: nat, from: nat, to: nat, start: nat, first: nat,
                                   rate: nat)
    requires rate > 0 && 7 * n <= |inputs|
    requires forall k :: 0 <= k < n ==> inputs[7 * k].time == DatagramDue(start, first + k, rate)
    ensures var lo, hi := FirstDue(Since(start, from), rate), FirstDue(Since(start, to), rate);
            CountDue(inputs, n, from, to) == Max(0, Min(hi, first + n) - Max(lo, first))
    decreases n
  {
    if n > 0 {
      CountIs(inputs, n - 1, from, to, start, first, rate);
      hide FirstDue;
      FirstDueIs(first + n - 1, rate, Since(start, from));
      FirstDueIs(first + n - 1, rate, Since(start, to));
    }
  }

  lemma {:induction false} DueIncreases(k: nat, rate: nat)
    requires 0 < rate <= DATAGRAM_NUMERATOR
    ensures DatagramDue(0, k, rate) < DatagramDue(0, k + 1, rate)
  {
    var a := k * DATAGRAM_NUMERATOR;
    assert (k + 1) * DATAGRAM_NUMERATOR == a + DATAGRAM_NUMERATOR;
    DivisionShift(a, 1, rate);
    DivisionMonotone(a + rate, a + DATAGRAM_NUMERATOR, rate);
  }

  /** A window that begins no earlier than the first datagram and ends no later than the one after the
      last is counted in full. */
  lemma {:induction false} NothingCutOff(start: nat, first: nat, n: nat, from: nat, to: nat, rate: nat)
    requires 0 < rate <= DATAGRAM_NUMERATOR
    requires DatagramDue(start, first, rate) <= from <= to <= DatagramDue(start, first + n, rate)
    ensures first <= FirstDue(Since(start, from), rate)
    ensures FirstDue(Since(start, to), rate) <= first + n
  {
    hide FirstDue;
    if first > 0 {
      DueIncreases(first - 1, rate);
      FirstDueIs(first - 1, rate, Since(start, from));
    }
    FirstDueIs(first + n, rate, Since(start, to));
  }

  lemma {:induction false} OnLineDue(t: Timeline, start: nat, k: nat, rate: nat)
    requires rate > 0 && AtDatagram(t, start, k, rate)
    ensures t.next == DatagramDue(start, k, rate)
  {
    if OnIdeal(t, start, k, rate) {
      IdealDue(t, start, k, rate);
    }
  }

  lemma {:induction false} SteadyRateInRange(cfg: Config, l: LoopState, ticks: seq<Tick>, start: nat, first: nat,
                                             rate: nat)
    requires Running(cfg, l) && Steady(cfg, l, ticks, start, first, rate) && ticks != []
    ensures rate <= MAXIMUM_RATE
  {
    hide Running, RunLoop;
    SteadyPrefix(cfg, l, ticks, start, first, rate, 0);
  }

  lemma {:induction false} RunCount(cfg: Config, l: LoopState, ticks: seq<Tick>, start: nat, first: nat, rate: nat,
                                    from: nat, to: nat)
    requires Running(cfg, l) && Steady(cfg, l, ticks, start, first, rate)
    ensures var lo, hi := FirstDue(Since(start, from), rate), FirstDue(Since(start, to), rate);
            CountDue(RunLoop(cfg, l, ticks).inputs, |ticks|, from, to)
              == Max(0, Min(hi, first + |ticks|) - Max(lo, first))
  {
    hide RunLoop, Running, Steady, DatagramDue, FirstDue;
    var inputs := RunLoop(cfg, l, ticks).inputs;
    SteadyRate(cfg, l, ticks, start, first, rate);
    forall k | 0 <= k < |ticks| ensures inputs[7 * k].time == DatagramDue(start, first + k, rate) {
      LoopDoesNotDrift(cfg, l, ticks, start, first, rate, k, 0);
    }
    CountIs(inputs, |ticks|, from, to, start, first, rate);
  }

  lemma {:induction false} SteadyRate(cfg: Config, l: LoopState, ticks: seq<Tick>, start: nat, first: nat, rate: nat)
    requires Running(cfg, l) && Steady(cfg, l, ticks, start, first, rate)
    ensures rate > 0
  {
  }

  /** The datagrams a steady run has due in a window, counted, are less than one more than the window
      ideally holds; and less than one fewer, when the run lasts from the window's begin to its end. */
  lemma {:induction false} LoopWindowCount(cfg: Config, l: LoopState, ticks: seq<Tick>, start: nat, first: nat,
                                           rate: nat, from: nat, to: nat)
    requires Running(cfg, l) && Steady(cfg, l, ticks, start, first, rate) && from <= to
    ensures var run := RunLoop(cfg, l, ticks);
            var count := CountDue(run.inputs, |ticks|, from, to);
            && count * DATAGRAM_NUMERATOR < (to - from) * rate + DATAGRAM_NUMERATOR
            && (l.timeline.next <= from && to <= run.state.timeline.next ==>
                  (to - from) * rate < count * DATAGRAM_NUMERATOR + DATAGRAM_NUMERATOR)
  {
    hide RunLoop, Running, AtDatagram, ConstantBitrate, AlwaysInTime, DatagramDue, FirstDue, CountDue;
    var run, n := RunLoop(cfg, l, ticks), |ticks|;
    var x, y := Since(start, from), Since(start, to);
    RunCount(cfg, l, ticks, start, first, rate, from, to);
    WindowCount(rate, x, y);
    TimesAtMost(rate, y - x, to - from);
    LoopStaysOnLine(cfg, l, ticks, start, first, rate);
    OnLineDue(l.timeline, start, first, rate);
    OnLineDue(run.state.timeline, start, first + n, rate);
    if l.timeline.next <= from && to <= run.state.timeline.next {
      if ticks == [] {
        assert to == from by { hide *; NoTicks(cfg, l, ticks); }
      } else {
        SteadyRateInRange(cfg, l, ticks, start, first, rate);
        NothingCutOff(start, first, n, from, to, rate);
        LineBegins(start, first, rate);
      }
    }
  }

  lemma {:induction false} NoTicks(cfg: Config, l: LoopState, ticks: seq<Tick>)
    requires Running(cfg, l) && ticks == []
    ensures RunLoop(cfg, l, ticks).state == l
  {
  }

  lemma {:induction false} LineBegins(start: nat, first: nat, rate: nat)
    requires rate > 0
    ensures start <= DatagramDue(start, first, rate)
  {
  }
}
