/** The token bucket that decides which slots carry queued packets. Generated PCR packets take slots
    away from it; the reserve of 100 kbit/s below the transport rate pays for them. */
module TokenBucket {
  import opened Arithmetic
  import opened Slots
  import opened PcrTimeline

  const CBR_RESERVE := 100_000
  const SLOT_NUMERATOR := 1_504_000_000_000  // bits of a packet times nanoseconds in a second

  predicate ConstantRate(inputs: seq<SlotInput>, rate: nat) {
    forall i :: 0 <= i < |inputs| ==> inputs[i].rate == rate
  }

  predicate Reserved(inputs: seq<SlotInput>, rate: nat) {
    forall i :: 0 <= i < |inputs| ==> inputs[i].pace + CBR_RESERVE <= rate
  }

  function SumPace(inputs: seq<SlotInput>): nat {
    if inputs == [] then 0 else SumPace(inputs[..|inputs| - 1]) + inputs[|inputs| - 1].pace
  }

  /** The backlog of tokens a PCR packet leaves is paid off, by the reserve and in time, before the next
      one: in what is left until the deadline the reserve buys more than the backlog. */
  ghost predicate Solvent(s: SlotState, time: nat, rate: nat, gap: nat) {
    && gap > 0 && (s.locked ==> time < s.nextPcrNs)
    && (s.tokens < rate || (s.locked && gap * (s.tokens - rate) < CBR_RESERVE * (s.nextPcrNs - time)))
    && s.tokens < 2 * rate
  }

  /** The slot spacing of a transport rate, rounding included. */
  predicate SlotGap(rate: nat, gap: nat) {
    0 < gap && gap * rate <= SLOT_NUMERATOR + 2 * rate
  }

  /** Rates above the reserve, as far as they are supported. */
  predicate AboveReserve(rate: nat) {
    CBR_RESERVE < rate <= 200_000_000
  }

  /** 100 kbit/s over 20 ms buy more than the packet a PCR takes the slot from. */
  lemma {:induction false} ReservePaysForPcr(rate: nat, gap: nat)
    requires AboveReserve(rate) && SlotGap(rate, gap)
    ensures gap * rate < CBR_RESERVE * PERIODIC_PCR_INTERVAL_NS
  {
  }

  /** Slots without a PCR packet: the backlog shrinks by the reserve, or there is none. */
  lemma {:induction false} StepTokens(s: SlotState, input: SlotInput)
    requires input.rate > 0
    ensures var r := Step(s, input);
            && (r.emission.origin.Generated? ==> r.state.tokens == s.tokens + input.pace)
            && (!r.emission.origin.Generated? && s.tokens + input.pace < input.rate ==>
                  r.state.tokens == s.tokens + input.pace && r.emission.origin.Null?)
            && (!r.emission.origin.Generated? && s.tokens + input.pace >= input.rate ==>
                  r.state.tokens <= s.tokens + input.pace - input.rate)
            && (r.emission.origin.Real? ==> r.state.tokens == s.tokens + input.pace - input.rate)
            && (r.emission.origin.Null? && s.packets + input.arrivals != [] ==>
                  r.state.tokens == s.tokens + input.pace)
  {
    hide PcrPacketAt, NullPacket, SentBytes;
  }

  /** How the deadline moves. */
  lemma {:induction false} StepDeadline(s: SlotState, input: SlotInput)
    requires input.rate > 0
    ensures var r := Step(s, input);
            && (r.emission.origin.Generated? <==> s.locked && s.nextPcrNs <= input.time)
            && (r.emission.origin.Generated? ==>
                  r.state.locked && input.time < r.state.nextPcrNs
                    && s.nextPcrNs + PERIODIC_PCR_INTERVAL_NS <= r.state.nextPcrNs)
            && (s.locked && !r.emission.origin.Generated? ==> r.state.locked && r.state.nextPcrNs == s.nextPcrNs)
            && (!s.locked && r.state.locked ==> input.time < r.state.nextPcrNs)
  {
    hide PcrPacketAt, NullPacket, SentBytes;
  }

  /** The deadline was met late by less than one gap; what the reserve did not pay off until then, it
      pays off until the next deadline, along with one packet more. */
  lemma {:induction false} SolventAfterPcr(s: SlotState, after: SlotState, input: SlotInput, time: nat, gap: nat)
    requires AboveReserve(input.rate) && SlotGap(input.rate, gap)
    requires time < s.nextPcrNs <= input.time <= time + gap
    requires input.pace + CBR_RESERVE <= input.rate
    requires s.locked && Solvent(s, time, input.rate, gap)
    requires after.locked && after.tokens == s.tokens + input.pace
    requires input.time < after.nextPcrNs && s.nextPcrNs + PERIODIC_PCR_INTERVAL_NS <= after.nextPcrNs
    ensures Solvent(after, input.time, input.rate, gap)
  {
    var rate, ahead := input.rate, s.nextPcrNs - time;
    ReservePaysForPcr(rate, gap);
    var excess := s.tokens - rate;
    if excess >= 0 {
      assert gap * excess < CBR_RESERVE * ahead <= CBR_RESERVE * gap == gap * CBR_RESERVE;
      CancelFactor(excess, CBR_RESERVE, gap);
    }
    assert after.tokens < 2 * rate;
    if after.tokens >= rate {
      TimesAtMost(gap, after.tokens - rate + CBR_RESERVE, excess + rate);
      assert gap * (after.tokens - rate + CBR_RESERVE) == gap * (after.tokens - rate) + gap * CBR_RESERVE;
      assert gap * (excess + rate) == gap * excess + gap * rate;
      assert gap * excess < CBR_RESERVE * ahead by { if excess < 0 { BelowZero(gap, excess); } }
      assert PERIODIC_PCR_INTERVAL_NS + ahead - gap <= after.nextPcrNs - input.time;
    }
  }

  lemma {:induction false} BelowZero(a: nat, b: int)
    requires b <= 0
    ensures a * b <= 0
  {
  }

  lemma {:induction false} SolventWhileWaiting(s: SlotState, after: SlotState, input: SlotInput, time: nat, gap: nat)
    requires gap > 0 && time <= input.time <= time + gap && input.time < s.nextPcrNs
    requires input.pace + CBR_RESERVE <= input.rate
    requires s.locked && Solvent(s, time, input.rate, gap)
    requires after.locked && after.nextPcrNs == s.nextPcrNs
    requires after.tokens < input.rate || after.tokens <= s.tokens + input.pace - input.rate
    ensures Solvent(after, input.time, input.rate, gap)
  {
    if after.tokens >= input.rate {
      TimesAtMost(gap, after.tokens - input.rate + CBR_RESERVE, s.tokens - input.rate);
      assert gap * (after.tokens - input.rate + CBR_RESERVE) == gap * (after.tokens - input.rate) + gap * CBR_RESERVE;
    }
  }

  lemma {:induction false} StepSolvent(s: SlotState, input: SlotInput, time: nat, gap: nat)
    requires AboveReserve(input.rate) && SlotGap(input.rate, gap)
    requires time <= input.time <= time + gap
    requires input.pace + CBR_RESERVE <= input.rate
    requires Solvent(s, time, input.rate, gap)
    ensures Solvent(Step(s, input).state, input.time, input.rate, gap)
  {
    var r := Step(s, input);
    StepTokens(s, input);
    StepDeadline(s, input);
    hide Step, SlotGap;
    if r.emission.origin.Generated? {
      SolventAfterPcr(s, r.state, input, time, gap);
    } else if s.locked {
      SolventWhileWaiting(s, r.state, input, time, gap);
    } else {
      NothingAhead(r.state, input.time, input.rate, gap);
    }
  }

  lemma {:induction false} NothingAhead(s: SlotState, time: nat, rate: nat, gap: nat)
    requires gap > 0 && s.tokens < rate && (s.locked ==> time < s.nextPcrNs)
    ensures Solvent(s, time, rate, gap)
  {
  }

  /** At a constant transport rate above 100 kbit/s, with the reserve kept and slots on
      schedule, the accumulator stays below twice the rate at every slot of every run. */
  lemma {:induction false} RunSolvent(s: SlotState, inputs: seq<SlotInput>, rate: nat, gap: nat)
    requires Unlocked(s) && PositiveRates(inputs) && Increasing(inputs) && GapsAtMost(inputs, gap)
    requires AboveReserve(rate) && SlotGap(rate, gap)
    requires ConstantRate(inputs, rate) && Reserved(inputs, rate)
    ensures Solvent(RunSlots(s, inputs).state, LastTime(inputs), rate, gap)
    ensures RunSlots(s, inputs).state.tokens < 2 * rate
    decreases |inputs|
  {
    if |inputs| == 0 {
      NothingAhead(s, 0, rate, gap);
    } else {
      var earlier := inputs[..|inputs| - 1];
      RunSolvent(s, earlier, rate, gap);
      var before, input := LastSlot(s, inputs);
      if |inputs| == 1 {
        assert before.state == s;
        hide Step, RunSlots, SlotGap;
        NothingAhead(s, input.time, rate, gap);
        StepSolvent(s, input, input.time, gap);
      } else {
        assert earlier[|earlier| - 1] == inputs[|inputs| - 2];
        hide Step, RunSlots, SlotGap;
        StepSolvent(before.state, input, LastTime(earlier), gap);
      }
    }
  }

  // The ledger

  /** At every slot there is a packet to send. */
  ghost predicate Backlogged(s: SlotState, inputs: seq<SlotInput>)
    requires PositiveRates(inputs)
  {
    forall k :: 0 <= k < |inputs| ==> RunSlots(s, inputs[..k]).state.packets + inputs[k].arrivals != []
  }

  /** What the packets sent have cost, each at the rate of its slot. */
  function Charged(wire: seq<Emission>, inputs: seq<SlotInput>): nat
    requires |wire| == |inputs|
  {
    if wire == [] then 0
    else
      var n := |wire| - 1;
      Charged(wire[..n], inputs[..n]) + if wire[n].origin.Real? then inputs[n].rate else 0
  }

  lemma {:induction false} ChargedAtConstantRate(wire: seq<Emission>, inputs: seq<SlotInput>, rate: nat)
    requires |wire| == |inputs| && ConstantRate(inputs, rate)
    ensures Charged(wire, inputs) == rate * |Sources(wire)|
  {
    if wire != [] {
      var n := |wire| - 1;
      ChargedAtConstantRate(wire[..n], inputs[..n], rate);
      assert rate * (|Sources(wire[..n])| + 1) == rate * |Sources(wire[..n])| + rate;
    }
  }

  lemma {:induction false} StepLedger(s: SlotState, input: SlotInput)
    requires input.rate > 0
    ensures var r := Step(s, input);
            var charge := if r.emission.origin.Real? then input.rate else 0;
            && charge + r.state.tokens <= s.tokens + input.pace
            && (s.packets + input.arrivals != [] ==> charge + r.state.tokens == s.tokens + input.pace)
  {
    hide PcrPacketAt, NullPacket, SentBytes;
  }

  /** Tokens are paid in by the pace and out by packets sent; none are lost while there is
      something to send, and none are ever created. */
  lemma {:induction false} TokenLedger(s: SlotState, inputs: seq<SlotInput>)
    requires PositiveRates(inputs)
    ensures var run := RunSlots(s, inputs);
            && Charged(run.wire, inputs) + run.state.tokens <= s.tokens + SumPace(inputs)
            && (Backlogged(s, inputs) ==>
                  Charged(run.wire, inputs) + run.state.tokens == s.tokens + SumPace(inputs))
    decreases |inputs|
  {
    if inputs != [] {
      TokenLedger(s, inputs[..|inputs| - 1]);
      var before, input := LastSlot(s, inputs);
      BackloggedEarlier(s, inputs);
      hide Step, RunSlots, Backlogged;
      StepLedger(before.state, input);
    }
  }

  /** No catch-up burst after an upstream gap: behind a slot that had tokens for a packet and no packet, the
      packets sent in any number of slots cost less than the paces of those slots and one packet more. */
  lemma {:induction false} NoBurstAfterGap(s: SlotState, gap: SlotInput, inputs: seq<SlotInput>, rate: nat)
    requires gap.rate == rate > 0 && PositiveRates(inputs) && ConstantRate(inputs, rate)
    requires Step(s, gap).emission.origin.Null? && s.tokens + gap.pace >= rate
    ensures var run := RunSlots(Step(s, gap).state, inputs);
            rate * |Sources(run.wire)| < SumPace(inputs) + rate
  {
    SlotUse(s, gap);
    hide Step, RunSlots;
    var after := Step(s, gap).state;
    TokenLedger(after, inputs);
    ChargedAtConstantRate(RunSlots(after, inputs).wire, inputs, rate);
  }

  lemma {:induction false} BackloggedEarlier(s: SlotState, inputs: seq<SlotInput>)
    requires PositiveRates(inputs) && inputs != []
    ensures Backlogged(s, inputs) ==>
              && Backlogged(s, inputs[..|inputs| - 1])
              && RunSlots(s, inputs[..|inputs| - 1]).state.packets + inputs[|inputs| - 1].arrivals != []
  {
    var earlier := inputs[..|inputs| - 1];
    if Backlogged(s, inputs) {
      forall k | 0 <= k < |earlier| ensures RunSlots(s, earlier[..k]).state.packets + earlier[k].arrivals != [] {
        assert earlier[..k] == inputs[..k];
      }
    }
  }

  lemma {:induction false} WindowIsSolvent(s: SlotState, inputs: seq<SlotInput>, k: nat, rate: nat, gap: nat)
    requires Unlocked(s) && PositiveRates(inputs) && Increasing(inputs) && GapsAtMost(inputs, gap)
    requires AboveReserve(rate) && SlotGap(rate, gap)
    requires ConstantRate(inputs, rate) && Reserved(inputs, rate)
    requires k <= |inputs|
    ensures ConstantRate(inputs[k..], rate)
    ensures RunSlots(s, inputs[..k]).state.tokens < 2 * rate
    ensures RunSlots(RunSlots(s, inputs[..k]).state, inputs[k..]).state.tokens < 2 * rate
  {
    hide RunSlots, Solvent, SlotGap, Unlocked;
    assert inputs == inputs[..k] + inputs[k..];
    RunSolvent(s, inputs, rate, gap);
    RunSolvent(s, inputs[..k], rate, gap);
    RunSlotsAppend(s, inputs[..k], inputs[k..]);
  }

  /** Over any window in which there is always something to send, the packets sent times the rate
      and the sum of the paces differ by less than two packets' worth. */
  lemma {:induction false} RealPaceIsAccurate(s: SlotState, inputs: seq<SlotInput>, k: nat, rate: nat, gap: nat)
    requires Unlocked(s) && PositiveRates(inputs) && Increasing(inputs) && GapsAtMost(inputs, gap)
    requires AboveReserve(rate) && SlotGap(rate, gap)
    requires ConstantRate(inputs, rate) && Reserved(inputs, rate)
    requires k <= |inputs|
    requires Backlogged(RunSlots(s, inputs[..k]).state, inputs[k..])
    ensures var window := RunSlots(RunSlots(s, inputs[..k]).state, inputs[k..]);
            -2 * rate < rate * |Sources(window.wire)| - SumPace(inputs[k..]) < 2 * rate
  {
    WindowIsSolvent(s, inputs, k, rate, gap);
    hide RunSlots, Backlogged, SlotGap, Unlocked, Increasing, GapsAtMost, Reserved;
    var middle, window := RunSlots(s, inputs[..k]).state, inputs[k..];
    TokenLedger(middle, window);
    ChargedAtConstantRate(RunSlots(middle, window).wire, window, rate);
  }
}
