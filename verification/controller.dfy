/** The reservoir controller: measuring the input rate and choosing the pace of queued packets and,
    for VBR, the transport rate (waitForInitialPackets, updateRateController, updateTransportBitrate). */
module Controller {
  import opened Arithmetic
  import opened Slots

  const MAX_BUFFERED_BYTES := 32 * 1024 * 1024
  const STARTUP_RESERVOIR_NS := 5_000_000_000
  const RATE_SAMPLE_NS := 500_000_000
  const CONTROLLER_UPDATE_NS := 100_000_000
  const TARGET_RESERVOIR_NS := 2_500_000_000
  const LOW_RESERVOIR_NS := 800_000_000
  const CORRECTION_HORIZON_NS := 6_000_000_000
  const VBR_HEADROOM := 120_000
  const MINIMUM_VBR_RATE := 500_000
  const MAXIMUM_RATE := 200_000_000

  datatype Mode = Cbr | Vbr

  datatype Config = Config(mode: Mode, target: nat)

  /** What the constructor accepts. */
  predicate Supported(cfg: Config) {
    match cfg.mode
    case Cbr => 0 < cfg.target <= MAXIMUM_RATE
    case Vbr => cfg.target <= MAXIMUM_RATE
  }

  function Min(a: int, b: int): int { if a < b then a else b }

  function Max(a: int, b: int): int { if a > b then a else b }

  function MaxRealPace(cfg: Config): nat {
    if cfg.mode == Vbr then MAXIMUM_RATE - VBR_HEADROOM
    else if cfg.target <= 100_000 then cfg.target
    else cfg.target - 100_000
  }

  function TransportFor(cfg: Config, pace: nat): nat {
    if cfg.mode == Cbr then cfg.target else Max(MINIMUM_VBR_RATE, Min(pace + VBR_HEADROOM, MAXIMUM_RATE))
  }

  function BytesForDuration(bitrate: nat, nanoseconds: nat): nat {
    MultiplyDivide(bitrate, nanoseconds, 8_000_000_000)
  }

  function TargetBytes(estimate: nat): nat {
    Max(1316 * 32, BytesForDuration(estimate, TARGET_RESERVOIR_NS))
  }

  function LowBytes(estimate: nat): nat {
    Max(1316 * 8, BytesForDuration(estimate, LOW_RESERVOIR_NS))
  }

  /** Division that truncates towards zero. */
  function Truncated(a: int, b: nat): int
    requires b > 0
  {
    if a >= 0 then a / b else -(-a / b)
  }

  /** Bits per second that would remove the occupancy error over the correction horizon. */
  function Correction(errorBytes: int): int {
    Truncated(errorBytes * 8 * 1_000_000_000, CORRECTION_HORIZON_NS)
  }

  function LinearPace(estimate: nat, buffered: nat): int {
    estimate + Correction(buffered - TargetBytes(estimate))
  }

  function DesiredPace(estimate: nat, buffered: nat): int {
    var linear := LinearPace(estimate, buffered);
    if buffered < LowBytes(estimate) then Min(linear, estimate * 85 / 100) else linear
  }

  function Pace(cfg: Config, estimate: nat, buffered: nat): nat {
    Min(Max(0, DesiredPace(estimate, buffered)), MaxRealPace(cfg))
  }

  datatype ControllerState = ControllerState(
    estimate: nat,
    pace: nat,
    transport: nat,
    lastSampleNs: nat,
    lastSampleBytes: nat,
    lastUpdateNs: nat,
    lowWatermarks: nat)

  /** The measured rate since the last sample. */
  function InstantRate(c: ControllerState, now: nat, received: nat): nat
    requires c.lastSampleNs <= now
  {
    var deltaBytes := if received >= c.lastSampleBytes then received - c.lastSampleBytes else 0;
    if now > c.lastSampleNs then MultiplyDivide(deltaBytes * 8, 1_000_000_000, now - c.lastSampleNs) else 0
  }

  function Smooth(estimate: nat, instant: nat): nat {
    if instant == 0 then estimate
    else if estimate == 0 then instant
    else (estimate * 7 + instant) / 8
  }

  function TakeSample(c: ControllerState, now: nat, received: nat): ControllerState {
    var c1 := if c.lastSampleNs == 0 then c.(lastSampleNs := now, lastSampleBytes := received) else c;
    if now >= c1.lastSampleNs && now - c1.lastSampleNs >= RATE_SAMPLE_NS then
      c1.(estimate := Smooth(c1.estimate, InstantRate(c1, now, received)),
          lastSampleNs := now, lastSampleBytes := received)
    else c1
  }

  function Steer(cfg: Config, c: ControllerState, now: nat, buffered: nat): ControllerState {
    if c.lastUpdateNs != 0 && now >= c.lastUpdateNs && now - c.lastUpdateNs < CONTROLLER_UPDATE_NS then c
    else
      var estimate := Max(1, c.estimate);
      var pace := Pace(cfg, estimate, buffered);
      c.(pace := pace, transport := TransportFor(cfg, pace), lastUpdateNs := now,
         lowWatermarks := c.lowWatermarks + if buffered < LowBytes(estimate) then 1 else 0)
  }

  function Update(cfg: Config, c: ControllerState, now: nat, received: nat, buffered: nat): ControllerState {
    Steer(cfg, TakeSample(c, now, received), now, buffered)
  }

  function StartupEstimate(cfg: Config, buffered: nat, elapsed: nat): nat {
    var measured := MultiplyDivide(buffered * 8, 1_000_000_000, Max(1, elapsed));
    if measured > 0 then measured
    else if cfg.mode == Cbr then Min(cfg.target, 1_000_000)
    else 1_000_000
  }

  /** The controller at the start of sending: `elapsed` since the first chunk, `buffered` bytes held. */
  function Startup(cfg: Config, buffered: nat, elapsed: nat, now: nat, received: nat): ControllerState {
    var estimate := StartupEstimate(cfg, buffered, elapsed);
    var pace := if cfg.mode == Cbr then Min(estimate, MaxRealPace(cfg)) else estimate;
    ControllerState(estimate, pace, TransportFor(cfg, pace), now, received, now, 0)
  }

  // The pace

  lemma {:induction false} CorrectionIsFourThirds(errorBytes: int)
    ensures Correction(errorBytes) == Truncated(errorBytes * 4, 3)
  {
    if errorBytes >= 0 {
      assert errorBytes * 8 * 1_000_000_000 / 6_000_000_000 == errorBytes * 4 / 3;
    } else {
      assert -errorBytes * 8 * 1_000_000_000 / 6_000_000_000 == -errorBytes * 4 / 3;
    }
  }

  lemma {:induction false} ReservoirBytes(estimate: nat)
    ensures TargetBytes(estimate) == Max(42112, estimate * 5 / 16)
    ensures LowBytes(estimate) == Max(10528, estimate / 10)
  {
    assert estimate * 2_500_000_000 / 8_000_000_000 == estimate * 5 / 16;
    assert estimate * 800_000_000 / 8_000_000_000 == estimate / 10;
  }

  /** Below the low watermark the 85% cap never binds: the linear correction is already below it,
      for every estimate. The low-watermark branch therefore changes no pace. */
  lemma {:induction false} LowCapIsRedundant(estimate: nat, buffered: nat)
    ensures DesiredPace(estimate, buffered) == LinearPace(estimate, buffered)
    ensures buffered < LowBytes(estimate) ==> DesiredPace(estimate, buffered) <= estimate * 85 / 100
  {
    ReservoirBytes(estimate);
    CorrectionIsFourThirds(buffered - TargetBytes(estimate));
    hide Correction, TargetBytes, LowBytes;
  }

  lemma {:induction false} TruncatedMonotone(a: int, b: int)
    requires a <= b
    ensures Truncated(a * 4, 3) <= Truncated(b * 4, 3)
  {
  }

  /** The most a configuration lets queued packets take. */
  lemma {:induction false} MaximumIs(cfg: Config)
    requires Supported(cfg)
    ensures cfg.mode == Vbr ==> MaxRealPace(cfg) == 199_880_000
    ensures cfg.mode == Cbr && cfg.target > 100_000 ==> MaxRealPace(cfg) + 100_000 == cfg.target
    ensures cfg.mode == Cbr && cfg.target <= 100_000 ==> MaxRealPace(cfg) == cfg.target
  {
  }

  /** The pace in numbers, for every estimate and occupancy: the estimate, plus or minus four thirds of what
      the reservoir has above or below its target in bytes, rounded towards the estimate, and kept
      between 0 and the maximum. The target is 2.5 s of the estimate, 42,112 bytes at least. */
  lemma {:induction false} PaceInNumbers(cfg: Config, estimate: nat, buffered: nat)
    ensures var target := Max(42_112, estimate * 5 / 16);
            Pace(cfg, estimate, buffered)
            == if buffered >= target then Min(estimate + 4 * (buffered - target) / 3, MaxRealPace(cfg))
               else Min(Max(0, estimate - 4 * (target - buffered) / 3), MaxRealPace(cfg))
  {
    LowCapIsRedundant(estimate, buffered);
    ReservoirBytes(estimate);
    CorrectionIsFourThirds(buffered - TargetBytes(estimate));
    hide Correction, TargetBytes, DesiredPace, MaxRealPace;
  }

  /** A reservoir above its target drains faster than it fills, one below it more slowly, unless the
      maximum, or nothing to take away, stands against it. */
  lemma {:induction false} PaceSteersToTarget(cfg: Config, estimate: nat, buffered: nat)
    requires estimate > 0
    ensures var target := Max(42_112, estimate * 5 / 16);
            && (buffered > target ==>
                 Pace(cfg, estimate, buffered) > estimate || Pace(cfg, estimate, buffered) == MaxRealPace(cfg))
            && (buffered < target ==> Pace(cfg, estimate, buffered) < estimate)
  {
    PaceInNumbers(cfg, estimate, buffered);
    hide Pace, MaxRealPace;
  }

  /** A fuller reservoir is never drained more slowly. */
  lemma {:induction false} PaceIsMonotone(cfg: Config, estimate: nat, less: nat, more: nat)
    requires less <= more
    ensures Pace(cfg, estimate, less) <= Pace(cfg, estimate, more)
  {
    LowCapIsRedundant(estimate, less);
    LowCapIsRedundant(estimate, more);
    CorrectionIsFourThirds(less - TargetBytes(estimate));
    CorrectionIsFourThirds(more - TargetBytes(estimate));
    TruncatedMonotone(less - TargetBytes(estimate), more - TargetBytes(estimate));
    hide Correction, TargetBytes, DesiredPace, Truncated;
  }

  /** At the target occupancy the pace is the estimate, as far as the maximum allows. */
  lemma {:induction false} PaceAtTarget(cfg: Config, estimate: nat)
    ensures Pace(cfg, estimate, TargetBytes(estimate)) == Min(estimate, MaxRealPace(cfg))
  {
    LowCapIsRedundant(estimate, TargetBytes(estimate));
    assert Correction(0) == 0;
  }

  /** An empty reservoir still drains at 7/12 of the estimate exactly when the estimate is at least
      134,758 bit/s; below that the fixed minimum reservoir of 42,112 bytes dominates. */
  lemma {:induction false} EmptyReservoirPaceIff(estimate: nat)
    requires estimate > 0
    ensures 12 * Max(0, DesiredPace(estimate, 0)) >= 7 * estimate <==> estimate >= 134_758
  {
    LowCapIsRedundant(estimate, 0);
    ReservoirBytes(estimate);
    CorrectionIsFourThirds(0 - TargetBytes(estimate));
    hide Correction, TargetBytes, DesiredPace, LowBytes;
  }

  /** Hence, from 134,758 bit/s on, the pace never falls below the lesser of maximum and 7/12 of the
      estimate, however empty the reservoir is. */
  lemma {:induction false} PaceFloor(cfg: Config, estimate: nat, buffered: nat)
    requires estimate >= 134_758
    ensures Pace(cfg, estimate, buffered) >= MaxRealPace(cfg) || 12 * Pace(cfg, estimate, buffered) >= 7 * estimate
  {
    EmptyReservoirPaceIff(estimate);
    PaceIsMonotone(cfg, estimate, 0, buffered);
    hide DesiredPace;
  }

  // The reserve

  /** The least VBR transport rate for a pace: 500 kbit/s and 120 kbit/s above the pace at least, and no
      more than one of the two asks for. */
  predicate LeastVbrRate(rate: nat, pace: nat) {
    500_000 <= rate && pace + 120_000 <= rate && (rate == 500_000 || rate == pace + 120_000)
  }

  /** What is left of the transport rate for PCR packets, and, for VBR, that it is no more than needed. */
  predicate KeepsReserve(cfg: Config, c: ControllerState) {
    match cfg.mode
    case Cbr => c.transport == cfg.target && c.pace <= cfg.target
      && (cfg.target > 100_000 ==> c.pace + 100_000 <= cfg.target)
    case Vbr => LeastVbrRate(c.transport, c.pace) && c.transport <= MAXIMUM_RATE
  }

  /** The startup estimate is not clamped for VBR, and need not be: 32 MiB over 5 s is 53,687,091 bit/s. */
  lemma {:induction false} StartupKeepsReserve(cfg: Config, buffered: nat, elapsed: nat, now: nat, received: nat)
    requires Supported(cfg)
    requires buffered <= MAX_BUFFERED_BYTES && elapsed >= STARTUP_RESERVOIR_NS
    ensures KeepsReserve(cfg, Startup(cfg, buffered, elapsed, now, received))
    ensures StartupEstimate(cfg, buffered, elapsed) <= 53_687_091
  {
    var bits := buffered * 8 * 1_000_000_000;
    var measured := bits / elapsed;
    assert measured * elapsed <= bits;
    TimesAtMost(measured, STARTUP_RESERVOIR_NS, elapsed);
    assert measured <= 53_687_091;
    assert MultiplyDivide(buffered * 8, 1_000_000_000, elapsed) == measured;
    hide MultiplyDivide;
  }

  lemma {:induction false} UpdateKeepsReserve(cfg: Config, c: ControllerState, now: nat, received: nat, buffered: nat)
    requires KeepsReserve(cfg, c)
    ensures KeepsReserve(cfg, Update(cfg, c, now, received, buffered))
  {
    hide DesiredPace, InstantRate;
  }

  /** An update leaves pace and transport rate alone for 100 ms; then it sets the pace for the estimate and
      the occupancy of the moment. A clock that reads before the last update does not hold it back. */
  lemma {:induction false} UpdateSteers(cfg: Config, c: ControllerState, now: nat, received: nat, buffered: nat)
    ensures var next := Update(cfg, c, now, received, buffered);
            if c.lastUpdateNs != 0 && c.lastUpdateNs <= now < c.lastUpdateNs + 100_000_000
            then next.pace == c.pace && next.transport == c.transport && next.lastUpdateNs == c.lastUpdateNs
                 && next.lowWatermarks == c.lowWatermarks
            else next.pace == Pace(cfg, Max(1, next.estimate), buffered) && next.lastUpdateNs == now
                 && next.lowWatermarks == c.lowWatermarks
                    + if buffered < Max(10_528, Max(1, next.estimate) / 10) then 1 else 0
  {
    ReservoirBytes(Max(1, TakeSample(c, now, received).estimate));
    hide Pace, TransportFor, InstantRate, Smooth, LowBytes, TargetBytes;
  }

  /** The controller at the start: it samples and updates from there on, and has measured what arrived. */
  lemma {:induction false} StartupInNumbers(cfg: Config, buffered: nat, elapsed: nat, now: nat, received: nat)
    requires Supported(cfg) && 0 < elapsed
    ensures var c := Startup(cfg, buffered, elapsed, now, received);
            && c.lastSampleNs == c.lastUpdateNs == now && c.lastSampleBytes == received
            && (8 * 1_000_000_000 * buffered >= elapsed ==>
                  c.estimate * elapsed <= 8 * 1_000_000_000 * buffered < (c.estimate + 1) * elapsed)
            && (8 * 1_000_000_000 * buffered < elapsed ==>
                  c.estimate == if cfg.mode == Cbr then Min(cfg.target, 1_000_000) else 1_000_000)
            && c.pace == if cfg.mode == Cbr then Min(c.estimate, MaxRealPace(cfg)) else c.estimate
  {
    var bits := 8 * 1_000_000_000 * buffered;
    assert buffered * 8 * 1_000_000_000 == bits;
    assert (bits / elapsed) * elapsed <= bits < (bits / elapsed + 1) * elapsed;
    if bits >= elapsed { DivisionAtLeast(bits, elapsed, 1); } else { DivisionIs(bits, elapsed, 0); }
    hide MaxRealPace, TransportFor;
  }

  // The estimate

  /** A sample is taken every 500 ms and is the rate received since the last one, in bits per second,
      rounded down; byte counts that went back count as nothing. */
  lemma {:induction false} SampleInNumbers(c: ControllerState, now: nat, received: nat)
    ensures var next := TakeSample(c, now, received);
            if c.lastSampleNs == 0 then
              next.lastSampleNs == now && next.lastSampleBytes == received && next.estimate == c.estimate
            else if now < c.lastSampleNs + 500_000_000 then next == c
            else
              var bits :=
                8 * 1_000_000_000 * (if received >= c.lastSampleBytes then received - c.lastSampleBytes else 0);
              var elapsed := now - c.lastSampleNs;
              var sample := SampleTaken(c, now, received);
              && next.lastSampleNs == now && next.lastSampleBytes == received
              && sample * elapsed <= bits < (sample + 1) * elapsed
              && next.estimate == Smooth(c.estimate, sample)
  {
    if c.lastSampleNs != 0 && now >= c.lastSampleNs + 500_000_000 {
      var delta := if received >= c.lastSampleBytes then received - c.lastSampleBytes else 0;
      var bits, elapsed := delta * 8 * 1_000_000_000, now - c.lastSampleNs;
      assert (bits / elapsed) * elapsed <= bits < (bits / elapsed + 1) * elapsed;
      hide Smooth;
    }
  }

  /** The average keeps seven eighths and takes one eighth of a positive sample. */
  lemma {:induction false} SmoothInEighths(estimate: nat, instant: nat)
    ensures instant > 0 && estimate > 0 ==>
              8 * Smooth(estimate, instant) <= 7 * estimate + instant < 8 * Smooth(estimate, instant) + 8
    ensures instant == 0 ==> Smooth(estimate, instant) == estimate
    ensures estimate == 0 ==> Smooth(estimate, instant) == instant
  {
  }

  /** A positive sample moves the estimate towards itself and not beyond. */
  lemma {:induction false} SmoothStaysBetween(estimate: nat, instant: nat, lo: nat, hi: nat)
    requires lo <= estimate <= hi && (instant > 0 ==> lo <= instant <= hi)
    ensures lo <= Smooth(estimate, instant) <= hi
  {
  }

  datatype Reading = Reading(now: nat, received: nat, buffered: nat)

  function RunController(cfg: Config, c: ControllerState, readings: seq<Reading>): ControllerState {
    if readings == [] then c
    else
      var n := |readings| - 1;
      Update(cfg, RunController(cfg, c, readings[..n]), readings[n].now, readings[n].received, readings[n].buffered)
  }

  /** The rate sample an update takes; 0 when it takes none. */
  function SampleTaken(c: ControllerState, now: nat, received: nat): nat {
    if c.lastSampleNs != 0 && now >= c.lastSampleNs + RATE_SAMPLE_NS then InstantRate(c, now, received) else 0
  }

  lemma {:induction false} UpdateSmooths(cfg: Config, c: ControllerState, now: nat, received: nat, buffered: nat)
    ensures Update(cfg, c, now, received, buffered).estimate == Smooth(c.estimate, SampleTaken(c, now, received))
  {
    hide InstantRate, Pace, TransportFor, LowBytes;
  }

  /** Every positive rate sample of the run lies between `lo` and `hi`. */
  ghost predicate SamplesWithin(cfg: Config, c: ControllerState, readings: seq<Reading>, lo: nat, hi: nat) {
    forall k :: 0 <= k < |readings| ==>
      var sample := SampleTaken(RunController(cfg, c, readings[..k]), readings[k].now, readings[k].received);
      sample > 0 ==> lo <= sample <= hi
  }

  /** Over every run the estimate stays within the range of the startup estimate and the positive
      samples, and the reserve is kept after every update. */
  lemma {:induction false} RunStaysWithin(cfg: Config, c: ControllerState, readings: seq<Reading>, lo: nat, hi: nat)
    requires KeepsReserve(cfg, c) && lo <= c.estimate <= hi
    requires SamplesWithin(cfg, c, readings, lo, hi)
    ensures lo <= RunController(cfg, c, readings).estimate <= hi
    ensures KeepsReserve(cfg, RunController(cfg, c, readings))
    decreases |readings|
  {
    if readings != [] {
      var n := |readings| - 1;
      var earlier := readings[..n];
      forall k | 0 <= k < n ensures earlier[..k] == readings[..k] {}
      assert SamplesWithin(cfg, c, earlier, lo, hi);
      RunStaysWithin(cfg, c, earlier, lo, hi);
      var before, reading := RunController(cfg, c, earlier), readings[n];
      UpdateKeepsReserve(cfg, before, reading.now, reading.received, reading.buffered);
      UpdateSmooths(cfg, before, reading.now, reading.received, reading.buffered);
      hide KeepsReserve, SampleTaken, Update;
      SmoothStaysBetween(before.estimate, SampleTaken(before, reading.now, reading.received), lo, hi);
    }
  }
}
