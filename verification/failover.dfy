/** Primary/backup failover of a stream without an external transcoder (monitorBus and
    restartPipelineWithInput). Pipeline builds, playback starts, probes and bus messages are
    whatever the environment makes of them; clock readings never go back. Times are nanoseconds. */
module Failover {
  const SECOND := 1_000_000_000
  const INPUT_FAILOVER_DELAY := 5 * SECOND
  const PRIMARY_RETRY_INTERVAL := 10 * SECOND
  const TEST_PATTERN_URI := "test://bars"

  datatype Config = Config(
    primary: string,
    backup: string,
    testPattern: bool,
    backupFileLoop: bool,
    backupIsFile: bool)

  datatype State = State(
    usingBackup: bool,
    backupAttempted: bool,
    primaryRetryPending: bool,
    inputLossNotified: bool,
    active: bool,
    activeUri: string,
    configUri: string,
    bytesSeen: nat,
    lastActivity: nat,
    lastRetry: nat,
    ended: bool)            // monitorBus has returned

  datatype Build = BuildFails | PlaybackFails | Plays

  datatype Message = NoMessage | OtherMessage | ErrorMessage | EndOfStream

  /** What one pass of the monitor loop meets: the clock at its start, the input byte counter, what a
      probe of the primary would find, how a restart would go and when, the bus message, and how a
      restart of a finished backup file would go and when. */
  datatype Turn = Turn(
    now: nat,
    bytes: nat,
    probeFinds: bool,
    build: Build,
    restartAt: nat,
    message: Message,
    loopBuild: Build,
    loopAt: nat)

  function Initial(cfg: Config, start: nat): State {
    State(false, false, false, false, true, if cfg.testPattern then TEST_PATTERN_URI else cfg.primary,
          cfg.primary, 0, start, start, false)
  }

  /** Restarting on another input; the result says whether playback started. */
  function Restart(s: State, uri: string, useBackup: bool, build: Build, at: nat): (State, bool) {
    if uri == "" then (s, false)
    else if build == BuildFails then (s.(configUri := uri), false)
    else
      (s.(configUri := uri, usingBackup := useBackup, backupAttempted := useBackup, primaryRetryPending := !useBackup,
          inputLossNotified := false, activeUri := uri, active := build == Plays, bytesSeen := 0,
          lastActivity := at, lastRetry := at),
       build == Plays)
  }

  function NoteActivity(s: State, turn: Turn): State {
    if turn.bytes == s.bytesSeen then s
    else
      var s1 := s.(bytesSeen := turn.bytes, lastActivity := turn.now, inputLossNotified := false);
      if s.primaryRetryPending && !s.usingBackup then s1.(primaryRetryPending := false, backupAttempted := false)
      else s1
  }

  predicate TimedOut(s: State, now: nat) {
    now >= s.lastActivity + INPUT_FAILOVER_DELAY
  }

  predicate RetryDue(s: State, now: nat) {
    now >= s.lastRetry + PRIMARY_RETRY_INTERVAL
  }

  function SwitchInput(cfg: Config, s: State, turn: Turn): State {
    if cfg.testPattern then s
    else if TimedOut(s, turn.now) && !s.usingBackup && cfg.backup != "" then
      var (s1, ok) := Restart(s, cfg.backup, true, turn.build, turn.restartAt);
      s1.(inputLossNotified := !ok)
    else if s.usingBackup && RetryDue(s, turn.now) then
      var s1 := s.(lastRetry := turn.now);
      if cfg.primary != "" && turn.probeFinds then
        var (s2, ok) := Restart(s1, cfg.primary, false, turn.build, turn.restartAt);
        if ok then s2.(inputLossNotified := false) else s2
      else s1
    else if TimedOut(s, turn.now) && !s.usingBackup && s.primaryRetryPending && cfg.backup != "" then
      Restart(s, cfg.backup, true, turn.build, turn.restartAt).0
    else if TimedOut(s, turn.now) && !s.usingBackup && cfg.backup == "" && !s.inputLossNotified then
      s.(inputLossNotified := true)
    else s
  }

  function HandleMessage(cfg: Config, s: State, turn: Turn): State {
    match turn.message
    case NoMessage => s
    case OtherMessage => s
    case ErrorMessage => s.(active := false, ended := true)
    case EndOfStream =>
      if s.usingBackup && cfg.backupFileLoop && cfg.backupIsFile then
        var (s1, ok) := Restart(s, s.activeUri, true, turn.loopBuild, turn.loopAt);
        if ok then s1.(active := true) else s1.(active := false, ended := true)
      else s.(active := false, ended := true)
  }

  function TakeTurn(cfg: Config, s: State, turn: Turn): State {
    if s.ended then s
    else HandleMessage(cfg, SwitchInput(cfg, NoteActivity(s, turn), turn), turn)
  }

  function Run(cfg: Config, s: State, turns: seq<Turn>): State {
    if turns == [] then s else TakeTurn(cfg, Run(cfg, s, turns[..|turns| - 1]), turns[|turns| - 1])
  }

  // What every turn keeps

  /** The active input is the one the flags say. */
  predicate Consistent(cfg: Config, s: State) {
    && s.activeUri == (if s.usingBackup then cfg.backup else if cfg.testPattern then TEST_PATTERN_URI else cfg.primary)
    && s.backupAttempted == s.usingBackup
    && (s.primaryRetryPending ==> !s.usingBackup)
    && (s.usingBackup ==> !cfg.testPattern && cfg.backup != "")
  }

  /** A restart changes the input and all flags together, or nothing but the configured URI. */
  lemma {:induction false} RestartIsAllOrNothing(s: State, uri: string, useBackup: bool, build: Build, at: nat)
    ensures var (t, ok) := Restart(s, uri, useBackup, build, at);
            && ok == (uri != "" && build == Plays)
            && t.ended == s.ended && t.configUri == (if uri == "" then s.configUri else uri)
            && if uri == "" || build == BuildFails then t == s.(configUri := t.configUri)
               else t.usingBackup == t.backupAttempted == useBackup && t.primaryRetryPending == !useBackup
                    && t.activeUri == uri && t.lastActivity == t.lastRetry == at
                    && t.active == (build == Plays) && t.bytesSeen == 0 && !t.inputLossNotified
  {
  }

  lemma {:induction false} SwitchKeepsConsistent(cfg: Config, s: State, turn: Turn)
    requires Consistent(cfg, s)
    ensures Consistent(cfg, SwitchInput(cfg, s, turn))
  {
    RestartIsAllOrNothing(s, cfg.backup, true, turn.build, turn.restartAt);
    RestartIsAllOrNothing(s.(lastRetry := turn.now), cfg.primary, false, turn.build, turn.restartAt);
    hide Restart;
  }

  lemma {:induction false} MessageKeepsConsistent(cfg: Config, s: State, turn: Turn)
    requires Consistent(cfg, s)
    ensures Consistent(cfg, HandleMessage(cfg, s, turn))
  {
    RestartIsAllOrNothing(s, s.activeUri, true, turn.loopBuild, turn.loopAt);
    hide Restart;
  }

  lemma {:induction false} TurnKeepsConsistent(cfg: Config, s: State, turn: Turn)
    requires Consistent(cfg, s)
    ensures Consistent(cfg, TakeTurn(cfg, s, turn))
  {
    hide SwitchInput, HandleMessage;
    SwitchKeepsConsistent(cfg, NoteActivity(s, turn), turn);
    MessageKeepsConsistent(cfg, SwitchInput(cfg, NoteActivity(s, turn), turn), turn);
  }

  /** After every run, failed rebuilds and file loops included, the flags agree with the input. */
  lemma {:induction false} AlwaysConsistent(cfg: Config, start: nat, turns: seq<Turn>)
    ensures Consistent(cfg, Run(cfg, Initial(cfg, start), turns))
    decreases |turns|
  {
    if turns != [] {
      AlwaysConsistent(cfg, start, turns[..|turns| - 1]);
      hide TakeTurn, Consistent;
      TurnKeepsConsistent(cfg, Run(cfg, Initial(cfg, start), turns[..|turns| - 1]), turns[|turns| - 1]);
    }
  }

  /** On backup, a turn returns to the primary exactly when ten seconds have passed since the last
      retry or restart, a primary is configured, the probe finds it and its pipeline can be built. */
  lemma {:induction false} ReturnsIff(cfg: Config, s: State, turn: Turn)
    requires Consistent(cfg, s) && s.usingBackup && !s.ended
    ensures !TakeTurn(cfg, s, turn).usingBackup
            <==> RetryDue(s, turn.now) && cfg.primary != "" && turn.probeFinds && turn.build != BuildFails
  {
  }

  /** On primary, a turn fails over exactly when five seconds have passed without input, this turn's
      included, and a backup is configured and can be built. */
  lemma {:induction false} FailsOverIff(cfg: Config, s: State, turn: Turn)
    requires Consistent(cfg, s) && !s.usingBackup && !s.ended && !cfg.testPattern
    ensures TakeTurn(cfg, s, turn).usingBackup
            <==> turn.bytes == s.bytesSeen && TimedOut(s, turn.now) && cfg.backup != "" && turn.build != BuildFails
  {
  }

  lemma {:induction false} SwitchEndsNothing(cfg: Config, s: State, turn: Turn)
    ensures SwitchInput(cfg, s, turn).ended == s.ended
  {
    RestartIsAllOrNothing(s, cfg.backup, true, turn.build, turn.restartAt);
    RestartIsAllOrNothing(s.(lastRetry := turn.now), cfg.primary, false, turn.build, turn.restartAt);
    hide Restart;
  }

  /** When monitoring ends: on an error, and on the end of a stream that is not a looped backup file, or is
      one that cannot be started again. The stream is then inactive. */
  lemma {:induction false} EndsIff(cfg: Config, s: State, turn: Turn)
    requires Consistent(cfg, s) && !s.ended
    ensures var t := TakeTurn(cfg, s, turn);
            && (t.ended <==>
                  turn.message == ErrorMessage
                  || (turn.message == EndOfStream
                      && !(t.usingBackup && cfg.backupFileLoop && cfg.backupIsFile && turn.loopBuild == Plays)))
            && (t.ended ==> !t.active)
            && (turn.message == EndOfStream && !t.ended ==> t.active && t.lastRetry == t.lastActivity == turn.loopAt)
  {
    var switched := SwitchInput(cfg, NoteActivity(s, turn), turn);
    hide SwitchInput;
    SwitchEndsNothing(cfg, NoteActivity(s, turn), turn);
    SwitchKeepsConsistent(cfg, NoteActivity(s, turn), turn);
    RestartIsAllOrNothing(switched, switched.activeUri, true, turn.loopBuild, turn.loopAt);
    hide Restart;
  }

  /** Nothing happens after that. */
  lemma {:induction false} EndedStays(cfg: Config, s: State, turns: seq<Turn>)
    requires s.ended
    ensures Run(cfg, s, turns) == s
    decreases |turns|
  {
    if turns != [] {
      EndedStays(cfg, s, turns[..|turns| - 1]);
    }
  }

  /** The input is noticed: the byte counter seen, and when it last moved; a restart starts both anew. */
  lemma {:induction false} ActivityIsNoted(cfg: Config, s: State, turn: Turn)
    requires Consistent(cfg, s) && !s.ended && turn.message != EndOfStream
    ensures var t := TakeTurn(cfg, s, turn);
            t.usingBackup == s.usingBackup ==>
              && t.bytesSeen == turn.bytes
              && t.lastActivity == if turn.bytes != s.bytesSeen then turn.now else s.lastActivity
    ensures var t := TakeTurn(cfg, s, turn);
            t.usingBackup != s.usingBackup ==> t.bytesSeen == 0 && t.lastActivity == turn.restartAt
  {
    var noted := NoteActivity(s, turn);
    RestartIsAllOrNothing(noted, cfg.backup, true, turn.build, turn.restartAt);
    RestartIsAllOrNothing(noted.(lastRetry := turn.now), cfg.primary, false, turn.build, turn.restartAt);
    hide Restart;
  }

  /** After a return to the primary its retry is pending until it delivers, and no longer. */
  lemma {:induction false} PendingUntilInput(cfg: Config, s: State, turn: Turn)
    requires Consistent(cfg, s) && !s.ended && turn.message != EndOfStream
    ensures var t := TakeTurn(cfg, s, turn);
            t.primaryRetryPending
            <==> !t.usingBackup && (s.usingBackup || (s.primaryRetryPending && turn.bytes == s.bytesSeen))
  {
    var noted := NoteActivity(s, turn);
    RestartIsAllOrNothing(noted, cfg.backup, true, turn.build, turn.restartAt);
    RestartIsAllOrNothing(noted.(lastRetry := turn.now), cfg.primary, false, turn.build, turn.restartAt);
    hide Restart;
  }

  /** A due retry that does not return puts the next one off by ten seconds; nothing else but a restart
      moves the retry. */
  lemma {:induction false} RetryIsTimed(cfg: Config, s: State, turn: Turn)
    requires Consistent(cfg, s) && !s.ended && turn.message != EndOfStream
    ensures var t := TakeTurn(cfg, s, turn);
            && (t.usingBackup != s.usingBackup ==> t.lastRetry == turn.restartAt)
            && (t.usingBackup == s.usingBackup ==>
                  t.lastRetry == if s.usingBackup && turn.now >= s.lastRetry + 10_000_000_000 then turn.now
                    else s.lastRetry)
  {
    var noted := NoteActivity(s, turn);
    RestartIsAllOrNothing(noted, cfg.backup, true, turn.build, turn.restartAt);
    RestartIsAllOrNothing(noted.(lastRetry := turn.now), cfg.primary, false, turn.build, turn.restartAt);
    hide Restart;
  }

  /** Without a backup, the loss of the input is noted if and only if there has been none for five seconds,
      and until it comes back. */
  lemma {:induction false} LossIsNoted(cfg: Config, s: State, turn: Turn)
    requires Consistent(cfg, s) && !s.ended && !cfg.testPattern && cfg.backup == ""
    ensures TakeTurn(cfg, s, turn).inputLossNotified
            <==> turn.bytes == s.bytesSeen && (s.inputLossNotified || turn.now >= s.lastActivity + 5_000_000_000)
  {
    hide Restart;
  }

  /** With one, it is noted while the failover does not succeed. */
  lemma {:induction false} FailedFailoverIsNoted(cfg: Config, s: State, turn: Turn)
    requires Consistent(cfg, s) && !s.ended && !cfg.testPattern && cfg.backup != ""
    requires !s.usingBackup && turn.message != EndOfStream
    ensures TakeTurn(cfg, s, turn).inputLossNotified
            <==> turn.bytes == s.bytesSeen
                 && if turn.now >= s.lastActivity + 5_000_000_000 then turn.build != Plays else s.inputLossNotified
  {
    RestartIsAllOrNothing(NoteActivity(s, turn), cfg.backup, true, turn.build, turn.restartAt);
    hide Restart;
  }

  // How often the source can change

  datatype Switch = Switch(at: nat, toBackup: bool)

  function EndTime(start: nat, turns: seq<Turn>): nat {
    if turns == [] then start else turns[|turns| - 1].loopAt
  }

  /** Clock readings within a turn, and from turn to turn, never go back. */
  predicate InOrder(start: nat, turns: seq<Turn>) {
    turns != [] ==>
      var n := |turns| - 1;
      && InOrder(start, turns[..n])
      && EndTime(start, turns[..n]) <= turns[n].now <= turns[n].restartAt <= turns[n].loopAt
  }

  /** The changes of source during a run, with the clock reading of each. */
  function Switches(cfg: Config, s: State, turns: seq<Turn>): seq<Switch> {
    if turns == [] then []
    else
      var n := |turns| - 1;
      var before := Run(cfg, s, turns[..n]);
      var after := TakeTurn(cfg, before, turns[n]);
      Switches(cfg, s, turns[..n]) + SwitchOf(before, after, turns[n])
  }

  function LastSwitch(start: nat, log: seq<Switch>): nat {
    if log == [] then start else log[|log| - 1].at
  }

  /** Ten seconds at least on backup before a return, five at least on primary before a failover. */
  predicate Dwells(start: nat, log: seq<Switch>, i: nat)
    requires i < |log|
  {
    && log[i].toBackup == (i % 2 == 0)
    && log[i].at >= (if i == 0 then start else log[i - 1].at)
                    + if log[i].toBackup then INPUT_FAILOVER_DELAY else PRIMARY_RETRY_INTERVAL
  }

  ghost predicate AllDwell(start: nat, log: seq<Switch>) {
    forall i :: 0 <= i < |log| ==> Dwells(start, log, i)
  }

  ghost predicate DwellInvariant(cfg: Config, s: State, start: nat, log: seq<Switch>, time: nat) {
    && Consistent(cfg, s)
    && s.usingBackup == (|log| % 2 == 1)
    && TimersSince(s, LastSwitch(start, log), time)
    && AllDwell(start, log)
  }

  /** Both timers were set at `last` or later, and not later than `time`. */
  predicate TimersSince(s: State, last: nat, time: nat) {
    last <= s.lastActivity <= time && last <= s.lastRetry <= time
  }

  lemma {:induction false} SwitchDwells(cfg: Config, s: State, turn: Turn, last: nat)
    requires Consistent(cfg, s) && TimersSince(s, last, turn.now) && turn.now <= turn.restartAt
    ensures var t := SwitchInput(cfg, s, turn);
            && TimersSince(t, if t.usingBackup != s.usingBackup then turn.restartAt else last, turn.restartAt)
            && (t.usingBackup != s.usingBackup ==>
                  turn.restartAt >= last + if t.usingBackup then INPUT_FAILOVER_DELAY else PRIMARY_RETRY_INTERVAL)
  {
    RestartIsAllOrNothing(s, cfg.backup, true, turn.build, turn.restartAt);
    RestartIsAllOrNothing(s.(lastRetry := turn.now), cfg.primary, false, turn.build, turn.restartAt);
    hide Restart;
  }

  lemma {:induction false} MessageDwells(cfg: Config, s: State, turn: Turn, last: nat)
    requires TimersSince(s, last, turn.restartAt) && turn.restartAt <= turn.loopAt
    ensures var t := HandleMessage(cfg, s, turn);
            t.usingBackup == s.usingBackup && TimersSince(t, last, turn.loopAt)
  {
    RestartIsAllOrNothing(s, s.activeUri, true, turn.loopBuild, turn.loopAt);
    hide Restart;
  }

  lemma {:induction false} TurnDwells(cfg: Config, s: State, turn: Turn, time: nat, last: nat)
    requires Consistent(cfg, s) && TimersSince(s, last, time)
    requires time <= turn.now <= turn.restartAt <= turn.loopAt
    ensures var t := TakeTurn(cfg, s, turn);
            && TimersSince(t, if t.usingBackup != s.usingBackup then turn.restartAt else last, turn.loopAt)
            && (t.usingBackup != s.usingBackup ==>
                  turn.restartAt >= last + if t.usingBackup then INPUT_FAILOVER_DELAY else PRIMARY_RETRY_INTERVAL)
  {
    if !s.ended {
      var noted := NoteActivity(s, turn);
      assert Consistent(cfg, noted) && TimersSince(noted, last, turn.now) && noted.usingBackup == s.usingBackup;
      hide SwitchInput, HandleMessage, NoteActivity, Consistent, TimersSince;
      SwitchDwells(cfg, noted, turn, last);
      var switched := SwitchInput(cfg, noted, turn);
      MessageDwells(cfg, switched, turn, if switched.usingBackup != s.usingBackup then turn.restartAt else last);
    }
  }

  lemma {:induction false} DwellsAppend(start: nat, log: seq<Switch>, next: Switch)
    requires AllDwell(start, log)
    requires next.toBackup == (|log| % 2 == 0)
    requires next.at >= LastSwitch(start, log) + if next.toBackup then INPUT_FAILOVER_DELAY else PRIMARY_RETRY_INTERVAL
    ensures AllDwell(start, log + [next])
  {
    forall i | 0 <= i < |log + [next]| ensures Dwells(start, log + [next], i) {
      if i < |log| { assert Dwells(start, log, i); }
    }
  }

  /** What a turn adds to the log. */
  function SwitchOf(s: State, t: State, turn: Turn): seq<Switch> {
    if t.usingBackup != s.usingBackup then [Switch(turn.restartAt, t.usingBackup)] else []
  }

  lemma {:induction false} TurnKeepsDwellInvariant(cfg: Config, s: State, start: nat, log: seq<Switch>, turn: Turn,
                                                   time: nat)
    requires DwellInvariant(cfg, s, start, log, time)
    requires time <= turn.now <= turn.restartAt <= turn.loopAt
    ensures var t := TakeTurn(cfg, s, turn);
            DwellInvariant(cfg, t, start, log + SwitchOf(s, t, turn), turn.loopAt)
  {
    hide TakeTurn, Consistent, AllDwell, TimersSince;
    TurnKeepsConsistent(cfg, s, turn);
    TurnDwells(cfg, s, turn, time, LastSwitch(start, log));
    var t := TakeTurn(cfg, s, turn);
    if t.usingBackup != s.usingBackup {
      DwellsAppend(start, log, Switch(turn.restartAt, t.usingBackup));
    } else {
      assert log + [] == log;
    }
  }

  lemma {:induction false} RunDwells(cfg: Config, start: nat, turns: seq<Turn>)
    requires InOrder(start, turns)
    ensures DwellInvariant(cfg, Run(cfg, Initial(cfg, start), turns), start,
                           Switches(cfg, Initial(cfg, start), turns), EndTime(start, turns))
    decreases |turns|
  {
    var s0 := Initial(cfg, start);
    if turns != [] {
      var n := |turns| - 1;
      RunDwells(cfg, start, turns[..n]);
      hide TakeTurn, DwellInvariant;
      TurnKeepsDwellInvariant(cfg, Run(cfg, s0, turns[..n]), start, Switches(cfg, s0, turns[..n]), turns[n],
                              EndTime(start, turns[..n]));
    }
  }

  /** Every stay on backup lasts ten seconds at least and every stay on primary five, over every run,
      failed rebuilds, failed playback and backup file loops included. */
  lemma {:induction false} StaysAreLong(cfg: Config, start: nat, turns: seq<Turn>, i: nat)
    requires InOrder(start, turns)
    requires i < |Switches(cfg, Initial(cfg, start), turns)|
    ensures Dwells(start, Switches(cfg, Initial(cfg, start), turns), i)
  {
    RunDwells(cfg, start, turns);
  }

  lemma {:induction false} PairsTakeFifteenSeconds(start: nat, log: seq<Switch>, i: nat, pairs: nat)
    requires AllDwell(start, log)
    requires i + 2 * pairs < |log|
    ensures log[i + 2 * pairs].at >= log[i].at + 15 * SECOND * pairs
    decreases pairs
  {
    if pairs > 0 {
      PairsTakeFifteenSeconds(start, log, i, pairs - 1);
      assert Dwells(start, log, i + 2 * pairs) && Dwells(start, log, i + 2 * pairs - 1);
    }
  }

  lemma {:induction false} LaterSwitch(start: nat, log: seq<Switch>, i: nat, j: nat)
    requires AllDwell(start, log)
    requires i <= j < |log|
    ensures log[j].at >= log[i].at + 15 * SECOND * ((j - i) / 2)
  {
    var pairs := (j - i) / 2;
    PairsTakeFifteenSeconds(start, log, i, pairs);
    assert Dwells(start, log, j);
  }

  /** In any window of `seconds` seconds the source changes at most 2 * (seconds / 15) + 2 times:
      switches i to j all lie in such a window only if there are no more of them than that. */
  lemma {:induction false} SwitchRateIsLimited(cfg: Config, start: nat, turns: seq<Turn>, i: nat, j: nat, seconds: nat)
    requires InOrder(start, turns)
    requires i <= j < |Switches(cfg, Initial(cfg, start), turns)|
    requires var log := Switches(cfg, Initial(cfg, start), turns);
             log[j].at <= log[i].at + seconds * SECOND
    ensures j - i + 1 <= 2 * (seconds / 15) + 2
  {
    RunDwells(cfg, start, turns);
    hide Switches, Run, AllDwell, Consistent, TimersSince;
    LaterSwitch(start, Switches(cfg, Initial(cfg, start), turns), i, j);
    assert 15 * ((j - i) / 2) <= seconds;
  }

  /** The last activity is no earlier than any turn that met input. */
  ghost predicate InputBefore(cfg: Config, s0: State, turns: seq<Turn>, last: nat) {
    forall j :: 0 <= j < |turns| && MeetsInput(cfg, s0, turns, j) ==> turns[j].now <= last
  }

  /** Turn j finds more input than was there. */
  predicate MeetsInput(cfg: Config, s0: State, turns: seq<Turn>, j: nat)
    requires j < |turns|
  {
    turns[j].bytes != Run(cfg, s0, turns[..j]).bytesSeen
  }

  lemma {:induction false} SwitchMovesActivity(cfg: Config, s: State, turn: Turn)
    requires s.lastActivity <= turn.restartAt
    ensures s.lastActivity <= SwitchInput(cfg, s, turn).lastActivity <= turn.restartAt
  {
    RestartIsAllOrNothing(s, cfg.backup, true, turn.build, turn.restartAt);
    RestartIsAllOrNothing(s.(lastRetry := turn.now), cfg.primary, false, turn.build, turn.restartAt);
    hide Restart;
  }

  lemma {:induction false} MessageMovesActivity(cfg: Config, s: State, turn: Turn)
    requires s.lastActivity <= turn.loopAt
    ensures s.lastActivity <= HandleMessage(cfg, s, turn).lastActivity <= turn.loopAt
  {
    RestartIsAllOrNothing(s, s.activeUri, true, turn.loopBuild, turn.loopAt);
    hide Restart;
  }

  lemma {:induction false} TurnMovesActivity(cfg: Config, s: State, turn: Turn, time: nat)
    requires s.lastActivity <= time <= turn.now <= turn.restartAt <= turn.loopAt && !s.ended
    ensures var t := TakeTurn(cfg, s, turn);
            && s.lastActivity <= t.lastActivity <= turn.loopAt
            && (turn.bytes != s.bytesSeen ==> turn.now <= t.lastActivity)
  {
    hide SwitchInput, HandleMessage;
    var noted := NoteActivity(s, turn);
    SwitchMovesActivity(cfg, noted, turn);
    MessageMovesActivity(cfg, SwitchInput(cfg, noted, turn), turn);
  }

  lemma {:induction false} ActivityIsLatest(cfg: Config, start: nat, turns: seq<Turn>)
    requires InOrder(start, turns)
    ensures var t := Run(cfg, Initial(cfg, start), turns);
            && t.lastActivity <= EndTime(start, turns)
            && (!t.ended ==> InputBefore(cfg, Initial(cfg, start), turns, t.lastActivity))
    decreases |turns|
  {
    var s0 := Initial(cfg, start);
    if turns != [] {
      var n := |turns| - 1;
      ActivityIsLatest(cfg, start, turns[..n]);
      var before := Run(cfg, s0, turns[..n]);
      hide TakeTurn, Initial, InputBefore, MeetsInput;
      if before.ended {
        EndedTurn(cfg, before, turns[n]);
      } else {
        TurnMovesActivity(cfg, before, turns[n], EndTime(start, turns[..n]));
        InputBeforeGrows(cfg, s0, turns, before.lastActivity, Run(cfg, s0, turns).lastActivity);
      }
    }
  }

  lemma {:induction false} InputBeforeGrows(cfg: Config, s0: State, turns: seq<Turn>, last: nat, now: nat)
    requires turns != [] && InputBefore(cfg, s0, turns[..|turns| - 1], last) && last <= now
    requires turns[|turns| - 1].bytes != Run(cfg, s0, turns[..|turns| - 1]).bytesSeen ==> turns[|turns| - 1].now <= now
    ensures InputBefore(cfg, s0, turns, now)
  {
    hide Run;
    var n := |turns| - 1;
    forall j | 0 <= j < |turns| && MeetsInput(cfg, s0, turns, j) ensures turns[j].now <= now {
      if j < n {
        assert turns[..n][..j] == turns[..j];
        assert MeetsInput(cfg, s0, turns[..n], j);
      }
    }
  }

  lemma {:induction false} EndedTurn(cfg: Config, s: State, turn: Turn)
    requires s.ended
    ensures TakeTurn(cfg, s, turn) == s
  {
  }

  /** Over every run: a turn that fails over comes five seconds or more after every earlier turn that met
      input. */
  lemma {:induction false} FailsOverAfterSilence(cfg: Config, start: nat, turns: seq<Turn>, turn: Turn, j: nat)
    requires InOrder(start, turns) && j < |turns| && MeetsInput(cfg, Initial(cfg, start), turns, j)
    requires var s := Run(cfg, Initial(cfg, start), turns);
             !s.usingBackup && TakeTurn(cfg, s, turn).usingBackup
    ensures turn.now >= turns[j].now + 5_000_000_000
  {
    var s := Run(cfg, Initial(cfg, start), turns);
    AlwaysConsistent(cfg, start, turns);
    ActivityIsLatest(cfg, start, turns);
    hide Run, Initial;
    if s.ended {
      EndedTurn(cfg, s, turn);
    } else {
      TurnKeepsConsistent(cfg, s, turn);
      hide TakeTurn;
      FailsOverIff(cfg, s, turn);
      assert turns[j].now <= s.lastActivity;
    }
  }

  // Automatic return to the primary

  /** When the backup file was last restarted from its end. */
  function LastLoop(since: nat, turns: seq<Turn>): nat {
    if turns == [] then since
    else
      var n := |turns| - 1;
      if turns[n].message == EndOfStream then turns[n].loopAt else LastLoop(since, turns[..n])
  }

  /** The bus reports no error, and every restart of a finished backup file plays. */
  predicate PlaysOn(turns: seq<Turn>) {
    forall i :: 0 <= i < |turns| ==>
      turns[i].message != ErrorMessage && (turns[i].message == EndOfStream ==> turns[i].loopBuild == Plays)
  }

  /** Every turn starts less than ten seconds after the last restart of the file. */
  predicate LoopsTooSoon(since: nat, turns: seq<Turn>) {
    turns != [] ==>
      var n := |turns| - 1;
      LoopsTooSoon(since, turns[..n]) && turns[n].now < LastLoop(since, turns[..n]) + PRIMARY_RETRY_INTERVAL
  }

  /** On backup, and the next retry is timed from the last restart of the file. */
  predicate OnLoop(cfg: Config, s: State, since: nat, turns: seq<Turn>) {
    Consistent(cfg, s) && s.usingBackup && !s.ended && s.lastRetry == LastLoop(since, turns)
  }

  lemma {:induction false} LoopTurn(cfg: Config, s: State, since: nat, turns: seq<Turn>, turn: Turn)
    requires OnLoop(cfg, s, since, turns) && !RetryDue(s, turn.now)
    requires cfg.backupFileLoop && cfg.backupIsFile && PlaysOn([turn])
    ensures OnLoop(cfg, TakeTurn(cfg, s, turn), since, turns + [turn])
  {
    assert (turns + [turn])[..|turns|] == turns;
    assert [turn][0] == turn;
    hide LastLoop;
  }

  /** A looped backup file that ends every time less than ten seconds after it was started keeps the
      machine on backup for good, however available the primary is and whatever turns come while the
      file plays: every loop restart puts the next retry off again. */
  lemma {:induction false} ShortFileLoopNeverReturns(cfg: Config, s: State, turns: seq<Turn>)
    requires Consistent(cfg, s) && s.usingBackup && !s.ended
    requires cfg.backupFileLoop && cfg.backupIsFile
    requires PlaysOn(turns) && LoopsTooSoon(s.lastRetry, turns)
    ensures OnLoop(cfg, Run(cfg, s, turns), s.lastRetry, turns)
    ensures Switches(cfg, s, turns) == []
    decreases |turns|
  {
    if turns != [] {
      var n := |turns| - 1;
      ShortFileLoopNeverReturns(cfg, s, turns[..n]);
      hide TakeTurn, Consistent, LastLoop;
      LoopTurn(cfg, Run(cfg, s, turns[..n]), s.lastRetry, turns[..n], turns[n]);
      assert turns[..n] + [turns[n]] == turns;
    }
  }

  /** The primary is there whenever it is looked for. */
  predicate PrimaryAvailable(turns: seq<Turn>) {
    forall i :: 0 <= i < |turns| ==> turns[i].probeFinds && turns[i].build != BuildFails
  }

  /** When the automatic return happens: with a looped backup file and a primary that is available all
      along, the machine leaves the backup if and only if some turn starts ten seconds or more after
      the last restart of the file. */
  lemma {:induction false} StaysOnBackupIff(cfg: Config, s: State, turns: seq<Turn>)
    requires Consistent(cfg, s) && s.usingBackup && !s.ended
    requires cfg.backupFileLoop && cfg.backupIsFile && cfg.primary != ""
    requires PlaysOn(turns) && PrimaryAvailable(turns)
    ensures Switches(cfg, s, turns) == [] <==> LoopsTooSoon(s.lastRetry, turns)
    decreases |turns|
  {
    if turns != [] {
      var n := |turns| - 1;
      StaysOnBackupIff(cfg, s, turns[..n]);
      if LoopsTooSoon(s.lastRetry, turns) {
        ShortFileLoopNeverReturns(cfg, s, turns);
      } else if Switches(cfg, s, turns[..n]) == [] {
        ShortFileLoopNeverReturns(cfg, s, turns[..n]);
        hide TakeTurn, Consistent, LastLoop;
        ReturnsIff(cfg, Run(cfg, s, turns[..n]), turns[n]);
      }
    }
  }

  const BUS_WAIT := 500_000_000

  /** A turn while a backup file of five seconds plays: the bus is polled every 500 ms and reports the
      end of the file every tenth time, and nothing in between. The primary is always available. */
  function FilePoll(since: nat, index: nat): Turn {
    var at, later := since + BUS_WAIT * index, since + BUS_WAIT * (index + 1);
    Turn(at, index, true, Plays, at, if index % 10 == 9 then EndOfStream else NoMessage, Plays, later)
  }

  function FiveSecondFile(since: nat, count: nat): (turns: seq<Turn>)
    ensures |turns| == count && forall i :: 0 <= i < count ==> turns[i] == FilePoll(since, i)
  {
    seq(count, i requires 0 <= i < count => FilePoll(since, i))
  }

  lemma {:induction false} OneTurnMore(since: nat, before: seq<Turn>, turn: Turn)
    ensures var turns := before + [turn];
            && (InOrder(since, turns) <==>
                  InOrder(since, before) && EndTime(since, before) <= turn.now <= turn.restartAt <= turn.loopAt)
            && EndTime(since, turns) == turn.loopAt
            && (LoopsTooSoon(since, turns) <==>
                  LoopsTooSoon(since, before) && turn.now < LastLoop(since, before) + PRIMARY_RETRY_INTERVAL)
            && LastLoop(since, turns) == if turn.message == EndOfStream then turn.loopAt else LastLoop(since, before)
  {
    assert (before + [turn])[..|before|] == before;
  }

  /** Ten polls make a file; less than ten seconds lie between a poll and the last whole file. */
  lemma {:induction false} PollsPerFile(index: nat)
    ensures index % 10 == 9 ==>
      (index + 1) / 10 == index / 10 + 1 && BUS_WAIT * (index + 1) == 5 * SECOND * ((index + 1) / 10)
    ensures index % 10 != 9 ==> (index + 1) / 10 == index / 10
    ensures BUS_WAIT * index < 5 * SECOND * (index / 10) + PRIMARY_RETRY_INTERVAL
  {
    var files, rest := index / 10, index % 10;
    assert index == 10 * files + rest;
  }

  lemma {:induction false} FileLoopsTooSoon(since: nat, count: nat)
    ensures var turns := FiveSecondFile(since, count);
            && InOrder(since, turns) && EndTime(since, turns) == since + BUS_WAIT * count
            && LoopsTooSoon(since, turns) && LastLoop(since, turns) == since + 5 * SECOND * (count / 10)
    decreases count
  {
    if count > 0 {
      var before, turn := FiveSecondFile(since, count - 1), FilePoll(since, count - 1);
      FileLoopsTooSoon(since, count - 1);
      PollsPerFile(count - 1);
      assert FiveSecondFile(since, count) == before + [turn];
      hide FiveSecondFile, InOrder, EndTime, LoopsTooSoon, LastLoop;
      OneTurnMore(since, before, turn);
    }
  }

  /** However long it goes on, such a file is never left for the available primary. */
  lemma {:induction false} AvailablePrimaryIsNeverUsed(cfg: Config, s: State, count: nat)
    requires Consistent(cfg, s) && s.usingBackup && !s.ended
    requires cfg.backupFileLoop && cfg.backupIsFile && cfg.primary != ""
    ensures Run(cfg, s, FiveSecondFile(s.lastRetry, count)).usingBackup
    ensures Switches(cfg, s, FiveSecondFile(s.lastRetry, count)) == []
  {
    FileLoopsTooSoon(s.lastRetry, count);
    ShortFileLoopNeverReturns(cfg, s, FiveSecondFile(s.lastRetry, count));
  }

  /** The monitor as the loop over mutable stream state it is. */
  class StreamMonitor {
    const cfg: Config
    var usingBackup: bool
    var backupAttempted: bool
    var primaryRetryPending: bool
    var inputLossNotified: bool
    var active: bool
    var activeInputUri: string
    var configInputUri: string
    var lastInputBytesSeen: nat
    var lastInputActivity: nat
    var lastPrimaryRetry: nat
    var ended: bool

    function View(): State
      reads this
    {
      State(usingBackup, backupAttempted, primaryRetryPending, inputLossNotified, active, activeInputUri,
            configInputUri, lastInputBytesSeen, lastInputActivity, lastPrimaryRetry, ended)
    }

    constructor (cfg: Config, start: nat)
      ensures this.cfg == cfg && View() == Initial(cfg, start)
    {
      this.cfg := cfg;
      usingBackup, backupAttempted, primaryRetryPending, inputLossNotified := false, false, false, false;
      active, ended := true, false;
      activeInputUri := if cfg.testPattern then TEST_PATTERN_URI else cfg.primary;
      configInputUri := cfg.primary;
      lastInputBytesSeen, lastInputActivity, lastPrimaryRetry := 0, start, start;
    }

    method RestartPipelineWithInput(inputUri: string, useBackup: bool, build: Build, at: nat) returns (ok: bool)
      modifies this
      ensures (View(), ok) == Restart(old(View()), inputUri, useBackup, build, at)
    {
      if inputUri == "" { return false; }
      configInputUri := inputUri;
      if build == BuildFails { return false; }
      usingBackup := useBackup;
      backupAttempted := useBackup;
      primaryRetryPending := !useBackup;
      inputLossNotified := false;
      activeInputUri := inputUri;
      active := true;
      lastInputBytesSeen := 0;
      lastInputActivity := at;
      lastPrimaryRetry := lastInputActivity;
      if build == PlaybackFails {
        active := false;
      }
      return build != PlaybackFails;
    }

    method ObserveInput(turn: Turn)
      modifies this
      ensures View() == NoteActivity(old(View()), turn)
    {
      if turn.bytes != lastInputBytesSeen {
        lastInputBytesSeen := turn.bytes;
        lastInputActivity := turn.now;
        inputLossNotified := false;
        if primaryRetryPending && !usingBackup {
          primaryRetryPending := false;
          backupAttempted := false;
        }
      }
    }

    method CheckFailover(turn: Turn)
      modifies this
      ensures View() == SwitchInput(cfg, old(View()), turn)
    {
      if cfg.testPattern { return; }
      var inputTimedOut := turn.now >= lastInputActivity + INPUT_FAILOVER_DELAY;
      if inputTimedOut && !usingBackup && cfg.backup != "" {
        var ok := RestartPipelineWithInput(cfg.backup, true, turn.build, turn.restartAt);
        inputLossNotified := !ok;
      } else if usingBackup && turn.now >= lastPrimaryRetry + PRIMARY_RETRY_INTERVAL {
        lastPrimaryRetry := turn.now;
        if cfg.primary != "" && turn.probeFinds {
          var ok := RestartPipelineWithInput(cfg.primary, false, turn.build, turn.restartAt);
          if ok {
            inputLossNotified := false;
          }
        }
      // The branch the source has here, for a primary still without data after a return, is never
      // reached: its guard implies the first one. `SwitchInput` keeps it.
      } else if inputTimedOut && !usingBackup && cfg.backup == "" && !inputLossNotified {
        inputLossNotified := true;
      }
    }

    method ReadBus(turn: Turn)
      modifies this
      ensures View() == HandleMessage(cfg, old(View()), turn)
    {
      match turn.message {
        case NoMessage =>
        case OtherMessage =>
        case ErrorMessage =>
          active := false;
          ended := true;
        case EndOfStream =>
          if usingBackup && cfg.backupFileLoop && cfg.backupIsFile {
            var ok := RestartPipelineWithInput(activeInputUri, true, turn.loopBuild, turn.loopAt);
            active := ok;
            ended := !ok || ended;
          } else {
            active := false;
            ended := true;
          }
      }
    }

    /** The loop, over any sequence of turns; it stops taking turns once it has ended. */
    method MonitorBus(turns: seq<Turn>)
      modifies this
      ensures View() == Run(cfg, old(View()), turns)
    {
      ghost var start := View();
      var i := 0;
      assert turns[..0] == [];
      while i < |turns|
        invariant i <= |turns|
        invariant View() == Run(cfg, start, turns[..i])
      {
        assert turns[..i + 1][..i] == turns[..i];
        if !ended {
          ObserveInput(turns[i]);
          CheckFailover(turns[i]);
          ReadBus(turns[i]);
        }
        i := i + 1;
      }
      assert turns[..i] == turns;
    }
  }
}
