/** The session protocol of one agent: prompts and settles (controller/agent.go),
    death, pause and Tier-2 revive with concurrent re-arm (controller/revive.go),
    and rebuild from the log (controller/registry.go), as one step relation over
    goroutines that interleave between mutex-protected bodies. Every store append
    may be refused, and the controller may restart at any point. */
module Protocol {
  import opened Wrappers
  import opened Events
  import opened Session
  import opened Revive

  /** The revive knobs, and which environment behaviours are possible: log reads
      that fail, a re-arm accepted before the startup revive has read the ledger,
      a daemon that accepts a prompt but whose reply is lost, a restart while the log
      shows a ready agent that is not, and a revive whose status write lands after a
      prompt that was accepted since its agent.revived. */
  datatype Config = Config(
    reviveMax: int,
    cooldown: nat,
    readFaults: bool,
    earlyResume: bool,
    lostAcks: bool,
    blindRestarts: bool,
    staleWrites: bool)

  /** Where a goroutine of the agent stands. */
  datatype Phase =
    | Provisioning // Create, before its agent.provisioned append
    | Launching    // Create, before it starts the pull loop and registers the agent
    | Starting     // Create, before its agent.started transition
    | StartedDue   // Create, agent.started is appended; the status write is due
    | Pulling      // the pull loop, between records
    | Settling     // onPiRecord flipped the status; the settle append is due
    | Pausing      // agent.paused is appended; the liveness failure is due
    | WantAttempt  // in consumeReviveAttempt without the revive lock
    | Cleared      // holds the lock; budget and cooldown allowed an attempt
    | Holding      // the attempt is on the ledger; waiting for the replacement
    | Completing   // holds the lock; took the pending flag in a paused session
    | Closing      // holds the lock; agent.revived is appended
    | ReadyDue     // released the lock; the status write is due
    | Startup      // reviveFromPaused, before its ledger read
    | Rearmed      // Resume, holds the lock; agent.resumed is appended
    | Redriven     // Resume, released the lock; the hold is to be started
    | Deleting     // deleteOne flipped the status; the terminal append is due
    | Done

  /** What the daemon and the operator can see of a turn. */
  datatype Mark = PromptAccepted | SettleObserved | ReviveDone

  datatype Ack = Acked | Rejected | LostAck

  /** marks is history; everything else is what the program keeps. */
  datatype Sys = Sys(
    log: seq<Kind>,
    session: SessionState,
    status: AgentStatus,
    pending: bool,
    lock: Option<nat>,
    threads: seq<Phase>,
    now: nat,
    closed: bool,
    marks: seq<Mark>)

  /** An agent whose sandbox is up and whose log is empty. */
  const INIT: Sys := Sys([], SessionProvision, StatusCreating, false, None, [Provisioning], 1, false, [])

  datatype Step =
    | Provision(t: nat, ok: bool)
    | Launch(t: nat)
    | StartSession(t: nat, ok: bool)
    | MarkStarted(t: nat)
    | Tick(d: nat)
    | Noise(kind: Kind, ok: bool)
    | Prompt(ack: Ack, ok: bool)
    | SeeSettled(t: nat)
    | SettleTurn(t: nat, ok: bool)
    | FailAgent(ok: bool)
    | Pause(t: nat, ok: bool)
    | PauseFail(t: nat, ok: bool)
    | ReadLedger(t: nat, readable: bool)
    | Consume(t: nat, ok: bool)
    | HoldUp(t: nat)
    | HoldDown(t: nat, ok: bool)
    | TakePending(t: nat)
    | ReviveEdge(t: nat, ok: bool)
    | CloseTurn(t: nat, ok: bool)
    | MarkReady(t: nat)
    | StartupRead(t: nat, readable: bool)
    | Resume(readable: bool, ok: bool)
    | Redeem(t: nat, ok: bool)
    | Redrive(t: nat)
    | Stop(t: nat)
    | Delete
    | DeleteAppend(t: nat, ok: bool)
    | Restart

  // ---- steps ----

  predicate At(s: Sys, t: nat, ph: Phase) {
    t < |s.threads| && s.threads[t] == ph
  }

  function Move(s: Sys, t: nat, ph: Phase): Sys
    requires t < |s.threads|
  {
    s.(threads := s.threads[t := ph])
  }

  /** A store append: refused, or swallowed by a closed hub, or committed. */
  predicate Commits(s: Sys, ok: bool) {
    ok && !s.closed
  }

  function Put(s: Sys, k: Kind, ok: bool): (r: Sys)
    ensures r == s.(log := r.log)
  {
    if Commits(s, ok) then s.(log := s.log + [k]) else s
  }

  predicate Takes(s: Sys, next: SessionState, ok: bool) {
    Legal(s.session, next) && Commits(s, ok)
  }

  /** SessionFSM.Transition. */
  function Transit(s: Sys, next: SessionState, k: Kind, ok: bool): (r: Sys)
    ensures r == s.(log := r.log, session := r.session)
  {
    if Takes(s, next, ok) then s.(log := s.log + [k], session := next) else s
  }

  /** AgentManager.fail. */
  function Fail(s: Sys, ok: bool): (r: Sys)
    ensures r == s.(log := r.log, status := r.status)
  {
    if s.status == StatusFailed || s.status == StatusTerminated then s
    else Put(s.(status := StatusFailed), Failed, ok)
  }

  /** reviveLedgerOf. */
  function LedgerOf(s: Sys, readable: bool): Ledger {
    if readable then Fold(s.log) else UNREADABLE
  }

  predicate MayAttempt(cfg: Config, s: Sys, l: Ledger) {
    Remaining(l, cfg.reviveMax) > 0 && CooldownRemaining(l, s.now, cfg.cooldown) == 0
  }

  /** Events no projection reads: verbatim records, assessments, daemon boots. */
  predicate Quiet(k: Kind) {
    k.Record? || k.Assessed? || k.DaemonBoot?
  }

  predicate Unsettled(marks: seq<Mark>) {
    marks != [] && marks[|marks| - 1].PromptAccepted?
  }

  /** The log replays to a ready agent although the agent is not. */
  predicate TurnHidden(s: Sys) {
    s.status != StatusReady && ReplayStatus(s.log) == StatusReady
  }

  predicate AcceptsPrompt(s: Sys) {
    (s.session == SessionReady || s.session == SessionIdle) && s.status == StatusReady
  }

  /** Create has not started the pumps and registered the agent yet. */
  predicate Unregistered(s: Sys) {
    Provisioning in s.threads || Launching in s.threads
  }

  /** The steps of Create, those that read and move the ledger, and those that complete a
      revive; the others are turns, failures, deletes and the world. */
  predicate CreateStep(step: Step) {
    step.Provision? || step.Launch? || step.StartSession? || step.MarkStarted?
  }

  predicate LedgerStep(step: Step) {
    step.ReadLedger? || step.Consume? || step.HoldUp? || step.HoldDown? || step.StartupRead? || step.Resume?
    || step.Redeem? || step.Redrive?
  }

  predicate CompleteStep(step: Step) {
    step.TakePending? || step.ReviveEdge? || step.CloseTurn? || step.MarkReady?
  }

  predicate EnabledCreate(cfg: Config, s: Sys, step: Step) {
    match step
    case Provision(t, _) => At(s, t, Provisioning)
    case Launch(t) => At(s, t, Launching)
    case StartSession(t, _) => At(s, t, Starting)
    case MarkStarted(t) => At(s, t, StartedDue)
    case _ => false
  }

  predicate EnabledLedger(cfg: Config, s: Sys, step: Step) {
    match step
    case ReadLedger(t, readable) => At(s, t, WantAttempt) && s.lock.None? && (!readable ==> cfg.readFaults)
    case Consume(t, _) => At(s, t, Cleared)
    case HoldUp(t) => At(s, t, Holding)
    case HoldDown(t, _) => At(s, t, Holding)
    case StartupRead(t, readable) => At(s, t, Startup) && (!readable ==> cfg.readFaults)
    case Resume(readable, _) =>
      && s.lock.None? && s.session == SessionPaused && (!readable ==> cfg.readFaults)
      && !LedgerOf(s, readable).open && (Startup in s.threads ==> cfg.earlyResume)
    case Redeem(t, _) => At(s, t, Rearmed)
    case Redrive(t) => At(s, t, Redriven)
    case _ => false
  }

  predicate EnabledComplete(cfg: Config, s: Sys, step: Step) {
    match step
    case TakePending(t) => At(s, t, Pulling) && s.lock.None?
    case ReviveEdge(t, _) => At(s, t, Completing)
    case CloseTurn(t, _) => At(s, t, Closing)
    case MarkReady(t) => At(s, t, ReadyDue) && (Unsettled(s.marks) ==> cfg.staleWrites)
    case _ => false
  }

  predicate EnabledTurn(cfg: Config, s: Sys, step: Step) {
    match step
    case Tick(_) => true
    case Noise(k, _) => Quiet(k) && !Unregistered(s)
    case Prompt(ack, _) => AcceptsPrompt(s) && (ack.LostAck? ==> cfg.lostAcks)
    case SeeSettled(t) => At(s, t, Pulling) && s.status == StatusWorking
    case SettleTurn(t, _) => At(s, t, Settling)
    case FailAgent(_) => !Unregistered(s)
    case Pause(t, _) => At(s, t, Pulling) && s.session == SessionRunning
    case PauseFail(t, _) => At(s, t, Pausing)
    case Stop(t) => At(s, t, Launching) || At(s, t, Pulling) || At(s, t, WantAttempt)
    case Delete => !Unregistered(s)
    case DeleteAppend(t, _) => At(s, t, Deleting)
    case Restart => TurnHidden(s) ==> cfg.blindRestarts
    case _ => false
  }

  predicate Enabled(cfg: Config, s: Sys, step: Step) {
    if CreateStep(step) then EnabledCreate(cfg, s, step)
    else if LedgerStep(step) then EnabledLedger(cfg, s, step)
    else if CompleteStep(step) then EnabledComplete(cfg, s, step)
    else EnabledTurn(cfg, s, step)
  }

  function DoCreate(cfg: Config, s: Sys, step: Step): Sys
    requires EnabledCreate(cfg, s, step)
  {
    match step
    case Provision(t, ok) => Put(Move(s, t, Launching), Provisioned, ok)
    case Launch(t) => s.(threads := s.threads[t := Starting] + [Pulling])
    case StartSession(t, ok) =>
      if Takes(s, SessionReady, ok)
      then Transit(Move(s, t, StartedDue), SessionReady, Started, ok)
      else Move(s, t, Done).(status := StatusTerminated, closed := true)
    case MarkStarted(t) => Move(s, t, Done).(status := StatusReady)
    case _ => s
  }

  function DoLedger(cfg: Config, s: Sys, step: Step): Sys
    requires EnabledLedger(cfg, s, step)
  {
    match step
    case ReadLedger(t, readable) =>
      var l := LedgerOf(s, readable);
      if Remaining(l, cfg.reviveMax) == 0 then Move(s, t, Done)
      else if CooldownRemaining(l, s.now, cfg.cooldown) > 0 then s
      else Move(s, t, Cleared).(lock := Some(t))
    case Consume(t, ok) =>
      Put(Move(s, t, if Commits(s, ok) then Holding else Done).(lock := None), ReviveConsumed(Some(s.now)), ok)
    case HoldUp(t) => Move(s, t, Pulling).(pending := true)
    case HoldDown(t, ok) => Put(Move(s, t, Done), ReviveAbandoned, ok)
    case StartupRead(t, readable) => Move(s, t, if LedgerOf(s, readable).open then Holding else WantAttempt)
    case Resume(readable, ok) =>
      if Commits(s, ok)
      then s.(log := s.log + [Resumed], threads := s.threads + [Rearmed], lock := Some(|s.threads|))
      else s
    case Redeem(t, ok) =>
      Put(Move(s, t, if Commits(s, ok) then Redriven else Done).(lock := None), ReviveConsumed(Some(s.now)), ok)
    case Redrive(t) => Move(s, t, Holding)
    case _ => s
  }

  function DoComplete(cfg: Config, s: Sys, step: Step): Sys
    requires EnabledComplete(cfg, s, step)
  {
    match step
    case TakePending(t) =>
      if s.pending && s.session == SessionPaused
      then Move(s, t, Completing).(pending := false, lock := Some(t))
      else s.(pending := false)
    case ReviveEdge(t, ok) =>
      if Takes(s, SessionRunning, ok)
      then Transit(Move(s, t, Closing), SessionRunning, Revived, ok).(marks := s.marks + [ReviveDone])
      else Move(s, t, Pulling).(lock := None)
    case CloseTurn(t, ok) => Transit(Move(s, t, ReadyDue).(lock := None), SessionIdle, Settled, ok)
    case MarkReady(t) => Move(s, t, Pulling).(status := StatusReady)
    case _ => s
  }

  function DoTurn(cfg: Config, s: Sys, step: Step): Sys
    requires EnabledTurn(cfg, s, step)
  {
    match step
    case Tick(d) => s.(now := s.now + d)
    case Noise(k, ok) => Put(s, k, ok)
    case Prompt(ack, ok) =>
      if ack.Rejected? then s
      else
        var s1 := s.(marks := s.marks + [PromptAccepted]);
        if ack.LostAck? then s1 else Transit(s1.(status := StatusWorking), SessionRunning, TurnStarted, ok)
    case SeeSettled(t) => Move(s, t, Settling).(status := StatusReady, marks := s.marks + [SettleObserved])
    case SettleTurn(t, ok) => Transit(Move(s, t, Pulling), SessionIdle, Settled, ok)
    case FailAgent(ok) => Fail(s, ok)
    case Pause(t, ok) =>
      Transit(Move(s, t, if Takes(s, SessionPaused, ok) then Pausing else Done), SessionPaused, Paused, ok)
    case PauseFail(t, ok) => Fail(Move(s, t, WantAttempt), ok)
    case Stop(t) => Move(s, t, Done)
    case Delete => s.(status := StatusTerminated, threads := s.threads + [Deleting])
    case DeleteAppend(t, ok) => Transit(Move(s, t, Done), SessionTerminated, Terminated, ok).(closed := true)
    case Restart => Rebuilt(s)
    case _ => s
  }

  function Do(cfg: Config, s: Sys, step: Step): Sys
    requires Enabled(cfg, s, step)
  {
    if CreateStep(step) then DoCreate(cfg, s, step)
    else if LedgerStep(step) then DoLedger(cfg, s, step)
    else if CompleteStep(step) then DoComplete(cfg, s, step)
    else DoTurn(cfg, s, step)
  }

  /** RebuildFromLog: everything in memory is derived from the log again. */
  function Rebuilt(s: Sys): Sys {
    var session := Replay(s.log);
    s.(session := session, status := ReplayStatus(s.log), pending := false, lock := None, closed := false,
       threads := if session == SessionTerminated then []
                  else if session == SessionPaused then [Startup] else [Pulling])
  }

  // ---- runs ----

  datatype Run = Run(states: seq<Sys>, steps: seq<Step>)

  ghost predicate IsRun(cfg: Config, r: Run) {
    && |r.states| == |r.steps| + 1
    && r.states[0] == INIT
    && forall i :: 0 <= i < |r.steps| ==>
         Enabled(cfg, r.states[i], r.steps[i]) && r.states[i + 1] == Do(cfg, r.states[i], r.steps[i])
  }

  function Last(r: Run): Sys
    requires r.states != []
  {
    r.states[|r.states| - 1]
  }

  ghost predicate Reachable(cfg: Config, s: Sys) {
    exists r :: IsRun(cfg, r) && Last(r) == s
  }

  lemma InitReachable(cfg: Config)
    ensures Reachable(cfg, INIT)
  {
    var r := Run([INIT], []);
    assert IsRun(cfg, r) && Last(r) == INIT;
  }

  lemma StepReachable(cfg: Config, s: Sys, step: Step)
    requires Reachable(cfg, s) && Enabled(cfg, s, step)
    ensures Reachable(cfg, Do(cfg, s, step))
  {
    hide Do, Enabled;
    var r :| IsRun(cfg, r) && Last(r) == s;
    var r' := Run(r.states + [Do(cfg, s, step)], r.steps + [step]);
    assert IsRun(cfg, r') && Last(r') == Do(cfg, s, step);
  }

  // ---- what a step appends ----

  /** The steps of one goroutine, and those that take or release the ledger lock. */
  predicate OfThread(step: Step) {
    !(step.Launch? || step.Tick? || step.Noise? || step.Prompt? || step.FailAgent? || step.Resume? || step.Delete?
      || step.Restart?)
  }

  /** The log grew by this event, which is legal where it is appended if it is the event
      of a transition, and is then the live state. */
  predicate Adds(s: Sys, s': Sys, k: Kind) {
    && s'.log == s.log + [k]
    && !k.Reviving?
    && (Moving(k) ==> Legal(s.session, Target(k).value))
    && s'.session == (if Moving(k) then Target(k).value else s.session)
  }

  /** The session events that transitions append; agent.provisioned is not one. */
  predicate Moving(k: Kind) {
    Target(k).Some? && !k.Provisioned?
  }

  predicate AddsNothing(s: Sys, s': Sys) {
    s'.log == s.log && s'.session == s.session
  }

  /** The event a step appends, if any: at most one per step. */
  function Event(cfg: Config, s: Sys, step: Step): Option<Kind> {
    match step
    case Provision(_, ok) => if Commits(s, ok) then Some(Provisioned) else None
    case StartSession(_, ok) => if Takes(s, SessionReady, ok) then Some(Started) else None
    case Noise(k, ok) => if Commits(s, ok) then Some(k) else None
    case Prompt(ack, ok) => if ack.Acked? && Takes(s, SessionRunning, ok) then Some(TurnStarted) else None
    case SettleTurn(_, ok) => if Takes(s, SessionIdle, ok) then Some(Settled) else None
    case FailAgent(ok) => if Commits(s, ok) && !Down(s) then Some(Failed) else None
    case Pause(_, ok) => if Takes(s, SessionPaused, ok) then Some(Paused) else None
    case PauseFail(_, ok) => if Commits(s, ok) && !Down(s) then Some(Failed) else None
    case Consume(_, ok) => if Commits(s, ok) then Some(ReviveConsumed(Some(s.now))) else None
    case HoldDown(_, ok) => if Commits(s, ok) then Some(ReviveAbandoned) else None
    case ReviveEdge(_, ok) => if Takes(s, SessionRunning, ok) then Some(Revived) else None
    case CloseTurn(_, ok) => if Takes(s, SessionIdle, ok) then Some(Settled) else None
    case Resume(_, ok) => if Commits(s, ok) then Some(Resumed) else None
    case Redeem(_, ok) => if Commits(s, ok) then Some(ReviveConsumed(Some(s.now))) else None
    case DeleteAppend(_, ok) => if Takes(s, SessionTerminated, ok) then Some(Terminated) else None
    case _ => None
  }

  predicate Down(s: Sys) {
    s.status == StatusFailed || s.status == StatusTerminated
  }

  predicate Recorded(s: Sys, step: Step, k: Option<Kind>, s': Sys) {
    && (k.Some? ==> Adds(s, s', k.value))
    && (k.None? && !step.Restart? ==> AddsNothing(s, s'))
    && (step.Restart? ==> k.None? && s'.log == s.log)
  }

  lemma StepRecordsOnCreate(cfg: Config, s: Sys, step: Step)
    requires Enabled(cfg, s, step) && CreateStep(step)
    ensures Recorded(s, step, Event(cfg, s, step), Do(cfg, s, step))
  {
    hide EnabledLedger, DoLedger, EnabledComplete, DoComplete, EnabledTurn, DoTurn, LedgerOf, Remaining,
         CooldownRemaining, Replay, ReplayStatus, Fail, Rebuilt;
  }

  lemma StepRecordsOnLedger(cfg: Config, s: Sys, step: Step)
    requires Enabled(cfg, s, step) && LedgerStep(step)
    ensures Recorded(s, step, Event(cfg, s, step), Do(cfg, s, step))
  {
    hide EnabledCreate, DoCreate, EnabledComplete, DoComplete, EnabledTurn, DoTurn, LedgerOf, Remaining,
         CooldownRemaining, Replay, ReplayStatus, Takes, Transit, Fail, Rebuilt;
  }

  lemma StepRecordsOnComplete(cfg: Config, s: Sys, step: Step)
    requires Enabled(cfg, s, step) && CompleteStep(step)
    ensures Recorded(s, step, Event(cfg, s, step), Do(cfg, s, step))
  {
    hide EnabledCreate, DoCreate, EnabledLedger, DoLedger, EnabledTurn, DoTurn, LedgerOf, Remaining,
         CooldownRemaining, Replay, ReplayStatus, Fail, Rebuilt;
  }

  lemma StepRecordsOnTurn(cfg: Config, s: Sys, step: Step)
    requires Enabled(cfg, s, step) && !CreateStep(step) && !LedgerStep(step) && !CompleteStep(step)
    ensures Recorded(s, step, Event(cfg, s, step), Do(cfg, s, step))
  {
    hide EnabledCreate, DoCreate, EnabledLedger, DoLedger, EnabledComplete, DoComplete, LedgerOf, Remaining,
         CooldownRemaining, Replay, ReplayStatus,
         TurnHidden, Unregistered, AcceptsPrompt;
  }

  lemma StepRecords(cfg: Config, s: Sys, step: Step)
    requires Enabled(cfg, s, step)
    ensures Recorded(s, step, Event(cfg, s, step), Do(cfg, s, step))
  {
    hide Do, Enabled, CreateStep, LedgerStep, CompleteStep, Event, Recorded;
    if CreateStep(step) {
      StepRecordsOnCreate(cfg, s, step);
    } else if LedgerStep(step) {
      StepRecordsOnLedger(cfg, s, step);
    } else if CompleteStep(step) {
      StepRecordsOnComplete(cfg, s, step);
    } else {
      StepRecordsOnTurn(cfg, s, step);
    }
  }

  /** A step appends exactly the event it is said to. */
  lemma StepAppends(cfg: Config, s: Sys, step: Step)
    requires Enabled(cfg, s, step)
    ensures Event(cfg, s, step).Some? ==> Adds(s, Do(cfg, s, step), Event(cfg, s, step).value)
    ensures Event(cfg, s, step).None? && !step.Restart? ==> AddsNothing(s, Do(cfg, s, step))
    ensures step.Restart? ==> Event(cfg, s, step).None? && Do(cfg, s, step).log == s.log
  {
    hide Do, Enabled, Event, Adds, AddsNothing;
    StepRecords(cfg, s, step);
  }

  /** A prompt the daemon accepted. */
  predicate Accepted(step: Step) {
    step.Prompt? && !step.ack.Rejected?
  }

  /** What a step adds to the marks. */
  function NewMarks(s: Sys, step: Step): seq<Mark> {
    if Accepted(step) then [PromptAccepted]
    else if step.SeeSettled? then [SettleObserved]
    else if step.ReviveEdge? && Takes(s, SessionRunning, step.ok) then [ReviveDone]
    else []
  }

  /** Which steps write which status, and what they add to the marks and the clock. */
  predicate Observed(s: Sys, step: Step, s': Sys) {
    && s.now <= s'.now
    && s'.marks == s.marks + NewMarks(s, step)
    && (s'.status == StatusReady ==>
          s.status == StatusReady || step.SeeSettled? || step.MarkReady? || step.MarkStarted? || step.Restart?)
    && (s'.status == StatusWorking ==> s.status == StatusWorking || Accepted(step) || step.Restart?)
    && (Accepted(step) && step.ack.Acked? ==> s'.status == StatusWorking)
    && (step.Restart? ==> s'.status == ReplayStatus(s.log))
  }

  lemma StepShowsOnCreate(cfg: Config, s: Sys, step: Step)
    requires Enabled(cfg, s, step) && CreateStep(step)
    ensures Observed(s, step, Do(cfg, s, step))
  {
    hide EnabledLedger, DoLedger, EnabledComplete, DoComplete, EnabledTurn, DoTurn, LedgerOf, Remaining,
         CooldownRemaining, Replay, ReplayStatus, Put, Transit, Commits, Takes;
    assert s.marks + [] == s.marks;
  }

  lemma StepShowsOnLedger(cfg: Config, s: Sys, step: Step)
    requires Enabled(cfg, s, step) && LedgerStep(step)
    ensures Observed(s, step, Do(cfg, s, step))
  {
    hide EnabledCreate, DoCreate, EnabledComplete, DoComplete, EnabledTurn, DoTurn, LedgerOf, Remaining,
         CooldownRemaining, Replay, ReplayStatus, Put, Transit, Commits, Takes;
    assert s.marks + [] == s.marks;
  }

  lemma StepShowsOnComplete(cfg: Config, s: Sys, step: Step)
    requires Enabled(cfg, s, step) && CompleteStep(step)
    ensures Observed(s, step, Do(cfg, s, step))
  {
    hide EnabledCreate, DoCreate, EnabledLedger, DoLedger, EnabledTurn, DoTurn, LedgerOf, Remaining,
         CooldownRemaining, Replay, ReplayStatus, Put, Transit, Commits, Takes;
    assert s.marks + [] == s.marks;
  }

  lemma StepShowsOnTurn(cfg: Config, s: Sys, step: Step)
    requires Enabled(cfg, s, step) && !CreateStep(step) && !LedgerStep(step) && !CompleteStep(step)
    ensures Observed(s, step, Do(cfg, s, step))
  {
    hide EnabledCreate, DoCreate, EnabledLedger, DoLedger, EnabledComplete, DoComplete, LedgerOf, Remaining,
         CooldownRemaining, Replay, ReplayStatus, Put, Transit, Commits, Takes;
    assert s.marks + [] == s.marks;
  }

  lemma StepShows(cfg: Config, s: Sys, step: Step)
    requires Enabled(cfg, s, step)
    ensures Observed(s, step, Do(cfg, s, step))
  {
    hide Do, Enabled, CreateStep, LedgerStep, CompleteStep, Observed;
    if CreateStep(step) {
      StepShowsOnCreate(cfg, s, step);
    } else if LedgerStep(step) {
      StepShowsOnLedger(cfg, s, step);
    } else if CompleteStep(step) {
      StepShowsOnComplete(cfg, s, step);
    } else {
      StepShowsOnTurn(cfg, s, step);
    }
  }

  // ---- what a step moves ----

  predicate BeingCreated(ph: Phase) {
    ph.Provisioning? || ph.Launching? || ph.Starting? || ph.StartedDue?
  }

  /** The revives a goroutine may still append on an attempt already consumed. */
  function Due(ph: Phase): nat {
    if ph.Holding? || ph.Redriven? || ph.Completing? then 1 else 0
  }

  function One(b: bool): nat {
    if b then 1 else 0
  }

  predicate HoldsLock(ph: Phase) {
    ph.Cleared? || ph.Completing? || ph.Closing? || ph.Rearmed?
  }

  /** A goroutine's step moves that goroutine only; a finished one takes none, none goes
      back to the startup read or begins a create, and deleting ends. Only a ledger read
      clears a goroutine for an attempt. */
  predicate Moved(s: Sys, step: Step, s': Sys, t: nat) {
    && t < |s.threads| == |s'.threads| && s'.threads == s.threads[t := s'.threads[t]]
    && !s.threads[t].Done? && !s'.threads[t].Startup? && !s'.threads[t].Rearmed?
    && (s.threads[t].Provisioning? <==> step.Provision?) && !s'.threads[t].Provisioning?
    && (BeingCreated(s'.threads[t]) ==> BeingCreated(s.threads[t]))
    && (s.threads[t].Deleting? ==> s'.threads[t].Done?)
    && (s'.threads[t].Cleared? ==> step.ReadLedger?)
    && (s'.pending ==> s.pending || s.threads[t].Holding?)
  }

  lemma ThreadStepOnCreate(cfg: Config, s: Sys, step: Step)
    requires Enabled(cfg, s, step) && CreateStep(step)
    requires OfThread(step)
    ensures Moved(s, step, Do(cfg, s, step), step.t)
  {
    hide EnabledLedger, DoLedger, EnabledComplete, DoComplete, EnabledTurn, DoTurn, LedgerOf, Remaining,
         CooldownRemaining, Put, Transit, Fail, Commits, Takes, Rebuilt;
  }

  lemma ThreadStepOnLedger(cfg: Config, s: Sys, step: Step)
    requires Enabled(cfg, s, step) && LedgerStep(step)
    requires OfThread(step)
    ensures Moved(s, step, Do(cfg, s, step), step.t)
  {
    hide EnabledCreate, DoCreate, EnabledComplete, DoComplete, EnabledTurn, DoTurn, LedgerOf, Remaining,
         CooldownRemaining, Put, Transit, Fail, Commits, Takes, Rebuilt;
  }

  lemma ThreadStepOnComplete(cfg: Config, s: Sys, step: Step)
    requires Enabled(cfg, s, step) && CompleteStep(step)
    requires OfThread(step)
    ensures Moved(s, step, Do(cfg, s, step), step.t)
  {
    hide EnabledCreate, DoCreate, EnabledLedger, DoLedger, EnabledTurn, DoTurn, LedgerOf, Remaining,
         CooldownRemaining, Put, Transit, Fail, Commits, Takes, Rebuilt;
  }

  lemma ThreadStepOnTurn(cfg: Config, s: Sys, step: Step)
    requires Enabled(cfg, s, step) && !CreateStep(step) && !LedgerStep(step) && !CompleteStep(step)
    requires OfThread(step)
    ensures Moved(s, step, Do(cfg, s, step), step.t)
  {
    hide EnabledCreate, DoCreate, EnabledLedger, DoLedger, EnabledComplete, DoComplete, LedgerOf, Remaining,
         CooldownRemaining, Put, Transit, Fail, Commits, Takes, Rebuilt;
  }

  lemma ThreadStep(cfg: Config, s: Sys, step: Step)
    requires Enabled(cfg, s, step)
    requires OfThread(step)
    ensures Moved(s, step, Do(cfg, s, step), step.t)
  {
    hide Do, Enabled, CreateStep, LedgerStep, CompleteStep, Moved;
    if CreateStep(step) {
      ThreadStepOnCreate(cfg, s, step);
    } else if LedgerStep(step) {
      ThreadStepOnLedger(cfg, s, step);
    } else if CompleteStep(step) {
      ThreadStepOnComplete(cfg, s, step);
    } else {
      ThreadStepOnTurn(cfg, s, step);
    }
  }

  lemma DueMovesOnCreate(cfg: Config, s: Sys, step: Step)
    requires Enabled(cfg, s, step) && CreateStep(step)
    requires OfThread(step) && !step.StartupRead? && step.t < |s.threads| == |Do(cfg, s, step).threads|
    ensures var s' := Do(cfg, s, step);
            Due(s'.threads[step.t]) + One(s'.pending) + One(step.ReviveEdge? && Event(cfg, s, step).Some?)
            <= Due(s.threads[step.t]) + One(s.pending) + One((step.Consume? || step.Redeem?) && Event(cfg, s, step).Some?)
  {
    hide EnabledLedger, DoLedger, EnabledComplete, DoComplete, EnabledTurn, DoTurn, LedgerOf, Remaining,
         CooldownRemaining, Replay, ReplayStatus, Put, Transit, Fail, Commits, Takes;
  }

  lemma DueMovesOnLedger(cfg: Config, s: Sys, step: Step)
    requires Enabled(cfg, s, step) && LedgerStep(step)
    requires OfThread(step) && !step.StartupRead? && step.t < |s.threads| == |Do(cfg, s, step).threads|
    ensures var s' := Do(cfg, s, step);
            Due(s'.threads[step.t]) + One(s'.pending) + One(step.ReviveEdge? && Event(cfg, s, step).Some?)
            <= Due(s.threads[step.t]) + One(s.pending) + One((step.Consume? || step.Redeem?) && Event(cfg, s, step).Some?)
  {
    hide EnabledCreate, DoCreate, EnabledComplete, DoComplete, EnabledTurn, DoTurn, LedgerOf, Remaining,
         CooldownRemaining, Replay, ReplayStatus, Put, Transit, Fail, Commits, Takes;
  }

  lemma DueMovesOnComplete(cfg: Config, s: Sys, step: Step)
    requires Enabled(cfg, s, step) && CompleteStep(step)
    requires OfThread(step) && !step.StartupRead? && step.t < |s.threads| == |Do(cfg, s, step).threads|
    ensures var s' := Do(cfg, s, step);
            Due(s'.threads[step.t]) + One(s'.pending) + One(step.ReviveEdge? && Event(cfg, s, step).Some?)
            <= Due(s.threads[step.t]) + One(s.pending) + One((step.Consume? || step.Redeem?) && Event(cfg, s, step).Some?)
  {
    hide EnabledCreate, DoCreate, EnabledLedger, DoLedger, EnabledTurn, DoTurn, LedgerOf, Remaining,
         CooldownRemaining, Replay, ReplayStatus, Put, Transit, Fail, Commits, Takes;
  }

  lemma DueMovesOnTurn(cfg: Config, s: Sys, step: Step)
    requires Enabled(cfg, s, step) && !CreateStep(step) && !LedgerStep(step) && !CompleteStep(step)
    requires OfThread(step) && !step.StartupRead? && step.t < |s.threads| == |Do(cfg, s, step).threads|
    ensures var s' := Do(cfg, s, step);
            Due(s'.threads[step.t]) + One(s'.pending) + One(step.ReviveEdge? && Event(cfg, s, step).Some?)
            <= Due(s.threads[step.t]) + One(s.pending) + One((step.Consume? || step.Redeem?) && Event(cfg, s, step).Some?)
  {
    hide EnabledCreate, DoCreate, EnabledLedger, DoLedger, EnabledComplete, DoComplete, LedgerOf, Remaining,
         CooldownRemaining, Replay, ReplayStatus, Put, Transit, Fail, Commits, Takes;
  }

  /** A consumption that commits adds one to what is due; the holds, the pending flag
      and the revive edge pass it on or use it up; no other step adds any. */
  lemma DueMoves(cfg: Config, s: Sys, step: Step)
    requires Enabled(cfg, s, step)
    requires OfThread(step) && !step.StartupRead? && step.t < |s.threads| == |Do(cfg, s, step).threads|
    ensures var s' := Do(cfg, s, step);
            Due(s'.threads[step.t]) + One(s'.pending) + One(step.ReviveEdge? && Event(cfg, s, step).Some?)
            <= Due(s.threads[step.t]) + One(s.pending) + One((step.Consume? || step.Redeem?) && Event(cfg, s, step).Some?)
  {
    hide Do, Enabled, CreateStep, LedgerStep, CompleteStep, Due, Event;
    if CreateStep(step) {
      DueMovesOnCreate(cfg, s, step);
    } else if LedgerStep(step) {
      DueMovesOnLedger(cfg, s, step);
    } else if CompleteStep(step) {
      DueMovesOnComplete(cfg, s, step);
    } else {
      DueMovesOnTurn(cfg, s, step);
    }
  }

  /** Who holds the lock after a goroutine's step: it, if its new phase holds it. */
  predicate LockFollows(s: Sys, s': Sys, t: nat)
    requires t < |s.threads| && t < |s'.threads|
  {
    && (HoldsLock(s'.threads[t]) && !HoldsLock(s.threads[t]) ==> s.lock.None?)
    && s'.lock == (if HoldsLock(s'.threads[t]) then Some(t) else if HoldsLock(s.threads[t]) then None else s.lock)
  }

  lemma LockMovesOnCreate(cfg: Config, s: Sys, step: Step)
    requires Enabled(cfg, s, step) && CreateStep(step)
    requires OfThread(step) && step.t < |s.threads| && step.t < |Do(cfg, s, step).threads|
    requires HoldsLock(s.threads[step.t]) ==> s.lock == Some(step.t)
    ensures LockFollows(s, Do(cfg, s, step), step.t)
  {
    hide EnabledLedger, DoLedger, EnabledComplete, DoComplete, EnabledTurn, DoTurn, LedgerOf, Remaining,
         CooldownRemaining, Replay, ReplayStatus, Put, Transit, Fail, Commits, Takes;
  }

  lemma LockMovesOnLedger(cfg: Config, s: Sys, step: Step)
    requires Enabled(cfg, s, step) && LedgerStep(step)
    requires OfThread(step) && step.t < |s.threads| && step.t < |Do(cfg, s, step).threads|
    requires HoldsLock(s.threads[step.t]) ==> s.lock == Some(step.t)
    ensures LockFollows(s, Do(cfg, s, step), step.t)
  {
    hide EnabledCreate, DoCreate, EnabledComplete, DoComplete, EnabledTurn, DoTurn, LedgerOf, Remaining,
         CooldownRemaining, Replay, ReplayStatus, Put, Transit, Fail, Commits, Takes;
  }

  lemma LockMovesOnComplete(cfg: Config, s: Sys, step: Step)
    requires Enabled(cfg, s, step) && CompleteStep(step)
    requires OfThread(step) && step.t < |s.threads| && step.t < |Do(cfg, s, step).threads|
    requires HoldsLock(s.threads[step.t]) ==> s.lock == Some(step.t)
    ensures LockFollows(s, Do(cfg, s, step), step.t)
  {
    hide EnabledCreate, DoCreate, EnabledLedger, DoLedger, EnabledTurn, DoTurn, LedgerOf, Remaining,
         CooldownRemaining, Replay, ReplayStatus, Put, Transit, Fail, Commits, Takes;
  }

  lemma LockMovesOnTurn(cfg: Config, s: Sys, step: Step)
    requires Enabled(cfg, s, step) && !CreateStep(step) && !LedgerStep(step) && !CompleteStep(step)
    requires OfThread(step) && step.t < |s.threads| && step.t < |Do(cfg, s, step).threads|
    requires HoldsLock(s.threads[step.t]) ==> s.lock == Some(step.t)
    ensures LockFollows(s, Do(cfg, s, step), step.t)
  {
    hide EnabledCreate, DoCreate, EnabledLedger, DoLedger, EnabledComplete, DoComplete, LedgerOf, Remaining,
         CooldownRemaining, Replay, ReplayStatus, Put, Transit, Fail, Commits, Takes;
  }

  lemma LockMoves(cfg: Config, s: Sys, step: Step)
    requires Enabled(cfg, s, step)
    requires OfThread(step) && step.t < |s.threads| && step.t < |Do(cfg, s, step).threads|
    requires HoldsLock(s.threads[step.t]) ==> s.lock == Some(step.t)
    ensures LockFollows(s, Do(cfg, s, step), step.t)
  {
    hide Do, Enabled, CreateStep, LedgerStep, CompleteStep, LockFollows, HoldsLock;
    if CreateStep(step) {
      LockMovesOnCreate(cfg, s, step);
    } else if LedgerStep(step) {
      LockMovesOnLedger(cfg, s, step);
    } else if CompleteStep(step) {
      LockMovesOnComplete(cfg, s, step);
    } else {
      LockMovesOnTurn(cfg, s, step);
    }
  }

  /** What the other steps do to the goroutines: start one, start over, or nothing. */
  predicate Spawned(s: Sys, step: Step, s': Sys) {
    match step
    case Launch(t) =>
      At(s, t, Launching) && s'.threads == s.threads[t := Starting] + [Pulling] && s'.lock == s.lock
      && s'.pending == s.pending
    case Resume(_, _) =>
      && s.session == SessionPaused && s'.pending == s.pending
      && if s'.log == s.log then s'.threads == s.threads && s'.lock == s.lock
         else s.lock.None? && s'.threads == s.threads + [Rearmed] && s'.lock == Some(|s.threads|)
    case Delete =>
      !Unregistered(s) && s'.threads == s.threads + [Deleting] && s'.lock == s.lock && s'.pending == s.pending
    case Restart =>
      && s'.lock.None? && !s'.pending
      && (s'.threads == [] || s'.threads == [Startup] || s'.threads == [Pulling])
    case _ => s'.threads == s.threads && s'.lock == s.lock && s'.pending == s.pending
  }

  lemma OtherStep(cfg: Config, s: Sys, step: Step)
    requires Enabled(cfg, s, step) && !OfThread(step)
    ensures Spawned(s, step, Do(cfg, s, step))
  {
    hide LedgerOf, Replay, ReplayStatus, Put, Transit, Fail, Takes, EnabledComplete, DoComplete;
  }

  // ---- live equals replay, and the projections agree ----

  /** Until Create has appended agent.provisioned, nothing else has happened. */
  predicate Fresh(s: Sys) {
    Provisioning in s.threads ==> s.threads == [Provisioning] && s.session == SessionProvision
  }

  ghost predicate Projected(s: Sys) {
    s.session == Replay(s.log) && Agree(Replay(s.log), ReplayStatus(s.log)) && Fresh(s)
  }

  lemma InitProjected()
    ensures Projected(INIT)
  {}

  lemma StepKeepsFresh(cfg: Config, s: Sys, step: Step)
    requires Fresh(s) && Enabled(cfg, s, step)
    ensures Fresh(Do(cfg, s, step))
    ensures step.Provision? ==> s.session == SessionProvision
  {
    hide Do, Enabled;
    if OfThread(step) {
      ThreadStep(cfg, s, step);
      StepAppends(cfg, s, step);
      FreshMoves(cfg, s, step);
    } else {
      OtherStep(cfg, s, step);
      StepAppends(cfg, s, step);
      FreshStays(cfg, s, step);
    }
  }

  lemma FreshStays(cfg: Config, s: Sys, step: Step)
    requires Fresh(s) && Enabled(cfg, s, step) && !OfThread(step) && Spawned(s, step, Do(cfg, s, step))
    ensures Fresh(Do(cfg, s, step))
  {
    hide Do;
    StepAppends(cfg, s, step);
    FreshEvents(cfg, s, step);
    if Provisioning in s.threads {
      assert s.threads[0] == Provisioning;
    }
  }

  /** Nothing but a prompt appends a transition outside a goroutine. */
  lemma FreshEvents(cfg: Config, s: Sys, step: Step)
    requires Enabled(cfg, s, step) && !OfThread(step)
    ensures var k := Event(cfg, s, step);
            k.Some? && Moving(k.value) ==> step.Prompt? && s.session != SessionProvision
  {
    hide Do, Commits, Takes, LedgerOf, ReplayStatus;
  }

  lemma FreshMoves(cfg: Config, s: Sys, step: Step)
    requires Fresh(s) && Enabled(cfg, s, step) && OfThread(step) && Moved(s, step, Do(cfg, s, step), step.t)
    ensures Fresh(Do(cfg, s, step))
    ensures step.Provision? ==> s.session == SessionProvision
  {
    hide Do, Enabled;
    assert s.threads[step.t] in s.threads;
    var s' := Do(cfg, s, step);
    assert forall k :: 0 <= k < |s'.threads| && k != step.t ==> s'.threads[k] == s.threads[k];
  }

  lemma StepKeepsProjected(cfg: Config, s: Sys, step: Step)
    requires Projected(s) && Enabled(cfg, s, step)
    ensures Projected(Do(cfg, s, step))
  {
    hide Replay, ReplayStatus, Agree, Fresh;
    StepKeepsFresh(cfg, s, step);
    StepAppends(cfg, s, step);
    var k := Event(cfg, s, step);
    assert k.Some? && k.value.Provisioned? ==> step.Provision?;
    hide Do, Event;
    if k.Some? {
      if k.value.Provisioned? {
        ProvisionedAgrees(s.log);
      } else {
        AppendKeepsAgreement(s.log, k.value);
      }
    }
  }

  /** agent.provisioned moves no session, and where it is appended the agent is new. */
  lemma ProvisionedAgrees(log: seq<Kind>)
    requires Replay(log) == SessionProvision
    ensures Replay(log + [Provisioned]) == Replay(log)
    ensures Agree(Replay(log + [Provisioned]), ReplayStatus(log + [Provisioned]))
  {
    ReplayAppend(log, Provisioned);
  }

  lemma {:induction false} RunProjected(cfg: Config, r: Run, i: nat)
    requires IsRun(cfg, r) && i < |r.states|
    ensures Projected(r.states[i])
  {
    hide Do, Enabled, Projected;
    if i == 0 {
      InitProjected();
    } else {
      RunProjected(cfg, r, i - 1);
      StepKeepsProjected(cfg, r.states[i - 1], r.steps[i - 1]);
    }
  }

  /** On every reachable state the live session state is the replayed one, and the
      two projections of the log agree: working implies running, paused implies
      failed, idle and ready imply ready or failed. */
  lemma ProjectionsAgree(cfg: Config, s: Sys)
    requires Reachable(cfg, s)
    ensures s.session == Replay(s.log) && Agree(Replay(s.log), ReplayStatus(s.log))
  {
    hide Do, Enabled;
    var r :| IsRun(cfg, r) && Last(r) == s;
    RunProjected(cfg, r, |r.states| - 1);
  }

  // ---- every revive is paid for ----

  function Owed(threads: seq<Phase>): nat {
    if threads == [] then 0 else Due(threads[0]) + Owed(threads[1..])
  }

  lemma {:induction false} OwedMove(threads: seq<Phase>, t: nat, ph: Phase)
    requires t < |threads|
    ensures Owed(threads[t := ph]) == Owed(threads) - Due(threads[t]) + Due(ph)
    ensures Due(threads[t]) <= Owed(threads)
  {
    if t == 0 {
      assert threads[0 := ph][1..] == threads[1..];
    } else {
      assert threads[t := ph][1..] == threads[1..][t - 1 := ph];
      OwedMove(threads[1..], t - 1, ph);
    }
  }

  lemma {:induction false} OwedAppend(threads: seq<Phase>, ph: Phase)
    ensures Owed(threads + [ph]) == Owed(threads) + Due(ph)
  {
    if threads == [] {
      assert [] + [ph] == [ph];
    } else {
      assert (threads + [ph])[1..] == threads[1..] + [ph];
      OwedAppend(threads[1..], ph);
    }
  }

  /** While the startup revive has not read the ledger nothing else can revive. */
  predicate StartupFirst(s: Sys) {
    Startup in s.threads ==>
      && !s.pending
      && forall t :: 0 <= t < |s.threads| ==>
           s.threads[t].Deleting? || s.threads[t].Done? || (s.threads[t].Startup? && t == 0)
  }

  ghost predicate Funded(s: Sys) {
    && Paid(s.log)
    && Revivals(s.log) + Owed(s.threads) + One(s.pending) <= Consumptions(s.log)
    && (Fold(s.log).open ==> Revivals(s.log) < Consumptions(s.log))
    && StartupFirst(s)
  }

  function Load(s: Sys): nat {
    Owed(s.threads) + One(s.pending)
  }

  /** One goroutine moved: the load changes by what it was due and is due now. */
  lemma LoadMove(s: Sys, s': Sys, t: nat)
    requires t < |s.threads| == |s'.threads| && s'.threads == s.threads[t := s'.threads[t]]
    ensures Load(s') == Load(s) - Due(s.threads[t]) + Due(s'.threads[t]) - One(s.pending) + One(s'.pending)
  {
    OwedMove(s.threads, t, s'.threads[t]);
  }

  lemma ThreadLoad(cfg: Config, s: Sys, step: Step)
    requires Enabled(cfg, s, step) && OfThread(step) && !step.StartupRead?
    ensures Load(Do(cfg, s, step)) + One(step.ReviveEdge? && Event(cfg, s, step).Some?)
         <= Load(s) + One((step.Consume? || step.Redeem?) && Event(cfg, s, step).Some?)
  {
    hide Do, Enabled, Event, Load, Due;
    ThreadStep(cfg, s, step);
    DueMoves(cfg, s, step);
    LoadMove(s, Do(cfg, s, step), step.t);
  }

  lemma OtherStepLoad(cfg: Config, s: Sys, step: Step)
    requires Enabled(cfg, s, step)
    requires !OfThread(step)
    ensures Load(Do(cfg, s, step)) <= Load(s)
  {
    hide Do, Enabled, Owed;
    OtherStep(cfg, s, step);
    if step.Launch? {
      OwedMove(s.threads, step.t, Starting);
      OwedAppend(s.threads[step.t := Starting], Pulling);
    }
    OwedAppend(s.threads, Rearmed);
    OwedAppend(s.threads, Deleting);
    if step.Restart? {
      FreshOwes(Do(cfg, s, step).threads);
    }
  }

  /** The startup revive takes over an attempt that is open on the ledger; by then
      no other goroutine can revive. */
  lemma StartupLoad(cfg: Config, s: Sys, t: nat, readable: bool)
    requires Enabled(cfg, s, StartupRead(t, readable)) && StartupFirst(s)
    ensures var s' := Do(cfg, s, StartupRead(t, readable));
            Load(s) == 0 && Load(s') <= One(Fold(s.log).open)
  {
    hide Fold, Load;
    LoadMove(s, Do(cfg, s, StartupRead(t, readable)), t);
    CalmLoad(s);
  }

  lemma CalmLoad(s: Sys)
    requires Startup in s.threads && StartupFirst(s)
    ensures Load(s) == 0
  {
    NoneOwed(s.threads);
  }

  lemma {:induction false} NoneOwed(threads: seq<Phase>)
    ensures (forall t :: 0 <= t < |threads| ==> Due(threads[t]) == 0) ==> Owed(threads) == 0
  {
    if threads != [] {
      NoneOwed(threads[1..]);
      if forall t :: 0 <= t < |threads| ==> Due(threads[t]) == 0 {
        assert forall t :: 0 <= t < |threads[1..]| ==> threads[1..][t] == threads[t + 1];
      }
    }
  }

  lemma FreshOwes(threads: seq<Phase>)
    requires threads == [] || threads == [Startup] || threads == [Pulling]
    ensures Owed(threads) == 0
  {
    NoneOwed(threads);
  }

  /** A re-arm taken before the startup revive has read the ledger. */
  predicate EarlyResume(s: Sys, step: Step) {
    step.Resume? && Startup in s.threads
  }

  lemma StepKeepsStartupFirst(cfg: Config, s: Sys, step: Step)
    requires Enabled(cfg, s, step) && !EarlyResume(s, step) && StartupFirst(s)
    ensures StartupFirst(Do(cfg, s, step))
  {
    hide Do, Enabled;
    if OfThread(step) {
      ThreadStep(cfg, s, step);
      hide StartupFirst;
      StartupMove(s, step, Do(cfg, s, step), step.t);
    } else {
      OtherStep(cfg, s, step);
      StartupSpawn(s, step, Do(cfg, s, step));
    }
  }

  lemma StartupMove(s: Sys, step: Step, s': Sys, t: nat)
    requires StartupFirst(s) && Moved(s, step, s', t)
    ensures StartupFirst(s')
  {
    if Startup in s'.threads {
      var k :| 0 <= k < |s'.threads| && s'.threads[k] == Startup;
      assert s.threads[k] == Startup;
    }
  }

  lemma StartupSpawn(s: Sys, step: Step, s': Sys)
    requires StartupFirst(s) && !OfThread(step) && !EarlyResume(s, step) && Spawned(s, step, s')
    ensures StartupFirst(s')
  {}

  lemma StepKeepsFunded(cfg: Config, s: Sys, step: Step)
    requires Enabled(cfg, s, step) && !EarlyResume(s, step) && Funded(s)
    ensures Funded(Do(cfg, s, step))
  {
    hide Do, Enabled, Funded;
    StepKeepsStartupFirst(cfg, s, step) by { FundedStartup(s); }
    StepAppends(cfg, s, step);
    StepLoad(cfg, s, step);
    hide Event;
    FundedAppend(s, Do(cfg, s, step), Event(cfg, s, step));
  }

  lemma FundedStartup(s: Sys)
    requires Funded(s)
    ensures StartupFirst(s)
  {}

  lemma FundedAppend(s: Sys, s': Sys, k: Option<Kind>)
    requires Funded(s) && StartupFirst(s')
    requires s'.log == if k.Some? then s.log + [k.value] else s.log
    requires || Load(s') + One(k.Some? && k.value.Revived?) <= Load(s) + One(k.Some? && k.value.ReviveConsumed?)
             || (k.None? && Load(s) == 0 && Load(s') <= One(Fold(s.log).open))
    ensures Funded(s')
  {
    hide StartupFirst, Fold, Paid, Revivals, Consumptions, Owed;
    if k.Some? {
      PaidNow(s.log);
      CountAppend(s.log, k.value);
      FoldAppend(s.log, k.value);
      PaidAppend(s.log, k.value);
    }
  }

  /** What any step does to the load, by the event it appends. */
  lemma StepLoad(cfg: Config, s: Sys, step: Step)
    requires Enabled(cfg, s, step) && Funded(s)
    ensures var k := Event(cfg, s, step);
            || Load(Do(cfg, s, step)) + One(k.Some? && k.value.Revived?) <= Load(s) + One(k.Some? && k.value.ReviveConsumed?)
            || (k.None? && Load(s) == 0 && Load(Do(cfg, s, step)) <= One(Fold(s.log).open))
  {
    hide Do, Enabled, Load, Fold, Event;
    EventOf(cfg, s, step);
    if step.StartupRead? {
      FundedStartup(s);
      StartupLoad(cfg, s, step.t, step.readable);
    } else if OfThread(step) {
      ThreadLoad(cfg, s, step);
    } else {
      OtherStepLoad(cfg, s, step);
    }
  }

  /** Which steps append the events that the books and the ledger count. */
  lemma EventOf(cfg: Config, s: Sys, step: Step)
    requires Enabled(cfg, s, step)
    ensures var k := Event(cfg, s, step);
            && (k.Some? && k.value.Revived? ==> step.ReviveEdge?)
            && (k.Some? && k.value.ReviveConsumed? <==> (step.Consume? || step.Redeem?) && k.Some?)
            && (k.Some? && k.value.ReviveConsumed? ==> k.value.at == Some(s.now))
            && (k.Some? && k.value.Resumed? ==> step.Resume?)
            && (step.StartupRead? ==> k.None?)
  {
    hide Do, Commits, Takes, ReplayStatus, LedgerOf, EnabledCreate, EnabledLedger, EnabledComplete;
  }

  lemma InitFunded()
    ensures Funded(INIT)
  {
    NoneOwed(INIT.threads);
  }

  /** In every run, up to the first early re-arm, revivals and attempts still held never
      outnumber consumptions. */
  lemma {:induction false} RunFunded(cfg: Config, r: Run, i: nat)
    requires IsRun(cfg, r) && i < |r.states|
    requires forall k :: 0 <= k < i ==> !EarlyResume(r.states[k], r.steps[k])
    ensures Funded(r.states[i])
  {
    hide Do, Enabled, Funded, EarlyResume;
    if i == 0 {
      InitFunded();
    } else {
      RunFunded(cfg, r, i - 1);
      StepKeepsFunded(cfg, r.states[i - 1], r.steps[i - 1]);
    }
  }

  /** An unpaid revive has a cause: some step of the run was an early re-arm. */
  lemma UnpaidHasCause(cfg: Config, r: Run) returns (k: nat)
    requires IsRun(cfg, r) && !Paid(Last(r).log)
    ensures k < |r.steps| && EarlyResume(r.states[k], r.steps[k])
  {
    hide Do, Enabled, EarlyResume, Funded, Paid;
    if forall i :: 0 <= i < |r.steps| ==> !EarlyResume(r.states[i], r.steps[i]) {
      RunFunded(cfg, r, |r.steps|);
      FundedIsPaid(Last(r));
      assert false;
    }
    k :| 0 <= k < |r.steps| && EarlyResume(r.states[k], r.steps[k]);
  }

  // ---- when a revive goes unpaid ----

  lemma Take(cfg: Config, s: Sys, step: Step) returns (s': Sys)
    requires Reachable(cfg, s) && Enabled(cfg, s, step)
    ensures s' == Do(cfg, s, step) && Reachable(cfg, s')
  {
    StepReachable(cfg, s, step);
    s' := Do(cfg, s, step);
  }

  lemma TakePrompt(cfg: Config, s: Sys, ok: bool) returns (s': Sys)
    requires Reachable(cfg, s) && AcceptsPrompt(s) && !s.closed
    ensures Reachable(cfg, s') && s'.threads == s.threads && s'.lock == s.lock && s'.pending == s.pending
    ensures s'.marks == s.marks + [PromptAccepted] && s'.status == StatusWorking && !s'.closed && s'.now == s.now
    ensures s'.log == if ok then s.log + [TurnStarted] else s.log
    ensures s'.session == if ok then SessionRunning else s.session
  {
    hide Reachable, EnabledCreate, DoCreate, EnabledLedger, DoLedger, EnabledComplete, DoComplete,
         ReplayStatus;
    s' := Take(cfg, s, Prompt(Acked, ok));
  }

  lemma TakePause(cfg: Config, s: Sys, t: nat) returns (s': Sys)
    requires Reachable(cfg, s) && At(s, t, Pulling) && s.session == SessionRunning && !s.closed
    ensures Reachable(cfg, s')
    ensures s' == Move(s, t, Pausing).(session := SessionPaused, log := s.log + [Paused])
  {
    hide Reachable, EnabledCreate, DoCreate, EnabledLedger, DoLedger, EnabledComplete, DoComplete,
         ReplayStatus;
    s' := Take(cfg, s, Pause(t, true));
  }

  lemma TakeRestart(cfg: Config, s: Sys) returns (s': Sys)
    requires Reachable(cfg, s) && (TurnHidden(s) ==> cfg.blindRestarts)
    ensures Reachable(cfg, s') && s' == Rebuilt(s)
  {
    hide Reachable, EnabledCreate, DoCreate, EnabledLedger, DoLedger, EnabledComplete, DoComplete, Rebuilt,
         ReplayStatus;
    s' := Take(cfg, s, Step.Restart);
  }

  lemma TakeStartupRead(cfg: Config, s: Sys, t: nat) returns (s': Sys)
    requires Reachable(cfg, s) && At(s, t, Startup)
    ensures Reachable(cfg, s') && s' == Move(s, t, if Fold(s.log).open then Holding else WantAttempt)
  {
    hide Reachable, EnabledCreate, DoCreate, EnabledComplete, DoComplete, EnabledTurn, DoTurn, Fold;
    s' := Take(cfg, s, StartupRead(t, true));
  }

  /** A re-arm and its consumption, up to the hold. */
  lemma TakeRearm(cfg: Config, s: Sys) returns (s': Sys)
    requires Reachable(cfg, s) && s.session == SessionPaused && s.lock.None? && !s.closed && !Fold(s.log).open
    requires Startup in s.threads ==> cfg.earlyResume
    ensures Reachable(cfg, s')
    ensures s' == s.(threads := s.threads + [Redriven], log := s.log + [Resumed] + [ReviveConsumed(Some(s.now))])
  {
    hide Reachable, EnabledCreate, DoCreate, EnabledComplete, DoComplete, EnabledTurn, DoTurn, Fold;
    var t := |s.threads|;
    s' := Take(cfg, s, Resume(true, true));
    assert s'.threads[t] == Rearmed;
    s' := Take(cfg, s', Redeem(t, true));
    assert s'.threads == s.threads + [Redriven];
  }

  lemma TakeRedrive(cfg: Config, s: Sys, t: nat) returns (s': Sys)
    requires Reachable(cfg, s) && At(s, t, Redriven)
    ensures Reachable(cfg, s') && s' == Move(s, t, Holding)
  {
    hide Reachable, EnabledCreate, DoCreate, EnabledComplete, DoComplete, EnabledTurn, DoTurn, LedgerOf;
    s' := Take(cfg, s, Redrive(t));
  }

  lemma TakeMarkReady(cfg: Config, s: Sys, t: nat) returns (s': Sys)
    requires Reachable(cfg, s) && At(s, t, ReadyDue) && (Unsettled(s.marks) ==> cfg.staleWrites)
    ensures Reachable(cfg, s') && s' == Move(s, t, Pulling).(status := StatusReady)
  {
    hide Reachable, EnabledCreate, DoCreate, EnabledLedger, DoLedger, EnabledTurn, DoTurn;
    s' := Take(cfg, s, MarkReady(t));
  }

  /** Counts and ledger of a log, as far as a run under construction needs them. */
  ghost predicate Books(log: seq<Kind>, revivals: nat, consumptions: nat, open: bool) {
    Revivals(log) == revivals && Consumptions(log) == consumptions && Fold(log).open == open
  }

  lemma BooksAppend(log: seq<Kind>, k: Kind, revivals: nat, consumptions: nat, open: bool)
    requires Books(log, revivals, consumptions, open)
    ensures Books(log + [k], revivals + One(k.Revived?), consumptions + One(k.ReviveConsumed?),
                  k.ReviveConsumed? || (open && !k.Revived? && !k.ReviveAbandoned? && !k.Resumed?))
  {
    CountAppend(log, k);
    FoldAppend(log, k);
  }

  /** A freshly created agent. */
  const CREATED: Sys :=
    Sys([Provisioned, Started], SessionReady, StatusReady, false, None, [Done, Pulling], 1, false, [])

  lemma CreatedReachable(cfg: Config)
    ensures Reachable(cfg, CREATED)
  {
    hide Reachable;
    InitReachable(cfg);
    var s := Take(cfg, INIT, Provision(0, true));
    s := Take(cfg, s, Launch(0));
    assert s.threads == [Starting, Pulling];
    s := Take(cfg, s, StartSession(0, true));
    s := Take(cfg, s, MarkStarted(0));
    assert s.log == CREATED.log && s.threads == CREATED.threads;
  }

  lemma CreatedBooks()
    ensures Books(CREATED.log, 0, 0, false) && Fold(CREATED.log) == FRESH && NoRearm(CREATED.log, 0, |CREATED.log|)
  {
    assert CREATED.log == [Provisioned] + [Started] && [Provisioned] == [] + [Provisioned];
    CountAppend([], Provisioned);
    CountAppend([Provisioned], Started);
    FoldAppend([], Provisioned);
    FoldAppend([Provisioned], Started);
  }

  /** A session paused mid-turn, seen by a controller that has just restarted. */
  lemma PausedThenRestart(cfg: Config) returns (s: Sys)
    ensures Reachable(cfg, s)
    ensures s.session == SessionPaused && s.threads == [Startup] && s.lock.None? && !s.pending && !s.closed && s.now == 1
    ensures s.log == CREATED.log + [TurnStarted] + [Paused]
    ensures Books(s.log, 0, 0, false) && Fold(s.log) == FRESH && s.marks == [PromptAccepted]
  {
    hide Reachable, Replay, ReplayStatus, Books, Fold, Do, Enabled;
    CreatedReachable(cfg);
    CreatedBooks();
    s := TakePrompt(cfg, CREATED, true);
    s := TakePause(cfg, s, 1);
    BooksAppend(CREATED.log, TurnStarted, 0, 0, false);
    BooksAppend(CREATED.log + [TurnStarted], Paused, 0, 0, false);
    FoldAppend(CREATED.log, TurnStarted);
    FoldAppend(CREATED.log + [TurnStarted], Paused);
    ProjectionsAgree(cfg, s);
    s := TakeRestart(cfg, s);
  }

  /** A re-arm that lands before the startup revive reads the ledger leaves two
      goroutines holding on one consumption. */
  lemma TwoHoldersOneAttempt(cfg: Config) returns (s: Sys)
    requires cfg.earlyResume
    ensures Reachable(cfg, s) && Books(s.log, 0, 1, true)
    ensures s.session == SessionPaused && s.threads == [Holding, Redriven] && s.lock.None? && !s.pending && !s.closed
  {
    hide Reachable, Replay, ReplayStatus, Fold, Books, Do, Enabled;
    s := PausedThenRestart(cfg);
    OpenOf(s.log, 0, 0, false);
    BooksAppend(s.log, Resumed, 0, 0, false);
    BooksAppend(s.log + [Resumed], ReviveConsumed(Some(s.now)), 0, 0, false);
    s := TakeRearm(cfg, s);
    OpenOf(s.log, 0, 1, true);
    s := TakeStartupRead(cfg, s, 0);
  }

  lemma OpenOf(log: seq<Kind>, revivals: nat, consumptions: nat, open: bool)
    requires Books(log, revivals, consumptions, open)
    ensures Fold(log).open == open
  {}

  /** A holder whose replacement answers revives the session, up to its status write. */
  lemma ReviveBy(cfg: Config, s0: Sys, t: nat) returns (s: Sys)
    requires Reachable(cfg, s0) && At(s0, t, Holding) && s0.session == SessionPaused && s0.lock.None? && !s0.closed
    ensures Reachable(cfg, s)
    ensures s == s0.(threads := s0.threads[t := ReadyDue], session := SessionIdle, pending := false,
                     log := s0.log + [Revived] + [Settled], marks := s0.marks + [ReviveDone])
  {
    hide Reachable, Replay, ReplayStatus, LedgerOf, EnabledCreate, DoCreate, EnabledTurn, DoTurn;
    s := Take(cfg, s0, HoldUp(t));
    s := Take(cfg, s, TakePending(t));
    assert s == s0.(threads := s0.threads[t := Completing], pending := false, lock := Some(t));
    s := Take(cfg, s, ReviveEdge(t, true));
    s := Take(cfg, s, CloseTurn(t, true));
  }

  /** The first holder revives the session. */
  lemma FirstRevive(cfg: Config) returns (s: Sys)
    requires cfg.earlyResume
    ensures Reachable(cfg, s) && Books(s.log, 1, 1, false)
    ensures s.session == SessionIdle && s.status == StatusReady && !s.closed
    ensures s.threads == [Pulling, Redriven] && s.lock.None? && !s.pending
  {
    hide Reachable, Replay, ReplayStatus, Fold, Books, Do, Enabled;
    s := TwoHoldersOneAttempt(cfg);
    BooksAppend(s.log, Revived, 0, 1, true);
    BooksAppend(s.log + [Revived], Settled, 1, 1, false);
    s := ReviveBy(cfg, s, 0);
    s := TakeMarkReady(cfg, s, 0);
  }

  /** A new turn starts and dies, and the second holder revives the session again:
      no second attempt was consumed. */
  lemma UnpaidRevive(cfg: Config) returns (s: Sys)
    requires cfg.earlyResume
    ensures Reachable(cfg, s) && !Paid(s.log)
  {
    hide Reachable, Replay, ReplayStatus, Fold, Books, Do, Enabled;
    s := FirstRevive(cfg);
    BooksAppend(s.log, TurnStarted, 1, 1, false);
    s := TakePrompt(cfg, s, true);
    BooksAppend(s.log, Paused, 1, 1, false);
    s := TakePause(cfg, s, 0);
    s := TakeRedrive(cfg, s, 1);
    BooksAppend(s.log, Revived, 1, 1, false);
    BooksAppend(s.log + [Revived], Settled, 2, 1, false);
    s := ReviveBy(cfg, s, 1);
    BooksUnpaid(s.log, 2, 1, false);
  }

  lemma BooksUnpaid(log: seq<Kind>, revivals: nat, consumptions: nat, open: bool)
    requires Books(log, revivals, consumptions, open) && revivals > consumptions
    ensures !Paid(log)
  {
    assert log[..|log|] == log;
  }

  /** Every revive is paid for, in every prefix of every reachable log, across
      restarts that resume an open attempt, concurrent re-arms, refused appends and
      failed reads, exactly when no re-arm is accepted before the startup revive has
      read the ledger. */
  lemma RevivesArePaidIff(cfg: Config)
    ensures (forall s :: Reachable(cfg, s) ==> Paid(s.log)) <==> !cfg.earlyResume
  {
    hide Paid, Funded, Do, Enabled, EarlyResume;
    if cfg.earlyResume {
      var s := UnpaidRevive(cfg);
    } else {
      forall s | Reachable(cfg, s)
        ensures Paid(s.log)
      {
        var r :| IsRun(cfg, r) && Last(r) == s;
        if !Paid(s.log) {
          var k := UnpaidHasCause(cfg, r);
          ResumeWaits(cfg, r.states[k], r.steps[k]);
          assert false;
        }
      }
    }
  }

  lemma ResumeWaits(cfg: Config, s: Sys, step: Step)
    requires Enabled(cfg, s, step) && !cfg.earlyResume
    ensures !EarlyResume(s, step)
  {
    hide LedgerOf, ReplayStatus;
  }

  lemma FundedIsPaid(s: Sys)
    requires Funded(s)
    ensures Paid(s.log)
  {}

  // ---- budget and spacing ----

  predicate Exclusive(s: Sys) {
    && (forall t :: 0 <= t < |s.threads| && HoldsLock(s.threads[t]) ==> s.lock == Some(t))
    && (s.lock.Some? ==> s.lock.value < |s.threads| && HoldsLock(s.threads[s.lock.value]))
  }

  /** A goroutine that moves keeps, takes or gives up the lock with its phase. */
  lemma ExclusiveMove(s: Sys, s': Sys, t: nat)
    requires Exclusive(s)
    requires t < |s.threads| == |s'.threads| && s'.threads == s.threads[t := s'.threads[t]]
    requires LockFollows(s, s', t)
    ensures Exclusive(s')
  {}

  lemma ThreadStepKeepsExclusive(cfg: Config, s: Sys, step: Step)
    requires Enabled(cfg, s, step) && Exclusive(s)
    requires OfThread(step)
    ensures Exclusive(Do(cfg, s, step))
  {
    hide Exclusive, Do, Enabled, HoldsLock, LockFollows;
    ThreadStep(cfg, s, step);
    HolderIs(s, step.t);
    LockMoves(cfg, s, step);
    ExclusiveMove(s, Do(cfg, s, step), step.t);
  }

  lemma HolderIs(s: Sys, t: nat)
    requires Exclusive(s) && t < |s.threads|
    ensures HoldsLock(s.threads[t]) ==> s.lock == Some(t)
  {}

  lemma ExclusiveSpawn(s: Sys, step: Step, s': Sys)
    requires Exclusive(s) && !OfThread(step) && Spawned(s, step, s')
    ensures Exclusive(s')
  {}

  lemma StepKeepsExclusive(cfg: Config, s: Sys, step: Step)
    requires Enabled(cfg, s, step) && Exclusive(s)
    ensures Exclusive(Do(cfg, s, step))
  {
    hide Do, Enabled, Exclusive, Spawned;
    if OfThread(step) {
      ThreadStepKeepsExclusive(cfg, s, step);
    } else {
      OtherStep(cfg, s, step);
      ExclusiveSpawn(s, step, Do(cfg, s, step));
    }
  }

  /** What the lock holder has checked stays true until it appends. */
  ghost predicate StillClear(cfg: Config, s: Sys) {
    s.lock.Some? && s.lock.value < |s.threads| ==>
      var ph := s.threads[s.lock.value];
      && (ph.Cleared? ==> MayAttempt(cfg, s, Fold(s.log)))
      && (ph.Rearmed? ==> Fold(s.log).used == 0 && Fold(s.log).last.None?)
  }

  function BudgetCap(cfg: Config): int {
    if cfg.reviveMax < 1 then 1 else cfg.reviveMax
  }

  /** A failed read never lets an attempt through. */
  predicate ReadsAreSafe(cfg: Config) {
    !cfg.readFaults || cfg.reviveMax <= UNREADABLE.used
  }

  ghost predicate Budgeted(cfg: Config, s: Sys) {
    && Exclusive(s)
    && StillClear(cfg, s)
    && WithinBudget(s.log, BudgetCap(cfg))
    && Timed(s.log, s.now)
    && Spaced(s.log, cfg.cooldown)
  }

  /** What a step logs leaves the ledger's count and last attempt alone, unless it
      consumes or re-arms. */
  lemma StepKeepsLedger(cfg: Config, s: Sys, step: Step)
    requires Enabled(cfg, s, step) && !step.Consume? && !step.Redeem? && !step.Resume?
    ensures var l, l' := Fold(s.log), Fold(Do(cfg, s, step).log); l'.used == l.used && l'.last == l.last
  {
    hide Fold, Do, Enabled, Event;
    StepAppends(cfg, s, step);
    EventOf(cfg, s, step);
    if Event(cfg, s, step).Some? {
      FoldAppend(s.log, Event(cfg, s, step).value);
    }
  }

  /** A read that lets an attempt through has just seen that it may. */
  lemma ReadClears(cfg: Config, s: Sys, step: Step)
    requires Enabled(cfg, s, step) && ReadsAreSafe(cfg) && step.ReadLedger?
    ensures var s' := Do(cfg, s, step);
            s'.log == s.log && s'.now == s.now
            && (s'.threads[step.t].Cleared? ==> MayAttempt(cfg, s', Fold(s'.log)))
  {
    hide Fold, EnabledCreate, DoCreate, EnabledComplete, DoComplete, EnabledTurn, DoTurn;
  }

  /** A re-arm leaves a fresh ledger. */
  lemma ResumeClears(cfg: Config, s: Sys, step: Step)
    requires Enabled(cfg, s, step) && step.Resume?
    ensures var s' := Do(cfg, s, step); s'.log != s.log ==> Fold(s'.log).used == 0 && Fold(s'.log).last.None?
  {
    hide Fold, EnabledCreate, DoCreate, EnabledComplete, DoComplete, EnabledTurn, DoTurn;
    FoldAppend(s.log, Resumed);
  }

  /** The holder of the lock, if it is cleared or re-armed, was there before the step and
      the step was not its own, unless it is the step that put it there. */
  lemma HolderStays(cfg: Config, s: Sys, step: Step, h: nat)
    requires Enabled(cfg, s, step) && Exclusive(s) && !step.ReadLedger? && !step.Resume?
    requires var s' := Do(cfg, s, step);
             s'.lock == Some(h) && h < |s'.threads| && (s'.threads[h].Cleared? || s'.threads[h].Rearmed?)
    ensures s.lock == Some(h) && h < |s.threads| && s.threads[h] == Do(cfg, s, step).threads[h]
    ensures !step.Consume? && !step.Redeem?
  {
    hide Do;
    if OfThread(step) {
      ThreadStep(cfg, s, step);
      HolderIs(s, step.t);
      LockMoves(cfg, s, step);
      ConsumerReleases(cfg, s, step);
    } else {
      hide Enabled;
      OtherStep(cfg, s, step);
    }
  }

  lemma ConsumerReleases(cfg: Config, s: Sys, step: Step)
    requires Enabled(cfg, s, step)
    ensures step.Consume? || step.Redeem? ==>
              step.t < |s.threads| && HoldsLock(s.threads[step.t]) && Do(cfg, s, step).lock.None?
  {
    hide EnabledCreate, DoCreate, EnabledComplete, DoComplete, EnabledTurn, DoTurn, Put, LedgerOf;
  }

  lemma ReadKeepsStillClear(cfg: Config, s: Sys, step: Step)
    requires Enabled(cfg, s, step) && step.ReadLedger? && Moved(s, step, Do(cfg, s, step), step.t) && Exclusive(s)
    requires var s' := Do(cfg, s, step); s'.threads[step.t].Cleared? ==> MayAttempt(cfg, s', Fold(s'.log))
    ensures StillClear(cfg, Do(cfg, s, step))
  {
    hide Fold, EnabledCreate, DoCreate, EnabledComplete, DoComplete, EnabledTurn, DoTurn, MayAttempt;
  }

  lemma ResumeWaitsForLock(cfg: Config, s: Sys, step: Step)
    requires Enabled(cfg, s, step) && step.Resume? && Spawned(s, step, Do(cfg, s, step)) && StillClear(cfg, s)
    requires var s' := Do(cfg, s, step); s'.log != s.log ==> Fold(s'.log).used == 0 && Fold(s'.log).last.None?
    ensures StillClear(cfg, Do(cfg, s, step))
  {
    hide Fold, EnabledCreate, DoCreate, EnabledComplete, DoComplete, EnabledTurn, DoTurn, MayAttempt;
  }

  lemma StepKeepsStillClear(cfg: Config, s: Sys, step: Step)
    requires Enabled(cfg, s, step) && ReadsAreSafe(cfg) && Exclusive(s) && StillClear(cfg, s)
    ensures StillClear(cfg, Do(cfg, s, step))
  {
    hide Do, Enabled, Fold, Exclusive;
    var s' := Do(cfg, s, step);
    if step.ReadLedger? {
      ThreadStep(cfg, s, step);
      ReadClears(cfg, s, step);
      ReadKeepsStillClear(cfg, s, step);
    } else if step.Resume? {
      OtherStep(cfg, s, step);
      ResumeClears(cfg, s, step);
      ResumeWaitsForLock(cfg, s, step);
    } else if s'.lock.Some? && s'.lock.value < |s'.threads| {
      var h := s'.lock.value;
      if s'.threads[h].Cleared? || s'.threads[h].Rearmed? {
        HolderStays(cfg, s, step, h);
        StepKeepsLedger(cfg, s, step);
        StepShows(cfg, s, step);
      }
    }
  }

  lemma StepKeepsBudgeted(cfg: Config, s: Sys, step: Step)
    requires Enabled(cfg, s, step) && ReadsAreSafe(cfg) && Budgeted(cfg, s)
    ensures Budgeted(cfg, Do(cfg, s, step))
  {
    hide Do, Enabled, Event, Exclusive, StillClear, Fold, WithinBudget, Spaced, Timed;
    StepKeepsExclusive(cfg, s, step);
    StepKeepsStillClear(cfg, s, step);
    StepAppends(cfg, s, step);
    ConsumptionWasCleared(cfg, s, step);
    StepShows(cfg, s, step);
    var s', k := Do(cfg, s, step), Event(cfg, s, step);
    if k.Some? {
      assert s'.log == s.log + [k.value];
      BudgetAppend(s.log, k.value, BudgetCap(cfg));
      SpacedAppend(s.log, k.value, s.now, cfg.cooldown);
      TimedAppend(s.log, k.value, s.now);
    }
    TimedLater(s'.log, s.now, s'.now);
  }

  lemma TimedLater(log: seq<Kind>, now: nat, later: nat)
    requires Timed(log, now) && now <= later
    ensures Timed(log, later)
  {}

  lemma ConsumptionWasCleared(cfg: Config, s: Sys, step: Step)
    requires Enabled(cfg, s, step) && Exclusive(s) && StillClear(cfg, s) && Timed(s.log, s.now)
    ensures var k := Event(cfg, s, step);
            k.Some? && k.value.ReviveConsumed? ==>
              && k.value.at == Some(s.now)
              && Fold(s.log).used + 1 <= BudgetCap(cfg)
              && (Fold(s.log).last.Some? ==> s.now >= Fold(s.log).last.value + cfg.cooldown)
  {
    hide Fold;
  }

  lemma InitBudgeted(cfg: Config)
    ensures Budgeted(cfg, INIT)
  {}

  lemma {:induction false} RunBudgeted(cfg: Config, r: Run, i: nat)
    requires IsRun(cfg, r) && i < |r.states| && ReadsAreSafe(cfg)
    ensures Budgeted(cfg, r.states[i])
  {
    hide Do, Enabled, Budgeted;
    if i == 0 {
      InitBudgeted(cfg);
    } else {
      RunBudgeted(cfg, r, i - 1);
      StepKeepsBudgeted(cfg, r.states[i - 1], r.steps[i - 1]);
    }
  }

  // ---- when budget and spacing break ----

  /** A paused session about to ask for an attempt, n consumptions in, all at the
      same instant and never re-armed. */
  ghost predicate Overspending(cfg: Config, s: Sys, n: nat) {
    && Reachable(cfg, s)
    && s.session == SessionPaused && s.threads == [WantAttempt] && s.lock.None? && !s.pending && !s.closed
    && s.now == 1 && s.marks == [PromptAccepted]
    && Books(s.log, 0, n, false)
    && NoRearm(s.log, 0, |s.log|)
    && (n >= 1 ==> |s.log| >= 2 && s.log[|s.log| - 2] == ReviveConsumed(Some(1)))
  }

  lemma NoRearmAppend(log: seq<Kind>, k: Kind)
    requires NoRearm(log, 0, |log|) && !k.Resumed?
    ensures NoRearm(log + [k], 0, |log + [k]|)
  {}

  lemma StartOverspending(cfg: Config) returns (s: Sys)
    ensures Overspending(cfg, s, 0)
  {
    hide Reachable, Fold, Books, Do, Enabled;
    s := PausedThenRestart(cfg);
    OpenOf(s.log, 0, 0, false);
    s := TakeStartupRead(cfg, s, 0);
  }

  /** A failed read lets an attempt through whatever the ledger says, and its hold fails. */
  lemma SpendBlind(cfg: Config, s0: Sys) returns (s: Sys, spent: Sys)
    requires Reachable(cfg, s0) && cfg.readFaults && cfg.reviveMax > UNREADABLE.used
    requires s0.threads == [WantAttempt] && s0.lock.None? && !s0.closed
    ensures Reachable(cfg, spent) && spent.log == s0.log + [ReviveConsumed(Some(s0.now))]
    ensures Reachable(cfg, s) && s == s0.(threads := [Done], log := spent.log + [ReviveAbandoned])
  {
    hide Reachable, EnabledCreate, DoCreate, EnabledComplete, DoComplete, EnabledTurn, DoTurn, Fold;
    s := Take(cfg, s0, ReadLedger(0, false));
    assert s == s0.(threads := [Cleared], lock := Some(0));
    s := Take(cfg, s, Consume(0, true));
    spent := s;
    assert s.threads == [Holding];
    s := Take(cfg, s, HoldDown(0, true));
  }

  /** One failed read, one consumption that ignores the ledger, one failed hold and
      one restart. */
  lemma OverspendOnce(cfg: Config, s0: Sys, n: nat) returns (s: Sys, spent: Sys)
    requires Overspending(cfg, s0, n) && cfg.readFaults && cfg.reviveMax > UNREADABLE.used
    ensures Overspending(cfg, s, n + 1)
    ensures Reachable(cfg, spent) && spent.log == s0.log + [ReviveConsumed(Some(1))]
  {
    hide Reachable, Fold, Books, NoRearm, Replay, ReplayStatus, Do, Enabled;
    s, spent := SpendBlind(cfg, s0);
    BooksAppend(s0.log, ReviveConsumed(Some(1)), 0, n, false);
    NoRearmAppend(s0.log, ReviveConsumed(Some(1)));
    BooksAppend(spent.log, ReviveAbandoned, 0, n + 1, true);
    NoRearmAppend(spent.log, ReviveAbandoned);
    ProjectionsAgree(cfg, s);
    s := TakeRestart(cfg, s);
    OpenOf(s.log, 0, n + 1, false);
    s := TakeStartupRead(cfg, s, 0);
  }

  lemma {:induction false} Overspend(cfg: Config, n: nat) returns (s: Sys)
    requires cfg.readFaults && cfg.reviveMax > UNREADABLE.used
    ensures Overspending(cfg, s, n)
  {
    hide Overspending;
    if n == 0 {
      s := StartOverspending(cfg);
    } else {
      s := Overspend(cfg, n - 1);
      var spent: Sys;
      s, spent := OverspendOnce(cfg, s, n - 1);
    }
  }

  /** Revive budget: no reachable log ever has more than max(1, reviveMax)
      consumptions between two re-arms, exactly when log reads never fail or the
      budget is no larger than what a failed read counts as. */
  lemma BudgetIff(cfg: Config)
    ensures (forall s :: Reachable(cfg, s) ==> WithinBudget(s.log, BudgetCap(cfg))) <==> ReadsAreSafe(cfg)
  {
    hide WithinBudget, Do, Enabled;
    if ReadsAreSafe(cfg) {
      forall s | Reachable(cfg, s)
        ensures WithinBudget(s.log, BudgetCap(cfg))
      {
        var r :| IsRun(cfg, r) && Last(r) == s;
        RunBudgeted(cfg, r, |r.states| - 1);
      }
    } else {
      var s := Overspend(cfg, cfg.reviveMax + 1);
      OverBudget(s.log, cfg.reviveMax + 1, cfg.reviveMax);
    }
  }

  lemma OverBudget(log: seq<Kind>, n: nat, cap: int)
    requires Consumptions(log) == n > cap && NoRearm(log, 0, |log|)
    ensures !WithinBudget(log, cap)
  {
    assert log[0..|log|] == log;
  }

  /** Revive spacing: consumptions with no re-arm between them are at least the
      cooldown apart, although the cooldown wait releases the lock and the ledger is
      folded from the log again, exactly under the same condition (or with no
      cooldown to keep). */
  lemma SpacingIff(cfg: Config)
    ensures (forall s :: Reachable(cfg, s) ==> Spaced(s.log, cfg.cooldown)) <==> ReadsAreSafe(cfg) || cfg.cooldown == 0
  {
    hide Spaced, Do, Enabled;
    if ReadsAreSafe(cfg) {
      forall s | Reachable(cfg, s)
        ensures Spaced(s.log, cfg.cooldown)
      {
        var r :| IsRun(cfg, r) && Last(r) == s;
        RunBudgeted(cfg, r, |r.states| - 1);
      }
    } else if cfg.cooldown == 0 {
      forall s | Reachable(cfg, s)
        ensures Spaced(s.log, 0)
      {
        UncooledRuns(cfg, s);
      }
    } else {
      var s1 := Overspend(cfg, 1);
      var s2, spent := OverspendOnce(cfg, s1, 1);
      TooClose(s1.log, cfg.cooldown);
    }
  }

  lemma TooClose(log: seq<Kind>, cooldown: nat)
    requires cooldown > 0 && |log| >= 2 && log[|log| - 2] == ReviveConsumed(Some(1)) && NoRearm(log, 0, |log|)
    ensures !Spaced(log + [ReviveConsumed(Some(1))], cooldown)
  {
    var log' := log + [ReviveConsumed(Some(1))];
    var i, j := |log| - 2, |log|;
    assert forall k :: i <= k < j ==> log'[k] == log[k];
    assert Apart(log', i, j);
  }

  // With no cooldown the clock alone keeps the order.

  ghost predicate Clocked(s: Sys) {
    Timed(s.log, s.now) && Spaced(s.log, 0)
  }

  lemma {:induction false} RunClocked(cfg: Config, r: Run, i: nat)
    requires IsRun(cfg, r) && i < |r.states|
    ensures Clocked(r.states[i])
  {
    hide Do, Enabled, Timed, Spaced;
    if i == 0 {
      InitBudgeted(cfg.(cooldown := 0));
    } else {
      RunClocked(cfg, r, i - 1);
      StepKeepsClocked(cfg, r.states[i - 1], r.steps[i - 1]);
    }
  }

  lemma StepKeepsClocked(cfg: Config, s: Sys, step: Step)
    requires Enabled(cfg, s, step) && Clocked(s)
    ensures Clocked(Do(cfg, s, step))
  {
    hide Do, Enabled, Event, Fold, Spaced, Timed;
    StepAppends(cfg, s, step);
    StepShows(cfg, s, step);
    EventOf(cfg, s, step);
    var s', k := Do(cfg, s, step), Event(cfg, s, step);
    if k.Some? {
      assert s'.log == s.log + [k.value];
      LastIsPast(s.log, s.now);
      SpacedAppend(s.log, k.value, s.now, 0);
      TimedAppend(s.log, k.value, s.now);
    }
    TimedLater(s'.log, s.now, s'.now);
  }

  lemma LastIsPast(log: seq<Kind>, now: nat)
    requires Timed(log, now)
    ensures Fold(log).last.Some? ==> Fold(log).last.value <= now
  {}

  lemma UncooledRuns(cfg: Config, s: Sys)
    requires Reachable(cfg, s)
    ensures Spaced(s.log, 0)
  {
    hide Do, Enabled, Timed, Spaced;
    var r :| IsRun(cfg, r) && Last(r) == s;
    RunClocked(cfg, r, |r.states| - 1);
  }

  // ---- when an attempt goes through ----

  /** There is no cooldown, or it has passed since the last dated attempt of the stretch. */
  ghost predicate Cooled(cfg: Config, s: Sys, i: nat) {
    cfg.cooldown == 0 || forall j: nat :: LatestAttempt(s.log, i, j) ==> s.now >= s.log[j].at.value + cfg.cooldown
  }

  lemma CooledIs(cfg: Config, s: Sys, i: nat)
    requires Stretch(s.log, i)
    ensures Cooled(cfg, s, i) <==> CooldownRemaining(Fold(s.log), s.now, cfg.cooldown) == 0
  {
    hide Fold, Stretch;
    LastIs(s.log, i);
    if Fold(s.log).last.Some? {
      var j: nat :| LatestAttempt(s.log, i, j);
    }
  }

  /** A goroutine that reads the ledger gives up when the consumptions since the last
      re-arm have reached the budget, waits out the cooldown, and otherwise takes the lock
      and goes on to its attempt. */
  lemma ReadDecides(cfg: Config, s: Sys, t: nat, i: nat)
    requires At(s, t, WantAttempt) && s.lock.None? && Stretch(s.log, i)
    ensures Enabled(cfg, s, ReadLedger(t, true))
    ensures Do(cfg, s, ReadLedger(t, true)) ==
            if Consumptions(s.log[i..]) >= cfg.reviveMax then Move(s, t, Done)
            else if !Cooled(cfg, s, i) then s
            else Move(s, t, Cleared).(lock := Some(t))
  {
    hide Fold, Consumptions, Stretch, Cooled, CooldownRemaining, EnabledCreate, DoCreate, EnabledComplete,
         DoComplete, EnabledTurn, DoTurn;
    UsedIs(s.log, i);
    CooledIs(cfg, s, i);
  }

  /** The attempt itself: the lock is taken, the consumption recorded, the lock released. */
  lemma TakeAttempt(cfg: Config, s0: Sys, t: nat, i: nat) returns (s: Sys)
    requires Reachable(cfg, s0) && At(s0, t, WantAttempt) && s0.lock.None? && !s0.closed
    requires Stretch(s0.log, i) && Consumptions(s0.log[i..]) < cfg.reviveMax && Cooled(cfg, s0, i)
    ensures Reachable(cfg, s)
    ensures s == s0.(threads := s0.threads[t := Holding], log := s0.log + [ReviveConsumed(Some(s0.now))])
  {
    hide Reachable, Fold, Consumptions, Stretch, Cooled, EnabledCreate, DoCreate, EnabledComplete, DoComplete,
         EnabledTurn, DoTurn, CooldownRemaining, Remaining;
    ReadDecides(cfg, s0, t, i);
    s := Take(cfg, s0, ReadLedger(t, true));
    s := Take(cfg, s, Consume(t, true));
  }

  /** The cooldown passes with the clock. */
  lemma WaitUntilCooled(cfg: Config, s0: Sys, i: nat) returns (s: Sys)
    requires Reachable(cfg, s0)
    ensures Reachable(cfg, s) && Cooled(cfg, s, i)
    ensures s == s0.(now := s.now) && s0.now <= s.now && (Cooled(cfg, s0, i) ==> s == s0)
  {
    hide Reachable, EnabledCreate, DoCreate, EnabledLedger, DoLedger, EnabledComplete, DoComplete, Rebuilt,
         ReplayStatus;
    if Cooled(cfg, s0, i) {
      s := s0;
    } else {
      var j: nat :| LatestAttempt(s0.log, i, j);
      s := Take(cfg, s0, Tick(s0.log[j].at.value + cfg.cooldown));
      assert forall m: nat :: LatestAttempt(s.log, i, m) ==> m == j;
    }
  }

  /** A paused session recovers: with budget left, a goroutine that wants an attempt can
      spend one, at once or when the cooldown has passed, bring the session back and reopen
      the prompt gate. */
  lemma PausedRecovers(cfg: Config, s0: Sys, t: nat, i: nat) returns (s: Sys)
    requires Reachable(cfg, s0) && At(s0, t, WantAttempt) && s0.lock.None? && !s0.closed
    requires s0.session == SessionPaused
    requires Stretch(s0.log, i) && Consumptions(s0.log[i..]) < cfg.reviveMax
    ensures Reachable(cfg, s) && AcceptsPrompt(s) && s0.now <= s.now && (Cooled(cfg, s0, i) ==> s.now == s0.now)
    ensures s.log == s0.log + [ReviveConsumed(Some(s.now))] + [Revived] + [Settled]
  {
    hide Reachable, Fold, Consumptions, Stretch, Cooled, Replay, ReplayStatus, Do, Enabled;
    s := WaitUntilCooled(cfg, s0, i);
    s := TakeAttempt(cfg, s, t, i);
    s := ReviveBy(cfg, s, t);
    s := TakeMarkReady(cfg, s, t);
  }

  // ---- the prompt gate ----

  /** A prompt the daemon rejects changes nothing; one it accepts is marked, and when its
      reply arrives makes the agent working, with the turn on the log if the store accepts
      it. */
  lemma PromptEffect(cfg: Config, s: Sys, ack: Ack, ok: bool)
    requires Enabled(cfg, s, Prompt(ack, ok))
    ensures Do(cfg, s, Prompt(ack, ok)) ==
            if ack.Rejected? then s
            else if ack.LostAck? then s.(marks := s.marks + [PromptAccepted])
            else if !ok || s.closed then s.(marks := s.marks + [PromptAccepted], status := StatusWorking)
            else s.(marks := s.marks + [PromptAccepted], status := StatusWorking, session := SessionRunning,
                    log := s.log + [TurnStarted])
  {
    hide EnabledCreate, DoCreate, EnabledLedger, DoLedger, EnabledComplete, DoComplete, Rebuilt, ReplayStatus;
  }

  /** The pending flag is taken once: a pull that finds no paused session leaves everything
      else, and a revive the store refuses goes back to pulling with the lock released. */
  lemma PendingIsSpent(cfg: Config, s: Sys, t: nat)
    requires At(s, t, Pulling) && s.lock.None?
    ensures Enabled(cfg, s, TakePending(t))
    ensures var s1 := Do(cfg, s, TakePending(t));
            && !s1.pending
            && (!s.pending || s.session != SessionPaused ==> s1 == s.(pending := false))
            && (s.pending && s.session == SessionPaused ==>
                  Enabled(cfg, s1, ReviveEdge(t, false)) && Do(cfg, s1, ReviveEdge(t, false)) == s.(pending := false))
  {
    hide EnabledCreate, DoCreate, EnabledLedger, DoLedger, EnabledTurn, DoTurn;
    assert s.threads[t := Completing][t := Pulling] == s.threads;
  }

  /** A settle record read by the pull loop ends the turn and reopens the gate. */
  lemma SettleReopens(cfg: Config, s0: Sys, t: nat) returns (s: Sys)
    requires Reachable(cfg, s0) && At(s0, t, Pulling) && !s0.closed
    requires s0.session == SessionRunning && s0.status == StatusWorking
    ensures Reachable(cfg, s) && AcceptsPrompt(s) && s.log == s0.log + [Settled] && s.threads == s0.threads
  {
    hide Reachable, Replay, ReplayStatus, EnabledCreate, DoCreate, EnabledLedger, DoLedger, EnabledComplete,
         DoComplete;
    s := Take(cfg, s0, SeeSettled(t));
    s := Take(cfg, s, SettleTurn(t, true));
    assert s.threads == s0.threads;
  }

  /** A failure writes the failed status over any but a terminal one, and records itself
      when the store accepts it. */
  lemma FailureWrites(cfg: Config, s: Sys, ok: bool)
    requires Enabled(cfg, s, FailAgent(ok))
    ensures var s' := Do(cfg, s, FailAgent(ok));
            && s'.status == (if s.status == StatusTerminated then StatusTerminated else StatusFailed)
            && s'.session == s.session && s'.threads == s.threads && !AcceptsPrompt(s')
            && s'.log == s.log + (if ok && !s.closed && s.status != StatusFailed && s.status != StatusTerminated
                                  then [Failed] else [])
  {
    hide EnabledCreate, DoCreate, EnabledLedger, DoLedger, EnabledComplete, DoComplete, Rebuilt;
    assert s.log + [] == s.log;
  }

  predicate Shut(s: Sys) {
    s.status != StatusReady && s.status != StatusWorking
  }

  predicate Reopens(step: Step) {
    step.MarkReady? || step.MarkStarted? || step.Restart?
  }

  /** A failure, a delete and a refused start. */
  predicate Shuts(s: Sys, step: Step) {
    || step.FailAgent? || step.PauseFail? || step.Delete?
    || (step.StartSession? && !(Legal(s.session, SessionReady) && step.ok && !s.closed))
  }

  lemma ShutsTheGate(cfg: Config, s: Sys, step: Step)
    requires Enabled(cfg, s, step) && Shuts(s, step)
    ensures Shut(Do(cfg, s, step))
  {
    hide EnabledLedger, DoLedger, EnabledComplete, DoComplete, Rebuilt, ReplayStatus;
  }

  lemma StepKeepsShut(cfg: Config, s: Sys, step: Step)
    requires Enabled(cfg, s, step) && Shut(s) && !Reopens(step)
    ensures Shut(Do(cfg, s, step))
  {
    hide Do;
    StepShows(cfg, s, step);
  }

  lemma {:induction false} RunKeepsShut(cfg: Config, r: Run, a: nat, i: nat)
    requires IsRun(cfg, r) && a <= i < |r.states| && Shut(r.states[a])
    requires forall k :: a <= k < i ==> !Reopens(r.steps[k])
    ensures Shut(r.states[i])
    decreases i - a
  {
    hide Do, Enabled, Shut, Reopens;
    if a < i {
      RunKeepsShut(cfg, r, a, i - 1);
      StepKeepsShut(cfg, r.states[i - 1], r.steps[i - 1]);
    }
  }

  /** After a failure, a delete or a refused start no prompt is accepted until a revive's
      or Create's status write or a restart. */
  lemma ShutUntil(cfg: Config, r: Run, a: nat, b: nat) returns (k: nat)
    requires IsRun(cfg, r) && a < b < |r.steps| && Shuts(r.states[a], r.steps[a]) && Accepted(r.steps[b])
    ensures a < k < b && Reopens(r.steps[k])
  {
    hide Do, Enabled, Reopens, Accepted, Shut, Shuts;
    ShutsTheGate(cfg, r.states[a], r.steps[a]);
    if forall i :: a < i < b ==> !Reopens(r.steps[i]) {
      RunKeepsShut(cfg, r, a + 1, b);
      ReadyIsOpen(cfg, r.states[b], r.steps[b]);
      assert false;
    }
    k :| a < k < b && Reopens(r.steps[k]);
  }

  lemma ReadyIsOpen(cfg: Config, s: Sys, step: Step)
    requires Enabled(cfg, s, step) && Accepted(step)
    ensures !Shut(s)
  {
    hide Do;
  }

  /** A death during a turn: the pull loop pauses the session, fails the agent and goes on
      to want an attempt. */
  lemma DeathWantsAttempt(cfg: Config, s0: Sys, t: nat, ok: bool) returns (s: Sys)
    requires Reachable(cfg, s0) && At(s0, t, Pulling) && s0.session == SessionRunning && !s0.closed
    ensures Reachable(cfg, s) && At(s, t, WantAttempt) && s.session == SessionPaused && Shut(s)
    ensures s.lock == s0.lock && s.pending == s0.pending && s.now == s0.now && !s.closed
    ensures s.log == s0.log + [Paused] + if ok && !Down(s0) then [Failed] else []
  {
    hide Reachable, EnabledCreate, DoCreate, EnabledLedger, DoLedger, EnabledComplete, DoComplete, Rebuilt,
         ReplayStatus;
    s := TakePause(cfg, s0, t);
    s := Take(cfg, s, PauseFail(t, ok));
    assert s0.log + [Paused] + [] == s0.log + [Paused];
  }

  /** A delete of a live session ends its log with agent.terminated, when the store accepts
      it, and closes the hub either way. */
  lemma DeleteEnds(cfg: Config, s0: Sys, ok: bool) returns (s: Sys)
    requires Reachable(cfg, s0) && !Unregistered(s0) && !s0.closed && s0.session != SessionTerminated
    ensures Reachable(cfg, s) && s.closed && s.status == StatusTerminated
    ensures s.log == s0.log + if ok then [Terminated] else []
    ensures s.session == if ok then SessionTerminated else s0.session
  {
    hide Reachable, EnabledCreate, DoCreate, EnabledLedger, DoLedger, EnabledComplete, DoComplete, Rebuilt,
         ReplayStatus;
    s := Take(cfg, s0, Delete);
    assert s.threads[|s0.threads|] == Deleting;
    s := Take(cfg, s, DeleteAppend(|s0.threads|, ok));
    assert s0.log + [] == s0.log;
  }

  /** The steps that close the hub. */
  predicate ClosesHub(s: Sys, step: Step) {
    step.DeleteAppend? || (step.StartSession? && !(Legal(s.session, SessionReady) && step.ok && !s.closed))
  }

  predicate HubMoved(s: Sys, step: Step, s': Sys) {
    && (s'.closed <==> !step.Restart? && (s.closed || ClosesHub(s, step)))
    && (s.closed ==> s'.log == s.log)
  }

  lemma HubMovesOnCreate(cfg: Config, s: Sys, step: Step)
    requires Enabled(cfg, s, step) && CreateStep(step)
    ensures HubMoved(s, step, Do(cfg, s, step))
  {
    hide EnabledLedger, DoLedger, EnabledComplete, DoComplete, EnabledTurn, DoTurn, Replay,
         ReplayStatus, LedgerOf, Remaining, CooldownRemaining, TurnHidden;
  }

  lemma HubMovesOnLedger(cfg: Config, s: Sys, step: Step)
    requires Enabled(cfg, s, step) && LedgerStep(step)
    ensures HubMoved(s, step, Do(cfg, s, step))
  {
    hide EnabledCreate, DoCreate, EnabledComplete, DoComplete, EnabledTurn, DoTurn, Replay,
         ReplayStatus, LedgerOf, Remaining, CooldownRemaining, TurnHidden;
  }

  lemma HubMovesOnComplete(cfg: Config, s: Sys, step: Step)
    requires Enabled(cfg, s, step) && CompleteStep(step)
    ensures HubMoved(s, step, Do(cfg, s, step))
  {
    hide EnabledCreate, DoCreate, EnabledLedger, DoLedger, EnabledTurn, DoTurn, Replay,
         ReplayStatus, LedgerOf, Remaining, CooldownRemaining, TurnHidden;
  }

  lemma HubMovesOnTurn(cfg: Config, s: Sys, step: Step)
    requires Enabled(cfg, s, step) && !CreateStep(step) && !LedgerStep(step) && !CompleteStep(step)
    ensures HubMoved(s, step, Do(cfg, s, step))
  {
    hide EnabledCreate, DoCreate, EnabledLedger, DoLedger, EnabledComplete, DoComplete, Replay,
         ReplayStatus, LedgerOf, Remaining, CooldownRemaining, TurnHidden;
  }

  /** The hub is closed by the end of a delete and by a refused start, and opened again by
      a restart only; while it is closed nothing is appended. */
  lemma ClosedIsSilent(cfg: Config, s: Sys, step: Step)
    requires Enabled(cfg, s, step)
    ensures var s' := Do(cfg, s, step);
            && (s'.closed <==> !step.Restart? && (s.closed || ClosesHub(s, step)))
            && (s.closed ==> s'.log == s.log)
  {
    hide Do, Enabled, CreateStep, LedgerStep, CompleteStep, ClosesHub;
    if CreateStep(step) {
      HubMovesOnCreate(cfg, s, step);
    } else if LedgerStep(step) {
      HubMovesOnLedger(cfg, s, step);
    } else if CompleteStep(step) {
      HubMovesOnComplete(cfg, s, step);
    } else {
      HubMovesOnTurn(cfg, s, step);
    }
  }

  /** A stopped goroutine takes no further step. */
  lemma StoppedTakesNone(cfg: Config, s: Sys, t: nat, step: Step)
    requires Enabled(cfg, s, Stop(t)) && (OfThread(step) || step.Launch?) && step.t == t
    ensures !Enabled(cfg, Do(cfg, s, Stop(t)), step)
  {
    hide Replay, ReplayStatus, LedgerOf, Rebuilt, TurnHidden;
  }

  // ---- a single prompt in flight ----

  /** Between any two prompts the daemon accepted, a settle was observed or a revive
      completed. */
  ghost predicate SinglePrompt(marks: seq<Mark>) {
    forall i, j :: 0 <= i < j < |marks| && marks[i].PromptAccepted? && marks[j].PromptAccepted? ==>
      exists k :: i < k < j && !marks[k].PromptAccepted?
  }

  lemma SinglePromptAppend(marks: seq<Mark>, m: Mark)
    requires SinglePrompt(marks) && (m.PromptAccepted? ==> !Unsettled(marks))
    ensures SinglePrompt(marks + [m])
  {
    var marks' := marks + [m];
    forall i, j | 0 <= i < j < |marks'| && marks'[i].PromptAccepted? && marks'[j].PromptAccepted?
      ensures exists k :: i < k < j && !marks'[k].PromptAccepted?
    {
      if j < |marks| {
        var k :| i < k < j && !marks[k].PromptAccepted?;
        assert !marks'[k].PromptAccepted?;
      } else {
        assert !marks'[j - 1].PromptAccepted?;
      }
    }
  }

  /** While a prompt is unsettled the agent's status is not ready. */
  predicate Guarded(s: Sys) {
    Unsettled(s.marks) ==> s.status != StatusReady
  }

  /** The steps that can leave an unsettled prompt behind a ready status: a lost
      acknowledgement, a restart from a log that hides the turn, and the status write of
      a revive after a prompt accepted since its agent.revived. */
  predicate Exposes(s: Sys, step: Step) {
    || (step.Prompt? && step.ack.LostAck?)
    || (step.Restart? && Unsettled(s.marks) && TurnHidden(s))
    || (step.MarkReady? && Unsettled(s.marks))
  }

  // ---- the status write of Create ----

  predicate Bystander(ph: Phase) {
    BeingCreated(ph) || ph.Pulling? || ph.Done? || ph.Deleting?
  }

  /** Until Create has returned no prompt was accepted and the status was never ready. */
  predicate Newborn(s: Sys) {
    && s.marks == [] && s.status != StatusReady && s.status != StatusWorking
    && (s.session == SessionProvision || s.session == SessionReady || s.session == SessionTerminated)
    && forall t :: 0 <= t < |s.threads| ==> Bystander(s.threads[t])
  }

  predicate Young(s: Sys) {
    && (s.threads != [] && BeingCreated(s.threads[0]) ==> Newborn(s))
    && forall t :: 0 < t < |s.threads| ==> !BeingCreated(s.threads[t])
  }

  predicate EarlyStep(step: Step) {
    step.Provision? || step.StartSession? || step.MarkStarted? || step.TakePending? || step.Stop? || step.DeleteAppend?
  }

  /** The goroutine steps there are while an agent is being created. */
  lemma NewbornSteps(cfg: Config, s: Sys, step: Step)
    requires Enabled(cfg, s, step) && OfThread(step) && step.t < |s.threads|
    requires Bystander(s.threads[step.t]) && s.status != StatusWorking && s.session != SessionRunning
    ensures EarlyStep(step)
  {
    hide Do, LedgerOf, ReplayStatus;
  }

  lemma EarlyEvents(cfg: Config, s: Sys, step: Step)
    requires Enabled(cfg, s, step) && (EarlyStep(step) || !OfThread(step)) && Newborn(s)
    ensures var k := Event(cfg, s, step);
            k.Some? && Moving(k.value) ==> k.value.Started? || k.value.Terminated?
    ensures NewMarks(s, step) == []
  {
    hide Do, Commits, Bystander, LedgerOf, ReplayStatus;
  }

  lemma NewbornFields(cfg: Config, s: Sys, step: Step)
    requires Enabled(cfg, s, step) && EarlyStep(step) && Newborn(s)
    ensures var s' := Do(cfg, s, step);
            && s'.marks == []
            && (s'.session == SessionProvision || s'.session == SessionReady || s'.session == SessionTerminated)
            && (step.MarkStarted? || (s'.status != StatusReady && s'.status != StatusWorking))
  {
    hide Do, Bystander;
    StepAppends(cfg, s, step);
    StepShows(cfg, s, step);
    EarlyEvents(cfg, s, step);
    hide Enabled, Event;
    assert s.marks + [] == s.marks;
  }

  lemma NewbornThread(cfg: Config, s: Sys, step: Step)
    requires Enabled(cfg, s, step) && EarlyStep(step) && step.t < |s.threads| == |Do(cfg, s, step).threads|
    requires s.session != SessionPaused && Bystander(s.threads[step.t])
    ensures Bystander(Do(cfg, s, step).threads[step.t])
    ensures step.MarkStarted? ==> BeingCreated(s.threads[step.t]) && !BeingCreated(Do(cfg, s, step).threads[step.t])
  {
    hide LedgerOf, Remaining, CooldownRemaining, Replay, ReplayStatus, Put, Fail, Commits, Takes, Transit;
  }

  lemma NewbornMoves(cfg: Config, s: Sys, step: Step)
    requires Enabled(cfg, s, step) && OfThread(step) && Moved(s, step, Do(cfg, s, step), step.t)
    requires Newborn(s) && s.threads != [] && (forall t :: 0 < t < |s.threads| ==> !BeingCreated(s.threads[t]))
    ensures BeingCreated(Do(cfg, s, step).threads[0]) ==> Newborn(Do(cfg, s, step))
  {
    hide Do, Enabled;
    assert Bystander(s.threads[step.t]);
    hide Bystander, BeingCreated, EarlyStep, OfThread;
    NewbornSteps(cfg, s, step);
    NewbornFields(cfg, s, step);
    NewbornThread(cfg, s, step);
    var s' := Do(cfg, s, step);
    assert forall k :: 0 <= k < |s'.threads| && k != step.t ==> s'.threads[k] == s.threads[k];
  }

  lemma StepKeepsYoung(cfg: Config, s: Sys, step: Step)
    requires Young(s) && Enabled(cfg, s, step)
    ensures Young(Do(cfg, s, step))
  {
    hide Do, Enabled, Newborn, BeingCreated;
    var s' := Do(cfg, s, step);
    if OfThread(step) {
      ThreadStep(cfg, s, step);
      if BeingCreated(s.threads[0]) {
        NewbornMoves(cfg, s, step);
      }
      assert forall k :: 0 <= k < |s'.threads| && k != step.t ==> s'.threads[k] == s.threads[k];
    } else {
      OtherStep(cfg, s, step);
      OtherStepKeepsYoung(cfg, s, step);
    }
  }

  lemma OtherStepKeepsYoung(cfg: Config, s: Sys, step: Step)
    requires Young(s) && Enabled(cfg, s, step) && !OfThread(step) && Spawned(s, step, Do(cfg, s, step))
    ensures Young(Do(cfg, s, step))
  {
    hide Do, Enabled, Event, Adds, Moving;
    if s.threads != [] && BeingCreated(s.threads[0]) {
      NewbornStays(cfg, s, step);
    }
  }

  lemma NewbornStays(cfg: Config, s: Sys, step: Step)
    requires Newborn(s) && Enabled(cfg, s, step) && !OfThread(step) && Spawned(s, step, Do(cfg, s, step))
    ensures !step.Restart? ==> Newborn(Do(cfg, s, step))
  {
    hide Do, Enabled, Event;
    StepAppends(cfg, s, step);
    StepShows(cfg, s, step);
    EarlyEvents(cfg, s, step);
    assert s.marks + [] == s.marks;
  }

  lemma {:induction false} RunYoung(cfg: Config, r: Run, i: nat)
    requires IsRun(cfg, r) && i < |r.states|
    ensures Young(r.states[i])
  {
    hide Do, Enabled, Young;
    if i == 0 {
      assert Young(INIT) by { InitYoung(); }
    } else {
      RunYoung(cfg, r, i - 1);
      StepKeepsYoung(cfg, r.states[i - 1], r.steps[i - 1]);
    }
  }

  lemma InitYoung()
    ensures Young(INIT)
  {}

  // ---- what guards the second prompt ----

  lemma StartedIsNew(cfg: Config, s: Sys, step: Step)
    requires Enabled(cfg, s, step) && Young(s) && step.MarkStarted?
    ensures s.marks == []
  {
    hide Do;
  }

  lemma StepKeepsGuard(cfg: Config, s: Sys, step: Step)
    requires Enabled(cfg, s, step) && Guarded(s) && Young(s) && !Exposes(s, step)
    ensures Guarded(Do(cfg, s, step))
  {
    hide Do, Newborn;
    StepShows(cfg, s, step);
    if step.MarkStarted? {
      StartedIsNew(cfg, s, step);
    }
    hide Enabled;
    assert s.marks + [] == s.marks;
  }

  /** From any point of any run at which the guard stands, up to the next exposing step,
      it stands, whatever appends and reads fail. */
  lemma {:induction false} RunKeepsGuard(cfg: Config, r: Run, a: nat, i: nat)
    requires IsRun(cfg, r) && a <= i < |r.states| && Guarded(r.states[a])
    requires forall k :: a <= k < i ==> !Exposes(r.states[k], r.steps[k])
    ensures Guarded(r.states[i])
    decreases i - a
  {
    hide Do, Enabled, Guarded, Exposes, Young;
    if a < i {
      RunKeepsGuard(cfg, r, a, i - 1);
      RunYoung(cfg, r, i - 1);
      StepKeepsGuard(cfg, r.states[i - 1], r.steps[i - 1]);
    }
  }

  lemma AcceptedIsGuarded(cfg: Config, s: Sys, step: Step)
    requires Enabled(cfg, s, step) && Accepted(step) && !Exposes(s, step)
    ensures Guarded(Do(cfg, s, step))
  {
    hide Do, Enabled;
    StepShows(cfg, s, step);
  }

  lemma AcceptsOnReady(cfg: Config, s: Sys, step: Step)
    requires Enabled(cfg, s, step) && Accepted(step)
    ensures s.status == StatusReady
  {
    hide Do;
  }

  /** The cause lies between the two prompts: when a prompt is accepted while the last one
      is unsettled, some step from any earlier accepted prompt on was an exposing one. */
  lemma ExposedBetween(cfg: Config, r: Run, a: nat, b: nat) returns (k: nat)
    requires IsRun(cfg, r) && a < b < |r.steps| && Accepted(r.steps[a]) && Accepted(r.steps[b])
    requires Unsettled(r.states[b].marks)
    ensures a <= k < b && Exposes(r.states[k], r.steps[k])
  {
    hide Do, Enabled, Exposes, Accepted;
    if forall i :: a <= i < b ==> !Exposes(r.states[i], r.steps[i]) {
      AcceptedIsGuarded(cfg, r.states[a], r.steps[a]);
      RunKeepsGuard(cfg, r, a + 1, b);
      AcceptsOnReady(cfg, r.states[b], r.steps[b]);
      assert false;
    }
    k :| a <= k < b && Exposes(r.states[k], r.steps[k]);
  }

  /** The first prompt accepted while another is unsettled. */
  lemma {:induction false} DoubledAt(cfg: Config, r: Run, i: nat) returns (b: nat)
    requires IsRun(cfg, r) && i < |r.states| && !SinglePrompt(r.states[i].marks)
    ensures b < i && Accepted(r.steps[b]) && Unsettled(r.states[b].marks)
  {
    hide Do, Enabled, SinglePrompt, Unsettled;
    if i == 0 {
      NoMarks();
      assert false;
    } else if !SinglePrompt(r.states[i - 1].marks) {
      b := DoubledAt(cfg, r, i - 1);
    } else {
      b := i - 1;
      var s, step := r.states[b], r.steps[b];
      StepShows(cfg, s, step);
      assert s.marks + [] == s.marks;
      if !Accepted(step) || !Unsettled(s.marks) {
        if NewMarks(s, step) != [] {
          SinglePromptAppend(s.marks, NewMarks(s, step)[0]);
        }
        assert false;
      }
    }
  }

  lemma NoMarks()
    ensures SinglePrompt(INIT.marks)
  {}

  /** An unsettled prompt was accepted at some step. */
  lemma {:induction false} PromptBefore(cfg: Config, r: Run, i: nat) returns (a: nat)
    requires IsRun(cfg, r) && i < |r.states| && Unsettled(r.states[i].marks)
    ensures a < i && Accepted(r.steps[a])
  {
    hide Do, Enabled;
    a := i - 1;
    StepShows(cfg, r.states[a], r.steps[a]);
    if !Accepted(r.steps[a]) {
      assert r.states[a].marks + [] == r.states[a].marks;
      a := PromptBefore(cfg, r, a);
    }
  }

  /** Two prompts in flight have a cause: an exposing step between a prompt and one that
      was accepted while it was unsettled. */
  lemma DoubledPromptHasCause(cfg: Config, r: Run) returns (a: nat, k: nat, b: nat)
    requires IsRun(cfg, r) && !SinglePrompt(Last(r).marks)
    ensures a <= k < b < |r.steps| && Accepted(r.steps[a]) && Accepted(r.steps[b])
    ensures Unsettled(r.states[b].marks) && Exposes(r.states[k], r.steps[k])
  {
    hide Do, Enabled, Exposes, Accepted, SinglePrompt, Unsettled;
    b := DoubledAt(cfg, r, |r.steps|);
    a := PromptBefore(cfg, r, b);
    k := ExposedBetween(cfg, r, a, b);
  }

  lemma TwoPrompts()
    ensures !SinglePrompt([PromptAccepted, PromptAccepted])
  {
    var marks := [PromptAccepted, PromptAccepted];
    assert marks[0].PromptAccepted? && marks[1].PromptAccepted?;
  }

  /** A prompt whose acknowledgement is lost can be sent again at once. */
  lemma LostAckDoubles(cfg: Config) returns (s: Sys)
    requires cfg.lostAcks
    ensures Reachable(cfg, s) && !SinglePrompt(s.marks)
  {
    hide Reachable;
    CreatedReachable(cfg);
    s := Take(cfg, CREATED, Prompt(LostAck, true));
    s := Take(cfg, s, Prompt(LostAck, true));
    assert s.marks == [PromptAccepted, PromptAccepted];
    TwoPrompts();
  }

  /** A turn whose start never reached the log is forgotten by a restart. */
  lemma BlindRestartDoubles(cfg: Config) returns (s: Sys)
    requires cfg.blindRestarts
    ensures Reachable(cfg, s) && !SinglePrompt(s.marks)
  {
    hide Reachable, Replay, ReplayStatus, Do, Enabled;
    CreatedReachable(cfg);
    s := TakePrompt(cfg, CREATED, false);
    CreatedReplays();
    s := TakeRestart(cfg, s);
    s := TakePrompt(cfg, s, true);
    assert s.marks == [PromptAccepted, PromptAccepted];
    TwoPrompts();
  }

  lemma CreatedReplays()
    ensures Replay(CREATED.log) == SessionReady && ReplayStatus(CREATED.log) == StatusReady
  {
    assert CREATED.log == [Provisioned] + [Started] && [Provisioned] == [] + [Provisioned];
    ReplayAppend([], Provisioned);
    ReplayAppend([Provisioned], Started);
  }

  /** The settle record is seen but its append refused, so the session runs on with a
      ready status and the next death pauses it. */
  lemma PausedWhileReady(cfg: Config) returns (s: Sys)
    ensures Reachable(cfg, s) && !Fold(s.log).open
    ensures s.status == StatusReady && s.session == SessionPaused && s.threads == [Done, Pausing] && s.lock.None?
    ensures !s.closed && s.marks == [PromptAccepted, SettleObserved]
  {
    hide Reachable, Replay, ReplayStatus, LedgerOf, EnabledCreate, DoCreate, EnabledLedger, DoLedger,
         EnabledComplete, DoComplete;
    CreatedReachable(cfg);
    s := TakePrompt(cfg, CREATED, true);
    s := Take(cfg, s, SeeSettled(1));
    s := Take(cfg, s, SettleTurn(1, false));
    assert s.threads == [Done, Pulling];
    s := TakePause(cfg, s, 1);
    NeverOpened(s.log);
  }

  /** A re-arm then revives it before the liveness failure is written. */
  lemma RevivedWhileReady(cfg: Config) returns (s: Sys)
    ensures Reachable(cfg, s)
    ensures s.status == StatusReady && s.session == SessionIdle && s.threads == [Done, Pausing, ReadyDue]
    ensures !s.closed && s.marks == [PromptAccepted, SettleObserved, ReviveDone]
  {
    hide Reachable, Replay, ReplayStatus, Fold, Do, Enabled;
    s := PausedWhileReady(cfg);
    s := TakeRearm(cfg, s);
    s := TakeRedrive(cfg, s, 2);
    s := ReviveBy(cfg, s, 2);
  }

  lemma {:induction false} NeverOpened(log: seq<Kind>)
    requires forall i :: 0 <= i < |log| ==> !log[i].ReviveConsumed?
    ensures !Fold(log).open
  {
    if log != [] {
      NeverOpened(log[..|log| - 1]);
    }
  }

  /** The next prompt is accepted before that revive writes its status, and the write
      opens the gate to another. */
  lemma StaleWriteDoubles(cfg: Config) returns (s: Sys)
    requires cfg.staleWrites
    ensures Reachable(cfg, s) && !SinglePrompt(s.marks)
  {
    hide Reachable, Replay, ReplayStatus, SinglePrompt, Do, Enabled;
    s := RevivedWhileReady(cfg);
    s := TakePrompt(cfg, s, false);
    s := TakeMarkReady(cfg, s, 2);
    s := TakePrompt(cfg, s, true);
    assert s.marks == [PromptAccepted, SettleObserved, ReviveDone, PromptAccepted, PromptAccepted];
    LastTwoPrompts(s.marks);
  }

  lemma LastTwoPrompts(marks: seq<Mark>)
    requires |marks| >= 2 && marks[|marks| - 1].PromptAccepted? && marks[|marks| - 2].PromptAccepted?
    ensures !SinglePrompt(marks)
  {}

  /** Single in-flight prompt: on every reachable state, with appends refused at will,
      any two prompts the daemon accepted have an observed settle or a completed revive
      between them, exactly when no acknowledgement is lost, no restart takes a busy
      agent for a ready one, and no revive writes its status after a prompt accepted
      since its agent.revived. */
  lemma SinglePromptIff(cfg: Config)
    ensures (forall s :: Reachable(cfg, s) ==> SinglePrompt(s.marks)) <==>
            !cfg.lostAcks && !cfg.blindRestarts && !cfg.staleWrites
  {
    hide SinglePrompt, Do, Enabled, Exposes;
    if cfg.lostAcks {
      var s := LostAckDoubles(cfg);
    } else if cfg.blindRestarts {
      var s := BlindRestartDoubles(cfg);
    } else if cfg.staleWrites {
      var s := StaleWriteDoubles(cfg);
    } else {
      forall s | Reachable(cfg, s)
        ensures SinglePrompt(s.marks)
      {
        var r :| IsRun(cfg, r) && Last(r) == s;
        if !SinglePrompt(s.marks) {
          var a, k, b := DoubledPromptHasCause(cfg, r);
          NeverExposed(cfg, r.states[k], r.steps[k]);
          assert false;
        }
      }
    }
  }

  lemma NeverExposed(cfg: Config, s: Sys, step: Step)
    requires Enabled(cfg, s, step) && !cfg.lostAcks && !cfg.blindRestarts && !cfg.staleWrites
    ensures !Exposes(s, step)
  {
    hide Do, ReplayStatus, LedgerOf;
  }
}
