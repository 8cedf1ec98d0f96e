/** The session state machine as a projection of the log (controller/fsm.go) and
    the agent-liveness projection beside it (controller/registry.go). */
module Session {
  import opened Wrappers
  import opened Events
  import opened EventStore
  import opened EventHub

  datatype SessionState =
    | SessionProvision
    | SessionReady
    | SessionRunning
    | SessionIdle
    | SessionPaused
    | SessionReviving
    | SessionTerminated

  datatype AgentStatus = StatusCreating | StatusReady | StatusWorking | StatusFailed | StatusTerminated

  /** sessionEventType: the state a lifecycle event projects onto. */
  function Target(k: Kind): Option<SessionState> {
    match k
    case Provisioned => Some(SessionProvision)
    case Started => Some(SessionReady)
    case TurnStarted => Some(SessionRunning)
    case Settled => Some(SessionIdle)
    case Paused => Some(SessionPaused)
    case Revived => Some(SessionRunning)
    case Reviving => Some(SessionReviving)
    case Terminated => Some(SessionTerminated)
    case _ => None
  }

  /** sessionTransitions. */
  predicate Legal(from: SessionState, to: SessionState) {
    match from
    case SessionProvision => to == SessionReady || to == SessionTerminated
    case SessionReady => to == SessionRunning || to == SessionTerminated
    case SessionRunning => to == SessionIdle || to == SessionPaused || to == SessionTerminated
    case SessionIdle => to == SessionRunning || to == SessionTerminated
    case SessionPaused => to == SessionRunning || to == SessionTerminated
    case SessionReviving => to == SessionReady || to == SessionTerminated
    case SessionTerminated => false
  }

  function ReplayStep(s: SessionState, k: Kind): SessionState {
    match Target(k)
    case Some(next) => if Legal(s, next) then next else s
    case None => s
  }

  /** The session state a log projects onto. */
  function Replay(log: seq<Kind>): SessionState {
    if log == [] then SessionProvision
    else ReplayStep(Replay(log[..|log| - 1]), log[|log| - 1])
  }

  function StatusStep(s: AgentStatus, k: Kind): AgentStatus {
    match k
    case Provisioned => StatusCreating
    case Started => StatusReady
    case Settled => StatusReady
    case TurnStarted => StatusWorking
    case Failed => StatusFailed
    case Paused => StatusFailed
    case Revived => StatusReady
    case Terminated => StatusTerminated
    case _ => s
  }

  /** The agent status a log projects onto. */
  function ReplayStatus(log: seq<Kind>): AgentStatus {
    if log == [] then StatusCreating
    else StatusStep(ReplayStatus(log[..|log| - 1]), log[|log| - 1])
  }

  lemma ReplayAppend(log: seq<Kind>, k: Kind)
    ensures Replay(log + [k]) == ReplayStep(Replay(log), k)
    ensures ReplayStatus(log + [k]) == StatusStep(ReplayStatus(log), k)
  {
    assert (log + [k])[..|log|] == log;
  }

  /** The events that say how the agent itself is doing. */
  predicate SaysStatus(k: Kind) {
    || k.Provisioned? || k.Started? || k.TurnStarted? || k.Settled? || k.Failed? || k.Paused? || k.Revived?
    || k.Terminated?
  }

  /** The status is that of the last such event, and creating when there is none: ready
      after a start, a settle or a revive, working after a turn start, failed after a
      failure or a pause. */
  lemma {:induction false} StatusIsTheLast(log: seq<Kind>, i: nat)
    requires i <= |log| && (i > 0 ==> SaysStatus(log[i - 1]))
    requires forall j :: i <= j < |log| ==> !SaysStatus(log[j])
    ensures i == 0 || log[i - 1].Provisioned? ==> ReplayStatus(log) == StatusCreating
    ensures i > 0 && (log[i - 1].Started? || log[i - 1].Settled? || log[i - 1].Revived?) ==>
              ReplayStatus(log) == StatusReady
    ensures i > 0 && log[i - 1].TurnStarted? ==> ReplayStatus(log) == StatusWorking
    ensures i > 0 && (log[i - 1].Failed? || log[i - 1].Paused?) ==> ReplayStatus(log) == StatusFailed
    ensures i > 0 && log[i - 1].Terminated? ==> ReplayStatus(log) == StatusTerminated
  {
    if i < |log| {
      StatusIsTheLast(log[..|log| - 1], i);
    }
  }

  /** Any state but terminated may terminate, nothing leaves terminated, and nothing
      leads to provision or, through a session event, to reviving. */
  lemma TerminatedIsTheEnd(from: SessionState, to: SessionState)
    ensures Legal(from, SessionTerminated) <==> from != SessionTerminated
    ensures Legal(from, to) ==> from != SessionTerminated && to != SessionProvision && to != SessionReviving
  {}

  /** A session turns only from ready, idle or paused, and pauses and settles only from
      running. */
  lemma TurnEdges(from: SessionState)
    ensures Legal(from, SessionRunning) <==> from == SessionReady || from == SessionIdle || from == SessionPaused
    ensures Legal(from, SessionIdle) <==> from == SessionRunning
    ensures Legal(from, SessionPaused) <==> from == SessionRunning
    ensures Legal(from, SessionReady) <==> from == SessionProvision || from == SessionReviving
  {}

  /** Once a log terminates, whatever follows leaves it terminated. */
  lemma {:induction false} TerminationIsFinal(log: seq<Kind>, more: seq<Kind>)
    ensures Replay(log + [Terminated] + more) == SessionTerminated
  {
    var ended := log + [Terminated];
    if more == [] {
      ReplayAppend(log, Terminated);
      TerminatedIsTheEnd(Replay(log), SessionTerminated);
      assert ended + more == ended;
    } else {
      var front, k := more[..|more| - 1], more[|more| - 1];
      TerminationIsFinal(log, front);
      assert ended + more == (ended + front) + [k];
      ReplayAppend(ended + front, k);
    }
  }

  /** ReplaySession: the loop over a snapshot. */
  method ReplaySession(evs: seq<Event>) returns (state: SessionState)
    ensures state == Replay(Kinds(evs))
  {
    state := SessionProvision;
    for i := 0 to |evs|
      invariant state == Replay(Kinds(evs)[..i])
    {
      ReplayAppend(Kinds(evs)[..i], evs[i].kind);
      assert Kinds(evs)[..i + 1] == Kinds(evs)[..i] + [evs[i].kind];
      var next := Target(evs[i].kind);
      if next.Some? && Legal(state, next.value) {
        state := next.value;
      }
    }
    assert Kinds(evs)[..|evs|] == Kinds(evs);
  }

  /** ReplayAgentStatus: the same loop for the liveness projection. */
  method ReplayAgentStatus(evs: seq<Event>) returns (status: AgentStatus)
    ensures status == ReplayStatus(Kinds(evs))
  {
    status := StatusCreating;
    for i := 0 to |evs|
      invariant status == ReplayStatus(Kinds(evs)[..i])
    {
      ReplayAppend(Kinds(evs)[..i], evs[i].kind);
      assert Kinds(evs)[..i + 1] == Kinds(evs)[..i] + [evs[i].kind];
      match evs[i].kind {
        case Provisioned => status := StatusCreating;
        case Started => status := StatusReady;
        case Settled => status := StatusReady;
        case TurnStarted => status := StatusWorking;
        case Failed => status := StatusFailed;
        case Paused => status := StatusFailed;
        case Revived => status := StatusReady;
        case Terminated => status := StatusTerminated;
        case _ =>
      }
    }
    assert Kinds(evs)[..|evs|] == Kinds(evs);
  }

  class SessionFSM {
    const hub: EventHub
    var state: SessionState

    ghost predicate Valid()
      reads this, hub, hub.store
    {
      hub.Valid()
    }

    /** The in-memory state is what the durable log replays to. */
    ghost predicate Synchronised()
      requires Valid()
      reads this, hub, hub.store
    {
      state == Replay(Kinds(hub.store.Value().log))
    }

    constructor (hub: EventHub, initial: SessionState)
      requires hub.Valid()
      ensures this.hub == hub && state == initial && Valid()
    {
      this.hub, this.state := hub, initial;
    }

    /** Transition: validate, append, then take effect. Callers pass the event type
        that stands for the state. */
    method Transition(next: SessionState, kind: Kind, fields: string, fault: bool) returns (ok: bool)
      requires Valid() && Target(kind) == Some(next)
      modifies this, hub, hub.store
      ensures Valid()
      ensures ok <==> Legal(old(state), next) && !old(hub.closed) && !fault
      ensures state == if ok then next else old(state)
      ensures hub.State() == if ok then Published(old(hub.State()).0, old(hub.State()).1, kind, fields) else old(hub.State())
      ensures old(Synchronised()) ==> Synchronised()
    {
      ghost var log := hub.store.Value().log;
      if !Legal(state, next) {
        return false;
      }
      var seqNo := hub.Publish(kind, fields, fault);
      if seqNo == 0 {
        return false;
      }
      state := next;
      assert Kinds(hub.store.Value().log) == Kinds(log) + [kind];
      ReplayAppend(Kinds(log), kind);
      return true;
    }
  }

  // ---- live state equals replay, over whole runs ----

  /** The durable log and the machine's cached state. */
  datatype Live = Live(log: seq<Kind>, state: SessionState)

  /** A transition attempt, any other append that committed, or a restart that
      rebuilds the machine from the log. */
  datatype Op =
    | Attempt(next: SessionState, kind: Kind, committed: bool)
    | Other(kind: Kind)
    | Restart

  predicate WellCalled(op: Op) {
    op.Attempt? ==> Target(op.kind) == Some(op.next)
  }

  function DoOp(l: Live, op: Op): Live {
    match op
    case Attempt(next, kind, committed) =>
      if Legal(l.state, next) && committed then Live(l.log + [kind], next) else l
    case Other(kind) => l.(log := l.log + [kind])
    case Restart => l.(state := Replay(l.log))
  }

  function DoOps(l: Live, ops: seq<Op>): Live {
    if ops == [] then l else DoOp(DoOps(l, ops[..|ops| - 1]), ops[|ops| - 1])
  }

  ghost predicate InSync(l: Live) {
    l.state == Replay(l.log)
  }

  /** A verbatim append the projection ignores in this state: its type is no session
      event, or its edge is not legal here. */
  predicate Harmless(s: SessionState, k: Kind) {
    Target(k).None? || !Legal(s, Target(k).value)
  }

  lemma OneOp(l: Live, op: Op)
    requires InSync(l) && WellCalled(op)
    ensures InSync(DoOp(l, op)) <==> (op.Other? ==> Harmless(l.state, op.kind))
  {
    if op.Attempt? || op.Other? {
      ReplayAppend(l.log, op.kind);
    }
  }

  ghost predicate SyncAt(l: Live, ops: seq<Op>, i: nat)
    requires i <= |ops|
  {
    InSync(DoOps(l, ops[..i]))
  }

  predicate HarmlessAt(l: Live, ops: seq<Op>, i: nat)
    requires i < |ops|
  {
    ops[i].Other? ==> Harmless(DoOps(l, ops[..i]).state, ops[i].kind)
  }

  lemma OneMoreOp(l: Live, ops: seq<Op>, i: nat)
    requires i < |ops| && WellCalled(ops[i]) && SyncAt(l, ops, i)
    ensures SyncAt(l, ops, i + 1) <==> HarmlessAt(l, ops, i)
  {
    assert ops[..i + 1][..i] == ops[..i];
    OneOp(DoOps(l, ops[..i]), ops[i]);
  }

  lemma {:induction false} SyncUpTo(l: Live, ops: seq<Op>, n: nat)
    requires InSync(l) && n <= |ops| && forall i :: 0 <= i < |ops| ==> WellCalled(ops[i])
    requires forall i :: 0 <= i < n ==> HarmlessAt(l, ops, i)
    ensures forall i :: 0 <= i <= n ==> SyncAt(l, ops, i)
  {
    if n == 0 {
      assert ops[..0] == [];
    } else {
      SyncUpTo(l, ops, n - 1);
      OneMoreOp(l, ops, n - 1);
    }
  }

  /** Live state equals replay: through any run of legal and illegal transitions,
      failed appends, other appends and restarts, the cached state equals the
      replayed one at every point if and only if every other append was harmless
      when it was made. */
  lemma LiveEqualsReplay(l: Live, ops: seq<Op>)
    requires InSync(l) && forall i :: 0 <= i < |ops| ==> WellCalled(ops[i])
    ensures (forall i :: 0 <= i <= |ops| ==> SyncAt(l, ops, i))
       <==> (forall i :: 0 <= i < |ops| ==> HarmlessAt(l, ops, i))
  {
    hide SyncAt, HarmlessAt;
    if forall i :: 0 <= i < |ops| ==> HarmlessAt(l, ops, i) {
      SyncUpTo(l, ops, |ops|);
    }
    if forall i :: 0 <= i <= |ops| ==> SyncAt(l, ops, i) {
      forall i | 0 <= i < |ops|
        ensures HarmlessAt(l, ops, i)
      {
        OneMoreOp(l, ops, i);
        assert SyncAt(l, ops, i + 1);
      }
    }
  }

  /** Nothing the controller appends outside a transition can move the projection:
      no edge leads back to provision, and the other kinds carry no state. */
  lemma ControllerAppendsAreHarmless(s: SessionState, k: Kind)
    requires k.Provisioned? || Target(k).None?
    ensures Harmless(s, k)
  {}

  /** A verbatim record that carries a controller event type does move it. */
  lemma SpoofedRecordDesyncs()
    ensures var l := Live([Started, TurnStarted], SessionRunning);
            InSync(l) && !InSync(DoOp(l, Other(Settled)))
  {
    var l := Live([Started, TurnStarted], SessionRunning);
    assert l.log == [Started] + [TurnStarted] && [Started] == [] + [Started];
    ReplayAppend([], Started);
    ReplayAppend([Started], TurnStarted);
    ReplayAppend(l.log, Settled);
  }

  // ---- the two projections together ----

  /** Which replayed status can stand beside which replayed session state. */
  predicate Agree(s: SessionState, a: AgentStatus) {
    && (a == StatusWorking ==> s == SessionRunning)
    && (s == SessionPaused ==> a == StatusFailed)
    && (s == SessionIdle || s == SessionReady ==> a == StatusReady || a == StatusFailed)
    && (s == SessionRunning ==> a == StatusWorking || a == StatusReady || a == StatusFailed)
    && (s == SessionProvision ==> a == StatusCreating || a == StatusFailed)
    && (s == SessionTerminated ==> a == StatusTerminated || a == StatusFailed)
    && s != SessionReviving
  }

  /** Appending keeps the projections in agreement when a session event is legal
      where it is appended; the other status-carrying event is agent.failed. */
  lemma AppendKeepsAgreement(log: seq<Kind>, k: Kind)
    requires Agree(Replay(log), ReplayStatus(log)) && !k.Reviving?
    requires Target(k).Some? ==> Legal(Replay(log), Target(k).value)
    ensures Agree(Replay(log + [k]), ReplayStatus(log + [k]))
    ensures Target(k).Some? ==> Replay(log + [k]) == Target(k).value
    ensures Target(k).None? ==> Replay(log + [k]) == Replay(log)
  {
    ReplayAppend(log, k);
  }
}
