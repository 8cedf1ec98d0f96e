/** The assessment monitor (controller/monitor.go): its two projections of the log, and
    the append gate that keeps late ticks out of a settled turn. */
module Monitor {
  import opened Wrappers
  import opened Events

  // ---- projections ----

  predicate Decodable(ev: Event) {
    ev.kind.Assessed? && ev.kind.verdict.Some?
  }

  /** The latest decodable assessment with no turn start after it. */
  function LatestAssessment(log: seq<Event>): Option<Event> {
    if log == [] then None
    else
      var last := log[|log| - 1];
      if last.kind.TurnStarted? then None
      else if Decodable(last) then Some(last)
      else LatestAssessment(log[..|log| - 1])
  }

  /** The verdict a waiter starts from: empty when the turn has no assessment. */
  function LastVerdict(log: seq<Event>): string {
    var a := LatestAssessment(log);
    if a.Some? && Decodable(a.value) then a.value.kind.verdict.value else ""
  }

  predicate TurnStartsAfter(log: seq<Event>, i: nat) {
    exists j :: i < j < |log| && log[j].kind.TurnStarted?
  }

  /** There is none exactly when every decodable assessment has a turn start after it. */
  lemma {:induction false} LatestAssessmentIs(log: seq<Event>)
    ensures LatestAssessment(log).Some? ==> Decodable(LatestAssessment(log).value) && LatestAssessment(log).value in log
    ensures LatestAssessment(log).None? <==> forall i :: 0 <= i < |log| && Decodable(log[i]) ==> TurnStartsAfter(log, i)
  {
    if log != [] {
      var front, n := log[..|log| - 1], |log| - 1;
      LatestAssessmentIs(front);
      assert forall i :: 0 <= i < n ==> front[i] == log[i];
      assert forall i :: 0 <= i < n ==> (TurnStartsAfter(log, i) <==> TurnStartsAfter(front, i) || log[n].kind.TurnStarted?);
      assert !TurnStartsAfter(log, n);
    }
  }

  /** assessmentFromEvents: one forward pass that compares seqs. */
  method AssessmentFromEvents(evs: seq<Event>) returns (view: Option<Event>)
    requires GapFree(evs)
    ensures view == LatestAssessment(evs)
  {
    hide LatestAssessment, TurnWindow;
    var turnStart, latest: nat := 0, 0;
    view := None;
    assert LatestAssessment(evs[..0]) == None by { NoAssessment(evs[..0]); }
    for i := 0 to |evs|
      invariant turnStart <= i && latest <= i
      invariant latest == 0 <==> view == None
      invariant view.Some? ==> view.value.seqNo == latest
      invariant LatestAssessment(evs[..i]) == if latest <= turnStart then None else view
    {
      assert evs[..i + 1] == evs[..i] + [evs[i]];
      ProjectionsOfAppend(evs[..i], evs[i]);
      match evs[i].kind {
        case TurnStarted => turnStart := evs[i].seqNo;
        case Assessed(Some(verdict)) =>
          if evs[i].seqNo > latest {
            latest := evs[i].seqNo;
            view := Some(evs[i]);
          }
        case _ =>
      }
    }
    assert evs[..|evs|] == evs;
    if latest == 0 || latest <= turnStart {
      view := None;
    }
  }

  lemma NoAssessment(log: seq<Event>)
    requires log == []
    ensures LatestAssessment(log) == None
  {}

  function NotAssessed(log: seq<Event>): seq<Event> {
    if log == [] then []
    else if log[|log| - 1].kind.Assessed? then NotAssessed(log[..|log| - 1])
    else NotAssessed(log[..|log| - 1]) + [log[|log| - 1]]
  }

  datatype Window = Window(turnStartSeq: nat, events: seq<Event>)

  /** The current turn's transcript: from the last turn start on, without the monitor's
      own output. */
  function TurnWindow(log: seq<Event>): Option<Window> {
    if log == [] then None
    else
      var front, last := log[..|log| - 1], log[|log| - 1];
      if last.kind.TurnStarted? then Some(Window(last.seqNo, [last]))
      else if last.kind.Assessed? || TurnWindow(front).None? then TurnWindow(front)
      else Some(TurnWindow(front).value.(events := TurnWindow(front).value.events + [last]))
  }

  lemma NotAssessedOfAppend(log: seq<Event>, ev: Event)
    ensures NotAssessed(log + [ev]) == if ev.kind.Assessed? then NotAssessed(log) else NotAssessed(log) + [ev]
  {
    assert (log + [ev])[..|log|] == log;
  }

  lemma {:induction false} WindowFrom(log: seq<Event>, i: nat, j: nat)
    requires i < j <= |log| && log[i].kind.TurnStarted?
    requires forall k :: i < k < j ==> !log[k].kind.TurnStarted?
    ensures TurnWindow(log[..j]) == Some(Window(log[i].seqNo, NotAssessed(log[i..j])))
    decreases j
  {
    hide TurnWindow, LatestAssessment, NotAssessed;
    ProjectionsOfAppend(log[..j - 1], log[j - 1]);
    NotAssessedOfAppend(log[i..j - 1], log[j - 1]);
    assert log[..j] == log[..j - 1] + [log[j - 1]];
    assert log[i..j] == log[i..j - 1] + [log[j - 1]];
    if j > i + 1 {
      WindowFrom(log, i, j - 1);
    } else {
      NoneLeft(log[i..i]);
    }
  }

  lemma NoneLeft(log: seq<Event>)
    requires log == []
    ensures NotAssessed(log) == []
  {}

  lemma {:induction false} NoWindow(log: seq<Event>)
    requires forall k :: 0 <= k < |log| ==> !log[k].kind.TurnStarted?
    ensures TurnWindow(log) == None
  {
    if log != [] {
      NoWindow(log[..|log| - 1]);
    }
  }

  /** currentTurnWindow: scan back for the turn start, then filter forward. */
  method CurrentTurnWindow(evs: seq<Event>) returns (w: Option<Window>)
    ensures w == TurnWindow(evs)
  {
    hide TurnWindow, LatestAssessment, NotAssessed;
    var i := |evs|;
    while i > 0
      invariant 0 <= i <= |evs|
      invariant forall k :: i <= k < |evs| ==> !evs[k].kind.TurnStarted?
    {
      i := i - 1;
      if evs[i].kind.TurnStarted? {
        var events := [];
        assert NotAssessed(evs[i..i]) == [] by { NoneLeft(evs[i..i]); }
        for j := i to |evs|
          invariant events == NotAssessed(evs[i..j])
        {
          NotAssessedOfAppend(evs[i..j], evs[j]);
          assert evs[i..j + 1] == evs[i..j] + [evs[j]];
          if !evs[j].kind.Assessed? {
            events := events + [evs[j]];
          }
        }
        WindowFrom(evs, i, |evs|);
        assert evs[..|evs|] == evs && evs[i..|evs|] == evs[i..];
        return Some(Window(evs[i].seqNo, events));
      }
    }
    NoWindow(evs);
    return None;
  }

  /** The monitor's own output never changes its input, and a new turn starts both
      projections afresh. */
  lemma ProjectionsOfAppend(log: seq<Event>, ev: Event)
    ensures ev.kind.Assessed? ==> TurnWindow(log + [ev]) == TurnWindow(log)
    ensures Decodable(ev) ==> LatestAssessment(log + [ev]) == Some(ev)
    ensures ev.kind.TurnStarted? ==>
              LatestAssessment(log + [ev]) == None && TurnWindow(log + [ev]) == Some(Window(ev.seqNo, [ev]))
    ensures !ev.kind.TurnStarted? && !Decodable(ev) ==> LatestAssessment(log + [ev]) == LatestAssessment(log)
    ensures !ev.kind.TurnStarted? && !ev.kind.Assessed? ==>
              TurnWindow(log + [ev]) == if TurnWindow(log).None? then None
                                        else Some(TurnWindow(log).value.(events := TurnWindow(log).value.events + [ev]))
  {
    assert (log + [ev])[..|log|] == log;
  }

  /** The verdict is that of the last decodable assessment of the turn: an assessment sets
      it, a turn start clears it, nothing else touches it. */
  lemma VerdictOfAppend(log: seq<Event>, ev: Event)
    ensures LastVerdict(log + [ev]) ==
            if ev.kind.TurnStarted? then ""
            else if ev.kind.Assessed? && ev.kind.verdict.Some? then ev.kind.verdict.value
            else LastVerdict(log)
  {
    hide LatestAssessment, TurnWindow;
    ProjectionsOfAppend(log, ev);
  }

  // ---- the append gate ----

  /** What the gate is about, in log order. A settled append carries the number of
      entries there were when its settle looked for one to disarm, and the entries that
      some disarm had taken out of the map by then without having closed their gate. */
  datatype Item = Tick(entry: nat) | Terminal(entry: nat) | Settled(bound: nat, open: set<nat>) | Unrelated

  /** A settle path of onPiRecord, past its status test: look the entry up, close its
      gate, assess, append. */
  datatype Settler = Looking | Took(entry: nat, bound: nat) | Assessing(entry: nat, bound: nat)
                   | Closing(bound: nat) | Finished

  /** gens: the gen of every entry ever armed. locked: entries whose mutex is held by a
      tick that has passed the gate. armed: the monitor's map for this agent. open:
      entries taken from the map by a settle or a Disarm that has not bumped them yet. */
  datatype State = State(gens: seq<nat>, locked: set<nat>, armed: Option<nat>, open: set<nat>,
                         settlers: seq<Settler>, closed: bool, log: seq<Item>)

  const INITIAL := State([], {}, None, {}, [], false, [])

  datatype Step =
    | Arm
    | TickGate(entry: nat)
    | TickAppend(entry: nat, ok: bool)
    | SettleBegin
    | SettleTake(k: nat)
    | SettleBump(k: nat)
    | SettleAssess(k: nat, ok: bool)
    | SettleAppend(k: nat, ok: bool)
    | DisarmTake
    | DisarmBump(entry: nat)
    | HubClose
    | Publish

  predicate Holds(w: Settler, e: nat) {
    w.Took? && w.entry == e
  }

  /** A lock must be free to be taken; a thread takes its own steps in order. DisarmTake
      and DisarmBump are fail or deleteOne disarming. */
  predicate Enabled(s: State, step: Step) {
    match step
    case Arm => true
    case TickGate(e) => e < |s.gens| && e !in s.locked
    case TickAppend(e, ok) => e in s.locked
    case SettleBegin => true
    case SettleTake(k) => k < |s.settlers| && s.settlers[k].Looking?
    case SettleBump(k) =>
      k < |s.settlers| && s.settlers[k].Took? && s.settlers[k].entry < |s.gens| && s.settlers[k].entry !in s.locked
    case SettleAssess(k, ok) => k < |s.settlers| && s.settlers[k].Assessing?
    case SettleAppend(k, ok) => k < |s.settlers| && s.settlers[k].Closing?
    case DisarmTake => true
    case DisarmBump(e) =>
      e in s.open && e < |s.gens| && e !in s.locked && forall k :: 0 <= k < |s.settlers| ==> !Holds(s.settlers[k], e)
    case HubClose => true
    case Publish => true
  }

  function Append(s: State, ok: bool, item: Item): seq<Item> {
    if ok && !s.closed then s.log + [item] else s.log
  }

  function Bump(s: State, e: nat): State
    requires e < |s.gens|
  {
    s.(gens := s.gens[e := s.gens[e] + 1], open := s.open - {e})
  }

  function Settle(s: State, k: nat, w: Settler): State
    requires k < |s.settlers|
  {
    s.(settlers := s.settlers[k := w])
  }

  function Next(s: State, step: Step): State
    requires Enabled(s, step)
  {
    match step
    case Arm => if s.armed.Some? then s else s.(gens := s.gens + [0], armed := Some(|s.gens|))
    case TickGate(e) => if s.gens[e] != 0 then s else s.(locked := s.locked + {e})
    case TickAppend(e, ok) => s.(locked := s.locked - {e}, log := Append(s, ok, Tick(e)))
    case SettleBegin => s.(settlers := s.settlers + [Looking])
    case SettleTake(k) =>
      if s.armed.None? then Settle(s, k, Closing(|s.gens|))
      else Settle(s, k, Took(s.armed.value, |s.gens|)).(armed := None, open := s.open + {s.armed.value})
    case SettleBump(k) =>
      var e := s.settlers[k].entry;
      Settle(Bump(s, e), k, Assessing(e, s.settlers[k].bound))
    case SettleAssess(k, ok) =>
      Settle(s, k, Closing(s.settlers[k].bound)).(log := Append(s, ok, Terminal(s.settlers[k].entry)))
    case SettleAppend(k, ok) =>
      Settle(s, k, Finished).(log := Append(s, ok, Item.Settled(s.settlers[k].bound, s.open)))
    case DisarmTake => if s.armed.None? then s else s.(armed := None, open := s.open + {s.armed.value})
    case DisarmBump(e) => Bump(s, e)
    case HubClose => s.(closed := true)
    case Publish => s.(log := Append(s, true, Unrelated))
  }

  predicate Dead(s: State, e: nat) {
    e < |s.gens| && s.gens[e] > 0
  }

  predicate Live(s: State, e: nat) {
    e < |s.gens| && s.gens[e] == 0
  }

  /** Entries below the bound are dead, but for those in the exception set. */
  predicate Quiet(s: State, bound: nat, except: set<nat>) {
    bound <= |s.gens| && forall e :: 0 <= e < bound ==> Dead(s, e) || e in except
  }

  predicate SettlerOk(s: State, w: Settler) {
    match w
    case Looking => true
    case Took(e, n) => e in s.open && Quiet(s, n, s.open)
    case Assessing(e, n) => Dead(s, e) && Quiet(s, n, s.open)
    case Closing(n) => Quiet(s, n, s.open)
    case Finished => true
  }

  predicate SettlersInv(s: State) {
    && (forall k :: 0 <= k < |s.settlers| ==> SettlerOk(s, s.settlers[k]))
    && (forall k, l :: 0 <= k < l < |s.settlers| && s.settlers[k].Took? && s.settlers[l].Took? ==>
          s.settlers[k].entry != s.settlers[l].entry)
  }

  /** Every entry ever armed is in the map, in some disarm's hands, or dead; the first two
      are live, and so is an entry whose tick has passed the gate. */
  predicate EntriesInv(s: State) {
    && (forall e :: 0 <= e < |s.gens| ==> Dead(s, e) || s.armed == Some(e) || e in s.open)
    && (forall e :: e in s.open ==> Live(s, e))
    && (s.armed.Some? ==> Live(s, s.armed.value) && s.armed.value !in s.open)
    && (forall e :: e in s.locked ==> Live(s, e))
  }

  predicate ItemOk(s: State, item: Item) {
    match item
    case Tick(e) => true
    case Terminal(e) => Dead(s, e)
    case Settled(n, open) => Quiet(s, n, open)
    case Unrelated => true
  }

  /** later may follow earlier in the log. */
  predicate MayFollow(earlier: Item, later: Item) {
    later.Tick? ==>
      match earlier
      case Terminal(e) => later.entry != e
      case Settled(n, open) => later.entry < n ==> later.entry in open
      case Tick(e) => true
      case Unrelated => true
  }

  predicate Ordered(log: seq<Item>) {
    forall i, j :: 0 <= i < j < |log| ==> MayFollow(log[i], log[j])
  }

  predicate ItemsInv(s: State) {
    forall i :: 0 <= i < |s.log| ==> ItemOk(s, s.log[i])
  }

  predicate Inv(s: State) {
    EntriesInv(s) && SettlersInv(s) && ItemsInv(s) && Ordered(s.log)
  }

  lemma DeadStaysDead(s: State, step: Step, e: nat)
    requires Enabled(s, step) && Dead(s, e)
    ensures Dead(Next(s, step), e)
  {}

  lemma QuietStays(s: State, step: Step, bound: nat, except: set<nat>)
    requires Enabled(s, step) && Quiet(s, bound, except)
    ensures Quiet(Next(s, step), bound, except)
  {
    forall e | 0 <= e < bound && Dead(s, e)
      ensures Dead(Next(s, step), e)
    {
      DeadStaysDead(s, step, e);
    }
    assert |Next(s, step).gens| >= |s.gens|;
  }

  /** What leaves the open set is dead. */
  lemma OpenShrinksToDead(s: State, step: Step, e: nat)
    requires Enabled(s, step) && e in s.open && e < |s.gens|
    ensures e in Next(s, step).open || Dead(Next(s, step), e)
  {}

  lemma QuietButOpen(s: State, step: Step, bound: nat)
    requires Enabled(s, step) && Quiet(s, bound, s.open)
    ensures Quiet(Next(s, step), bound, Next(s, step).open)
  {
    QuietStays(s, step, bound, s.open);
    var t := Next(s, step);
    forall e | 0 <= e < bound
      ensures Dead(t, e) || e in t.open
    {
      if e in s.open {
        OpenShrinksToDead(s, step, e);
      }
    }
  }

  /** A settler that does not move keeps what it knows. */
  lemma OtherSettlerStays(s: State, step: Step, w: Settler)
    requires Enabled(s, step) && SettlerOk(s, w)
    requires w.Took? ==> w.entry in Next(s, step).open
    ensures SettlerOk(Next(s, step), w)
  {
    hide Next, Enabled;
    match w
    case Looking =>
    case Took(e, n) => QuietButOpen(s, step, n);
    case Assessing(e, n) =>
      DeadStaysDead(s, step, e);
      QuietButOpen(s, step, n);
    case Closing(n) => QuietButOpen(s, step, n);
    case Finished =>
  }

  predicate MovesSettler(step: Step) {
    step.SettleTake? || step.SettleBump? || step.SettleAssess? || step.SettleAppend?
  }

  /** Only the holder of an entry takes it out of the open set. */
  lemma TakenStaysOpen(s: State, step: Step, k: nat)
    requires Inv(s) && Enabled(s, step) && k < |s.settlers| && s.settlers[k].Took?
    requires MovesSettler(step) ==> step.k != k
    ensures s.settlers[k].entry in Next(s, step).open
  {
    hide ItemsInv, Ordered, Append;
    assert SettlerOk(s, s.settlers[k]);
    if step.DisarmBump? {
      assert !Holds(s.settlers[k], step.entry);
    }
  }

  /** The settler that moves. */
  lemma MovedSettler(s: State, step: Step)
    requires Inv(s) && Enabled(s, step) && MovesSettler(step)
    ensures |Next(s, step).settlers| == |s.settlers|
    ensures SettlerOk(Next(s, step), Next(s, step).settlers[step.k])
  {
    hide ItemsInv, Ordered, Append;
    assert SettlerOk(s, s.settlers[step.k]);
    if step.SettleBump? || step.SettleAssess? {
      QuietButOpen(s, step, s.settlers[step.k].bound);
    }
  }

  /** Which settlers a step changes, and that no two come to hold one entry. */
  lemma SettlersMove(s: State, step: Step)
    requires Inv(s) && Enabled(s, step)
    ensures var t := Next(s, step);
            && |s.settlers| <= |t.settlers|
            && (forall k :: 0 <= k < |s.settlers| && (MovesSettler(step) ==> step.k != k) ==> t.settlers[k] == s.settlers[k])
            && (forall k :: |s.settlers| <= k < |t.settlers| ==> t.settlers[k].Looking?)
    ensures MovesSettler(step) && Next(s, step).settlers[step.k].Took? ==>
              s.armed == Some(Next(s, step).settlers[step.k].entry)
  {
    hide ItemsInv, Ordered, Append, SettlersInv, EntriesInv;
  }

  lemma TakenIsNotArmed(s: State, k: nat)
    requires Inv(s) && k < |s.settlers| && s.settlers[k].Took?
    ensures s.armed != Some(s.settlers[k].entry)
  {
    assert SettlerOk(s, s.settlers[k]);
  }

  lemma SettlersStay(s: State, step: Step)
    requires Inv(s) && Enabled(s, step)
    ensures SettlersInv(Next(s, step))
  {
    var t := Next(s, step);
    SettlersMove(s, step);
    if MovesSettler(step) {
      MovedSettler(s, step);
    }
    forall k | 0 <= k < |s.settlers| && s.settlers[k].Took?
      ensures s.armed != Some(s.settlers[k].entry)
    {
      TakenIsNotArmed(s, k);
    }
    assert forall k :: 0 <= k < |s.settlers| ==> SettlerOk(s, s.settlers[k]);
    hide Next, Enabled, EntriesInv, ItemsInv, Ordered, SettlerOk;
    forall k | 0 <= k < |t.settlers|
      ensures SettlerOk(t, t.settlers[k])
    {
      if k >= |s.settlers| {
        LookingIsOk(t, t.settlers[k]);
      } else if MovesSettler(step) ==> step.k != k {
        if s.settlers[k].Took? {
          TakenStaysOpen(s, step, k);
        }
        OtherSettlerStays(s, step, s.settlers[k]);
      }
    }
  }

  lemma LookingIsOk(s: State, w: Settler)
    requires w.Looking?
    ensures SettlerOk(s, w)
  {}

  lemma EntriesStay(s: State, step: Step)
    requires Inv(s) && Enabled(s, step)
    ensures EntriesInv(Next(s, step))
  {
    hide ItemsInv, Ordered, Append;
    if step.SettleBump? {
      assert SettlerOk(s, s.settlers[step.k]);
    }
  }

  lemma ItemStays(s: State, step: Step, item: Item)
    requires Enabled(s, step) && ItemOk(s, item)
    ensures ItemOk(Next(s, step), item)
  {
    hide Next, Enabled;
    match item
    case Tick(e) =>
    case Terminal(e) => DeadStaysDead(s, step, e);
    case Settled(n, open) => QuietStays(s, step, n, open);
    case Unrelated =>
  }

  /** The item a step appends, if any. */
  lemma Appended(s: State, step: Step) returns (item: Item)
    requires Inv(s) && Enabled(s, step)
    ensures Next(s, step).log == s.log || Next(s, step).log == s.log + [item]
    ensures ItemOk(s, item)
    ensures item.Tick? ==> Live(s, item.entry)
  {
    hide ItemsInv, Ordered;
    item := match step
      case TickAppend(e, ok) => Tick(e)
      case SettleAssess(k, ok) => Terminal(s.settlers[k].entry)
      case SettleAppend(k, ok) => Item.Settled(s.settlers[k].bound, s.open)
      case _ => Unrelated;
    assert MovesSettler(step) ==> SettlerOk(s, s.settlers[step.k]);
  }

  lemma ItemsStay(s: State, step: Step)
    requires Inv(s) && Enabled(s, step)
    ensures ItemsInv(Next(s, step)) && Ordered(Next(s, step).log)
  {
    hide Next, Enabled, EntriesInv, SettlersInv, ItemOk, MayFollow;
    var t := Next(s, step);
    var item := Appended(s, step);
    ItemStays(s, step, item);
    forall i | 0 <= i < |s.log|
      ensures ItemOk(t, s.log[i]) && MayFollow(s.log[i], item)
    {
      ItemStays(s, step, s.log[i]);
      Follows(s, s.log[i], item);
    }
    assert forall i :: 0 <= i < |t.log| ==> t.log[i] == if i < |s.log| then s.log[i] else item;
  }

  lemma Follows(s: State, earlier: Item, later: Item)
    requires ItemOk(s, earlier)
    requires later.Tick? ==> Live(s, later.entry)
    ensures MayFollow(earlier, later)
  {}

  lemma StepKeepsInv(s: State, step: Step)
    requires Inv(s) && Enabled(s, step)
    ensures Inv(Next(s, step))
  {
    hide *;
    EntriesStay(s, step);
    SettlersStay(s, step);
    ItemsStay(s, step);
    InvOf(Next(s, step));
  }

  lemma InvOf(s: State)
    requires EntriesInv(s) && SettlersInv(s) && ItemsInv(s) && Ordered(s.log)
    ensures Inv(s)
  {}

  // ---- every run ----

  function Do(s: State, step: Step): State {
    if Enabled(s, step) then Next(s, step) else s
  }

  /** Any schedule of steps; one that is not enabled where it stands does nothing. */
  function After(run: seq<Step>): State {
    if run == [] then INITIAL else Do(After(run[..|run| - 1]), run[|run| - 1])
  }

  lemma AfterOne(run: seq<Step>, step: Step)
    ensures After(run + [step]) == Do(After(run), step)
  {
    assert (run + [step])[..|run|] == run;
  }

  lemma {:induction false} RunKeepsInv(run: seq<Step>)
    ensures Inv(After(run))
  {
    hide Inv, Next, Enabled;
    if run == [] {
      assert Inv(INITIAL) by { InitialInv(); }
    } else {
      var s, step := After(run[..|run| - 1]), run[|run| - 1];
      RunKeepsInv(run[..|run| - 1]);
      if Enabled(s, step) {
        StepKeepsInv(s, step);
      }
    }
  }

  lemma InitialInv()
    ensures Inv(INITIAL)
  {}

  /** In every interleaving of any number of settles, ticks and disarms: no tick of an
      entry lands after that entry's terminal assessment; and a tick that lands after
      agent.settled, of an entry armed before that settle looked for one, is of an entry
      that another disarm had taken from the map without closing its gate. */
  lemma LateTicks(run: seq<Step>)
    ensures Ordered(After(run).log)
  {
    RunKeepsInv(run);
  }

  /** How far a settle that took entry e has come: its terminal assessment is in the log
      before it goes on to settle, and before its settle is. */
  ghost predicate AssessedFirst(s: State, k: nat, e: nat, bound: nat) {
    && k < |s.settlers|
    && (|| s.settlers[k] == Took(e, bound)
        || s.settlers[k] == Assessing(e, bound)
        || (s.settlers[k] == Closing(bound) && Terminal(e) in s.log)
        || (s.settlers[k] == Finished && exists j :: SettledAfter(s.log, e, bound, j)))
  }

  predicate SettledAfter(log: seq<Item>, e: nat, bound: nat, j: int) {
    0 <= j < |log| && log[j].Settled? && log[j].bound == bound && Terminal(e) in log[..j]
  }

  lemma StepAssessesFirst(s: State, step: Step, k: nat, e: nat, bound: nat)
    requires AssessedFirst(s, k, e, bound) && !Do(s, step).closed
    requires step != SettleAssess(k, false) && step != SettleAppend(k, false)
    ensures AssessedFirst(Do(s, step), k, e, bound) && !s.closed
  {
    hide SettledAfter;
    if s.settlers[k].Finished? {
      FinishedStays(s, step, k, e, bound);
    } else if step == SettleAppend(k, true) && s.settlers[k].Closing? {
      assert SettledAfter(s.log + [Item.Settled(bound, s.open)], e, bound, |s.log|) by {
        SettledNow(s.log, e, bound, s.open);
      }
    }
  }

  lemma SettledNow(log: seq<Item>, e: nat, bound: nat, open: set<nat>)
    requires Terminal(e) in log
    ensures SettledAfter(log + [Item.Settled(bound, open)], e, bound, |log|)
  {
    assert (log + [Item.Settled(bound, open)])[..|log|] == log;
  }

  lemma FinishedStays(s: State, step: Step, k: nat, e: nat, bound: nat)
    requires AssessedFirst(s, k, e, bound) && s.settlers[k].Finished?
    ensures AssessedFirst(Do(s, step), k, e, bound)
  {
    var s' := Do(s, step);
    var j :| SettledAfter(s.log, e, bound, j);
    assert s'.log[..j] == s.log[..j];
    assert SettledAfter(s'.log, e, bound, j);
  }

  /** A settle that finds an armed entry takes it, and in every interleaving in which the
      hub stays open and its own appends commit, that entry's terminal assessment is
      recorded before its agent.settled. */
  lemma {:induction false} TerminalBeforeSettled(run: seq<Step>, more: seq<Step>, k: nat)
    requires k < |After(run).settlers| && After(run).settlers[k].Looking? && After(run).armed.Some?
    requires !After(run + [SettleTake(k)] + more).closed
    requires SettleAssess(k, false) !in more && SettleAppend(k, false) !in more
    ensures AssessedFirst(After(run + [SettleTake(k)] + more), k, After(run).armed.value, |After(run).gens|)
    decreases |more|
  {
    hide Next, Enabled, AssessedFirst;
    var taken := run + [SettleTake(k)];
    if more == [] {
      AfterOne(run, SettleTake(k));
      assert taken + more == taken;
      Takes(After(run), k);
    } else {
      var front, step := more[..|more| - 1], more[|more| - 1];
      assert taken + more == (taken + front) + [step];
      AfterOne(taken + front, step);
      OpenBefore(After(taken + front), step);
      assert step in more && forall x :: x in front ==> x in more;
      TerminalBeforeSettled(run, front, k);
      StepAssessesFirst(After(taken + front), step, k, After(run).armed.value, |After(run).gens|);
    }
  }

  lemma Takes(s: State, k: nat)
    requires k < |s.settlers| && s.settlers[k].Looking? && s.armed.Some?
    ensures AssessedFirst(Do(s, SettleTake(k)), k, s.armed.value, |s.gens|)
  {}

  lemma OpenBefore(s: State, step: Step)
    requires !Do(s, step).closed
    ensures !s.closed
  {}

  /** Once the hub is closed the log stays as it is. */
  lemma {:induction false} ClosedHubIsSilent(run: seq<Step>, more: seq<Step>)
    ensures After(run + [HubClose] + more).closed && After(run + [HubClose] + more).log == After(run).log
    decreases |more|
  {
    hide After;
    var ended := run + [HubClose];
    if more == [] {
      AfterOne(run, HubClose);
      assert ended + more == ended;
    } else {
      var front, step := more[..|more| - 1], more[|more| - 1];
      ClosedHubIsSilent(run, front);
      assert ended + more == (ended + front) + [step];
      AfterOne(ended + front, step);
    }
  }

  /** Once an entry is disarmed, none of its ticks can append, however many were in
      flight. */
  lemma {:induction false} GateCloses(run: seq<Step>, more: seq<Step>, e: nat)
    requires Dead(After(run), e)
    ensures Dead(After(run + more), e)
    ensures After(run).log <= After(run + more).log
    ensures Tick(e) !in After(run + more).log[|After(run).log|..]
    decreases |more|
  {
    hide Next, Enabled, Inv;
    if more == [] {
      assert run + more == run;
    } else {
      var front, step := more[..|more| - 1], more[|more| - 1];
      assert run + more == (run + front) + [step];
      AfterOne(run + front, step);
      GateCloses(run, front, e);
      RunKeepsInv(run + front);
      var s := After(run + front);
      if Enabled(s, step) {
        DeadStaysDead(s, step, e);
        var item := Appended(s, step);
        assert item != Tick(e) by { assert s.gens[e] > 0; }
        var n := |After(run).log|;
        assert (s.log + [item])[n..] == s.log[n..] + [item];
      }
    }
  }

  lemma {:induction false} LogGrows(run: seq<Step>, more: seq<Step>)
    ensures After(run).log <= After(run + more).log
    decreases |more|
  {
    hide Next, Enabled, Inv;
    if more == [] {
      assert run + more == run;
    } else {
      var front, step := more[..|more| - 1], more[|more| - 1];
      assert run + more == (run + front) + [step];
      AfterOne(run + front, step);
      LogGrows(run, front);
      RunKeepsInv(run + front);
      if Enabled(After(run + front), step) {
        var item := Appended(After(run + front), step);
      }
    }
  }

  // ---- when agent.settled is final ----

  /** No tick of an entry below the bound is appended by more. */
  ghost predicate Silent(run: seq<Step>, more: seq<Step>, bound: nat) {
    && After(run).log <= After(run + more).log
    && forall e :: 0 <= e < bound ==> Tick(e) !in After(run + more).log[|After(run).log|..]
  }

  /** A live entry that is not in the map can still tick. */
  lemma OpenEntryTicks(run: seq<Step>, e: nat) returns (more: seq<Step>)
    requires Live(After(run), e) && !After(run).closed
    ensures After(run + more).log == After(run).log + [Tick(e)]
  {
    var s := After(run);
    if e in s.locked {
      more := [TickAppend(e, true)];
      AfterOne(run, TickAppend(e, true));
    } else {
      more := [TickGate(e), TickAppend(e, true)];
      AfterOne(run, TickGate(e));
      AfterOne(run + [TickGate(e)], TickAppend(e, true));
      assert run + more == run + [TickGate(e)] + [TickAppend(e, true)];
    }
  }

  /** The exact condition for one settle: in any run, with a settle about to append
      agent.settled on an open hub, no tick of an entry armed before that settle looked
      for one can follow the append, whatever happens next, if and only if no such entry
      is in the hands of a disarm that has not closed its gate. */
  lemma SettledIsFinalIff(run: seq<Step>, k: nat)
    requires k < |After(run).settlers| && After(run).settlers[k].Closing? && !After(run).closed
    ensures var s := After(run);
            var bound := s.settlers[k].bound;
            var settled := run + [SettleAppend(k, true)];
            && After(settled).log == s.log + [Item.Settled(bound, s.open)]
            && ((forall more :: Silent(settled, more, bound)) <==> forall e :: e in s.open ==> e >= bound)
  {
    hide Inv, Silent, After;
    var s := After(run);
    var bound := s.settlers[k].bound;
    var settled := run + [SettleAppend(k, true)];
    AfterOne(run, SettleAppend(k, true));
    RunKeepsInv(run);
    var t := After(settled);
    if forall e :: e in s.open ==> e >= bound {
      ClosingIsQuiet(s, k);
      forall e | 0 <= e < bound
        ensures Dead(t, e)
      {
        assert Dead(s, e);
        DeadStaysDead(s, SettleAppend(k, true), e);
      }
      forall more
        ensures Silent(settled, more, bound)
      {
        AllDead(settled, more, bound);
      }
    } else {
      var e :| e in s.open && e < bound;
      OpenIsLive(s, e);
      var more := OpenEntryTicks(settled, e);
      NotSilent(settled, more, bound, e);
    }
  }

  lemma ClosingIsQuiet(s: State, k: nat)
    requires Inv(s) && k < |s.settlers| && s.settlers[k].Closing?
    requires forall e :: e in s.open ==> e >= s.settlers[k].bound
    ensures forall e :: 0 <= e < s.settlers[k].bound ==> Dead(s, e)
  {
    assert SettlerOk(s, s.settlers[k]);
  }

  lemma OpenIsLive(s: State, e: nat)
    requires Inv(s) && e in s.open
    ensures Live(s, e)
  {}

  lemma NotSilent(run: seq<Step>, more: seq<Step>, bound: nat, e: nat)
    requires e < bound && After(run + more).log == After(run).log + [Tick(e)]
    ensures !Silent(run, more, bound)
  {
    hide After;
    assert After(run + more).log[|After(run).log|..] == [Tick(e)];
  }

  lemma AllDead(run: seq<Step>, more: seq<Step>, bound: nat)
    requires forall e :: 0 <= e < bound ==> Dead(After(run), e)
    ensures Silent(run, more, bound)
  {
    LogGrows(run, more);
    forall e | 0 <= e < bound
      ensures Tick(e) !in After(run + more).log[|After(run).log|..]
    {
      GateCloses(run, more, e);
    }
  }

  /** The schedule in which fail takes the entry first: settle finds none, appends
      agent.settled, and a tick still passes the gate. */
  const RACE := [Arm, SettleBegin, DisarmTake, SettleTake(0), SettleAppend(0, true), TickGate(0), TickAppend(0, true)]

  lemma {:induction false} SettledThenTick()
    ensures After(RACE).log == [Item.Settled(1, {0}), Tick(0)]
  {
    hide After;
    RaceSettles();
    AfterOne(RACE[..5], RACE[5]);
    AfterOne(RACE[..6], RACE[6]);
    assert RACE[..6] == RACE[..5] + [RACE[5]] && RACE == RACE[..6] + [RACE[6]];
  }

  lemma {:induction false} RaceSettles()
    ensures After(RACE[..5]) == State([0], {}, None, {0}, [Finished], false, [Item.Settled(1, {0})])
  {
    hide After;
    Begun();
    var r2 := [Arm, SettleBegin];
    AfterOne(r2, DisarmTake);
    assert After(r2 + [DisarmTake]) == State([0], {}, None, {0}, [Looking], false, []);
    SettleFindsNone(r2 + [DisarmTake]);
    assert RACE[..5] == r2 + [DisarmTake] + [SettleTake(0)] + [SettleAppend(0, true)];
  }

  /** One entry armed and one settle begun. */
  lemma {:induction false} Begun()
    ensures After([Arm, SettleBegin]) == State([0], {}, Some(0), {}, [Looking], false, [])
  {
    hide After;
    AfterNone();
    AfterOne([], Arm);
    AfterOne([Arm], SettleBegin);
    assert [] + [Arm] == [Arm] && [Arm] + [SettleBegin] == [Arm, SettleBegin];
  }

  lemma {:induction false} SettleFindsNone(r: seq<Step>)
    requires After(r) == State([0], {}, None, {0}, [Looking], false, [])
    ensures After(r + [SettleTake(0)] + [SettleAppend(0, true)]) ==
            State([0], {}, None, {0}, [Finished], false, [Item.Settled(1, {0})])
  {
    hide After;
    AfterOne(r, SettleTake(0));
    AfterOne(r + [SettleTake(0)], SettleAppend(0, true));
  }

  lemma AfterNone()
    ensures After([]) == INITIAL
  {}

  /** The schedule in which two settles overlap: the first has taken the entry when the
      second, which finds none, appends agent.settled. */
  const OVERLAP := [Arm, SettleBegin, SettleBegin, SettleTake(0), SettleTake(1), SettleAppend(1, true)]

  lemma {:induction false} OverlappingSettles()
    ensures var s := After(OVERLAP);
            s.log == [Item.Settled(1, {0})] && Live(s, 0) && !s.closed
    ensures exists more :: After(OVERLAP + more).log == [Item.Settled(1, {0}), Tick(0)]
  {
    hide After;
    BothBegun();
    var r4 := [Arm, SettleBegin] + [SettleBegin] + [SettleTake(0)];
    AfterOne(r4, SettleTake(1));
    AfterOne(r4 + [SettleTake(1)], SettleAppend(1, true));
    assert OVERLAP == r4 + [SettleTake(1)] + [SettleAppend(1, true)];
    var more := OpenEntryTicks(OVERLAP, 0);
  }

  lemma {:induction false} BothBegun()
    ensures After([Arm, SettleBegin] + [SettleBegin] + [SettleTake(0)]) ==
            State([0], {}, None, {0}, [Took(0, 1), Looking], false, [])
  {
    hide After;
    Begun();
    AfterOne([Arm, SettleBegin], SettleBegin);
    AfterOne([Arm, SettleBegin] + [SettleBegin], SettleTake(0));
  }
}
