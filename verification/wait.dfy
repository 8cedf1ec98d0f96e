/** The blocking wait surface (controller/wait.go) over the hub's snapshot and
    subscription (controller/events.go). */
module Wait {
  import opened Wrappers
  import opened Events
  import opened EventStore
  import opened EventHub
  import opened Session
  import Monitor

  datatype Trigger = StateChanged | AssessmentChanged | TimedOut

  /** A state trigger, an assessment with its verdict, or nothing. */
  datatype Wake = Asleep | StateWake | VerdictWake(verdict: string)

  /** wakeOf: any event of the session vocabulary and agent.failed are state changes; an
      assessment that does not decode is nothing. */
  function WakeOf(k: Kind): Wake {
    if Target(k).Some? then StateWake
    else
      match k
      case Failed => StateWake
      case Assessed(Some(verdict)) => VerdictWake(verdict)
      case _ => Asleep
  }

  /** The trigger kinds so far and the last verdict seen. */
  datatype Fold = Fold(changed: set<Trigger>, last: string)

  function Consume(f: Fold, k: Kind): Fold {
    match WakeOf(k)
    case Asleep => f
    case StateWake => f.(changed := f.changed + {StateChanged})
    case VerdictWake(v) => if v == f.last then f else Fold(f.changed + {AssessmentChanged}, v)
  }

  function ConsumeAll(f: Fold, ks: seq<Kind>): Fold {
    if ks == [] then f else Consume(ConsumeAll(f, ks[..|ks| - 1]), ks[|ks| - 1])
  }

  /** Folding in any split is folding in one pass. */
  lemma {:induction false} FoldOfSplit(f: Fold, a: seq<Kind>, b: seq<Kind>)
    ensures ConsumeAll(f, a + b) == ConsumeAll(ConsumeAll(f, a), b)
  {
    if b == [] {
      assert a + b == a;
    } else {
      var front := b[..|b| - 1];
      assert (a + b)[..|a + b| - 1] == a + front;
      FoldOfSplit(f, a, front);
    }
  }

  lemma FoldOfAppend(f: Fold, a: seq<Kind>, k: Kind)
    ensures ConsumeAll(f, a + [k]) == Consume(ConsumeAll(f, a), k)
  {
    assert (a + [k])[..|a|] == a;
  }

  // ---- what the triggers mean ----

  /** The decodable verdicts, in log order. */
  function Verdicts(ks: seq<Kind>): seq<string> {
    if ks == [] then []
    else
      var front, k := Verdicts(ks[..|ks| - 1]), ks[|ks| - 1];
      if k.Assessed? && k.verdict.Some? then front + [k.verdict.value] else front
  }

  /** A change of the session state, or the liveness failure beside it. */
  predicate ChangesState(k: Kind) {
    Target(k).Some? || k.Failed?
  }

  /** wakeOf sees a state change, a decodable verdict, or nothing else. */
  lemma WakeOfIs(k: Kind)
    ensures WakeOf(k) == StateWake <==> ChangesState(k)
    ensures WakeOf(k).VerdictWake? <==> k.Assessed? && k.verdict.Some?
    ensures k.Assessed? && k.verdict.Some? ==> WakeOf(k) == VerdictWake(k.verdict.value)
  {}

  function LastOf(first: string, vs: seq<string>): string {
    if vs == [] then first else vs[|vs| - 1]
  }

  /** Some verdict differs from its predecessor, first being that of the earliest. */
  predicate Varies(first: string, vs: seq<string>) {
    exists i :: 0 <= i < |vs| && vs[i] != LastOf(first, vs[..i])
  }

  predicate SomeStateWake(ks: seq<Kind>) {
    exists i :: 0 <= i < |ks| && ChangesState(ks[i])
  }

  lemma VariesOfAppend(first: string, vs: seq<string>, v: string)
    ensures Varies(first, vs + [v]) <==> Varies(first, vs) || v != LastOf(first, vs)
  {
    var ws := vs + [v];
    assert forall i :: 0 <= i <= |vs| ==> ws[..i] == vs[..i];
    assert vs[..|vs|] == vs;
    if Varies(first, vs) {
      var i :| 0 <= i < |vs| && vs[i] != LastOf(first, vs[..i]);
      assert ws[i] != LastOf(first, ws[..i]);
    }
    if v != LastOf(first, vs) {
      assert ws[|vs|] != LastOf(first, ws[..|vs|]);
    }
  }

  lemma SomeStateWakeOfAppend(ks: seq<Kind>, k: Kind)
    ensures SomeStateWake(ks + [k]) <==> SomeStateWake(ks) || ChangesState(k)
  {
    var ls := ks + [k];
    if SomeStateWake(ks) {
      var i :| 0 <= i < |ks| && ChangesState(ks[i]);
      assert ChangesState(ls[i]);
    }
    if ChangesState(k) {
      assert ChangesState(ls[|ks|]);
    }
  }

  /** A state trigger fires exactly when some event is a state change; an assessment
      trigger exactly when some verdict differs from its predecessor. */
  lemma {:induction false} TriggersIff(f: Fold, ks: seq<Kind>)
    ensures var g := ConsumeAll(f, ks);
            && (StateChanged in g.changed <==> StateChanged in f.changed || SomeStateWake(ks))
            && (AssessmentChanged in g.changed <==> AssessmentChanged in f.changed || Varies(f.last, Verdicts(ks)))
            && (TimedOut in g.changed <==> TimedOut in f.changed)
            && g.last == LastOf(f.last, Verdicts(ks))
  {
    hide WakeOf, Varies, SomeStateWake, ChangesState;
    if ks == [] {
      assert !SomeStateWake(ks) && !Varies(f.last, Verdicts(ks)) by { NothingFires(f.last, ks, Verdicts(ks)); }
    } else {
      var front, k := ks[..|ks| - 1], ks[|ks| - 1];
      assert ks == front + [k];
      TriggersIff(f, front);
      SomeStateWakeOfAppend(front, k);
      WakeOfIs(k);
      if WakeOf(k).VerdictWake? {
        VariesOfAppend(f.last, Verdicts(front), WakeOf(k).verdict);
      }
    }
  }

  lemma NothingFires(first: string, ks: seq<Kind>, vs: seq<string>)
    requires ks == [] && vs == []
    ensures !SomeStateWake(ks) && !Varies(first, vs)
  {}

  // ---- the loops ----

  /** consumeWakeEvents. */
  method ConsumeWakeEvents(evs: seq<Event>, changed0: set<Trigger>, last0: string)
    returns (changed: set<Trigger>, last: string, woke: bool)
    ensures Fold(changed, last) == ConsumeAll(Fold(changed0, last0), Kinds(evs))
    ensures woke <==> SomeStateWake(Kinds(evs)) || Varies(last0, Verdicts(Kinds(evs)))
    ensures StateChanged in changed <==> StateChanged in changed0 || SomeStateWake(Kinds(evs))
    ensures AssessmentChanged in changed <==> AssessmentChanged in changed0 || Varies(last0, Verdicts(Kinds(evs)))
    ensures last == LastOf(last0, Verdicts(Kinds(evs)))
  {
    hide Kinds, Varies, SomeStateWake, Verdicts, ChangesState, ConsumeAll;
    KindsAt(evs);
    NoFold(Fold(changed0, last0));
    NoFold(Fold({}, last0));
    changed, last, woke := changed0, last0, false;
    ghost var base, ks := Fold({}, last0), Kinds(evs);
    assert ks[..0] == [];
    for i := 0 to |evs|
      invariant Fold(changed, last) == ConsumeAll(Fold(changed0, last0), ks[..i])
      invariant last == ConsumeAll(base, ks[..i]).last
      invariant woke <==> ConsumeAll(base, ks[..i]).changed != {}
    {
      assert ks[..i + 1] == ks[..i] + [ks[i]];
      FoldOfAppend(Fold(changed0, last0), ks[..i], ks[i]);
      FoldOfAppend(base, ks[..i], ks[i]);
      var wake := WakeOf(evs[i].kind);
      if wake == Asleep || (wake.VerdictWake? && wake.verdict == last) {
        continue;
      }
      if wake.VerdictWake? {
        last := wake.verdict;
        changed := changed + {AssessmentChanged};
      } else {
        changed := changed + {StateChanged};
      }
      woke := true;
    }
    assert ks[..|evs|] == ks;
    TriggersIff(base, ks);
    FiredIff(ConsumeAll(base, ks));
    TriggersIff(Fold(changed0, last0), ks);
  }

  lemma NoFold(f: Fold)
    ensures ConsumeAll(f, []) == f
  {}

  lemma KindsAt(evs: seq<Event>)
    ensures |Kinds(evs)| == |evs| && forall i :: 0 <= i < |evs| ==> Kinds(evs)[i] == evs[i].kind
  {}

  lemma FiredIff(f: Fold)
    ensures f.changed != {} <==> StateChanged in f.changed || AssessmentChanged in f.changed || TimedOut in f.changed
  {
    if f.changed != {} {
      var t :| t in f.changed;
      assert t == StateChanged || t == AssessmentChanged || t == TimedOut;
    }
  }

  lemma WokeIff(f: Fold, ks: seq<Kind>)
    ensures ConsumeAll(f, ks).changed != {} <==> f.changed != {} || SomeStateWake(ks) || Varies(f.last, Verdicts(ks))
  {
    hide ConsumeAll, SomeStateWake, Varies, Verdicts;
    TriggersIff(f, ks);
    FiredIff(f);
    FiredIff(ConsumeAll(f, ks));
  }

  /** Folding one more batch of events. */
  lemma FoldOfBatch(f: Fold, a: seq<Event>, b: seq<Event>)
    ensures ConsumeAll(f, Kinds(a + b)) == ConsumeAll(ConsumeAll(f, Kinds(a)), Kinds(b))
  {
    hide ConsumeAll;
    assert Kinds(a + b) == Kinds(a) + Kinds(b);
    FoldOfSplit(f, Kinds(a), Kinds(b));
  }

  /** n is the least number of live events with which something has fired. */
  ghost predicate FirstWake(replay: seq<Event>, live: seq<Event>, verdict: string, n: nat) {
    && n <= |live| && ConsumeAll(Fold({}, verdict), Kinds(replay + live[..n])).changed != {}
    && (n > 0 ==> ConsumeAll(Fold({}, verdict), Kinds(replay + live[..n - 1])).changed == {})
  }

  lemma FirstWakeIs(replay: seq<Event>, live: seq<Event>, verdict: string, n: nat)
    requires n <= |live| && ConsumeAll(Fold({}, verdict), Kinds(replay + live[..n])).changed != {}
    requires n == 0 || ConsumeAll(Fold({}, verdict), Kinds(replay + live[..n - 1])).changed == {}
    ensures FirstWake(replay, live, verdict, n)
  {}

  /** The part of Wait after Subscribe, without its timer: fold the replay; when nothing
      fired, take live events until one does; then coalesce. live holds what the channel
      delivers and window how many of them the coalescing takes. */
  method AwaitWake(replay: seq<Event>, live: seq<Event>, window: nat, verdict: string)
    returns (changed: set<Trigger>, last: string, taken: nat)
    ensures taken <= |live|
    ensures Fold(changed, last) == ConsumeAll(Fold({}, verdict), Kinds(replay + live[..taken]))
    ensures changed == {} ==> taken == |live|
    ensures changed != {} ==>
              exists n: nat :: FirstWake(replay, live, verdict, n)
                            && taken == if n + window < |live| then n + window else |live|
  {
    hide *;
    var woke;
    ghost var start := Fold({}, verdict);
    changed, last, woke := ConsumeWakeEvents(replay, {}, verdict);
    WokeIff(start, Kinds(replay));
    taken := 0;
    assert replay + live[..0] == replay;
    while !woke && taken < |live|
      invariant taken <= |live|
      invariant Fold(changed, last) == ConsumeAll(start, Kinds(replay + live[..taken]))
      invariant woke <==> changed != {}
      invariant woke ==> taken == 0 || ConsumeAll(start, Kinds(replay + live[..taken - 1])).changed == {}
      decreases |live| - taken
    {
      var next := [live[taken]];
      WokeIff(Fold(changed, last), Kinds(next));
      FoldOfBatch(start, replay + live[..taken], next);
      changed, last, woke := ConsumeWakeEvents(next, changed, last);
      assert replay + live[..taken] + next == replay + live[..taken + 1];
      taken := taken + 1;
    }
    if woke {
      FirstWakeIs(replay, live, verdict, taken);
      var upTo := if window < |live| - taken then taken + window else |live|;
      var drained := live[taken..upTo];
      WokeIff(Fold(changed, last), Kinds(drained));
      FoldOfBatch(start, replay + live[..taken], drained);
      changed, last, woke := ConsumeWakeEvents(drained, changed, last);
      assert replay + live[..taken] + drained == replay + live[..upTo];
      taken := upTo;
    }
  }

  // ---- no lost wake, over every run ----

  /** One waiter beside the hub: the durable log, the cursor its snapshot ended on, what
      it has folded, what its channel still holds, and how often a full channel was
      skipped. */
  datatype Waiter = Waiter(log: seq<Event>, cursor: nat, subscribed: bool, folded: seq<Event>, queue: seq<Event>,
                           skipped: nat)

  datatype Step = Publish(ev: Event) | Subscribe | Receive

  function Snapshot(log: seq<Event>): Waiter {
    Waiter(log, |log|, false, [], [], 0)
  }

  function Next(w: Waiter, step: Step): Waiter {
    match step
    case Publish(ev) =>
      var logged := w.(log := w.log + [ev]);
      if !w.subscribed then logged
      else logged.(queue := Offer(w.queue, ev),
                   skipped := if |w.queue| < CHANNEL_CAP then w.skipped else w.skipped + 1)
    case Subscribe => if w.subscribed then w else w.(subscribed := true, folded := Replayed(w.log, w.cursor))
    case Receive =>
      if w.queue == [] then w else w.(folded := w.folded + [w.queue[0]], queue := w.queue[1..])
  }

  /** The waiter is what the hub feeds: a publish, lifecycle or pulled, leaves in the log
      and in this subscriber's channel what the waiter's own step says. */
  lemma HubFeedsWaiter(st: Store, h: Hub, kind: Kind, data: string, spoolId: nat, id: nat, w: Waiter)
    requires id in h.subs && w.subscribed && w.queue == h.subs[id] && w.log == st.log
    ensures var w' := Next(w, Publish(Event(h.nextSeq + 1, kind, data)));
            && id in Published(st, h, kind, data).1.subs && id in Pulled(st, h, kind, data, spoolId).1.subs
            && Published(st, h, kind, data).1.subs[id] == w'.queue == Pulled(st, h, kind, data, spoolId).1.subs[id]
            && Published(st, h, kind, data).0.log == w'.log == Pulled(st, h, kind, data, spoolId).0.log
            && w'.queue == (if |w.queue| < 256 then w.queue + [Event(h.nextSeq + 1, kind, data)] else w.queue)
  {}

  function After(start: seq<Event>, run: seq<Step>): Waiter {
    if run == [] then Snapshot(start) else Next(After(start, run[..|run| - 1]), run[|run| - 1])
  }

  ghost predicate Inv(start: seq<Event>, w: Waiter) {
    && w.cursor == |start| <= |w.log| && w.log[..w.cursor] == start
    && (!w.subscribed ==> w.folded == [] && w.queue == [] && w.skipped == 0)
    && (w.subscribed ==> |w.folded| + |w.queue| + w.skipped == |w.log| - w.cursor)
    && (w.subscribed && w.skipped == 0 ==> w.folded + w.queue == w.log[w.cursor..])
  }

  lemma {:induction false} RunKeepsInv(start: seq<Event>, run: seq<Step>)
    ensures Inv(start, After(start, run))
  {
    if run != [] {
      var w, step := After(start, run[..|run| - 1]), run[|run| - 1];
      RunKeepsInv(start, run[..|run| - 1]);
      match step
      case Publish(ev) =>
        assert (w.log + [ev])[w.cursor..] == w.log[w.cursor..] + [ev];
        assert w.folded + (w.queue + [ev]) == w.folded + w.queue + [ev];
      case Subscribe =>
        assert w.log[w.cursor..] + [] == w.log[w.cursor..];
      case Receive =>
        if w.queue != [] {
          assert w.folded + [w.queue[0]] + w.queue[1..] == w.folded + w.queue;
        }
    }
  }

  /** What a subscribed waiter has folded, followed by what its channel holds, is the log
      after its snapshot, each event once and in order, exactly when the channel never
      overflowed. */
  lemma SuffixIff(start: seq<Event>, run: seq<Step>)
    requires After(start, run).subscribed
    ensures var w := After(start, run);
            w.folded + w.queue == Replayed(w.log, |start|) <==> w.skipped == 0
  {
    RunKeepsInv(start, run);
  }

  lemma {:induction false} SleepKeepsState(log: seq<Kind>, more: seq<Kind>)
    requires !SomeStateWake(more)
    ensures Replay(log + more) == Replay(log) && ReplayStatus(log + more) == ReplayStatus(log)
    decreases |more|
  {
    if more == [] {
      assert log + more == log;
    } else {
      var front, k := more[..|more| - 1], more[|more| - 1];
      SomeStateWakeOfAppend(front, k);
      assert more == front + [k] && log + more == (log + front) + [k];
      SleepKeepsState(log, front);
      ReplayAppend(log + front, k);
    }
  }

  /** A waiter that would go on blocking: its channel is empty and nothing has fired. */
  ghost predicate Blocked(start: seq<Event>, w: Waiter) {
    w.subscribed && w.queue == [] && ConsumeAll(Fold({}, Monitor.LastVerdict(start)), Kinds(w.folded)).changed == {}
  }

  /** No lost wake: in every run in which the channel did not overflow, a waiter blocks
      exactly when nothing since its snapshot was a wake; and then the session state and
      the agent status the log projects onto are still those of the snapshot. */
  lemma NoLostWake(start: seq<Event>, run: seq<Step>)
    requires After(start, run).subscribed && After(start, run).queue == [] && After(start, run).skipped == 0
    ensures var w := After(start, run);
            var since := Kinds(Replayed(w.log, |start|));
            && (Blocked(start, w) <==>
                  !SomeStateWake(since) && !Varies(Monitor.LastVerdict(start), Verdicts(since)))
            && (Blocked(start, w) ==> Replay(Kinds(w.log)) == Replay(Kinds(start)))
            && (Blocked(start, w) ==> ReplayStatus(Kinds(w.log)) == ReplayStatus(Kinds(start)))
  {
    hide Varies, SomeStateWake, Verdicts, Monitor.LastVerdict, After, ConsumeAll, Kinds, Replay, ReplayStatus;
    RunKeepsInv(start, run);
    var w := After(start, run);
    Drained(start, w);
    var since := Kinds(w.folded);
    WokeIff(Fold({}, Monitor.LastVerdict(start)), since);
    if !SomeStateWake(since) {
      SleepKeepsState(Kinds(start), since);
    }
  }

  function Receives(n: nat): seq<Step> {
    seq(n, _ => Receive)
  }

  lemma AfterOne(start: seq<Event>, run: seq<Step>, step: Step)
    ensures After(start, run + [step]) == Next(After(start, run), step)
  {
    assert (run + [step])[..|run|] == run;
  }

  /** Subscribing hands over everything logged since the snapshot. */
  lemma SubscribeReplays(start: seq<Event>, run: seq<Step>)
    requires !After(start, run).subscribed
    ensures var w, w' := After(start, run), After(start, run + [Subscribe]);
            w'.subscribed && w'.log == w.log && w'.folded == Replayed(w.log, |start|) && w'.queue == []
            && w'.skipped == 0
  {
    hide After;
    RunKeepsInv(start, run);
    AfterOne(start, run, Subscribe);
  }

  /** Receiving folds what the channel holds, in order. */
  lemma {:induction false} ReceivesDrain(start: seq<Event>, run: seq<Step>, n: nat)
    requires n <= |After(start, run).queue|
    ensures var w := After(start, run);
            After(start, run + Receives(n)) == w.(folded := w.folded + w.queue[..n], queue := w.queue[n..])
    decreases n
  {
    hide After;
    var w := After(start, run);
    if n == 0 {
      assert run + Receives(0) == run && w.folded + w.queue[..0] == w.folded && w.queue[0..] == w.queue;
    } else {
      ReceivesDrain(start, run, n - 1);
      assert run + Receives(n) == (run + Receives(n - 1)) + [Receive];
      AfterOne(start, run + Receives(n - 1), Receive);
      assert w.queue[n - 1..][1..] == w.queue[n..];
      assert w.folded + w.queue[..n - 1] + [w.queue[n - 1]] == w.folded + w.queue[..n];
    }
  }

  /** Every wake is delivered: while the channel has not overflowed, a waiter whose log holds
      a wake since its snapshot has a trigger once it has subscribed and read what is there. */
  lemma WakeIsDelivered(start: seq<Event>, run: seq<Step>) returns (more: seq<Step>)
    requires var w := After(start, run);
             && w.skipped == 0
             && var since := Kinds(Replayed(w.log, |start|));
                SomeStateWake(since) || Varies(Monitor.LastVerdict(start), Verdicts(since))
    ensures Subscribe !in more || !After(start, run).subscribed
    ensures forall i :: 0 <= i < |more| ==> more[i].Subscribe? || more[i].Receive?
    ensures var w' := After(start, run + more);
            && w'.log == After(start, run).log && w'.subscribed && w'.queue == []
            && ConsumeAll(Fold({}, Monitor.LastVerdict(start)), Kinds(w'.folded)).changed != {}
  {
    hide After, Varies, SomeStateWake, Verdicts, Monitor.LastVerdict, ConsumeAll, Kinds;
    var w := After(start, run);
    if w.subscribed {
      more := Receives(|w.queue|);
      ReceivesDrain(start, run, |w.queue|);
    } else {
      more := [Subscribe];
      SubscribeReplays(start, run);
    }
    NoLostWake(start, run + more);
  }

  /** With an empty channel that never overflowed, what was folded is the log since the
      snapshot. */
  lemma Drained(start: seq<Event>, w: Waiter)
    requires Inv(start, w) && w.subscribed && w.queue == [] && w.skipped == 0
    ensures Replayed(w.log, |start|) == w.folded && Kinds(w.log) == Kinds(start) + Kinds(w.folded)
  {
    assert w.folded + [] == w.folded;
    assert w.log == start + w.folded;
  }
}
