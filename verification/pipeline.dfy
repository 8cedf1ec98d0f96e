/** The pull pipeline end to end: records spooled by the daemon under its own ids,
    pulled by cursor over an unreliable link by any number of pull loops, and
    appended to the controller's log exactly once. Every mutex-protected body is
    one step; the daemon and the controller crash and recover independently. */
module Pipeline {
  import opened Wrappers
  import opened Events
  import opened EventStore
  import opened EventHub
  import opened SpoolCodec
  import Spool

  /** The spool cap, and the type a verbatim record carries (eventTypeOf). */
  datatype Config = Config(cap: nat, kindOf: string -> Kind)

  /** One pull loop: between polls, waiting for the reply to a poll it sent with
      this cursor, or publishing what is left of a reply. */
  datatype Puller = Resting | Asked(after: nat) | Publishing(batch: seq<Entry>)

  datatype Controller = Controller(hub: Hub, pullers: seq<Puller>)

  /** pulled is history: for each record PublishPulled committed, its seq and the
      spool id it came from. Everything else is what the program keeps. */
  datatype State = State(
    disk: string,
    daemon: Option<Spool.State>,
    store: Store,
    ctl: Option<Controller>,
    pulled: seq<(nat, nat)>)

  const INIT: State := State("", None, EMPTY, None, [])

  /** How a store transaction ends: committed, refused, or committed just before
      the controller dies. */
  datatype Outcome = Commit | Refuse | CommitAndDie

  datatype Step =
    | SpoolAppend(data: string)
    | SpoolCrash(data: string, written: nat)
    | DaemonStop
    | DaemonStart
    | Ask(p: nat)
    | Fetch(p: nat)
    | PublishOne(p: nat, outcome: Outcome)
    | Drop(p: nat)
    | Lifecycle(kind: Kind, data: string, outcome: Outcome)
    | CloseHub
    | StartPuller
    | ControllerStop
    | ControllerStart

  predicate HasPuller(s: State, p: nat) {
    s.ctl.Some? && p < |s.ctl.value.pullers|
  }

  predicate Enabled(cfg: Config, s: State, step: Step) {
    match step
    case SpoolAppend(_) => s.daemon.Some?
    case SpoolCrash(data, k) =>
      s.daemon.Some? && k <= |Spool.FileOf(Spool.Writes(cfg.cap, s.daemon.value, data))|
    case DaemonStop => s.daemon.Some?
    case DaemonStart => s.daemon.None? && Spool.Reopened(s.disk).Some?
    case Ask(p) => HasPuller(s, p) && s.ctl.value.pullers[p].Resting?
    case Fetch(p) => HasPuller(s, p) && s.ctl.value.pullers[p].Asked? && s.daemon.Some?
    case PublishOne(p, _) =>
      HasPuller(s, p) && s.ctl.value.pullers[p].Publishing? && s.ctl.value.pullers[p].batch != []
    case Drop(p) => HasPuller(s, p)
    case Lifecycle(_, _, _) => s.ctl.Some?
    case CloseHub => s.ctl.Some?
    case StartPuller => s.ctl.Some?
    case ControllerStop => s.ctl.Some?
    case ControllerStart => s.ctl.None?
  }

  function WithPuller(s: State, p: nat, q: Puller): State
    requires HasPuller(s, p)
  {
    s.(ctl := Some(s.ctl.value.(pullers := s.ctl.value.pullers[p := q])))
  }

  function Do(cfg: Config, s: State, step: Step): State
    requires Enabled(cfg, s, step)
  {
    match step
    case SpoolAppend(data) =>
      var d := Spool.Appended(cfg.cap, s.daemon.value, data);
      s.(disk := d.file, daemon := Some(d))
    case SpoolCrash(data, k) =>
      s.(disk := Spool.CrashFile(cfg.cap, s.daemon.value, data, k), daemon := None)
    case DaemonStop => s.(daemon := None)
    case DaemonStart =>
      var d := Spool.Reopened(s.disk).value;
      s.(disk := d.file, daemon := Some(d))
    case Ask(p) => WithPuller(s, p, Asked(s.ctl.value.hub.origin))
    case Fetch(p) =>
      WithPuller(s, p, Publishing(Spool.After(s.daemon.value.recs, s.ctl.value.pullers[p].after)))
    case PublishOne(p, outcome) => DoPublish(cfg, s, p, outcome)
    case Drop(p) => WithPuller(s, p, Resting)
    case Lifecycle(kind, data, outcome) =>
      if s.ctl.value.hub.closed || outcome == Refuse then s
      else
        var (st, h) := Published(s.store, s.ctl.value.hub, kind, data);
        s.(store := st, ctl := if outcome == Commit then Some(s.ctl.value.(hub := h)) else None)
    case CloseHub => s.(ctl := Some(s.ctl.value.(hub := s.ctl.value.hub.(closed := true))))
    case StartPuller => s.(ctl := Some(s.ctl.value.(pullers := s.ctl.value.pullers + [Resting])))
    case ControllerStop => s.(ctl := None)
    case ControllerStart => s.(ctl := Some(Controller(Recovered(s.store), [])))
  }

  /** PublishPulled of the next record of a batch: a closed hub and a duplicate are
      silent no-ops, a refusal ends the batch. */
  function DoPublish(cfg: Config, s: State, p: nat, outcome: Outcome): State
    requires Enabled(cfg, s, PublishOne(p, outcome))
  {
    var hub := s.ctl.value.hub;
    var batch := s.ctl.value.pullers[p].batch;
    var e := batch[0];
    if hub.closed || e.id <= hub.origin then WithPuller(s, p, Publishing(batch[1..]))
    else if outcome == Refuse then WithPuller(s, p, Resting)
    else
      var (st, h) := Pulled(s.store, hub, cfg.kindOf(e.data), e.data, e.id);
      var s1 := WithPuller(s, p, Publishing(batch[1..]));
      s1.(store := st,
          ctl := if outcome == Commit then Some(s1.ctl.value.(hub := h)) else None,
          pulled := s.pulled + [(hub.nextSeq + 1, e.id)])
  }

  // ---- the invariant of every state ----

  /** The disk holds records 1..n, possibly followed by a torn line. */
  ghost predicate DiskOk(disk: string) {
    var es := Spool.Durable(disk);
    && Spool.Numbered(es, 1)
    && Spool.Reopened(disk) == Some(Spool.State(Spool.FileOf(es), |es| + 1, es))
    && Spool.Healthy(Spool.State(Spool.FileOf(es), |es| + 1, es))
    && Spool.Durable(Spool.FileOf(es)) == es
  }

  ghost predicate DaemonOk(s: State) {
    s.daemon.Some? ==> s.daemon.value.file == s.disk && Spool.Healthy(s.daemon.value)
  }

  /** Pulled events have increasing spool ids and seqs, and each is the record
      durably spooled under its id. */
  ghost predicate PulledOk(cfg: Config, log: seq<Event>, pulled: seq<(nat, nat)>, es: seq<Entry>) {
    && (forall i, j :: 0 <= i < j < |pulled| ==> pulled[i].0 < pulled[j].0 && pulled[i].1 < pulled[j].1)
    && (forall i :: 0 <= i < |pulled| ==>
          && 1 <= pulled[i].0 <= |log| && 1 <= pulled[i].1 <= |es|
          && log[pulled[i].0 - 1].data == es[pulled[i].1 - 1].data
          && log[pulled[i].0 - 1].kind == cfg.kindOf(es[pulled[i].1 - 1].data))
  }

  /** Every record of a reply is durable under its id, and ids run without gaps. */
  predicate BatchOk(batch: seq<Entry>, es: seq<Entry>) {
    forall i :: 0 <= i < |batch| ==>
      1 <= batch[i].id <= |es| && batch[i] == es[batch[i].id - 1] && batch[i].id == batch[0].id + i
  }

  predicate PullerOk(q: Puller, watermark: nat, es: seq<Entry>) {
    match q
    case Resting => true
    case Asked(after) => after <= watermark
    case Publishing(batch) => BatchOk(batch, es)
  }

  ghost predicate ControllerOk(s: State, es: seq<Entry>) {
    s.ctl.Some? ==>
      && Synced(s.store, s.ctl.value.hub)
      && forall p :: 0 <= p < |s.ctl.value.pullers| ==> PullerOk(s.ctl.value.pullers[p], s.store.watermark, es)
  }

  ghost predicate Inv(cfg: Config, s: State) {
    var es := Spool.Durable(s.disk);
    && DiskOk(s.disk)
    && DaemonOk(s)
    && GapFree(s.store.log)
    && s.store.watermark == (if s.pulled == [] then 0 else s.pulled[|s.pulled| - 1].1)
    && PulledOk(cfg, s.store.log, s.pulled, es)
    && ControllerOk(s, es)
  }

  /** The durable records only ever grow at the end. */
  ghost predicate Grows(s: State, s': State) {
    && Spool.Durable(s.disk) <= Spool.Durable(s'.disk)
    && s.store.log <= s'.store.log
    && s.pulled <= s'.pulled
    && s.store.watermark <= s'.store.watermark
  }

  lemma InitInv(cfg: Config)
    ensures Inv(cfg, INIT)
  {
    hide Spool.Durable, Spool.Reopened, Spool.FileOf, Spool.Healthy;
    EmptyFile();
    Spool.ReopenedIsHealthy([], "");
    assert Spool.FileOf([]) + "" == "";
  }

  lemma EmptyFile()
    ensures Spool.FileOf([]) == ""
  {}

  lemma HealthyDiskOk(d: Spool.State)
    requires Spool.Healthy(d)
    ensures DiskOk(d.file)
  {
    hide Spool.Durable, Spool.Reopened, Spool.FileOf;
    var es := Spool.Durable(d.file);
    Spool.ReopenedIsHealthy(es, "");
    assert Spool.FileOf(es) + "" == d.file;
  }

  lemma MoreRecordsKeepInv(cfg: Config, s: State, s': State)
    requires Inv(cfg, s)
    requires s'.store == s.store && s'.pulled == s.pulled && s'.ctl == s.ctl
    requires DiskOk(s'.disk) && DaemonOk(s')
    requires Spool.Durable(s.disk) <= Spool.Durable(s'.disk)
    ensures Inv(cfg, s')
  {
    hide Spool.Durable, DiskOk, DaemonOk;
    var es, es' := Spool.Durable(s.disk), Spool.Durable(s'.disk);
    assert PulledOk(cfg, s.store.log, s.pulled, es');
    if s.ctl.Some? {
      forall p | 0 <= p < |s.ctl.value.pullers|
        ensures PullerOk(s.ctl.value.pullers[p], s.store.watermark, es')
      {
        assert PullerOk(s.ctl.value.pullers[p], s.store.watermark, es);
      }
    }
  }

  lemma DaemonStepKeepsInv(cfg: Config, s: State, step: Step)
    requires Inv(cfg, s) && Enabled(cfg, s, step)
    requires step.SpoolAppend? || step.SpoolCrash? || step.DaemonStop? || step.DaemonStart?
    ensures Inv(cfg, Do(cfg, s, step)) && Grows(s, Do(cfg, s, step))
  {
    hide Spool.Durable, Spool.Reopened, Spool.FileOf, Spool.Appended, Spool.CrashFile, Spool.Healthy, Spool.Writes, PulledOk, ControllerOk;
    var s' := Do(cfg, s, step);
    match step {
      case SpoolAppend(data) =>
        Spool.AppendIsDurable(cfg.cap, s.daemon.value, data);
        HealthyDiskOk(s'.daemon.value);
      case SpoolCrash(data, k) =>
        var m := Spool.CrashDuringAppend(cfg.cap, s.daemon.value, data, k);
        var es := Spool.Durable(s.disk) + Spool.Writes(cfg.cap, s.daemon.value, data)[..m];
        assert Spool.Durable(s'.disk) == es;
      case DaemonStop =>
      case DaemonStart =>
        HealthyDiskOk(s'.daemon.value);
    }
    MoreRecordsKeepInv(cfg, s, s');
  }

  /** A reply holds exactly the window's records above the cursor: they start right
      after the cursor, or at the window's first record if the cap dropped more. */
  lemma FetchedBatch(d: Spool.State, after: nat)
    requires Spool.Healthy(d)
    ensures var batch, es := Spool.After(d.recs, after), Spool.Durable(d.file);
            var low := |es| - |d.recs|;
            && BatchOk(batch, es)
            && |batch| == (if after >= |es| then 0 else if after <= low then |d.recs| else |es| - after)
            && (batch != [] ==> batch[0].id == (if after <= low then low else after) + 1)
  {
    hide Spool.Durable, Spool.FileOf, Spool.After, BatchOk, Spool.Healthy, Spool.Numbered;
    WindowStartsAt(d);
    var es := Spool.Durable(d.file);
    var low := |es| - |d.recs|;
    var cut := if after <= low then 0 else if after >= |es| then |d.recs| else after - low;
    Spool.AfterIsSuffix(d.recs, low + 1, after);
    assert d.recs[cut..] == es[low + cut..];
    SuffixBatch(es, low + cut);
  }

  lemma WindowStartsAt(d: Spool.State)
    requires Spool.Healthy(d)
    ensures var es := Spool.Durable(d.file);
            && |d.recs| <= |es| && d.recs == es[|es| - |d.recs|..]
            && Spool.Numbered(es, 1) && Spool.Numbered(d.recs, |es| - |d.recs| + 1)
  {
    hide Spool.Durable, Spool.FileOf;
  }

  lemma SuffixBatch(es: seq<Entry>, k: nat)
    requires Spool.Numbered(es, 1) && k <= |es|
    ensures BatchOk(es[k..], es)
    ensures k < |es| ==> es[k..][0].id == k + 1
  {
    var batch := es[k..];
    forall i | 0 <= i < |batch|
      ensures batch[i] == es[k + i] && batch[i].id == k + 1 + i
    {
      assert es[k + i].id == 1 + (k + i);
    }
    hide Spool.Numbered;
  }

  lemma HealthyDaemon(s: State)
    requires DaemonOk(s) && s.daemon.Some?
    ensures s.daemon.value.file == s.disk && Spool.Healthy(s.daemon.value)
  {}

  lemma SameDaemon(s: State, s': State)
    requires DaemonOk(s) && s'.disk == s.disk && s'.daemon == s.daemon
    ensures DaemonOk(s')
  {}

  lemma PulledOkAppend(cfg: Config, log: seq<Event>, pulled: seq<(nat, nat)>, es: seq<Entry>, ev: Event, e: Entry)
    requires PulledOk(cfg, log, pulled, es)
    requires 1 <= e.id <= |es| && e == es[e.id - 1] && (pulled != [] ==> pulled[|pulled| - 1].1 < e.id)
    requires ev.data == e.data && ev.kind == cfg.kindOf(e.data)
    ensures PulledOk(cfg, log + [ev], pulled + [(|log| + 1, e.id)], es)
  {}

  lemma PulledOkLifecycle(cfg: Config, log: seq<Event>, pulled: seq<(nat, nat)>, es: seq<Entry>, ev: Event)
    requires PulledOk(cfg, log, pulled, es)
    ensures PulledOk(cfg, log + [ev], pulled, es)
  {}

  lemma BatchTail(batch: seq<Entry>, es: seq<Entry>)
    requires BatchOk(batch, es) && batch != []
    ensures BatchOk(batch[1..], es) && 1 <= batch[0].id <= |es| && batch[0] == es[batch[0].id - 1]
  {
    assert forall i :: 0 <= i < |batch| - 1 ==> batch[1..][i] == batch[i + 1];
  }

  lemma PublishKeepsInv(cfg: Config, s: State, p: nat, outcome: Outcome)
    requires Inv(cfg, s) && Enabled(cfg, s, PublishOne(p, outcome))
    ensures Inv(cfg, DoPublish(cfg, s, p, outcome)) && Grows(s, DoPublish(cfg, s, p, outcome))
  {
    hide Spool.Durable, Spool.Healthy, DiskOk, DaemonOk, PulledOk, BatchOk, GapFree, Fanout;
    var es := Spool.Durable(s.disk);
    var c := s.ctl.value;
    var batch := c.pullers[p].batch;
    var e := batch[0];
    assert PullerOk(c.pullers[p], s.store.watermark, es);
    BatchTail(batch, es);
    var s' := DoPublish(cfg, s, p, outcome);
    if !c.hub.closed && e.id > c.hub.origin && outcome != Refuse {
      PublishKeepsSynced(s.store, c.hub, cfg.kindOf(e.data), e.data, e.id);
      PulledOkAppend(cfg, s.store.log, s.pulled, es, NextEvent(c.hub, cfg.kindOf(e.data), e.data), e);
    }
    assert DaemonOk(s') by { SameDaemon(s, s'); }
    if s'.ctl.Some? {
      forall q | 0 <= q < |s'.ctl.value.pullers|
        ensures PullerOk(s'.ctl.value.pullers[q], s'.store.watermark, es)
      {
        assert PullerOk(c.pullers[q], s.store.watermark, es);
      }
    }
  }

  lemma ControllerStepKeepsInv(cfg: Config, s: State, step: Step)
    requires Inv(cfg, s) && Enabled(cfg, s, step)
    requires !(step.SpoolAppend? || step.SpoolCrash? || step.DaemonStop? || step.DaemonStart? || step.PublishOne?)
    ensures Inv(cfg, Do(cfg, s, step)) && Grows(s, Do(cfg, s, step))
  {
    hide Spool.Durable, Spool.Healthy, Spool.After, DiskOk, DaemonOk, PulledOk, BatchOk, GapFree, Fanout;
    var es := Spool.Durable(s.disk);
    var s' := Do(cfg, s, step);
    match step {
      case Fetch(p) =>
        HealthyDaemon(s);
        FetchedBatch(s.daemon.value, s.ctl.value.pullers[p].after);
      case Lifecycle(kind, data, _) =>
        PublishKeepsSynced(s.store, s.ctl.value.hub, kind, data, 0);
        PulledOkLifecycle(cfg, s.store.log, s.pulled, es, NextEvent(s.ctl.value.hub, kind, data));
      case _ =>
    }
    assert DaemonOk(s') by { SameDaemon(s, s'); }
    if s'.ctl.Some? && s.ctl.Some? {
      forall q | 0 <= q < |s'.ctl.value.pullers|
        ensures PullerOk(s'.ctl.value.pullers[q], s'.store.watermark, es)
      {
        assert q < |s.ctl.value.pullers| ==> PullerOk(s.ctl.value.pullers[q], s.store.watermark, es);
      }
    }
  }

  lemma StepKeepsInv(cfg: Config, s: State, step: Step)
    requires Inv(cfg, s) && Enabled(cfg, s, step)
    ensures Inv(cfg, Do(cfg, s, step)) && Grows(s, Do(cfg, s, step))
  {
    hide Inv, Grows;
    match step {
      case PublishOne(p, outcome) => PublishKeepsInv(cfg, s, p, outcome);
      case SpoolAppend(_) => DaemonStepKeepsInv(cfg, s, step);
      case SpoolCrash(_, _) => DaemonStepKeepsInv(cfg, s, step);
      case DaemonStop => DaemonStepKeepsInv(cfg, s, step);
      case DaemonStart => DaemonStepKeepsInv(cfg, s, step);
      case _ => ControllerStepKeepsInv(cfg, s, step);
    }
  }

  // ---- runs ----

  /** A run: any sequence of enabled steps from the empty system, with its states. */
  datatype Run = Run(states: seq<State>, steps: seq<Step>)

  ghost predicate IsRun(cfg: Config, r: Run) {
    && |r.states| == |r.steps| + 1
    && r.states[0] == INIT
    && forall i :: 0 <= i < |r.steps| ==>
         Enabled(cfg, r.states[i], r.steps[i]) && r.states[i + 1] == Do(cfg, r.states[i], r.steps[i])
  }

  lemma {:induction false} RunKeepsInv(cfg: Config, r: Run, i: nat)
    requires IsRun(cfg, r) && i < |r.states|
    ensures Inv(cfg, r.states[i])
  {
    hide Inv, Enabled, Do;
    if i == 0 {
      InitInv(cfg);
    } else {
      RunKeepsInv(cfg, r, i - 1);
      StepKeepsInv(cfg, r.states[i - 1], r.steps[i - 1]);
    }
  }

  lemma {:induction false} RunGrows(cfg: Config, r: Run, i: nat, j: nat)
    requires IsRun(cfg, r) && i <= j < |r.states|
    ensures Grows(r.states[i], r.states[j])
    decreases j - i
  {
    hide Inv, Enabled, Do, Spool.Durable;
    if i < j {
      RunGrows(cfg, r, i, j - 1);
      RunKeepsInv(cfg, r, j - 1);
      StepKeepsInv(cfg, r.states[j - 1], r.steps[j - 1]);
    }
  }

  /** Exactly once, end to end: in every state of every run the log is seqs 1..n
      with the hub counter equal to n; pulled events have strictly increasing spool
      ids, so no record is ever logged twice; and each carries the very record the
      disk holds under its id, now and at every later point of the run. */
  lemma ExactlyOnce(cfg: Config, r: Run, i: nat, j: nat)
    requires IsRun(cfg, r) && i <= j < |r.states|
    ensures GapFree(r.states[i].store.log)
    ensures r.states[i].ctl.Some? ==> r.states[i].ctl.value.hub.nextSeq == |r.states[i].store.log|
    ensures PulledOk(cfg, r.states[i].store.log, r.states[i].pulled, Spool.Durable(r.states[i].disk))
    ensures PulledOk(cfg, r.states[j].store.log, r.states[i].pulled, Spool.Durable(r.states[j].disk))
  {
    hide Spool.Durable, DiskOk, DaemonOk, Enabled, Do;
    RunKeepsInv(cfg, r, i);
    RunGrows(cfg, r, i, j);
  }

  // ---- what the watermark passes over ----

  predicate Logged(s: State, id: nat) {
    exists k :: 0 <= k < |s.pulled| && s.pulled[k].1 == id
  }

  /** The step moved the watermark past id without logging it. */
  predicate Jumps(s: State, s': State, id: nat) {
    s.store.watermark < id < s'.store.watermark
  }

  ghost predicate JumpedBefore(r: Run, i: nat, id: nat)
    requires i < |r.states|
  {
    exists k :: 0 <= k < i && Jumps(r.states[k], r.states[k + 1], id)
  }

  /** A poll with a cursor below id was answered from a window that held only
      records above id, although id was durable. */
  ghost predicate Skips(s: State, step: Step, id: nat) {
    && step.Fetch? && HasPuller(s, step.p) && s.ctl.value.pullers[step.p].Asked? && s.daemon.Some?
    && s.ctl.value.pullers[step.p].after < id <= |Spool.Durable(s.disk)|
    && s.daemon.value.recs != []
    && forall k :: 0 <= k < |s.daemon.value.recs| ==> s.daemon.value.recs[k].id > id
  }

  ghost predicate SkippedBefore(r: Run, i: nat, id: nat)
    requires i < |r.states| == |r.steps| + 1
  {
    exists k :: 0 <= k < i && Skips(r.states[k], r.steps[k], id)
  }

  /** Below what a pull loop is about to publish, everything is at or below the
      watermark or was skipped. */
  ghost predicate ReplyAccounted(r: Run, i: nat, q: Puller)
    requires i < |r.states| == |r.steps| + 1
  {
    q.Publishing? && q.batch != [] ==>
      forall id :: 1 <= id < q.batch[0].id ==> Passed(r, i, id)
  }

  ghost predicate Passed(r: Run, i: nat, id: nat)
    requires i < |r.states| == |r.steps| + 1
  {
    id <= r.states[i].store.watermark || SkippedBefore(r, i, id)
  }

  ghost predicate RepliesAccounted(r: Run, i: nat)
    requires i < |r.states| == |r.steps| + 1
  {
    var ctl := r.states[i].ctl;
    ctl.Some? && !ctl.value.hub.closed ==>
      forall p :: 0 <= p < |ctl.value.pullers| ==> ReplyAccounted(r, i, ctl.value.pullers[p])
  }

  lemma StillAccounted(r: Run, i: nat, q: Puller)
    requires i + 1 < |r.states| == |r.steps| + 1
    requires ReplyAccounted(r, i, q)
    requires r.states[i].store.watermark <= r.states[i + 1].store.watermark
    ensures ReplyAccounted(r, i + 1, q)
  {
    hide Skips;
    var j := i + 1;
    if q.Publishing? && q.batch != [] {
      forall id | 1 <= id < q.batch[0].id
        ensures Passed(r, j, id)
      {
        assert Passed(r, i, id);
      }
    }
  }

  lemma FetchAccounted(cfg: Config, r: Run, i: nat)
    requires IsRun(cfg, r) && i < |r.steps| && r.steps[i].Fetch?
    ensures ReplyAccounted(r, i + 1, r.states[i + 1].ctl.value.pullers[r.steps[i].p])
  {
    hide Spool.Durable, Spool.After, Spool.FileOf, DiskOk, PulledOk;
    var s, p := r.states[i], r.steps[i].p;
    RunKeepsInv(cfg, r, i);
    var after := s.ctl.value.pullers[p].after;
    assert PullerOk(s.ctl.value.pullers[p], s.store.watermark, Spool.Durable(s.disk));
    FetchedBatch(s.daemon.value, after);
    var batch := r.states[i + 1].ctl.value.pullers[p].batch;
    if batch != [] {
      WindowStartsAt(s.daemon.value);
      var j := i + 1;
      forall id | 1 <= id < batch[0].id
        ensures Passed(r, j, id)
      {
        assert id > s.store.watermark ==> Skips(r.states[i], r.steps[i], id);
      }
    }
  }

  lemma {:induction false} RunAccounts(cfg: Config, r: Run, i: nat)
    requires IsRun(cfg, r) && i < |r.states|
    ensures RepliesAccounted(r, i)
  {
    hide IsRun, ReplyAccounted;
    assert |r.states| == |r.steps| + 1 && r.states[0] == INIT by {
      StartOf(cfg, r);
    }
    if i > 0 {
      RunAccounts(cfg, r, i - 1);
      var ctl := r.states[i].ctl;
      if ctl.Some? && !ctl.value.hub.closed {
        forall p | 0 <= p < |ctl.value.pullers|
          ensures ReplyAccounted(r, i, ctl.value.pullers[p])
        {
          OnePullerAccounted(cfg, r, i - 1, p);
        }
      }
    }
  }

  lemma StartOf(cfg: Config, r: Run)
    requires IsRun(cfg, r)
    ensures |r.states| == |r.steps| + 1 && r.states[0] == INIT
  {
    hide Do, Enabled;
  }

  lemma OnePullerAccounted(cfg: Config, r: Run, i: nat, p: nat)
    requires IsRun(cfg, r) && i < |r.steps| && RepliesAccounted(r, i)
    requires HasPuller(r.states[i + 1], p) && !r.states[i + 1].ctl.value.hub.closed
    ensures ReplyAccounted(r, i + 1, r.states[i + 1].ctl.value.pullers[p])
  {
    hide Skips, Spool.Durable, Spool.Appended, Spool.CrashFile, Spool.Reopened, Spool.After, DiskOk, DaemonOk, PulledOk,
         Fanout, GapFree;
    var s, s', step := r.states[i], r.states[i + 1], r.steps[i];
    RunKeepsInv(cfg, r, i);
    StepKeepsInv(cfg, s, step);
    var q := s'.ctl.value.pullers[p];
    if s.ctl.Some? && p < |s.ctl.value.pullers| && s.ctl.value.pullers[p] == q {
      StillAccounted(r, i, q);
    } else if step.Fetch? {
      FetchAccounted(cfg, r, i);
    } else if q.Publishing? {
      assert step.PublishOne?;
      var batch := s.ctl.value.pullers[p].batch;
      assert PullerOk(s.ctl.value.pullers[p], s.store.watermark, Spool.Durable(s.disk));
      assert q.batch != [] ==> q.batch[0] == batch[1];
    }
  }

  /** Nothing is pulled and the watermark stays, or one record above the watermark is
      pulled under the next seq and becomes the watermark. */
  predicate PullsAtMostOne(s: State, step: Step, s': State) {
    || (s'.pulled == s.pulled && s'.store.watermark == s.store.watermark)
    || (&& step.PublishOne? && HasPuller(s, step.p) && s.ctl.value.pullers[step.p].Publishing?
        && s.ctl.value.pullers[step.p].batch != [] && !s.ctl.value.hub.closed
        && var id := s.ctl.value.pullers[step.p].batch[0].id;
           && id > s.store.watermark && s'.store.watermark == id
           && s'.pulled == s.pulled + [(s.ctl.value.hub.nextSeq + 1, id)])
  }

  /** What one step does to the pulled records and the watermark: nothing, or one
      record above the watermark is logged and becomes the watermark, taken from
      the front of a reply by a hub that was open. */
  lemma StepPulls(cfg: Config, s: State, step: Step)
    requires Inv(cfg, s) && Enabled(cfg, s, step)
    ensures PullsAtMostOne(s, step, Do(cfg, s, step))
  {
    hide Spool.Durable, Spool.Appended, Spool.CrashFile, Spool.Reopened, DiskOk, DaemonOk, PulledOk;
  }

  /** The record is logged under the next seq, becomes the watermark, and leaves the
      reply. */
  ghost predicate LogsNext(cfg: Config, s: State, p: nat, e: Entry, s': State)
    requires HasPuller(s, p) && s.ctl.value.pullers[p].Publishing? && s.ctl.value.pullers[p].batch != []
  {
    && s'.store.log == s.store.log + [Event(|s.store.log| + 1, cfg.kindOf(e.data), e.data)]
    && s'.store.watermark == e.id && s'.pulled == s.pulled + [(|s.store.log| + 1, e.id)]
    && (s'.ctl.Some? ==>
          && s'.ctl.value.pullers == s.ctl.value.pullers[p := Publishing(s.ctl.value.pullers[p].batch[1..])]
          && Synced(s'.store, s'.ctl.value.hub) && !s'.ctl.value.hub.closed)
  }

  /** Publishing the next record of a reply: on an open hub, one above the watermark is
      logged when the store accepts it and ends the batch when it does not; any other is
      passed over. */
  lemma PublishEffect(cfg: Config, s: State, p: nat, outcome: Outcome)
    requires Enabled(cfg, s, PublishOne(p, outcome)) && Synced(s.store, s.ctl.value.hub)
    ensures var s', c := Do(cfg, s, PublishOne(p, outcome)), s.ctl.value;
            var e, rest := c.pullers[p].batch[0], c.pullers[p].batch[1..];
            if c.hub.closed || e.id <= s.store.watermark then s' == WithPuller(s, p, Publishing(rest))
            else if outcome == Refuse then s' == WithPuller(s, p, Resting)
            else LogsNext(cfg, s, p, e, s') && (s'.ctl.None? <==> outcome == CommitAndDie)
  {
    hide GapFree, Fanout, Spool.FileOf, Spool.Writes, Spool.Appended, Spool.CrashFile, Spool.Reopened;
    var c := s.ctl.value;
    var e := c.pullers[p].batch[0];
    PublishKeepsSynced(s.store, c.hub, cfg.kindOf(e.data), e.data, e.id);
  }

  /** A lifecycle append on an open hub is logged under the next seq and leaves the
      watermark alone; a refused one, and one on a closed hub, changes nothing. */
  lemma LifecycleEffect(cfg: Config, s: State, kind: Kind, data: string, outcome: Outcome)
    requires s.ctl.Some? && Synced(s.store, s.ctl.value.hub)
    ensures var s' := Do(cfg, s, Lifecycle(kind, data, outcome));
            if s.ctl.value.hub.closed || outcome == Refuse then s' == s
            else && s'.store.log == s.store.log + [Event(|s.store.log| + 1, kind, data)]
                 && s'.store.watermark == s.store.watermark && s'.pulled == s.pulled
                 && (s'.ctl.None? <==> outcome == CommitAndDie)
                 && (s'.ctl.Some? ==> s'.ctl.value.pullers == s.ctl.value.pullers
                                      && Synced(s'.store, s'.ctl.value.hub) && !s'.ctl.value.hub.closed)
  {
    hide GapFree, Fanout, Spool.FileOf, Spool.Writes, Spool.Appended, Spool.CrashFile, Spool.Reopened;
    PublishKeepsSynced(s.store, s.ctl.value.hub, kind, data, 0);
  }

  /** A hub that was closed stays closed and logs nothing for as long as its controller
      lives. */
  lemma ClosedHubIsSilent(cfg: Config, s: State, step: Step)
    requires Enabled(cfg, s, step) && s.ctl.Some? && (step.CloseHub? || s.ctl.value.hub.closed)
    ensures var s' := Do(cfg, s, step);
            s'.store == s.store && s'.pulled == s.pulled && (s'.ctl.Some? ==> s'.ctl.value.hub.closed)
  {
    hide Spool.FileOf, Spool.Writes, Spool.Appended, Spool.CrashFile, Spool.Reopened, Spool.After;
  }

  /** A poll asks from the watermark and takes every record of the window above it. */
  lemma PollEffect(cfg: Config, s: State, p: nat)
    requires Enabled(cfg, s, Ask(p)) && s.daemon.Some? && Synced(s.store, s.ctl.value.hub)
    ensures var s1 := Do(cfg, s, Ask(p));
            && Enabled(cfg, s1, Fetch(p))
            && Do(cfg, s1, Fetch(p)) ==
               WithPuller(s, p, Publishing(Spool.After(s.daemon.value.recs, s.store.watermark)))
  {
    hide GapFree, Spool.After, Spool.FileOf, Spool.Writes, Spool.Appended, Spool.CrashFile, Spool.Reopened;
    var asked, reply := Asked(s.store.watermark), Publishing(Spool.After(s.daemon.value.recs, s.store.watermark));
    assert s.ctl.value.pullers[p := asked][p := reply] == s.ctl.value.pullers[p := reply];
  }

  lemma LoggedIsBelow(cfg: Config, s: State, id: nat)
    requires Inv(cfg, s) && Logged(s, id)
    ensures id <= s.store.watermark
  {
    hide Spool.Durable, DiskOk, DaemonOk, ControllerOk;
  }

  lemma {:induction false} WatermarkAt(cfg: Config, r: Run, k: nat, i: nat)
    requires IsRun(cfg, r) && k <= i < |r.states|
    ensures r.states[k].store.watermark <= r.states[i].store.watermark
  {
    hide Spool.Durable, Do, Enabled;
    RunGrows(cfg, r, k, i);
  }

  /** The watermark accounts for every id exactly: an id at or below it is in the
      log if and only if the watermark never jumped over it. */
  lemma {:induction false} LoggedUnlessJumped(cfg: Config, r: Run, i: nat, id: nat)
    requires IsRun(cfg, r) && i < |r.states|
    requires 1 <= id <= r.states[i].store.watermark
    ensures Logged(r.states[i], id) <==> !JumpedBefore(r, i, id)
  {
    hide Inv, Do, Enabled;
    if i > 0 {
      var s, s' := r.states[i - 1], r.states[i];
      RunKeepsInv(cfg, r, i - 1);
      StepPulls(cfg, s, r.steps[i - 1]);
      if id <= s.store.watermark {
        LoggedUnlessJumped(cfg, r, i - 1, id);
        assert JumpedBefore(r, i, id) <==> JumpedBefore(r, i - 1, id) by {
          assert !Jumps(r.states[i - 1], r.states[i - 1 + 1], id);
        }
        assert Logged(s', id) <==> Logged(s, id) by {
          PulledMore(s, s', id);
        }
      } else {
        if Logged(s, id) { LoggedIsBelow(cfg, s, id); }
        PulledMore(s, s', id);
        forall k | 0 <= k < i - 1
          ensures !Jumps(r.states[k], r.states[k + 1], id)
        {
          WatermarkAt(cfg, r, k + 1, i - 1);
        }
        assert id < s'.store.watermark ==> Jumps(r.states[i - 1], r.states[i - 1 + 1], id);
      }
    }
  }

  lemma PulledMore(s: State, s': State, id: nat)
    requires s'.pulled == s.pulled || (|s'.pulled| == |s.pulled| + 1 && s.pulled <= s'.pulled)
    ensures Logged(s', id) <==> Logged(s, id) || (s'.pulled != s.pulled && s'.pulled[|s.pulled|].1 == id)
  {
    if Logged(s, id) {
      var k :| 0 <= k < |s.pulled| && s.pulled[k].1 == id;
      assert s'.pulled[k].1 == id;
    }
    if Logged(s', id) {
      var k :| 0 <= k < |s'.pulled| && s'.pulled[k].1 == id;
      assert k < |s.pulled| ==> s.pulled[k].1 == id;
    }
  }

  // ---- why an id was passed over ----

  predicate InWindow(s: State, id: nat) {
    s.daemon.Some? && exists k :: 0 <= k < |s.daemon.value.recs| && s.daemon.value.recs[k].id == id
  }

  /** An append over the cap dropped id from the window (or, with a cap of zero,
      never let it in). */
  ghost predicate CapDrops(cfg: Config, s: State, step: Step, s': State, id: nat) {
    && step.SpoolAppend? && s.daemon.Some? && Spool.Overflows(cfg.cap, s.daemon.value)
    && (InWindow(s, id) || id > |Spool.Durable(s.disk)|)
    && !InWindow(s', id) && id <= |Spool.Durable(s'.disk)|
  }

  ghost predicate CappedBefore(cfg: Config, r: Run, i: nat, id: nat)
    requires i < |r.states| == |r.steps| + 1
  {
    exists j :: 0 <= j < i && CapDrops(cfg, r.states[j], r.steps[j], r.states[j + 1], id)
  }

  lemma WindowIsSuffix(s: State, id: nat)
    requires DaemonOk(s) && s.daemon.Some?
    ensures var n := |Spool.Durable(s.disk)|;
            InWindow(s, id) <==> n - |s.daemon.value.recs| < id <= n
  {
    hide Spool.Durable, Spool.FileOf;
    WindowStartsAt(s.daemon.value);
    var low := |Spool.Durable(s.disk)| - |s.daemon.value.recs|;
    if low < id <= |Spool.Durable(s.disk)| {
      assert s.daemon.value.recs[id - low - 1].id == id;
    }
  }

  /** A step leaves a durable id outside the window only if it was outside before
      or the step is an append over the cap. */
  lemma WindowStep(cfg: Config, s: State, step: Step, id: nat)
    requires Inv(cfg, s) && Enabled(cfg, s, step)
    requires var s' := Do(cfg, s, step);
             s'.daemon.Some? && 1 <= id <= |Spool.Durable(s'.disk)| && !InWindow(s', id)
    ensures || (s.daemon.Some? && id <= |Spool.Durable(s.disk)| && !InWindow(s, id))
            || CapDrops(cfg, s, step, Do(cfg, s, step), id)
  {
    hide Inv, Spool.Durable, Spool.CrashFile, Spool.Healthy, Spool.FileOf, Spool.Reopened, Spool.Appended;
    var s' := Do(cfg, s, step);
    StepKeepsInv(cfg, s, step);
    InvDaemon(cfg, s);
    InvDaemon(cfg, s');
    WindowIsSuffix(s', id);
    if step.SpoolAppend? {
      AppendWindow(cfg, s, step, id);
    }
  }

  lemma AppendWindow(cfg: Config, s: State, step: Step, id: nat)
    requires DaemonOk(s) && s.daemon.Some? && step.SpoolAppend?
    requires var s' := Do(cfg, s, step);
             DaemonOk(s') && 1 <= id <= |Spool.Durable(s'.disk)| && !InWindow(s', id)
    ensures || (id <= |Spool.Durable(s.disk)| && !InWindow(s, id))
            || CapDrops(cfg, s, step, Do(cfg, s, step), id)
  {
    hide Spool.Durable, Spool.Healthy, Spool.FileOf, InWindow, Spool.Line;
    Spool.AppendIsDurable(cfg.cap, s.daemon.value, step.data);
    WindowIsSuffix(s, id);
    WindowIsSuffix(Do(cfg, s, step), id);
  }

  /** A durable id that the window does not hold was dropped by the cap. */
  lemma {:induction false} WindowLosesOnlyToCap(cfg: Config, r: Run, i: nat, id: nat)
    requires IsRun(cfg, r) && i < |r.states| && r.states[i].daemon.Some?
    requires 1 <= id <= |Spool.Durable(r.states[i].disk)| && !InWindow(r.states[i], id)
    ensures CappedBefore(cfg, r, i, id)
  {
    hide IsRun, Inv, Do, Enabled, Spool.Durable, InWindow, CapDrops;
    StartOf(cfg, r);
    var h := i - 1;
    RunStep(cfg, r, h);
    RunKeepsInv(cfg, r, h);
    WindowStep(cfg, r.states[h], r.steps[h], id);
    if CapDrops(cfg, r.states[h], r.steps[h], r.states[h + 1], id) {
    } else {
      WindowLosesOnlyToCap(cfg, r, h, id);
      var j :| 0 <= j < h && CapDrops(cfg, r.states[j], r.steps[j], r.states[j + 1], id);
    }
  }

  lemma RunStep(cfg: Config, r: Run, i: nat)
    requires IsRun(cfg, r) && i < |r.steps|
    ensures Enabled(cfg, r.states[i], r.steps[i]) && r.states[i + 1] == Do(cfg, r.states[i], r.steps[i])
  {
    hide Enabled, Do;
  }

  lemma InvDaemon(cfg: Config, s: State)
    requires Inv(cfg, s)
    ensures DiskOk(s.disk) && DaemonOk(s)
  {
    hide DiskOk, DaemonOk;
  }

  /** Any id at or below the watermark that is missing from the log had been
      dropped by the cap when a reply that skipped it was read. */
  lemma MissingWasDropped(cfg: Config, r: Run, i: nat, id: nat) returns (j: nat, k: nat)
    requires IsRun(cfg, r) && i < |r.states|
    requires 1 <= id <= r.states[i].store.watermark && !Logged(r.states[i], id)
    ensures j < k < i
    ensures Skips(r.states[k], r.steps[k], id)
    ensures CapDrops(cfg, r.states[j], r.steps[j], r.states[j + 1], id)
  {
    hide Inv, Do, Skips, CapDrops, ReplyAccounted;
    LoggedUnlessJumped(cfg, r, i, id);
    var m :| 0 <= m < i && Jumps(r.states[m], r.states[m + 1], id);
    RunKeepsInv(cfg, r, m);
    StepPulls(cfg, r.states[m], r.steps[m]);
    RunAccounts(cfg, r, m);
    SkippedByThen(r, m, r.steps[m].p, id);
    k :| 0 <= k < m && Skips(r.states[k], r.steps[k], id);
    SkippedIsOutside(r.states[k], r.steps[k], id);
    WindowLosesOnlyToCap(cfg, r, k, id);
    j :| 0 <= j < k && CapDrops(cfg, r.states[j], r.steps[j], r.states[j + 1], id);
  }

  lemma SkippedByThen(r: Run, m: nat, p: nat, id: nat)
    requires m < |r.states| == |r.steps| + 1 && RepliesAccounted(r, m)
    requires HasPuller(r.states[m], p) && !r.states[m].ctl.value.hub.closed
    requires r.states[m].ctl.value.pullers[p].Publishing? && r.states[m].ctl.value.pullers[p].batch != []
    requires r.states[m].store.watermark < id < r.states[m].ctl.value.pullers[p].batch[0].id
    ensures SkippedBefore(r, m, id)
  {
    hide Skips;
    assert ReplyAccounted(r, m, r.states[m].ctl.value.pullers[p]);
    assert Passed(r, m, id);
  }

  lemma SkippedIsOutside(s: State, step: Step, id: nat)
    requires Skips(s, step, id)
    ensures s.daemon.Some? && 1 <= id <= |Spool.Durable(s.disk)| && !InWindow(s, id)
  {
    hide Spool.Durable;
  }

  // ---- drain before mark ----

  /** When a poll comes back empty, every record the window holds is at or below the
      watermark, and it is already in the log, ahead of anything appended later, if
      and only if the watermark never jumped over it. */
  lemma DrainedBeforeMark(cfg: Config, r: Run, k: nat, id: nat)
    requires IsRun(cfg, r) && k < |r.steps| && r.steps[k].Fetch?
    requires r.states[k + 1].ctl.value.pullers[r.steps[k].p] == Publishing([])
    requires InWindow(r.states[k], id)
    ensures 1 <= id <= r.states[k].store.watermark
    ensures LoggedBy(r.states[k], id, |r.states[k].store.log|) <==> !JumpedBefore(r, k, id)
  {
    hide Spool.Durable, DiskOk, Spool.After, Spool.FileOf;
    var s, p := r.states[k], r.steps[k].p;
    RunKeepsInv(cfg, r, k);
    assert PullerOk(s.ctl.value.pullers[p], s.store.watermark, Spool.Durable(s.disk));
    FetchedBatch(s.daemon.value, s.ctl.value.pullers[p].after);
    WindowIsSuffix(s, id);
    LoggedUnlessJumped(cfg, r, k, id);
  }

  /** Only a daemon start brings a durable id back into the window. */
  lemma ReturnsOnStart(cfg: Config, s: State, step: Step, id: nat)
    requires Inv(cfg, s) && Enabled(cfg, s, step)
    requires 1 <= id <= |Spool.Durable(s.disk)| && !InWindow(s, id) && InWindow(Do(cfg, s, step), id)
    ensures step.DaemonStart?
  {
    hide Inv, Spool.Durable, Spool.CrashFile, Spool.Healthy, Spool.FileOf, Spool.Reopened, Spool.Appended;
    if step.SpoolAppend? {
      StepKeepsInv(cfg, s, step);
      InvDaemon(cfg, s);
      InvDaemon(cfg, Do(cfg, s, step));
      AppendBringsNothingBack(cfg, s, step, id);
      assert false;
    }
  }

  lemma AppendBringsNothingBack(cfg: Config, s: State, step: Step, id: nat)
    requires DaemonOk(s) && s.daemon.Some? && step.SpoolAppend? && DaemonOk(Do(cfg, s, step))
    requires 1 <= id <= |Spool.Durable(s.disk)| && !InWindow(s, id)
    ensures !InWindow(Do(cfg, s, step), id)
  {
    hide Spool.Durable, Spool.Healthy, Spool.FileOf, InWindow, Spool.Line;
    Spool.AppendIsDurable(cfg.cap, s.daemon.value, step.data);
    WindowIsSuffix(s, id);
    WindowIsSuffix(Do(cfg, s, step), id);
  }

  lemma {:induction false} ReturnedByStart(cfg: Config, r: Run, j: nat, k: nat, id: nat) returns (d: nat)
    requires IsRun(cfg, r) && j <= k < |r.states|
    requires 1 <= id <= |Spool.Durable(r.states[j].disk)| && !InWindow(r.states[j], id) && InWindow(r.states[k], id)
    ensures j <= d < k && r.steps[d].DaemonStart?
    decreases k - j
  {
    hide IsRun, Inv, Do, Enabled, Spool.Durable, InWindow;
    RunLength(cfg, r);
    RunStep(cfg, r, j);
    RunKeepsInv(cfg, r, j);
    if InWindow(r.states[j + 1], id) {
      ReturnsOnStart(cfg, r.states[j], r.steps[j], id);
      d := j;
    } else {
      RunGrows(cfg, r, j, j + 1);
      d := ReturnedByStart(cfg, r, j + 1, k, id);
    }
  }

  lemma RunLength(cfg: Config, r: Run)
    requires IsRun(cfg, r)
    ensures |r.states| == |r.steps| + 1
  {
    hide Do, Enabled;
  }

  /** What an empty poll leaves behind has one cause: a record the window holds and the
      log does not was dropped by the cap, and brought back by a daemon start after that. */
  lemma UndrainedWasBroughtBack(cfg: Config, r: Run, k: nat, id: nat) returns (j: nat, d: nat)
    requires IsRun(cfg, r) && k < |r.steps| && r.steps[k].Fetch?
    requires r.states[k + 1].ctl.value.pullers[r.steps[k].p] == Publishing([])
    requires InWindow(r.states[k], id) && !Logged(r.states[k], id)
    ensures j < d < k && r.steps[d].DaemonStart? && OverCap(cfg, r.states[j], r.steps[j])
    ensures CapDrops(cfg, r.states[j], r.steps[j], r.states[j + 1], id)
  {
    hide Inv, Do, Skips, Spool.Durable, InWindow;
    DrainedBeforeMark(cfg, r, k, id);
    var m;
    j, m := MissingWasDropped(cfg, r, k, id);
    d := ReturnedByStart(cfg, r, j + 1, k, id);
  }

  /** So without a daemon start after an append over the cap, an empty poll means that
      everything the window holds is in the log. */
  lemma DrainsCompletely(cfg: Config, r: Run, k: nat, id: nat)
    requires IsRun(cfg, r) && k < |r.steps| && r.steps[k].Fetch?
    requires r.states[k + 1].ctl.value.pullers[r.steps[k].p] == Publishing([])
    requires forall j, d :: 0 <= j < d < k && r.steps[d].DaemonStart? ==> !OverCap(cfg, r.states[j], r.steps[j])
    requires InWindow(r.states[k], id)
    ensures Logged(r.states[k], id)
  {
    hide Inv, Do, Spool.Durable, InWindow, Enabled;
    if !Logged(r.states[k], id) {
      var j, d := UndrainedWasBroughtBack(cfg, r, k, id);
      assert false;
    }
  }

  predicate OverCap(cfg: Config, s: State, step: Step) {
    step.SpoolAppend? && s.daemon.Some? && Spool.Overflows(cfg.cap, s.daemon.value)
  }

  // ---- what was served ----

  /** Every record a read ever served stays on disk under its id, through every crash and
      recovery after it, and a daemon never gives that id out again: only ids that were
      never served can be reassigned. */
  lemma ServedSurvives(cfg: Config, r: Run, k: nat, m: nat, e: Entry)
    requires IsRun(cfg, r) && k < m < |r.states| && r.steps[k].Fetch?
    requires r.states[k + 1].ctl.value.pullers[r.steps[k].p].Publishing?
    requires e in r.states[k + 1].ctl.value.pullers[r.steps[k].p].batch
    ensures var es := Spool.Durable(r.states[m].disk);
            1 <= e.id <= |es| && es[e.id - 1] == e
    ensures r.states[m].daemon.Some? ==> e.id < r.states[m].daemon.value.next
  {
    hide Spool.Durable, DiskOk, Spool.After, Spool.FileOf, Do, Enabled, PulledOk;
    Replied(cfg, r, k);
    RunKeepsInv(cfg, r, k + 1);
    RunKeepsInv(cfg, r, m);
    var s := r.states[k + 1];
    assert PullerOk(s.ctl.value.pullers[r.steps[k].p], s.store.watermark, Spool.Durable(s.disk));
    RunGrows(cfg, r, k + 1, m);
  }

  lemma Replied(cfg: Config, r: Run, k: nat)
    requires IsRun(cfg, r) && k < |r.steps| && r.steps[k].Fetch?
    ensures HasPuller(r.states[k + 1], r.steps[k].p)
  {}

  /** The record spooled under id is in the log at a seq of at most n. */
  predicate LoggedBy(s: State, id: nat, n: nat) {
    exists k :: 0 <= k < |s.pulled| && s.pulled[k].1 == id && s.pulled[k].0 <= n
  }

  // ---- a drain that cannot be complete ----

  const NARROW: Config := Config(1, (data: string) => Record(""))

  ghost predicate Ends(cfg: Config, r: Run, s: State) {
    IsRun(cfg, r) && r.states[|r.steps|] == s && Inv(cfg, s)
  }

  /** One step of a run under construction. */
  lemma Extend(cfg: Config, r: Run, s: State, step: Step) returns (r': Run, s': State)
    requires Ends(cfg, r, s) && Enabled(cfg, s, step)
    ensures Ends(cfg, r', s') && s' == Do(cfg, s, step)
    ensures |r'.steps| == |r.steps| + 1 && |r'.states| == |r.states| + 1 == |r.steps| + 2
    ensures r'.steps[|r.steps|] == step && r'.states[|r.steps|] == s && r'.states[|r'.steps|] == s'
  {
    hide Do, Enabled, Inv;
    s' := Do(cfg, s, step);
    r' := Run(r.states + [s'], r.steps + [step]);
    StepKeepsInv(cfg, s, step);
    RunExtends(cfg, r, step, s');
  }

  lemma RunExtends(cfg: Config, r: Run, step: Step, s': State)
    requires IsRun(cfg, r) && Enabled(cfg, r.states[|r.steps|], step) && s' == Do(cfg, r.states[|r.steps|], step)
    ensures IsRun(cfg, Run(r.states + [s'], r.steps + [step]))
  {
    hide Do, Enabled;
    var r' := Run(r.states + [s'], r.steps + [step]);
    var n := |r.steps|;
    assert r'.states[n] == r.states[n] && r'.states[n + 1] == s' && r'.steps[n] == step;
    forall i | 0 <= i < n
      ensures Enabled(cfg, r'.states[i], r'.steps[i]) && r'.states[i + 1] == Do(cfg, r'.states[i], r'.steps[i])
    {
      assert r'.states[i] == r.states[i] && r'.states[i + 1] == r.states[i + 1] && r'.steps[i] == r.steps[i];
    }
  }

  /** A controller that is up and in step with its store, whose puller p stands at q. */
  ghost predicate Pulling(s: State, p: nat, q: Puller) {
    && HasPuller(s, p) && s.ctl.value.pullers[p] == q
    && !s.ctl.value.hub.closed && Synced(s.store, s.ctl.value.hub)
  }

  /** Publishing the front of a reply moves on to the rest of it; a front above the
      watermark is logged and becomes the watermark. */
  lemma PublishFront(cfg: Config, s: State, p: nat, batch: seq<Entry>)
    requires batch != [] && Pulling(s, p, Publishing(batch))
    ensures Enabled(cfg, s, PublishOne(p, Commit))
    ensures var s' := Do(cfg, s, PublishOne(p, Commit));
            && Pulling(s', p, Publishing(batch[1..])) && s.pulled <= s'.pulled
            && s'.store.watermark == (if batch[0].id > s.store.watermark then batch[0].id else s.store.watermark)
            && (batch[0].id > s.store.watermark ==> Logged(s', batch[0].id))
  {
    hide Do, GapFree, Synced, Spool.FileOf, Spool.Writes;
    PublishEffect(cfg, s, p, Commit);
    var s' := Do(cfg, s, PublishOne(p, Commit));
    if batch[0].id > s.store.watermark {
      assert s'.pulled[|s.pulled|].1 == batch[0].id;
    }
  }

  lemma StaysLogged(s: State, s': State, id: nat)
    requires s.pulled <= s'.pulled && Logged(s, id)
    ensures Logged(s', id)
  {
    var k :| 0 <= k < |s.pulled| && s.pulled[k].1 == id;
    assert s'.pulled[k].1 == id;
  }

  /** The rest of a reply can be published to the end, record by record. */
  lemma {:induction false} PublishRest(cfg: Config, r: Run, s: State, p: nat, batch: seq<Entry>)
      returns (r': Run, s': State)
    requires Ends(cfg, r, s) && Pulling(s, p, Publishing(batch))
    requires forall i :: 0 <= i < |batch| ==> batch[i].id == batch[0].id + i
    ensures Ends(cfg, r', s') && s.pulled <= s'.pulled
    ensures forall i :: 0 <= i < |batch| && batch[i].id > s.store.watermark ==> Logged(s', batch[i].id)
    decreases |batch|
  {
    hide Do, Enabled, Ends, Pulling, Logged;
    r', s' := r, s;
    if batch != [] {
      PublishFront(cfg, s, p, batch);
      var r1, s1 := Extend(cfg, r, s, PublishOne(p, Commit));
      var rest := batch[1..];
      assert forall i :: 0 <= i < |rest| ==> rest[i] == batch[i + 1];
      r', s' := PublishRest(cfg, r1, s1, p, rest);
      forall i | 0 <= i < |batch| && batch[i].id > s.store.watermark
        ensures Logged(s', batch[i].id)
      {
        if i == 0 {
          StaysLogged(s1, s', batch[0].id);
        } else {
          assert rest[i - 1].id > s1.store.watermark;
        }
      }
    }
  }

  /** What a poll from the watermark is answered with. */
  function Served(s: State): seq<Entry>
    requires s.daemon.Some?
  {
    Spool.After(s.daemon.value.recs, s.store.watermark)
  }

  lemma TakePoll(cfg: Config, r: Run, s: State, p: nat) returns (r': Run, s': State)
    requires Ends(cfg, r, s) && Pulling(s, p, Resting) && s.daemon.Some?
    ensures Ends(cfg, r', s') && Pulling(s', p, Publishing(Served(s))) && s'.store == s.store
  {
    hide Do, Ends, Synced, Spool.FileOf, Spool.Writes, Spool.After;
    PollEffect(cfg, s, p);
    r', s' := Extend(cfg, r, s, Ask(p));
    r', s' := Extend(cfg, r', s', Fetch(p));
  }

  lemma ServedIds(cfg: Config, s: State)
    requires Inv(cfg, s) && s.daemon.Some?
    ensures forall i :: 0 <= i < |Served(s)| ==> Served(s)[i].id == Served(s)[0].id + i
  {
    InvDaemon(cfg, s);
    HealthyDaemon(s);
    hide *;
    var batch := Spool.After(s.daemon.value.recs, s.store.watermark);
    FetchedBatch(s.daemon.value, s.store.watermark);
    BatchIds(batch, Spool.Durable(s.daemon.value.file));
    assert Served(s) == batch by { ServedIs(s); }
  }

  lemma ServedIs(s: State)
    requires s.daemon.Some?
    ensures Served(s) == Spool.After(s.daemon.value.recs, s.store.watermark)
  {}

  lemma ServedAt(cfg: Config, s: State, id: nat)
    requires Inv(cfg, s) && s.daemon.Some? && InWindow(s, id) && id > s.store.watermark
    ensures Served(s) != [] && 0 <= id - Served(s)[0].id < |Served(s)|
  {
    InvDaemon(cfg, s);
    HealthyDaemon(s);
    hide *;
    FetchedBatch(s.daemon.value, s.store.watermark);
    WindowIsSuffix(s, id);
    ServedIs(s);
  }

  /** A pull loop catches up: from any point of any run at which the daemon and an open
      hub are up, a poll whose reply arrives and whose appends commit logs every record of
      the window above the watermark. */
  lemma CatchesUp(cfg: Config, r: Run, s: State, p: nat) returns (r': Run, s': State)
    requires Ends(cfg, r, s) && Pulling(s, p, Resting) && s.daemon.Some?
    ensures Ends(cfg, r', s')
    ensures forall id: nat :: InWindow(s, id) && id > s.store.watermark ==> Logged(s', id)
  {
    assert Inv(cfg, s);
    hide Inv, Ends, Pulling, Logged, InWindow, Served;
    ServedIds(cfg, s);
    var r1, s1 := TakePoll(cfg, r, s, p);
    r', s' := PublishRest(cfg, r1, s1, p, Served(s));
    forall id: nat | InWindow(s, id) && id > s.store.watermark
      ensures Logged(s', id)
    {
      ServedAt(cfg, s, id);
      var i := id - Served(s)[0].id;
      assert Served(s)[i].id == id;
    }
  }

  lemma EmptyDisk()
    ensures Spool.Reopened("") == Some(Spool.State("", 1, []))
    ensures Spool.Durable("") == []
  {}

  /** Under a cap of one, two appends push the first record out of the window. */
  lemma TwoAppends() returns (r: Run, s: State)
    ensures Ends(NARROW, r, s)
    ensures s.store == EMPTY && s.ctl == None && s.pulled == []
    ensures s.daemon.Some? && |Spool.Durable(s.disk)| == 3 && |s.daemon.value.recs| == 2
  {
    hide Spool.Durable, Spool.FileOf, Spool.Line, Spool.Reopened, Inv, IsRun, Ends;
    r, s := Run([INIT], []), INIT;
    OneStateRun();
    EmptyDisk();
    r, s := Extend(NARROW, r, s, DaemonStart);
    EndsDaemon(NARROW, r, s);
    Spool.AppendIsDurable(1, s.daemon.value, "a");
    r, s := Extend(NARROW, r, s, SpoolAppend("a"));
    EndsDaemon(NARROW, r, s);
    Spool.AppendIsDurable(1, s.daemon.value, "b");
    r, s := Extend(NARROW, r, s, SpoolAppend("b"));
  }

  lemma OneStateRun()
    ensures Ends(NARROW, Run([INIT], []), INIT)
  {
    InitInv(NARROW);
  }

  lemma EndsDaemon(cfg: Config, r: Run, s: State)
    requires Ends(cfg, r, s)
    ensures Inv(cfg, s)
    ensures s.daemon.Some? ==> Spool.Healthy(s.daemon.value) && s.daemon.value.file == s.disk
  {
    hide Inv;
    InvDaemon(cfg, s);
  }

  /** A controller that starts and polls gets what the window holds. */
  lemma FetchBoth(r0: Run, s0: State) returns (r: Run, s: State, batch: seq<Entry>)
    requires Ends(NARROW, r0, s0)
    requires s0.store == EMPTY && s0.ctl == None && s0.pulled == []
    requires s0.daemon.Some? && |Spool.Durable(s0.disk)| == 3 && |s0.daemon.value.recs| == 2
    ensures Ends(NARROW, r, s)
    ensures s == s0.(ctl := Some(Controller(Recovered(EMPTY), [Publishing(batch)])))
    ensures |batch| == 2 && batch[0].id == 2 && batch[1].id == 3
  {
    hide Spool.Durable, Spool.FileOf, Spool.After, Inv, IsRun, BatchOk, Ends;
    r, s := Extend(NARROW, r0, s0, ControllerStart);
    r, s := Extend(NARROW, r, s, StartPuller);
    assert s.ctl.value.pullers == [Resting];
    r, s := Extend(NARROW, r, s, Ask(0));
    assert s.ctl.value.pullers == [Asked(0)];
    EndsDaemon(NARROW, r, s);
    FetchedBatch(s.daemon.value, 0);
    r, s := Extend(NARROW, r, s, Fetch(0));
    batch := s.ctl.value.pullers[0].batch;
    assert s.ctl.value.pullers == [Publishing(batch)];
    BatchIds(batch, Spool.Durable(s.disk));
  }

  /** The controller pulls what the window holds, past the first record. */
  lemma PullBoth(r0: Run, s0: State) returns (r: Run, s: State)
    requires Ends(NARROW, r0, s0)
    requires s0.store == EMPTY && s0.ctl == None && s0.pulled == []
    requires s0.daemon.Some? && |Spool.Durable(s0.disk)| == 3 && |s0.daemon.value.recs| == 2
    ensures Ends(NARROW, r, s)
    ensures s.disk == s0.disk && s.daemon == s0.daemon && s.pulled == [(1, 2), (2, 3)]
    ensures s.ctl.Some? && s.ctl.value.pullers == [Publishing([])] && s.ctl.value.hub.origin == 3
  {
    hide Spool.Durable, Spool.FileOf, Spool.After, Inv, IsRun, BatchOk, Ends, Fanout;
    var batch;
    r, s, batch := FetchBoth(r0, s0);
    r, s := Extend(NARROW, r, s, PublishOne(0, Commit));
    assert s.ctl.value.pullers[0].batch == [batch[1]];
    r, s := Extend(NARROW, r, s, PublishOne(0, Commit));
    assert s.ctl.value.pullers[0].batch == [];
  }

  lemma BatchIds(batch: seq<Entry>, es: seq<Entry>)
    requires BatchOk(batch, es)
    ensures forall i :: 0 <= i < |batch| ==> batch[i].id == batch[0].id + i
  {}

  /** Draining can leave a served record behind: after a restart the daemon serves
      the whole file again, including a record the cap had dropped and the
      watermark had passed, so a poll can come back empty while the window holds a
      record the log will never have. */
  lemma DrainCanMissARecord() returns (r: Run, k: nat)
    ensures IsRun(NARROW, r) && k < |r.steps| && r.steps[k].Fetch?
    ensures r.states[k + 1].ctl.value.pullers[r.steps[k].p] == Publishing([])
    ensures InWindow(r.states[k], 1) && !Logged(r.states[k], 1)
  {
    hide Spool.Durable, Spool.FileOf, Spool.After, Spool.Reopened, Inv, IsRun, InWindow, BatchOk, Spool.Healthy;
    var s: State;
    r, s := TwoAppends();
    r, s := PullBoth(r, s);
    r, s := Extend(NARROW, r, s, DaemonStop);
    EndsDaemon(NARROW, r, s);
    InvDaemon(NARROW, s);
    ReopenDisk(s.disk);
    r, s := Extend(NARROW, r, s, DaemonStart);
    r, s := Extend(NARROW, r, s, Drop(0));
    r, s := Extend(NARROW, r, s, Ask(0));
    InvDaemon(NARROW, s);
    WindowIsSuffix(s, 1);
    FetchedBatch(s.daemon.value, 3);
    k := |r.steps|;
    r, s := Extend(NARROW, r, s, Fetch(0));
  }

  lemma ReopenDisk(disk: string)
    requires DiskOk(disk)
    ensures var d := Spool.Reopened(disk);
            d.Some? && |d.value.recs| == |Spool.Durable(disk)| == |Spool.Durable(d.value.file)|
  {
    hide Spool.Durable, Spool.FileOf, Spool.Reopened, Spool.Healthy;
  }
}
