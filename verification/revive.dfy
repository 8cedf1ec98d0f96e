/** The log-derived revive ledger (controller/revive.go) and the whole-log
    properties the revive budget is stated in. */
module Revive {
  import opened Wrappers
  import opened Events

  /** Attempts consumed since the last re-arm, when the latest one began, and
      whether it is still open. */
  datatype Ledger = Ledger(used: nat, last: Option<nat>, open: bool)

  const FRESH: Ledger := Ledger(0, None, false)

  /** What a failed read of the log counts as. */
  const UNREADABLE: Ledger := Ledger(0x4000_0000, None, false)

  function LedgerStep(l: Ledger, k: Kind): Ledger {
    match k
    case ReviveConsumed(at) => Ledger(l.used + 1, if at.Some? then at else l.last, true)
    case Revived => l.(open := false)
    case ReviveAbandoned => l.(open := false)
    case Resumed => FRESH
    case _ => l
  }

  function Fold(log: seq<Kind>): Ledger {
    if log == [] then FRESH else LedgerStep(Fold(log[..|log| - 1]), log[|log| - 1])
  }

  lemma FoldAppend(log: seq<Kind>, k: Kind)
    ensures Fold(log + [k]) == LedgerStep(Fold(log), k)
  {
    assert (log + [k])[..|log|] == log;
  }

  /** reviveLedgerFromEvents: the loop over a snapshot. */
  method LedgerFromEvents(evs: seq<Event>) returns (l: Ledger)
    ensures l == Fold(Kinds(evs))
  {
    hide Fold, Kinds;
    l := FRESH;
    ghost var ks := Kinds(evs);
    KindsAt(evs);
    EmptyFold();
    assert ks[..0] == [];
    for i := 0 to |evs|
      invariant l == Fold(ks[..i])
    {
      FoldAppend(ks[..i], ks[i]);
      assert ks[..i + 1] == ks[..i] + [ks[i]];
      match evs[i].kind {
        case ReviveConsumed(at) =>
          l := Ledger(l.used + 1, if at.Some? then at else l.last, true);
        case Revived => l := l.(open := false);
        case ReviveAbandoned => l := l.(open := false);
        case Resumed => l := FRESH;
        case _ =>
      }
    }
    assert ks[..|evs|] == ks;
  }

  lemma EmptyFold()
    ensures Fold([]) == FRESH
  {}

  lemma KindsAt(evs: seq<Event>)
    ensures |Kinds(evs)| == |evs| && forall i :: 0 <= i < |evs| ==> Kinds(evs)[i] == evs[i].kind
  {}

  function Remaining(l: Ledger, max: int): nat {
    if max - l.used < 0 then 0 else max - l.used
  }

  function CooldownRemaining(l: Ledger, now: int, cooldown: int): nat {
    if l.last.None? || cooldown <= 0 then 0
    else
      var d := cooldown - (now - l.last.value);
      if d < 0 then 0 else d
  }

  // ---- counting over the log ----

  function Consumptions(log: seq<Kind>): nat {
    if log == [] then 0
    else Consumptions(log[..|log| - 1]) + if log[|log| - 1].ReviveConsumed? then 1 else 0
  }

  function Revivals(log: seq<Kind>): nat {
    if log == [] then 0
    else Revivals(log[..|log| - 1]) + if log[|log| - 1].Revived? then 1 else 0
  }

  lemma CountAppend(log: seq<Kind>, k: Kind)
    ensures Consumptions(log + [k]) == Consumptions(log) + if k.ReviveConsumed? then 1 else 0
    ensures Revivals(log + [k]) == Revivals(log) + if k.Revived? then 1 else 0
  {
    assert (log + [k])[..|log|] == log;
  }

  // ---- the promises ----

  /** Every revive is paid for, in every prefix of the log. */
  ghost predicate Paid(log: seq<Kind>) {
    forall n :: 0 <= n <= |log| ==> Revivals(log[..n]) <= Consumptions(log[..n])
  }

  predicate NoRearm(log: seq<Kind>, i: nat, j: nat)
    requires i <= j <= |log|
  {
    forall k :: i <= k < j ==> !log[k].Resumed?
  }

  /** At most cap consumptions in any stretch of the log without a re-arm. */
  ghost predicate WithinBudget(log: seq<Kind>, cap: int) {
    forall i, j :: 0 <= i <= j <= |log| && NoRearm(log, i, j) ==> Consumptions(log[i..j]) <= cap
  }

  /** Consumptions with no re-arm between them are at least the cooldown apart. */
  ghost predicate Spaced(log: seq<Kind>, cooldown: nat) {
    forall i, j :: 0 <= i < j < |log| && Apart(log, i, j) ==>
      log[i].at.Some? && log[j].at.Some? && log[j].at.value >= log[i].at.value + cooldown
  }

  predicate Apart(log: seq<Kind>, i: nat, j: nat)
    requires i < j < |log|
  {
    log[i].ReviveConsumed? && log[j].ReviveConsumed? && NoRearm(log, i, j)
  }

  lemma PaidAppend(log: seq<Kind>, k: Kind)
    requires Paid(log)
    requires k.Revived? ==> Revivals(log) < Consumptions(log)
    ensures Paid(log + [k])
  {
    CountAppend(log, k);
    assert log[..|log|] == log;
    forall n | 0 <= n <= |log + [k]|
      ensures Revivals((log + [k])[..n]) <= Consumptions((log + [k])[..n])
    {
      if n <= |log| {
        assert (log + [k])[..n] == log[..n];
      } else {
        assert (log + [k])[..n] == log + [k];
      }
    }
  }

  lemma PaidNow(log: seq<Kind>)
    requires Paid(log)
    ensures Revivals(log) <= Consumptions(log)
  {
    assert log[..|log|] == log;
  }

  /** The ledger counts at least what any stretch ending now consumed. */
  lemma {:induction false} LedgerCounts(log: seq<Kind>, i: nat)
    requires i <= |log| && NoRearm(log, i, |log|)
    ensures Consumptions(log[i..]) <= Fold(log).used
  {
    hide Consumptions, Fold;
    if i < |log| {
      var front, k := log[..|log| - 1], log[|log| - 1];
      assert NoRearm(front, i, |front|) && !k.Resumed?;
      LedgerCounts(front, i);
      assert log == front + [k] && log[i..] == front[i..] + [k];
      CountAppend(front[i..], k);
      FoldAppend(front, k);
    } else {
      assert log[i..] == [];
      NoConsumptions();
    }
  }

  /** i begins the stretch that ends now: the log's start, or right after the last re-arm. */
  predicate Stretch(log: seq<Kind>, i: nat) {
    i <= |log| && (i == 0 || log[i - 1].Resumed?) && NoRearm(log, i, |log|)
  }

  /** The budget spent is exactly the number of consumptions since the last re-arm. */
  lemma {:induction false} UsedIs(log: seq<Kind>, i: nat)
    requires Stretch(log, i)
    ensures Fold(log).used == Consumptions(log[i..])
  {
    hide Consumptions, Fold;
    if i < |log| {
      var front, k := log[..|log| - 1], log[|log| - 1];
      assert NoRearm(front, i, |front|) && !k.Resumed?;
      UsedIs(front, i);
      assert log == front + [k] && log[i..] == front[i..] + [k];
      CountAppend(front[i..], k);
      FoldAppend(front, k);
    } else {
      assert log[i..] == [];
      NoConsumptions();
      FreshAt(log);
    }
  }

  lemma FreshAt(log: seq<Kind>)
    requires log == [] || log[|log| - 1].Resumed?
    ensures Fold(log) == FRESH
  {}

  /** The consumption at j is the last of the stretch whose time decodes. */
  predicate LatestAttempt(log: seq<Kind>, i: nat, j: nat) {
    && i <= j < |log| && log[j].ReviveConsumed? && log[j].at.Some?
    && forall m :: j < m < |log| ==> !(log[m].ReviveConsumed? && log[m].at.Some?)
  }

  /** The ledger's last attempt is the time of that consumption, and none without one. */
  lemma {:induction false} LastIs(log: seq<Kind>, i: nat)
    requires Stretch(log, i)
    ensures forall j: nat :: LatestAttempt(log, i, j) ==> Fold(log).last == log[j].at
    ensures Fold(log).last.Some? <==> exists j: nat :: LatestAttempt(log, i, j)
  {
    hide Fold;
    if i < |log| {
      var n := |log| - 1;
      var front, k := log[..n], log[n];
      assert NoRearm(front, i, |front|) && !k.Resumed?;
      LastIs(front, i);
      assert log == front + [k];
      FoldAppend(front, k);
      assert k.ReviveConsumed? && k.at.Some? <==> LatestAttempt(log, i, n);
      assert forall j: nat | j < n :: LatestAttempt(log, i, j) <==>
                                      LatestAttempt(front, i, j) && !(k.ReviveConsumed? && k.at.Some?);
    } else {
      FreshAt(log);
    }
  }

  predicate Closes(k: Kind) {
    k.Revived? || k.ReviveAbandoned? || k.Resumed?
  }

  predicate OpenAt(log: seq<Kind>, j: nat) {
    j < |log| && log[j].ReviveConsumed? && forall m :: j < m < |log| ==> !Closes(log[m])
  }

  /** An attempt is open exactly when some consumption has no revival, abandonment or
      re-arm after it. */
  lemma {:induction false} OpenIs(log: seq<Kind>)
    ensures Fold(log).open <==> exists j: nat :: OpenAt(log, j)
  {
    hide Fold;
    if log == [] {
      FreshAt(log);
    } else {
      var n := |log| - 1;
      var front, k := log[..n], log[n];
      OpenIs(front);
      assert log == front + [k];
      FoldAppend(front, k);
      assert k.ReviveConsumed? <==> OpenAt(log, n);
      assert forall j: nat | j < n :: OpenAt(log, j) <==> OpenAt(front, j) && !Closes(k);
    }
  }

  lemma NoConsumptions()
    ensures Consumptions([]) == 0
  {}

  lemma BudgetAppend(log: seq<Kind>, k: Kind, cap: int)
    requires WithinBudget(log, cap)
    requires k.ReviveConsumed? ==> Fold(log).used + 1 <= cap
    requires cap >= 0
    ensures WithinBudget(log + [k], cap)
  {
    var log' := log + [k];
    forall i, j | 0 <= i <= j <= |log'| && NoRearm(log', i, j)
      ensures Consumptions(log'[i..j]) <= cap
    {
      if j <= |log| {
        assert NoRearm(log, i, j) by { assert forall x :: i <= x < j ==> log[x] == log'[x]; }
        assert log'[i..j] == log[i..j];
      } else if i <= |log| {
        assert NoRearm(log, i, |log|) by { assert forall x :: i <= x < |log| ==> log[x] == log'[x]; }
        assert log'[i..j] == log[i..] + [k];
        assert log[i..] == log[i..|log|];
        CountAppend(log[i..], k);
        LedgerCounts(log, i);
      }
    }
  }

  predicate LastBy(l: Ledger, now: nat) {
    l.last.Some? ==> l.last.value <= now
  }

  predicate StampedBy(log: seq<Kind>, now: nat) {
    forall i :: 0 <= i < |log| && log[i].ReviveConsumed? ==> log[i].at.Some? && log[i].at.value <= now
  }

  predicate Current(log: seq<Kind>, i: nat)
    requires i < |log|
  {
    log[i].ReviveConsumed? && NoRearm(log, i, |log|)
  }

  predicate Covers(l: Ledger, k: Kind, now: nat) {
    k.ReviveConsumed? && k.at.Some? && l.last.Some? && k.at.value <= l.last.value <= now
  }

  predicate LastCovers(log: seq<Kind>, l: Ledger, now: nat) {
    forall i :: 0 <= i < |log| && Current(log, i) ==> Covers(l, log[i], now)
  }

  /** Ledger times lie between the stretch's consumptions and now. */
  ghost predicate Timed(log: seq<Kind>, now: nat) {
    LastBy(Fold(log), now) && StampedBy(log, now) && LastCovers(log, Fold(log), now)
  }

  lemma StampedAppend(log: seq<Kind>, k: Kind, now: nat)
    requires StampedBy(log, now) && (k.ReviveConsumed? ==> k.at == Some(now))
    ensures StampedBy(log + [k], now)
  {}

  lemma CurrentBefore(log: seq<Kind>, k: Kind, i: nat)
    requires i < |log| && Current(log + [k], i)
    ensures Current(log, i) && !k.Resumed?
  {
    var log' := log + [k];
    assert log'[|log|] == k;
    assert forall x :: 0 <= x < |log| ==> log'[x] == log[x];
  }

  lemma CoversAppend(log: seq<Kind>, k: Kind, l: Ledger, now: nat)
    requires LastBy(l, now) && LastCovers(log, l, now) && (k.ReviveConsumed? ==> k.at == Some(now))
    ensures LastCovers(log + [k], LedgerStep(l, k), now)
  {
    hide Current;
    var log' := log + [k];
    forall i | 0 <= i < |log'| && Current(log', i)
      ensures Covers(LedgerStep(l, k), log'[i], now)
    {
      if i < |log| {
        assert log'[i] == log[i];
        CurrentBefore(log, k, i);
      } else {
        assert log'[i] == k;
        assert k.ReviveConsumed? by { CurrentIs(log', i); }
      }
    }
  }

  lemma CurrentIs(log: seq<Kind>, i: nat)
    requires i < |log| && Current(log, i)
    ensures log[i].ReviveConsumed?
  {}

  lemma TimedAppend(log: seq<Kind>, k: Kind, now: nat)
    requires Timed(log, now)
    requires k.ReviveConsumed? ==> k.at == Some(now)
    ensures Timed(log + [k], now)
  {
    hide Fold, StampedBy, LastCovers;
    FoldAppend(log, k);
    StampedAppend(log, k, now);
    CoversAppend(log, k, Fold(log), now);
  }

  lemma SpacedAppend(log: seq<Kind>, k: Kind, now: nat, cooldown: nat)
    requires Spaced(log, cooldown) && Timed(log, now)
    requires k.ReviveConsumed? ==>
               k.at == Some(now) && (Fold(log).last.Some? ==> now >= Fold(log).last.value + cooldown)
    ensures Spaced(log + [k], cooldown)
  {
    var log' := log + [k];
    forall i, j | 0 <= i < j < |log'| && Apart(log', i, j)
      ensures log'[i].at.Some? && log'[j].at.Some? && log'[j].at.value >= log'[i].at.value + cooldown
    {
      assert log[i] == log'[i];
      assert forall x :: i <= x < j ==> log[x] == log'[x];
      if j < |log| {
        assert log[j] == log'[j];
        assert Apart(log, i, j);
      } else {
        assert NoRearm(log, i, |log|);
      }
    }
  }
}
