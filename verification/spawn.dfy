/** Spawn depth and its cap (controller/agent.go, Depth and checkSpawnCaps). */
module Spawn {
  import opened Cascade

  /** Ancestors counted by following parent links from p: the walk ends at a root, at a
      link already seen and at a dangling link. */
  function DepthFrom(g: Parents, p: string, seen: set<string>): nat
    decreases g.Keys - seen
  {
    if p == "" || p in seen || p !in g then 0
    else
      assert p in g.Keys - seen;
      1 + DepthFrom(g, g[p], seen + {p})
  }

  /** Depth of an agent id whose own parent link is p; the agent itself need not be
      registered. */
  function Depth(g: Parents, id: string, p: string): nat {
    DepthFrom(g, p, {id})
  }

  /** The link-chasing loop. */
  method WalkDepth(g: Parents, id: string, p: string) returns (depth: nat)
    ensures depth == Depth(g, id, p)
  {
    depth := 0;
    var seen, parent := {id}, p;
    while parent != ""
      invariant depth + DepthFrom(g, parent, seen) == Depth(g, id, p)
      decreases g.Keys - seen
    {
      if parent in seen {
        return;
      }
      seen := seen + {parent};
      if parent !in g {
        return;
      }
      assert parent in g.Keys - (seen - {parent});
      parent := g[parent];
      depth := depth + 1;
    }
  }

  /** c lists registered ancestors, nearest first, each once and none of them in seen. */
  predicate AncestorLine(g: Parents, p: string, seen: set<string>, c: seq<string>) {
    && (forall i :: 0 <= i < |c| ==> c[i] in g && c[i] != "" && c[i] !in seen)
    && (forall i, j :: 0 <= i < j < |c| ==> c[i] != c[j])
    && (c != [] ==> c[0] == p)
    && (forall i :: 0 < i < |c| ==> c[i] == g[c[i - 1]])
  }

  /** The link the line ends on. */
  function EndLink(g: Parents, p: string, c: seq<string>): string
    requires forall i :: 0 <= i < |c| ==> c[i] in g
  {
    if c == [] then p else g[c[|c| - 1]]
  }

  /** The depth is the length of a line of distinct ancestors that cannot be continued. */
  lemma {:induction false} DepthCountsAncestors(g: Parents, p: string, seen: set<string>) returns (c: seq<string>)
    ensures AncestorLine(g, p, seen, c) && |c| == DepthFrom(g, p, seen)
    ensures var e := EndLink(g, p, c); e == "" || e in seen || e in c || e !in g
    decreases g.Keys - seen
  {
    if p == "" || p in seen || p !in g {
      c := [];
    } else {
      assert p in g.Keys - seen;
      var rest := DepthCountsAncestors(g, g[p], seen + {p});
      c := [p] + rest;
      assert forall i :: 0 < i < |c| ==> c[i] == rest[i - 1];
      assert rest != [] ==> c[|c| - 1] == rest[|rest| - 1];
      assert EndLink(g, p, c) == EndLink(g, g[p], rest);
    }
  }

  /** Two such lines from the same link are the same, so the count is the line's own. */
  lemma {:induction false} LineIsUnique(g: Parents, p: string, seen: set<string>, c: seq<string>)
    requires AncestorLine(g, p, seen, c)
    requires var e := EndLink(g, p, c); e == "" || e in seen || e in c || e !in g
    ensures |c| == DepthFrom(g, p, seen)
    decreases |c|
  {
    if c != [] {
      var rest := c[1..];
      assert p == c[0] && p !in rest;
      assert forall i :: 0 < i < |rest| ==> rest[i] == c[i + 1] && rest[i - 1] == c[i];
      assert rest != [] ==> rest[0] == c[1] && rest[|rest| - 1] == c[|c| - 1];
      assert EndLink(g, g[p], rest) == EndLink(g, p, c);
      assert c == [p] + rest;
      LineIsUnique(g, g[p], seen + {p}, rest);
    }
  }

  // ---- changing the registry ----

  /** Taking an agent away shortens the others' walks or leaves them alone. */
  lemma {:induction false} RemovalShortens(g: Parents, gone: string, p: string, seen: set<string>)
    ensures DepthFrom(g - {gone}, p, seen) <= DepthFrom(g, p, seen)
    decreases g.Keys - seen
  {
    if p != "" && p !in seen && p in g && p != gone {
      assert p in g.Keys - seen;
      RemovalShortens(g, gone, g[p], seen + {p});
    }
  }

  predicate NoLinkTo(g: Parents, x: string) {
    forall a :: a in g ==> g[a] != x
  }

  /** A new agent that no link names, and the id it adds to seen, change no walk. */
  lemma {:induction false} FreshChangesNothing(g: Parents, child: string, parent: string, p: string, seen: set<string>)
    requires child !in g && p != child && NoLinkTo(g, child)
    ensures DepthFrom(g[child := parent], p, seen) == DepthFrom(g, p, seen)
    ensures DepthFrom(g, p, seen + {child}) == DepthFrom(g, p, seen)
    decreases g.Keys - seen
  {
    if p != "" && p !in seen && p in g {
      assert p in g.Keys - seen;
      FreshChangesNothing(g, child, parent, g[p], seen + {p});
      assert seen + {p} + {child} == seen + {child} + {p};
    }
  }

  /** Links of h that lead on are links of g that lead on the same way. */
  predicate Follows(h: Parents, g: Parents) {
    forall a :: a in h && a in g ==> h[a] == "" || h[a] == g[a]
  }

  predicate LinksLive(links: Parents, h: Parents, g: Parents) {
    forall a :: a in links && links[a] in h ==> links[a] in g
  }

  lemma {:induction false} ShorterWalk(h: Parents, g: Parents, p: string, seen: set<string>)
    requires Follows(h, g) && LinksLive(g, h, g) && (p in h ==> p in g)
    ensures DepthFrom(h, p, seen) <= DepthFrom(g, p, seen)
    decreases h.Keys - seen
  {
    if p != "" && p !in seen && p in h {
      assert p in h.Keys - seen && p in g.Keys - seen;
      if h[p] != "" {
        ShorterWalk(h, g, g[p], seen + {p});
      }
    }
  }

  // ---- the cap over every run ----

  /** A create that has passed the cap and is being provisioned; told once its
      agent.provisioned append is behind it. */
  datatype Create = Create(parent: string, told: bool)

  /** agents is the registry; logs the durable logs without agent.terminated, with the
      parent each one records ("" when agent.provisioned was refused); used every id ever
      given out. */
  datatype State = State(agents: Parents, logs: Parents, pending: map<string, Create>, used: set<string>)

  const EMPTY := State(map[], map[], map[], {})

  datatype Step =
    | Check(child: string, parent: string)
    | Provision(child: string, ok: bool)
    | Touch(id: string)                      // any other append: the log exists from here on
    | Register(child: string)
    | Abandon(child: string)
    | Unregister(id: string, recorded: bool) // recorded: agent.terminated was appended
    | Restart(kept: set<string>)             // kept: the logs the rebuild could read

  /** checkSpawnCaps passes a root create, and a child of a registered parent whose depth
      leaves room. */
  predicate Passes(g: Parents, parent: string, max: nat) {
    parent == "" || (parent in g && Depth(g, parent, g[parent]) + 1 <= max)
  }

  predicate Possible(s: State, step: Step) {
    match step
    case Check(child, parent) => child != "" && child !in s.used
    case Provision(child, ok) => child in s.pending && !s.pending[child].told
    case Touch(id) => id in s.agents || (id in s.pending && s.pending[id].told)
    case Register(child) => child in s.pending && s.pending[child].told
    case Abandon(child) => child in s.pending
    case Unregister(id, recorded) => id in s.agents
    case Restart(kept) => true
  }

  predicate Enabled(s: State, step: Step, max: nat) {
    Possible(s, step) && (step.Check? ==> Passes(s.agents, step.parent, max))
  }

  function Only(g: Parents, kept: set<string>): Parents {
    map a | a in g && a in kept :: g[a]
  }

  function Next(s: State, step: Step): State
    requires Possible(s, step)
  {
    match step
    case Check(child, parent) =>
      s.(pending := s.pending[child := Create(parent, false)], used := s.used + {child})
    case Provision(child, ok) =>
      var c := s.pending[child];
      s.(pending := s.pending[child := c.(told := true)], logs := if ok then s.logs[child := c.parent] else s.logs)
    case Touch(id) => s.(logs := if id in s.logs then s.logs else s.logs[id := ""])
    case Register(child) =>
      s.(agents := s.agents[child := s.pending[child].parent], pending := s.pending - {child})
    case Abandon(child) => s.(pending := s.pending - {child})
    case Unregister(id, recorded) =>
      s.(agents := s.agents - {id}, logs := if recorded then s.logs - {id} else s.logs)
    case Restart(kept) => s.(agents := Only(s.logs, kept), pending := map[])
  }

  /** The state after a run; a step that is not enabled where it stands does nothing. */
  function After(run: seq<Step>, max: nat): State {
    if run == [] then EMPTY
    else
      var s, step := After(run[..|run| - 1], max), run[|run| - 1];
      if Enabled(s, step, max) then Next(s, step) else s
  }

  lemma AfterOne(run: seq<Step>, step: Step, max: nat)
    ensures var s := After(run, max); After(run + [step], max) == if Enabled(s, step, max) then Next(s, step) else s
  {
    assert (run + [step])[..|run|] == run;
  }

  /** An agent whose log was written to is registered again by exactly the rebuilds that
      read that log. */
  lemma RebuildRegisters(s: State, id: string, kept: set<string>)
    requires Possible(s, Touch(id))
    ensures id in Next(Next(s, Touch(id)), Restart(kept)).agents <==> id in kept
  {}

  lemma {:induction false} PendingIsUsed(run: seq<Step>, max: nat)
    ensures forall c :: c in After(run, max).pending ==> c in After(run, max).used
  {
    hide Passes;
    if run != [] {
      PendingIsUsed(run[..|run| - 1], max);
    }
  }

  /** A create ends once: after it registered its agent or gave up, whatever follows, it is
      never pending again, so no later step registers it. */
  lemma {:induction false} CreateEndsOnce(run: seq<Step>, step: Step, more: seq<Step>, max: nat)
    requires (step.Register? || step.Abandon?) && Enabled(After(run, max), step, max)
    ensures var s := After(run + [step] + more, max);
            step.child in s.used && step.child !in s.pending && !Possible(s, Register(step.child))
    decreases |more|
  {
    hide Passes, After;
    var ended := run + [step];
    if more == [] {
      PendingIsUsed(run, max);
      AfterOne(run, step, max);
      assert ended + more == ended;
    } else {
      var front, last := more[..|more| - 1], more[|more| - 1];
      CreateEndsOnce(run, step, front, max);
      assert ended + more == (ended + front) + [last];
      AfterOne(ended + front, last, max);
    }
  }

  /** An agent leaves the registry while its log does not say so: its agent.terminated or
      its agent.started was refused, or a rebuild could not read the log. */
  predicate Unrecorded(step: Step) {
    step.Unregister? && !step.recorded
  }

  predicate Partial(s: State, step: Step) {
    step.Restart? && !(s.logs.Keys <= step.kept)
  }

  predicate Capped(g: Parents, max: nat) {
    forall a :: a in g ==> Depth(g, a, g[a]) <= max
  }

  /** A parent link that can still be followed leaves room for a child. */
  predicate Roomy(g: Parents, parent: string, max: nat) {
    parent == "" || parent !in g || Depth(g, parent, g[parent]) + 1 <= max
  }

  predicate Unlinked(s: State, x: string) {
    NoLinkTo(s.agents, x) && NoLinkTo(s.logs, x) && forall c :: c in s.pending ==> s.pending[c].parent != x
  }

  predicate Links(g: Parents, used: set<string>) {
    forall a :: a in g ==> a in used && (g[a] == "" || g[a] in used)
  }

  predicate Named(s: State) {
    && "" !in s.used
    && Links(s.agents, s.used) && Links(s.logs, s.used)
    && forall c :: c in s.pending ==> c in s.used && (s.pending[c].parent == "" || s.pending[c].parent in s.used)
  }

  predicate CreateOk(s: State, c: string, max: nat)
    requires c in s.pending
  {
    && c !in s.agents && Roomy(s.agents, s.pending[c].parent, max)
    && (c in s.logs ==> s.pending[c].told && (s.logs[c] == "" || s.logs[c] == s.pending[c].parent))
  }

  predicate CreatesOk(s: State, max: nat) {
    forall c :: c in s.pending ==> CreateOk(s, c, max)
  }

  predicate LoggedOk(s: State, max: nat) {
    forall x :: x in s.logs && x !in s.agents ==> Roomy(s.agents, s.logs[x], max)
  }

  predicate OutsideUnlinked(s: State) {
    && (forall x :: x in s.logs && x !in s.agents ==> Unlinked(s, x))
    && (forall x :: x in s.pending && x !in s.agents ==> Unlinked(s, x))
  }

  /** Whatever is logged or being created but not registered is nobody's parent, and has
      room under its own. */
  predicate Inv(s: State, max: nat) {
    && Named(s) && OutsideUnlinked(s)
    && CreatesOk(s, max) && LoggedOk(s, max) && Follows(s.logs, s.agents) && Capped(s.agents, max)
  }

  /** A child no link names, under a parent with room, is within the cap. */
  lemma ChildDepth(g: Parents, child: string, parent: string, max: nat)
    requires child !in g && NoLinkTo(g, child) && parent != child && Roomy(g, parent, max)
    ensures DepthFrom(g, parent, {child}) <= max
  {
    if parent != "" && parent in g {
      assert parent in g.Keys - {child};
      FreshChangesNothing(g, child, "", g[parent], {parent});
      assert {parent} + {child} == {child} + {parent};
    }
  }

  /** A registration allowed by an earlier check stays within the cap and changes no
      other depth. */
  lemma RegisteredDepth(g: Parents, child: string, parent: string, max: nat)
    requires child !in g && NoLinkTo(g, child) && parent != child && Roomy(g, parent, max)
    ensures Depth(g[child := parent], child, parent) <= max
    ensures forall a :: a in g ==> Depth(g[child := parent], a, g[a]) == Depth(g, a, g[a])
    ensures forall q :: q != child && Roomy(g, q, max) ==> Roomy(g[child := parent], q, max)
  {
    var h := g[child := parent];
    FreshChangesNothing(g, child, parent, parent, {child});
    ChildDepth(g, child, parent, max);
    forall a | a in g
      ensures Depth(h, a, g[a]) == Depth(g, a, g[a])
    {
      FreshChangesNothing(g, child, parent, g[a], {a});
    }
    assert forall a :: a in g ==> h[a] == g[a];
  }

  lemma UnregisteredDepth(g: Parents, id: string, max: nat)
    ensures Capped(g, max) ==> Capped(g - {id}, max)
    ensures forall q :: Roomy(g, q, max) ==> Roomy(g - {id}, q, max)
  {
    var h := g - {id};
    forall a | a in h
      ensures Depth(h, a, h[a]) <= Depth(g, a, g[a])
    {
      RemovalShortens(g, id, g[a], {a});
    }
  }

  /** What the logs would rebuild is within the cap as well. */
  lemma LogsCapped(s: State, max: nat)
    requires Inv(s, max)
    ensures Capped(s.logs, max)
  {
    hide Depth, Roomy;
    assert LinksLive(s.agents, s.logs, s.agents);
    forall x | x in s.logs
      ensures Depth(s.logs, x, s.logs[x]) <= max
    {
      LogCapped(s, x, max);
    }
  }

  lemma LogCapped(s: State, x: string, max: nat)
    requires Inv(s, max) && LinksLive(s.agents, s.logs, s.agents) && x in s.logs
    ensures Depth(s.logs, x, s.logs[x]) <= max
  {
    var p := s.logs[x];
    if p != "" {
      assert p in s.logs ==> p in s.agents;
      ShorterWalk(s.logs, s.agents, p, {x});
      if x in s.agents {
        assert p == s.agents[x];
      } else {
        assert Unlinked(s, x);
        ChildDepth(s.agents, x, p, max);
      }
    }
  }

  lemma CheckKeepsInv(s: State, step: Step, max: nat)
    requires Inv(s, max) && Enabled(s, step, max) && step.Check?
    ensures Inv(Next(s, step), max)
  {
    hide Depth, Capped, Follows, Roomy, Unlinked, CreateOk, LoggedOk;
    var t := Next(s, step);
    RoomyWherePassed(s.agents, step.parent, max);
    CheckLinks(s, step, max);
    forall c | c in t.pending
      ensures CreateOk(t, c, max)
    {
      CheckCreate(s, step, c, max);
    }
    assert LoggedOk(t, max) by { SameLogs(s, t, max); }
  }

  lemma RoomyWherePassed(g: Parents, parent: string, max: nat)
    requires Passes(g, parent, max)
    ensures Roomy(g, parent, max)
  {}

  lemma SameLogs(s: State, t: State, max: nat)
    requires LoggedOk(s, max) && t.agents == s.agents && t.logs == s.logs
    ensures LoggedOk(t, max)
  {}

  lemma CheckCreate(s: State, step: Step, c: string, max: nat)
    requires Inv(s, max) && Enabled(s, step, max) && step.Check? && Roomy(s.agents, step.parent, max)
    requires c in Next(s, step).pending
    ensures CreateOk(Next(s, step), c, max)
  {
    hide Depth, Capped, Follows, Roomy, Unlinked;
    assert c == step.child || CreateOk(s, c, max);
  }

  lemma CheckLinks(s: State, step: Step, max: nat)
    requires Inv(s, max) && Enabled(s, step, max) && step.Check?
    ensures OutsideUnlinked(Next(s, step))
  {
    hide Depth, Capped, Follows, Roomy, CreateOk, LoggedOk;
    var t := Next(s, step);
    assert Unlinked(t, step.child);
    forall x | (x in t.logs || x in t.pending) && x !in t.agents
      ensures Unlinked(t, x)
    {
      assert x == step.child || Unlinked(s, x);
    }
  }

  lemma ProvisionKeepsInv(s: State, step: Step, max: nat)
    requires Inv(s, max) && Enabled(s, step, max) && step.Provision?
    ensures Inv(Next(s, step), max)
  {
    hide Depth, Capped, Roomy, Unlinked, OutsideUnlinked, CreatesOk;
    assert CreateOk(s, step.child, max) by { hide *; CreateAt(s, step.child, max); }
    ProvisionLinks(s, step, max);
    ProvisionCreates(s, step, max);
  }

  lemma CreateAt(s: State, c: string, max: nat)
    requires CreatesOk(s, max) && c in s.pending
    ensures CreateOk(s, c, max)
  {}

  lemma ProvisionLinks(s: State, step: Step, max: nat)
    requires Inv(s, max) && Enabled(s, step, max) && step.Provision?
    ensures OutsideUnlinked(Next(s, step))
  {
    hide Depth, Capped, Follows, Roomy, LoggedOk;
    var t := Next(s, step);
    assert CreateOk(s, step.child, max);
    forall x | (x in t.logs || x in t.pending) && x !in t.agents
      ensures Unlinked(t, x)
    {
      assert Unlinked(s, x);
    }
  }

  lemma ProvisionCreates(s: State, step: Step, max: nat)
    requires Inv(s, max) && Enabled(s, step, max) && step.Provision?
    ensures CreatesOk(Next(s, step), max)
  {
    hide Depth, Capped, Follows, Roomy, LoggedOk, Unlinked, OutsideUnlinked;
    var t := Next(s, step);
    forall c | c in t.pending
      ensures CreateOk(t, c, max)
    {
      assert CreateOk(s, c, max);
    }
  }

  lemma TouchKeepsInv(s: State, step: Step, max: nat)
    requires Inv(s, max) && Enabled(s, step, max) && step.Touch?
    ensures Inv(Next(s, step), max)
  {
    hide Depth, Capped, Unlinked, CreateOk, OutsideUnlinked, CreatesOk;
    TouchLinks(s, step, max);
    TouchCreates(s, step, max);
  }

  lemma TouchLinks(s: State, step: Step, max: nat)
    requires Inv(s, max) && Enabled(s, step, max) && step.Touch?
    ensures OutsideUnlinked(Next(s, step))
  {
    hide Depth, Capped, Follows, Roomy, CreatesOk, CreateOk, LoggedOk;
    var t := Next(s, step);
    forall x | (x in t.logs || x in t.pending) && x !in t.agents
      ensures Unlinked(t, x)
    {
      assert Unlinked(s, x);
    }
  }

  lemma TouchCreates(s: State, step: Step, max: nat)
    requires Inv(s, max) && Enabled(s, step, max) && step.Touch?
    ensures CreatesOk(Next(s, step), max)
  {
    hide Depth, Capped, Follows, Roomy, LoggedOk, Unlinked, OutsideUnlinked;
    var t := Next(s, step);
    forall c | c in t.pending
      ensures CreateOk(t, c, max)
    {
      assert CreateOk(s, c, max);
    }
  }

  lemma AbandonKeepsInv(s: State, step: Step, max: nat)
    requires Inv(s, max) && Enabled(s, step, max) && step.Abandon?
    ensures Inv(Next(s, step), max)
  {
    hide Depth, Capped, Roomy, Follows;
    var t := Next(s, step);
    forall x | (x in t.logs || x in t.pending) && x !in t.agents
      ensures Unlinked(t, x)
    {
      assert Unlinked(s, x);
    }
    forall c | c in t.pending
      ensures CreateOk(t, c, max)
    {
      assert CreateOk(s, c, max);
    }
  }

  lemma RegisterKeepsInv(s: State, step: Step, max: nat)
    requires Inv(s, max) && Enabled(s, step, max) && step.Register?
    ensures Inv(Next(s, step), max)
  {
    hide Depth, Roomy, Unlinked, OutsideUnlinked, CreatesOk, LoggedOk;
    var c := step.child;
    RegisterLinks(s, step, max);
    assert CreateOk(s, c, max) by { hide *; CreateAt(s, c, max); }
    assert NoLinkTo(s.agents, c) && s.pending[c].parent != c by { hide *; PendingUnlinked(s, c, max); }
    RegisteredDepth(s.agents, c, s.pending[c].parent, max);
    RegisterRooms(s, step, max);
  }

  lemma PendingUnlinked(s: State, c: string, max: nat)
    requires Inv(s, max) && c in s.pending
    ensures Unlinked(s, c) && NoLinkTo(s.agents, c) && s.pending[c].parent != c
    ensures forall d :: d in s.pending ==> s.pending[d].parent != c
    ensures forall a :: a in s.logs ==> s.logs[a] != c
  {
    assert CreateOk(s, c, max);
  }

  lemma RegisterLinks(s: State, step: Step, max: nat)
    requires Inv(s, max) && Enabled(s, step, max) && step.Register?
    ensures OutsideUnlinked(Next(s, step))
  {
    hide Depth, Capped, Follows, Roomy, CreatesOk, CreateOk, LoggedOk;
    var t := Next(s, step);
    forall x | (x in t.logs || x in t.pending) && x !in t.agents
      ensures Unlinked(t, x)
    {
      assert Unlinked(s, x);
    }
  }

  lemma RegisterRooms(s: State, step: Step, max: nat)
    requires Inv(s, max) && Enabled(s, step, max) && step.Register?
    requires forall q :: q != step.child && Roomy(s.agents, q, max) ==> Roomy(Next(s, step).agents, q, max)
    ensures CreatesOk(Next(s, step), max) && LoggedOk(Next(s, step), max)
  {
    hide Depth, Capped, Roomy, Unlinked, OutsideUnlinked;
    PendingUnlinked(s, step.child, max);
    var t := Next(s, step);
    forall c | c in t.pending
      ensures CreateOk(t, c, max)
    {
      assert CreateOk(s, c, max);
    }
  }

  lemma UnregisterKeepsInv(s: State, step: Step, max: nat)
    requires Inv(s, max) && Enabled(s, step, max) && step.Unregister? && step.recorded
    ensures Inv(Next(s, step), max)
  {
    hide Depth, Roomy, Capped, Unlinked, CreateOk;
    UnregisteredDepth(s.agents, step.id, max);
    var t := Next(s, step);
    forall x | (x in t.logs || x in t.pending) && x !in t.agents
      ensures Unlinked(t, x)
    {
      UnregisterLinks(s, step, x, max);
    }
    forall c | c in t.pending
      ensures CreateOk(t, c, max)
    {
      UnregisterCreate(s, step, c, max);
    }
  }

  lemma UnregisterLinks(s: State, step: Step, x: string, max: nat)
    requires Inv(s, max) && Enabled(s, step, max) && step.Unregister? && step.recorded
    requires (x in Next(s, step).logs || x in Next(s, step).pending) && x !in Next(s, step).agents
    ensures Unlinked(Next(s, step), x)
  {
    hide Depth, Roomy, Capped, Follows, LoggedOk;
    assert x in s.pending ==> CreateOk(s, x, max);
    assert x !in s.agents ==> Unlinked(s, x);
  }

  lemma UnregisterCreate(s: State, step: Step, c: string, max: nat)
    requires Inv(s, max) && Enabled(s, step, max) && step.Unregister? && step.recorded && c in s.pending
    requires forall q :: Roomy(s.agents, q, max) ==> Roomy(Next(s, step).agents, q, max)
    ensures CreateOk(Next(s, step), c, max)
  {
    hide Depth, Roomy, Capped, Follows, LoggedOk, Unlinked;
    assert CreateOk(s, c, max);
  }

  lemma RestartKeepsInv(s: State, step: Step, max: nat)
    requires Inv(s, max) && step.Restart? && !Partial(s, step)
    ensures Inv(Next(s, step), max)
  {
    hide Depth, Roomy, Capped;
    LogsCapped(s, max);
    assert Only(s.logs, step.kept) == s.logs;
  }

  lemma StepKeepsInv(s: State, step: Step, max: nat)
    requires Inv(s, max) && Enabled(s, step, max) && !Unrecorded(step) && !Partial(s, step)
    ensures Inv(Next(s, step), max)
  {
    hide Inv, Next, Enabled;
    match step
    case Check(_, _) => CheckKeepsInv(s, step, max);
    case Provision(_, _) => ProvisionKeepsInv(s, step, max);
    case Touch(_) => TouchKeepsInv(s, step, max);
    case Abandon(_) => AbandonKeepsInv(s, step, max);
    case Register(_) => RegisterKeepsInv(s, step, max);
    case Unregister(_, _) => UnregisterKeepsInv(s, step, max);
    case Restart(_) => RestartKeepsInv(s, step, max);
  }

  /** Every agent that left the registry before step i of the run has that in its log. */
  ghost predicate Faithful(run: seq<Step>, max: nat) {
    forall i :: 0 <= i < |run| ==> !Unrecorded(run[i]) && !Partial(After(run[..i], max), run[i])
  }

  lemma FaithfulPrefix(run: seq<Step>, max: nat)
    requires run != [] && Faithful(run, max)
    ensures Faithful(run[..|run| - 1], max)
    ensures !Unrecorded(run[|run| - 1]) && !Partial(After(run[..|run| - 1], max), run[|run| - 1])
  {
    var front := run[..|run| - 1];
    assert forall i :: 0 <= i < |front| ==> front[i] == run[i] && front[..i] == run[..i];
  }

  /** Every registered agent stays within the cap in every run from an empty registry in
      which no agent leaves the registry unrecorded, restarts included, and whatever is
      registered, abandoned or torn down between the cap check and the registration it
      allowed. */
  lemma {:induction false} DepthStaysCapped(run: seq<Step>, max: nat)
    requires Faithful(run, max)
    ensures Capped(After(run, max).agents, max)
    ensures Inv(After(run, max), max)
  {
    hide Depth, Enabled, Next, Faithful;
    if run != [] {
      FaithfulPrefix(run, max);
      DepthStaysCapped(run[..|run| - 1], max);
      var s, step := After(run[..|run| - 1], max), run[|run| - 1];
      if Enabled(s, step, max) {
        StepKeepsInv(s, step, max);
      }
    }
  }

  /** An agent over the cap has a cause: some step took an agent out of the registry
      without its log saying so. */
  lemma OverCapHasCause(run: seq<Step>, max: nat) returns (i: nat)
    requires !Capped(After(run, max).agents, max)
    ensures i < |run| && (Unrecorded(run[i]) || Partial(After(run[..i], max), run[i]))
  {
    hide Capped, After;
    if Faithful(run, max) {
      DepthStaysCapped(run, max);
      assert false;
    }
    i :| 0 <= i < |run| && (Unrecorded(run[i]) || Partial(After(run[..i], max), run[i]));
  }

  // ---- a cap of zero ----

  predicate RootsOnly(s: State) {
    && (forall a :: a in s.agents ==> s.agents[a] == "")
    && (forall a :: a in s.logs ==> s.logs[a] == "")
    && (forall c :: c in s.pending ==> s.pending[c].parent == "")
  }

  /** With a cap of zero only roots are ever created. */
  lemma {:induction false} ZeroIsRootsOnly(run: seq<Step>)
    ensures RootsOnly(After(run, 0)) && Capped(After(run, 0).agents, 0)
  {
    if run != [] {
      ZeroIsRootsOnly(run[..|run| - 1]);
      var s, step := After(run[..|run| - 1], 0), run[|run| - 1];
      if Enabled(s, step, 0) {
        RootsStay(s, step);
      }
    }
  }

  lemma RootsStay(s: State, step: Step)
    requires RootsOnly(s) && Enabled(s, step, 0)
    ensures RootsOnly(Next(s, step))
  {
    hide Depth;
  }

  // ---- how the cap is passed ----

  const ROOT := "r"

  /** Pairwise different ids, none of them the root. */
  function Id(n: nat): string {
    seq(n + 1, i requires 0 <= i <= n => 'a')
  }

  lemma IdsDiffer(m: nat, n: nat)
    ensures Id(m) == Id(n) <==> m == n
    ensures Id(m) != ROOT && Id(m) != "" && ROOT != ""
  {
    assert |Id(m)| == m + 1 && |Id(n)| == n + 1;
    assert Id(m)[0] == 'a' && ROOT[0] == 'r';
  }

  /** A line of agents, the first of them under the root. */
  function Line(n: nat): Parents {
    if n == 0 then map[Id(0) := ROOT] else Line(n - 1)[Id(n) := Id(n - 1)]
  }

  lemma {:induction false} LineHas(n: nat, k: nat)
    ensures Id(k) in Line(n) <==> k <= n
    ensures ROOT !in Line(n) && "" !in Line(n)
    ensures k <= n ==> Line(n)[Id(k)] == if k == 0 then ROOT else Id(k - 1)
  {
    hide Id;
    IdsDiffer(k, n);
    IdsDiffer(n, k);
    if n > 0 {
      LineHas(n - 1, k);
    }
  }

  /** Walking up from the k-th of them passes k + 1 agents, and the root if it is there. */
  lemma {:induction false} LineDepth(g: Parents, n: nat, k: nat, seen: set<string>)
    requires k <= n && (g == Line(n) || g == Line(n)[ROOT := ""])
    requires ROOT !in seen && forall j: nat :: j <= k ==> Id(j) !in seen
    ensures DepthFrom(g, Id(k), seen) == k + 1 + if ROOT in g then 1 else 0
    decreases k
  {
    hide Id, Line;
    LineHas(n, k);
    IdsDiffer(k, 0);
    assert Id(k) in g.Keys - seen;
    var up := seen + {Id(k)};
    if k == 0 {
      assert g[Id(k)] == ROOT;
      if ROOT in g {
        assert ROOT in g.Keys - up;
        assert DepthFrom(g, g[ROOT], up + {ROOT}) == 0;
      }
    } else {
      forall j: nat | j <= k - 1
        ensures Id(j) !in up
      {
        IdsDiffer(j, k);
      }
      LineDepth(g, n, k - 1, up);
    }
  }

  /** The root is out of the registry but not out of the logs, and a line of n + 1 agents
      has been spawned below it. */
  ghost predicate OnLine(s: State, n: nat) {
    && s.agents == Line(n) && s.logs == Line(n)[ROOT := ""] && s.pending == map[]
    && forall m: nat :: m > n ==> Id(m) !in s.used
  }

  /** run' goes on from run with steps of creates only. */
  predicate Creates(run: seq<Step>, run': seq<Step>) {
    run <= run' && forall i :: |run| <= i < |run'| ==> run'[i].Check? || run'[i].Provision? || run'[i].Register?
  }

  lemma SpawnOne(run: seq<Step>, n: nat, max: nat) returns (run': seq<Step>)
    requires OnLine(After(run, max), n) && n < max
    ensures OnLine(After(run', max), n + 1)
    ensures Creates(run, run')
  {
    hide Id, DepthFrom, After;
    var c, p := Id(n + 1), Id(n);
    var s := After(run, max);
    LineHas(n, n);
    LineHas(n, n + 1);
    IdsDiffer(n + 1, n);
    assert Passes(s.agents, p, max) by { LineRoom(n, max); }
    AfterOne(run, Check(c, p), max);
    AfterOne(run + [Check(c, p)], Provision(c, true), max);
    AfterOne(run + [Check(c, p)] + [Provision(c, true)], Register(c), max);
    run' := run + [Check(c, p)] + [Provision(c, true)] + [Register(c)];
    var t := After(run', max);
    assert t.agents == Line(n + 1);
    assert t.logs == Line(n + 1)[ROOT := ""];
    forall m: nat | m > n + 1
      ensures Id(m) !in t.used
    {
      IdsDiffer(m, n + 1);
    }
  }

  lemma LineRoom(n: nat, max: nat)
    requires n < max
    ensures Passes(Line(n), Id(n), max)
  {
    hide Id, Line;
    LineHas(n, n);
    IdsDiffer(n, 0);
    LineTop(Line(n), n);
  }

  /** The depth of the last of them. */
  lemma LineTop(g: Parents, n: nat)
    requires g == Line(n) || g == Line(n)[ROOT := ""]
    ensures Id(n) in g && Depth(g, Id(n), g[Id(n)]) == n + if ROOT in g then 1 else 0
  {
    hide Id, Line, DepthFrom;
    LineHas(n, n);
    IdsDiffer(n, 0);
    if n == 0 {
      RootDepth(g, Id(0));
    } else {
      forall j: nat | j <= n - 1
        ensures Id(j) !in {Id(n)}
      {
        IdsDiffer(j, n);
      }
      LineDepth(g, n, n - 1, {Id(n)});
    }
  }

  lemma RootDepth(g: Parents, id: string)
    requires id != ROOT && (ROOT in g ==> g[ROOT] == "")
    ensures DepthFrom(g, ROOT, {id}) == if ROOT in g then 1 else 0
  {
    if ROOT in g {
      assert ROOT in g.Keys - {id};
    }
  }

  lemma {:induction false} SpawnAll(run: seq<Step>, n: nat, max: nat) returns (run': seq<Step>)
    requires OnLine(After(run, max), n) && n <= max
    ensures OnLine(After(run', max), max) && Creates(run, run')
    decreases max - n
  {
    hide OnLine, After;
    if n == max {
      run' := run;
    } else {
      var next := SpawnOne(run, n, max);
      run' := SpawnAll(next, n + 1, max);
    }
  }

  /** Reading every log back registers the root again, and the last of the line is over
      the cap. */
  lemma RebuiltOverCap(run: seq<Step>, max: nat) returns (run': seq<Step>)
    requires OnLine(After(run, max), max)
    ensures !Capped(After(run', max).agents, max)
    ensures run' == run + [Restart(After(run, max).logs.Keys)]
  {
    hide Id, DepthFrom, Line, After;
    var s := After(run, max);
    run' := run + [Restart(s.logs.Keys)];
    AfterOne(run, Restart(s.logs.Keys), max);
    assert Only(s.logs, s.logs.Keys) == s.logs;
    LineTop(s.logs, max);
  }

  const CHILD := Id(0)

  /** A child's create passes the cap under the root; the root is torn down with its
      agent.terminated refused; the child registers. */
  const LOST := [Check(ROOT, ""), Provision(ROOT, true), Register(ROOT), Check(CHILD, ROOT), Unregister(ROOT, false),
                 Provision(CHILD, true), Register(CHILD)]

  /** Root and child are registered; a rebuild reads the child's log only. */
  const UNREAD := [Check(ROOT, ""), Provision(ROOT, true), Register(ROOT), Check(CHILD, ROOT), Provision(CHILD, true),
                   Register(CHILD), Restart({CHILD})]

  lemma RootRegistered(max: nat)
    requires max >= 1
    ensures After(LOST[..4], max) ==
            State(map[ROOT := ""], map[ROOT := ""], map[CHILD := Create(ROOT, false)], {ROOT, CHILD})
    ensures UNREAD[..4] == LOST[..4]
  {
    hide After;
    IdsDiffer(0, 0);
    var none: seq<Step> := [];
    AfterNone(max);
    AfterOne(none, LOST[0], max);
    AfterOne(LOST[..1], LOST[1], max);
    AfterOne(LOST[..2], LOST[2], max);
    assert LOST[..1] == none + [LOST[0]] && LOST[..2] == LOST[..1] + [LOST[1]] && LOST[..3] == LOST[..2] + [LOST[2]];
    assert After(LOST[..3], max) == State(map[ROOT := ""], map[ROOT := ""], map[], {ROOT});
    AfterOne(LOST[..3], LOST[3], max);
    assert LOST[..4] == LOST[..3] + [LOST[3]];
  }

  lemma AfterNone(max: nat)
    ensures After([], max) == EMPTY
  {}

  lemma OnLineAtStart(s: State)
    requires s == State(map[CHILD := ROOT], map[ROOT := "", CHILD := ROOT], map[], {ROOT, CHILD})
    ensures OnLine(s, 0)
  {
    IdsDiffer(0, 0);
    assert Line(0)[ROOT := ""] == s.logs;
    forall m: nat | m > 0
      ensures Id(m) !in s.used
    {
      IdsDiffer(m, 0);
    }
  }

  lemma LostStart(max: nat)
    requires max >= 1
    ensures OnLine(After(LOST, max), 0)
  {
    hide After, Id, OnLine;
    IdsDiffer(0, 0);
    RootRegistered(max);
    AfterOne(LOST[..4], LOST[4], max);
    AfterOne(LOST[..5], LOST[5], max);
    AfterOne(LOST[..6], LOST[6], max);
    assert LOST[..5] == LOST[..4] + [LOST[4]] && LOST[..6] == LOST[..5] + [LOST[5]] && LOST == LOST[..6] + [LOST[6]];
    assert After(LOST[..5], max).agents == map[];
    OnLineAtStart(After(LOST, max));
  }

  lemma UnreadStart(max: nat)
    requires max >= 1
    ensures OnLine(After(UNREAD, max), 0)
  {
    hide After, Id, OnLine;
    IdsDiffer(0, 0);
    RootRegistered(max);
    AfterOne(UNREAD[..4], UNREAD[4], max);
    AfterOne(UNREAD[..5], UNREAD[5], max);
    AfterOne(UNREAD[..6], UNREAD[6], max);
    assert UNREAD[..5] == UNREAD[..4] + [UNREAD[4]] && UNREAD[..6] == UNREAD[..5] + [UNREAD[5]]
        && UNREAD == UNREAD[..6] + [UNREAD[6]];
    assert After(UNREAD[..6], max).logs == map[ROOT := "", CHILD := ROOT];
    assert Only(After(UNREAD[..6], max).logs, {CHILD}) == map[CHILD := ROOT];
    OnLineAtStart(After(UNREAD, max));
  }

  /** The run keeps to what is permitted: ends lost, logs unread. */
  ghost predicate Permitted(run: seq<Step>, max: nat, lostEnds: bool, unread: bool) {
    forall i :: 0 <= i < |run| ==>
      (Unrecorded(run[i]) ==> lostEnds) && (Partial(After(run[..i], max), run[i]) ==> unread)
  }

  lemma OverCap(start: seq<Step>, max: nat, lostEnds: bool, unread: bool) returns (run: seq<Step>)
    requires OnLine(After(start, max), 0) && Permitted(start, max, lostEnds, unread)
    ensures Permitted(run, max, lostEnds, unread) && !Capped(After(run, max).agents, max)
  {
    hide OnLine, After, Capped;
    var grown := SpawnAll(start, 0, max);
    run := RebuiltOverCap(grown, max);
    forall i | 0 <= i < |run|
      ensures (Unrecorded(run[i]) ==> lostEnds) && (Partial(After(run[..i], max), run[i]) ==> unread)
    {
      if i < |start| {
        assert run[i] == start[i] && run[..i] == start[..i];
      } else if i < |grown| {
        assert run[i] == grown[i];
      } else {
        assert run[..i] == grown;
      }
    }
  }

  /** The depth cap over every run, restarts included: it holds exactly when no agent can
      leave the registry with its log still open and every rebuild reads every log, or
      when the cap is zero. */
  lemma CapIff(max: nat, lostEnds: bool, unread: bool)
    ensures (forall run :: Permitted(run, max, lostEnds, unread) ==> Capped(After(run, max).agents, max)) <==>
            max == 0 || (!lostEnds && !unread)
  {
    hide Capped, After, OnLine;
    if max == 0 {
      forall run
        ensures Capped(After(run, max).agents, max)
      {
        ZeroIsRootsOnly(run);
      }
    } else if lostEnds {
      LostStart(max);
      assert Permitted(LOST, max, lostEnds, unread);
      var run := OverCap(LOST, max, lostEnds, unread);
    } else if unread {
      UnreadStart(max);
      assert Permitted(UNREAD, max, lostEnds, unread);
      var run := OverCap(UNREAD, max, lostEnds, unread);
    } else {
      forall run | Permitted(run, max, lostEnds, unread)
        ensures Capped(After(run, max).agents, max)
      {
        DepthStaysCapped(run, max);
      }
    }
  }
}
