/** Cascade delete over the parent map (controller/agent.go, deleteCascade and
    deleteOne). A registry is a map from agent id to the id of its parent. */
module Cascade {
  import opened Wrappers
  import Lexicographic

  type Parents = map<string, string>

  // ---- what a teardown is, independent of how it is walked ----

  /** p is a chain of child links: every member but the first is a registered child of
      the one before it. */
  predicate Chain(g: Parents, p: seq<string>) {
    p != [] && forall i :: 0 < i < |p| ==> p[i] in g && g[p[i]] == p[i - 1]
  }

  ghost predicate Reaches(g: Parents, a: string, b: string) {
    exists p :: Chain(g, p) && p[0] == a && p[|p| - 1] == b
  }

  /** Children come before their parents, except where a child link leads back into the
      root of the walk. */
  predicate ChildrenFirst(g: Parents, root: string, t: seq<string>) {
    forall i, j :: 0 <= i < |t| && 0 <= j < |t| && t[i] != root && t[i] in g && g[t[i]] == t[j] ==> i < j
  }

  predicate Siblings(g: Parents, root: string, a: string, b: string) {
    a != root && b != root && a in g && b in g && g[a] == g[b]
  }

  /** Children of one parent go in ascending id order. */
  predicate SiblingsSorted(g: Parents, root: string, t: seq<string>) {
    forall i, j :: 0 <= i < j < |t| && Siblings(g, root, t[i], t[j]) ==> Lexicographic.Below(t[i], t[j])
  }

  /** deleteOne fails on an unregistered id and on a refused sandbox delete. */
  predicate Fails(g: Parents, down: set<string>, id: string) {
    id !in g || id in down
  }

  function FirstFailure(g: Parents, down: set<string>, t: seq<string>): Option<string> {
    if t == [] then None
    else if Fails(g, down, t[0]) then Some(t[0])
    else FirstFailure(g, down, t[1..])
  }

  lemma {:induction false} FirstFailureOfConcat(g: Parents, down: set<string>, s: seq<string>, t: seq<string>)
    ensures FirstFailure(g, down, s + t) ==
            if FirstFailure(g, down, s).Some? then FirstFailure(g, down, s) else FirstFailure(g, down, t)
  {
    if s == [] {
      assert s + t == t;
    } else {
      assert (s + t)[1..] == s[1..] + t;
      FirstFailureOfConcat(g, down, s[1..], t);
    }
  }

  lemma {:induction false} FailureIff(g: Parents, down: set<string>, t: seq<string>)
    ensures FirstFailure(g, down, t).Some? <==> exists x :: x in t && Fails(g, down, x)
  {
    if t != [] {
      FailureIff(g, down, t[1..]);
      assert t == [t[0]] + t[1..];
    }
  }

  // ---- invariants of the walk ----

  /** Ids already visited are linked up to the root through visited ids, and id is next. */
  predicate Linked(g: Parents, root: string, id: string, visited: set<string>) {
    && (if visited == {} then id == root else root in visited)
    && (forall v :: v in visited && v != root ==> v in g && g[v] in visited)
    && (id in visited || id == root || (id in g && g[id] in visited))
  }

  /** Every registered child of a newly visited id is visited. */
  predicate ClosedDown(g: Parents, visited: set<string>, seen: set<string>) {
    forall c :: c in g && g[c] in seen - visited ==> c in seen
  }

  /** Every newly visited id but those in tops was entered from a newly visited parent. */
  predicate ClosedUp(g: Parents, visited: set<string>, seen: set<string>, tops: set<string>) {
    forall x :: x in seen - visited ==> x in tops || (x in g && g[x] in seen - visited)
  }

  /** Every new id is one of id's walked children or was entered from another new id. */
  predicate EnteredFrom(g: Parents, id: string, kids: seq<string>, novel: set<string>) {
    forall x :: x in novel ==> x in g && ((g[x] == id && x in kids) || g[x] in novel)
  }

  predicate InOrder(g: Parents, root: string, t: seq<string>) {
    ChildrenFirst(g, root, t) && SiblingsSorted(g, root, t)
  }

  /** What the walk from id has done once it returns. */
  predicate Walked(g: Parents, root: string, id: string, visited: set<string>, seen: set<string>, t: seq<string>) {
    && visited <= seen && id in seen
    && multiset(t) == multiset(seen - visited)
    && ClosedDown(g, visited, seen)
    && ClosedUp(g, visited, seen, {id})
    && InOrder(g, root, t)
    && (id !in visited ==> t != [] && t[|t| - 1] == id)
  }

  /** The same part-way through id's children, kids being those already walked. */
  predicate Walking(g: Parents, root: string, id: string, visited: set<string>, kids: seq<string>,
                    seen: set<string>, t: seq<string>)
  {
    && visited + {id} <= seen
    && multiset(t) == multiset(seen - visited - {id})
    && (forall c :: c in kids ==> c in seen)
    && ClosedDown(g, visited + {id}, seen)
    && EnteredFrom(g, id, kids, seen - visited - {id})
    && InOrder(g, root, t)
  }

  predicate Above(kids: seq<string>, c: string) {
    forall k :: k in kids ==> Lexicographic.Below(k, c)
  }

  lemma Listed(kids: seq<string>, children: set<string>)
    requires Lexicographic.Lists(kids, children)
    ensures forall c :: c in kids <==> c in children
    ensures forall i :: 0 <= i < |kids| ==> Above(kids[..i], kids[i])
  {}

  lemma MembersOf(t: seq<string>, s: set<string>)
    requires multiset(t) == multiset(s)
    ensures forall x :: x in t <==> x in s
  {
    forall x
      ensures x in t <==> x in s
    {
      assert x in t <==> x in multiset(t);
    }
  }

  lemma StepInto(g: Parents, root: string, id: string, visited: set<string>, kids: seq<string>, seen: set<string>,
                 t: seq<string>, c: string)
    requires Linked(g, root, id, visited) && id !in visited
    requires Walking(g, root, id, visited, kids, seen, t)
    requires c in g && g[c] == id
    ensures Linked(g, root, c, seen)
  {
    assert id in seen;
  }

  /** One more child walked. */
  lemma StepOver(g: Parents, root: string, id: string, visited: set<string>, kids: seq<string>, seen: set<string>,
                 t: seq<string>, c: string, seen': set<string>, u: seq<string>)
    requires Walking(g, root, id, visited, kids, seen, t)
    requires c in g && g[c] == id
    requires Above(kids, c)
    requires Walked(g, root, c, seen, seen', u)
    ensures Walking(g, root, id, visited, kids + [c], seen', t + u)
  {
    hide ChildrenFirst, SiblingsSorted, ClosedDown, ClosedUp, EnteredFrom;
    var base := visited + {id};
    assert seen - visited - {id} == seen - base && seen' - visited - {id} == seen' - base;
    ConcatCounts(base, seen, seen', t, u);
    ConcatChildrenFirst(g, root, base, seen, t, seen', u);
    ConcatSiblings(g, root, id, base, kids, seen, t, c, seen', u);
    ConcatClosed(g, id, base, kids, seen, c, seen');
  }

  lemma ConcatCounts(base: set<string>, seen: set<string>, seen': set<string>, t: seq<string>, u: seq<string>)
    requires base <= seen <= seen'
    requires multiset(t) == multiset(seen - base) && multiset(u) == multiset(seen' - seen)
    ensures multiset(t + u) == multiset(seen' - base)
  {
    var a, b := seen - base, seen' - seen;
    assert seen' - base == a + b;
    assert multiset(a + b) == multiset(a) + multiset(b);
  }

  lemma ConcatClosed(g: Parents, id: string, base: set<string>, kids: seq<string>, seen: set<string>, c: string,
                     seen': set<string>)
    requires base <= seen <= seen' && c in g && g[c] == id
    requires ClosedDown(g, base, seen) && ClosedDown(g, seen, seen')
    requires EnteredFrom(g, id, kids, seen - base) && ClosedUp(g, seen, seen', {c})
    ensures ClosedDown(g, base, seen') && EnteredFrom(g, id, kids + [c], seen' - base)
  {
    var was, now := seen - base, seen' - base;
    assert was <= now;
    forall x | x in now
      ensures x in g && ((g[x] == id && x in kids + [c]) || g[x] in now)
    {
      if x in seen {
        assert x in was;
      } else {
        assert x in seen' - seen;
      }
    }
    forall x | x in g && g[x] in now
      ensures x in seen'
    {
      if g[x] in seen {
        assert g[x] in was;
      } else {
        assert g[x] in seen' - seen;
      }
    }
  }

  lemma ConcatChildrenFirst(g: Parents, root: string, base: set<string>, seen: set<string>, t: seq<string>,
                            seen': set<string>, u: seq<string>)
    requires ChildrenFirst(g, root, t) && ChildrenFirst(g, root, u)
    requires ClosedDown(g, base, seen)
    requires multiset(t) == multiset(seen - base) && multiset(u) == multiset(seen' - seen)
    ensures ChildrenFirst(g, root, t + u)
  {
    MembersOf(t, seen - base);
    MembersOf(u, seen' - seen);
    var w := t + u;
    assert forall k :: 0 <= k < |t| ==> w[k] == t[k] && w[k] in seen - base;
    assert forall k :: |t| <= k < |w| ==> w[k] == u[k - |t|] && w[k] in seen' - seen;
  }

  lemma ConcatSiblings(g: Parents, root: string, id: string, base: set<string>, kids: seq<string>, seen: set<string>,
                       t: seq<string>, c: string, seen': set<string>, u: seq<string>)
    requires base <= seen && id in base && c in g && g[c] == id
    requires SiblingsSorted(g, root, t) && SiblingsSorted(g, root, u)
    requires EnteredFrom(g, id, kids, seen - base) && ClosedUp(g, seen, seen', {c})
    requires Above(kids, c)
    requires multiset(t) == multiset(seen - base) && multiset(u) == multiset(seen' - seen)
    ensures SiblingsSorted(g, root, t + u)
  {
    MembersOf(t, seen - base);
    MembersOf(u, seen' - seen);
    var w := t + u;
    assert forall k :: 0 <= k < |t| ==> w[k] == t[k] && w[k] in seen - base;
    assert forall k :: |t| <= k < |w| ==> w[k] == u[k - |t|] && w[k] in seen' - seen;
  }

  /** The children done, the agent itself goes last. */
  lemma StepOut(g: Parents, root: string, id: string, visited: set<string>, kids: seq<string>, seen: set<string>,
                t: seq<string>)
    requires Linked(g, root, id, visited) && id !in visited
    requires Walking(g, root, id, visited, kids, seen, t)
    requires forall c :: c in g && g[c] == id ==> c in visited || c in kids
    ensures Walked(g, root, id, visited, seen, t + [id])
  {
    hide ChildrenFirst, SiblingsSorted, ClosedDown, ClosedUp, EnteredFrom;
    var base := visited + {id};
    assert seen - visited - {id} == seen - base;
    LastCounts(id, visited, seen, t);
    LastChildrenFirst(g, root, id, visited, seen, t);
    LastSiblings(g, root, id, visited, kids, seen, t);
    LastClosed(g, id, visited, kids, seen);
  }

  lemma LastCounts(id: string, visited: set<string>, seen: set<string>, t: seq<string>)
    requires visited + {id} <= seen && id !in visited
    requires multiset(t) == multiset(seen - (visited + {id}))
    ensures multiset(t + [id]) == multiset(seen - visited)
  {
    var novel := seen - (visited + {id});
    assert seen - visited == novel + {id};
    assert multiset(novel + {id}) == multiset(novel) + multiset{id};
  }

  lemma LastChildrenFirst(g: Parents, root: string, id: string, visited: set<string>, seen: set<string>, t: seq<string>)
    requires Linked(g, root, id, visited) && id !in visited
    requires ChildrenFirst(g, root, t) && multiset(t) == multiset(seen - (visited + {id}))
    ensures ChildrenFirst(g, root, t + [id])
  {
    var novel := seen - (visited + {id});
    MembersOf(t, novel);
    var w := t + [id];
    assert forall k :: 0 <= k < |t| ==> w[k] == t[k] && w[k] in novel;
  }

  lemma LastSiblings(g: Parents, root: string, id: string, visited: set<string>, kids: seq<string>, seen: set<string>,
                     t: seq<string>)
    requires Linked(g, root, id, visited) && id !in visited
    requires SiblingsSorted(g, root, t) && multiset(t) == multiset(seen - (visited + {id}))
    requires EnteredFrom(g, id, kids, seen - (visited + {id}))
    ensures SiblingsSorted(g, root, t + [id])
  {
    var novel := seen - (visited + {id});
    MembersOf(t, novel);
    var w := t + [id];
    assert forall k :: 0 <= k < |t| ==> w[k] == t[k] && w[k] in novel;
  }

  lemma LastClosed(g: Parents, id: string, visited: set<string>, kids: seq<string>, seen: set<string>)
    requires visited + {id} <= seen && id !in visited
    requires forall c :: c in kids ==> c in seen
    requires forall c :: c in g && g[c] == id ==> c in visited || c in kids
    requires ClosedDown(g, visited + {id}, seen) && EnteredFrom(g, id, kids, seen - (visited + {id}))
    ensures ClosedDown(g, visited, seen) && ClosedUp(g, visited, seen, {id})
  {
    var novel := seen - (visited + {id});
    assert seen - visited == novel + {id};
  }

  // ---- the manager ----

  /** The registry is what is left of g, and whatever left it has been visited. */
  predicate Within(agents: Parents, g: Parents, visited: set<string>) {
    && agents.Keys <= g.Keys
    && (forall a :: a in agents ==> agents[a] == g[a])
    && g.Keys - agents.Keys <= visited
  }

  lemma ChildrenOf(agents: Parents, g: Parents, visited: set<string>, id: string, children: set<string>)
    requires Within(agents, g, visited) && children == set a | a in agents && agents[a] == id
    ensures forall c :: c in children ==> c in g && g[c] == id
    ensures forall c :: c in g && g[c] == id ==> c in visited || c in children
  {}

  /** The termination measure: the registered ids not yet visited. */
  lemma Shrunk(was: Parents, agents: Parents, g: Parents, visited: set<string>, id: string, seen: set<string>)
    requires Within(was, g, visited) && visited + {id} <= seen && id !in visited
    requires agents == was - (seen - (visited + {id}))
    ensures Within(agents, g, seen)
    ensures agents.Keys - seen <= was.Keys - visited
    ensures id in was ==> agents.Keys - seen < was.Keys - visited
    ensures id in agents <==> id in g
  {
    assert id in was ==> id in was.Keys - visited && id !in agents.Keys - seen;
  }

  lemma ShrunkAgain(was: Parents, base: set<string>, seen: set<string>, seen': set<string>)
    requires base <= seen <= seen'
    ensures was - (seen - base) - (seen' - seen) == was - (seen' - base)
  {}

  lemma ShrunkLast(was: Parents, visited: set<string>, id: string, seen: set<string>)
    requires visited + {id} <= seen && id !in visited
    ensures was - (seen - (visited + {id})) - {id} == was - (seen - visited)
  {}

  class AgentManager {
    var agents: Parents
    /** Every deleteOne call, in order. */
    var deletes: seq<string>

    /** The single-agent teardown: unregister, then delete the sandbox. */
    method DeleteOne(id: string, down: set<string>) returns (err: Option<string>)
      modifies this
      ensures agents == old(agents) - {id}
      ensures deletes == old(deletes) + [id]
      ensures err == if id !in old(agents) || id in down then Some(id) else None
    {
      deletes := deletes + [id];
      if id !in agents {
        return Some(id);
      }
      agents := agents - {id};
      err := if id in down then Some(id) else None;
    }

    /** down holds the ids whose sandbox delete the gateway refuses. g is the registry
        the whole delete started from and root its first argument. */
    method DeleteCascade(id: string, visited: set<string>, down: set<string>, ghost g: Parents, ghost root: string)
      returns (err: Option<string>, seen: set<string>, ghost t: seq<string>)
      requires Linked(g, root, id, visited)
      requires Within(agents, g, visited)
      modifies this
      ensures deletes == old(deletes) + t
      ensures Walked(g, root, id, visited, seen, t)
      ensures agents == old(agents) - (seen - visited)
      ensures err == FirstFailure(g, down, t)
      decreases agents.Keys - visited, if id in agents || id in visited then 0 else 1
    {
      hide *;
      err, t := None, [];
      if id in visited {
        Skipped(g, root, id, visited, down);
        return None, visited, [];
      }
      seen := visited + {id};
      var children := set a | a in agents && agents[a] == id;
      var kids := Lexicographic.SortKeys(children);
      Listed(kids, children);
      ChildrenOf(agents, g, visited, id, children);
      Entered(g, root, id, visited, down);
      var i := 0;
      while i < |kids|
        invariant 0 <= i <= |kids|
        invariant deletes == old(deletes) + t
        invariant Walking(g, root, id, visited, kids[..i], seen, t)
        invariant visited + {id} <= seen
        invariant agents == old(agents) - (seen - (visited + {id}))
        invariant err == FirstFailure(g, down, t)
      {
        var c := kids[i];
        assert c in children && Above(kids[..i], c);
        StepInto(g, root, id, visited, kids[..i], seen, t, c);
        ghost var seen0 := seen;
        Shrunk(old(agents), agents, g, visited, id, seen);
        var e;
        ghost var u;
        e, seen, u := DeleteCascade(c, seen, down, g, root);
        WalkedGrows(g, root, c, seen0, seen, u);
        ShrunkAgain(old(agents), visited + {id}, seen0, seen);
        StepOver(g, root, id, visited, kids[..i], seen0, t, c, seen, u);
        FirstFailureOfConcat(g, down, t, u);
        if e.Some? && err.None? {
          err := e;
        }
        assert kids[..i + 1] == kids[..i] + [c];
        t := t + u;
        i := i + 1;
      }
      assert kids[..i] == kids;
      StepOut(g, root, id, visited, kids, seen, t);
      Shrunk(old(agents), agents, g, visited, id, seen);
      ShrunkLast(old(agents), visited, id, seen);
      var e := DeleteOne(id, down);
      FirstFailureOfConcat(g, down, t, [id]);
      OneFailure(g, down, id);
      if e.Some? && err.None? {
        err := e;
      }
      t := t + [id];
    }

    /** Exactly the agents reachable through child links are unregistered, each by one
        deleteOne, and the error is that of the first deleteOne to fail. */
    method Delete(id: string, down: set<string>) returns (err: Option<string>)
      modifies this
      ensures old(deletes) <= deletes
      ensures forall a :: a in agents <==> a in old(agents) && !Reaches(old(agents), id, a)
      ensures forall a :: a in agents ==> agents[a] == old(agents)[a]
      ensures Teardown(old(agents), id, deletes[|old(deletes)|..])
      ensures err == FirstFailure(old(agents), down, deletes[|old(deletes)|..])
    {
      ghost var g := agents;
      var seen;
      ghost var t;
      err, seen, t := DeleteCascade(id, {}, down, g, id);
      assert deletes[|old(deletes)|..] == t;
      WalkIsTeardown(g, id, seen, t);
    }
  }

  /** A whole cascade: each reachable id once, children first, siblings in id order. */
  ghost predicate Teardown(g: Parents, root: string, t: seq<string>) {
    && t != [] && t[|t| - 1] == root
    && (forall a :: multiset(t)[a] == if Reaches(g, root, a) then 1 else 0)
    && ChildrenFirst(g, root, t)
    && SiblingsSorted(g, root, t)
  }

  lemma {:induction false} ChainStaysSeen(g: Parents, seen: set<string>, p: seq<string>, k: nat)
    requires Chain(g, p) && k < |p| && p[0] in seen && ClosedDown(g, {}, seen)
    ensures p[k] in seen
  {
    if k > 0 {
      ChainStaysSeen(g, seen, p, k - 1);
      assert seen - {} == seen;
    }
  }

  lemma ChainOfOne(g: Parents, x: string)
    ensures Reaches(g, x, x)
  {
    assert Chain(g, [x]);
  }

  lemma ChainOn(g: Parents, root: string, x: string)
    requires x in g && Reaches(g, root, g[x])
    ensures Reaches(g, root, x)
  {
    var p :| Chain(g, p) && p[0] == root && p[|p| - 1] == g[x];
    var q := p + [x];
    assert Chain(g, q) && q[0] == root && q[|q| - 1] == x;
  }

  lemma {:induction false} DeletedIsReached(g: Parents, root: string, seen: set<string>, t: seq<string>, k: nat)
    requires (forall x :: x in t <==> x in seen) && ClosedUp(g, {}, seen, {root}) && ChildrenFirst(g, root, t)
    requires k < |t|
    ensures Reaches(g, root, t[k])
    decreases |t| - k
  {
    hide Reaches;
    var x := t[k];
    if x == root {
      ChainOfOne(g, x);
    } else {
      assert x in seen - {};
      assert g[x] in t;
      var j :| 0 <= j < |t| && t[j] == g[x];
      DeletedIsReached(g, root, seen, t, j);
      ChainOn(g, root, x);
    }
  }

  lemma WalkIsTeardown(g: Parents, root: string, seen: set<string>, t: seq<string>)
    requires Walked(g, root, root, {}, seen, t)
    ensures Teardown(g, root, t)
    ensures forall a :: a in seen <==> Reaches(g, root, a)
  {
    assert seen - {} == seen;
    MembersOf(t, seen);
    forall a
      ensures a in seen <==> Reaches(g, root, a)
    {
      if Reaches(g, root, a) {
        var p :| Chain(g, p) && p[0] == root && p[|p| - 1] == a;
        ChainStaysSeen(g, seen, p, |p| - 1);
      }
      if a in seen {
        var k :| 0 <= k < |t| && t[k] == a;
        DeletedIsReached(g, root, seen, t, k);
      }
    }
  }

  /** A cascade fails exactly when the root is not registered or the gateway refuses some
      reachable agent's sandbox. */
  lemma ErrorIff(g: Parents, root: string, t: seq<string>, down: set<string>)
    requires Teardown(g, root, t)
    ensures FirstFailure(g, down, t).Some? <==> root !in g || exists a :: a in g && a in down && Reaches(g, root, a)
  {
    FailureIff(g, down, t);
    forall a
      ensures a in t <==> Reaches(g, root, a)
    {
      assert a in t <==> a in multiset(t);
    }
    assert root in t;
    forall a | a in t && a != root
      ensures a in g
    {
      var p :| Chain(g, p) && p[0] == root && p[|p| - 1] == a;
    }
  }

  /** Every child is torn down before its parent, the root's own link included, exactly
      when the root is not its own descendant. */
  lemma BottomUpIff(g: Parents, root: string, t: seq<string>)
    requires Teardown(g, root, t)
    ensures (forall i, j :: 0 <= i < |t| && 0 <= j < |t| && t[i] in g && g[t[i]] == t[j] ==> i < j) <==>
            !(root in g && Reaches(g, root, g[root]))
  {
    forall a
      ensures a in t <==> Reaches(g, root, a)
    {
      assert a in t <==> a in multiset(t);
    }
    if root in g && Reaches(g, root, g[root]) {
      var j :| 0 <= j < |t| && t[j] == g[root];
      assert t[|t| - 1] in g && g[t[|t| - 1]] == t[j];
    }
  }

  lemma WalkedGrows(g: Parents, root: string, id: string, visited: set<string>, seen: set<string>, t: seq<string>)
    requires Walked(g, root, id, visited, seen, t)
    ensures visited <= seen
  {}

  lemma Skipped(g: Parents, root: string, id: string, visited: set<string>, down: set<string>)
    requires id in visited
    ensures Walked(g, root, id, visited, visited, []) && FirstFailure(g, down, []) == None
  {
    assert visited - visited == {};
  }

  lemma Entered(g: Parents, root: string, id: string, visited: set<string>, down: set<string>)
    ensures Walking(g, root, id, visited, [], visited + {id}, []) && FirstFailure(g, down, []) == None
  {
    assert visited + {id} - visited - {id} == {};
  }

  lemma OneFailure(g: Parents, down: set<string>, id: string)
    ensures FirstFailure(g, down, [id]) == if id !in g || id in down then Some(id) else None
  {
    assert [id][1..] == [];
  }
}
