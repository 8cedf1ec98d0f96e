/** The death drain of the pull loop (controller/puller.go, drainSpool): pull and
    publish until a poll at the watermark comes back empty. */
module Puller {
  import opened Wrappers
  import opened Events
  import opened EventStore
  import opened EventHub
  import opened SpoolCodec
  import Spool

  /** The store and hub after every record of the batch was published in order. */
  function PublishAll(st: Store, h: Hub, batch: seq<Entry>, kindOf: string -> Kind): (Store, Hub) {
    if batch == [] then (st, h)
    else
      var last := batch[|batch| - 1];
      var (st1, h1) := PublishAll(st, h, batch[..|batch| - 1], kindOf);
      Pulled(st1, h1, kindOf(last.data), last.data, last.id)
  }

  /** How many records go through before the store first refuses one. */
  function Accepted(batch: seq<Entry>, refuses: nat -> bool): (n: nat)
    ensures n <= |batch|
    ensures forall i :: 0 <= i < n ==> !refuses(batch[i].id)
    ensures n < |batch| ==> refuses(batch[n].id)
  {
    if batch == [] || refuses(batch[0].id) then 0 else 1 + Accepted(batch[1..], refuses)
  }

  lemma {:induction false} AcceptedIs(batch: seq<Entry>, refuses: nat -> bool, n: nat)
    requires n <= |batch|
    requires forall i :: 0 <= i < n ==> !refuses(batch[i].id)
    requires n < |batch| ==> refuses(batch[n].id)
    ensures Accepted(batch, refuses) == n
  {}

  lemma {:induction false} PublishAllMoves(st: Store, h: Hub, batch: seq<Entry>, kindOf: string -> Kind)
    requires Synced(st, h)
    requires forall i :: 0 <= i < |batch| ==> batch[i].id == batch[0].id + i && batch[i].id > h.origin
    ensures var (st', h') := PublishAll(st, h, batch, kindOf);
            && h'.origin == (if batch == [] then h.origin else batch[|batch| - 1].id)
            && h'.closed == h.closed
            && |st'.log| == |st.log| + |batch| && st.log <= st'.log
            && forall i :: 0 <= i < |batch| ==> st'.log[|st.log| + i].data == batch[i].data
  {
    if batch != [] {
      PublishAllMoves(st, h, batch[..|batch| - 1], kindOf);
    }
  }

  /** drainSpool against a spool that is not growing and an open hub: it always
      terminates; it publishes the window's records above the watermark in spool
      order, stopping at the first one the store refuses; and it reports true
      exactly when none was refused, in which case nothing in the window is left
      above the watermark. */
  method DrainSpool(spool: Spool.Spool, hub: EventHub, kindOf: string -> Kind, refuses: nat -> bool)
      returns (drained: bool)
    requires Spool.Healthy(spool.Value()) && hub.Valid() && !hub.closed
    modifies hub, hub.store
    ensures hub.Valid() && spool.Value() == old(spool.Value())
    ensures var batch := Spool.After(spool.recs, old(hub.origin));
            var n := Accepted(batch, refuses);
            && hub.State() == PublishAll(old(hub.State()).0, old(hub.State()).1, batch[..n], kindOf)
            && (drained <==> n == |batch|)
            && (drained <==> Spool.After(spool.recs, hub.origin) == [])
  {
    hide Spool.Durable, Spool.FileOf, Spool.After, PublishAll, Accepted;
    var (st0, h0) := hub.State();
    ghost var batch := Spool.After(spool.recs, hub.origin);
    BatchShape(spool.Value(), hub.origin);
    AcceptedIs(batch, refuses, Accepted(batch, refuses));
    ghost var n := 0;
    EmptyPublish(st0, h0, kindOf);
    while true
      invariant hub.Valid() && !hub.closed && spool.Value() == old(spool.Value())
      invariant n == 0 || n == |batch|
      invariant hub.State() == PublishAll(st0, h0, batch[..n], kindOf)
      invariant forall i :: 0 <= i < n ==> !refuses(batch[i].id)
      invariant Spool.After(spool.recs, hub.origin) == batch[n..]
      decreases |batch| - n
    {
      var recs := spool.Read(hub.origin);
      if recs == [] {
        AcceptedIs(batch, refuses, |batch|);
        return true;
      }
      var i := 0;
      while i < |recs|
        invariant 0 <= i <= |recs| && recs == batch
        invariant hub.Valid() && !hub.closed && spool.Value() == old(spool.Value())
        invariant hub.State() == PublishAll(st0, h0, batch[..i], kindOf)
        invariant hub.origin == if i == 0 then h0.origin else batch[i - 1].id
        invariant forall j :: 0 <= j < i ==> !refuses(batch[j].id)
      {
        var res := hub.PublishPulled(kindOf(recs[i].data), recs[i].data, recs[i].id, refuses(recs[i].id));
        if res == None {
          AcceptedIs(batch, refuses, i);
          NotYetDrained(spool.Value(), h0.origin, hub.origin, i);
          return false;
        }
        OneMore(st0, h0, batch, i, kindOf);
        i := i + 1;
      }
      assert batch[..|batch|] == batch;
      n := |batch|;
      NothingLeft(spool.Value(), h0.origin, hub.origin);
    }
  }

  lemma EmptyPublish(st: Store, h: Hub, kindOf: string -> Kind)
    ensures PublishAll(st, h, [], kindOf) == (st, h)
  {}

  lemma OneMore(st: Store, h: Hub, batch: seq<Entry>, i: nat, kindOf: string -> Kind)
    requires i < |batch|
    ensures var (st1, h1) := PublishAll(st, h, batch[..i], kindOf);
            PublishAll(st, h, batch[..i + 1], kindOf) == Pulled(st1, h1, kindOf(batch[i].data), batch[i].data, batch[i].id)
  {
    assert batch[..i + 1][..i] == batch[..i];
  }

  lemma BatchShape(d: Spool.State, after: nat)
    requires Spool.Healthy(d)
    ensures var batch := Spool.After(d.recs, after);
            forall i :: 0 <= i < |batch| ==> batch[i].id == batch[0].id + i && batch[i].id > after
  {
    hide Spool.Durable, Spool.FileOf, Spool.After;
    var first := d.next - |d.recs|;
    assert Spool.Numbered(d.recs, first);
    Spool.AfterIsSuffix(d.recs, first, after);
  }

  lemma NothingLeft(d: Spool.State, after: nat, origin: nat)
    requires Spool.Healthy(d)
    requires var batch := Spool.After(d.recs, after); batch != [] && origin == batch[|batch| - 1].id
    ensures Spool.After(d.recs, origin) == []
  {
    hide Spool.Durable, Spool.FileOf, Spool.After;
    var first := d.next - |d.recs|;
    assert Spool.Numbered(d.recs, first);
    Spool.AfterIsSuffix(d.recs, first, after);
    Spool.AfterIsSuffix(d.recs, first, origin);
  }

  lemma NotYetDrained(d: Spool.State, after: nat, origin: nat, i: nat)
    requires Spool.Healthy(d)
    requires i < |Spool.After(d.recs, after)|
    requires origin == if i == 0 then after else Spool.After(d.recs, after)[i - 1].id
    ensures Spool.After(d.recs, origin) != []
  {
    hide Spool.Durable, Spool.FileOf, Spool.After;
    var first := d.next - |d.recs|;
    assert Spool.Numbered(d.recs, first);
    Spool.AfterIsSuffix(d.recs, first, after);
    Spool.AfterIsSuffix(d.recs, first, origin);
  }
}
