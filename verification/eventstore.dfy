/** The durable event store (controller/eventstore.go): one bbolt bucket of
    events keyed by seq, and the origin watermark beside it. A transaction commits
    as a whole or not at all; `fault` is the environment's choice that it does not. */
module EventStore {
  import opened Wrappers
  import opened Events

  /** The committed contents: the bucket in key order, and the watermark. */
  datatype Store = Store(log: seq<Event>, watermark: nat)

  const EMPTY: Store := Store([], 0)

  /** A committed Append. */
  function WithEvent(st: Store, ev: Event): Store {
    st.(log := st.log + [ev])
  }

  /** A committed AppendWithOrigin: the event and the watermark together, the
      watermark never moving down. */
  function WithPulled(st: Store, ev: Event, spoolId: nat): Store {
    Store(st.log + [ev], if st.watermark > spoolId then st.watermark else spoolId)
  }

  /** The events with seq above the cursor, ascending. */
  function Replayed(log: seq<Event>, after: nat): seq<Event> {
    if after <= |log| then log[after..] else []
  }

  /** Exactly the logged events with a seq above the cursor, each at its place. */
  lemma ReplayedIs(log: seq<Event>, after: nat)
    requires GapFree(log)
    ensures var out := Replayed(log, after);
            && |out| == (if after < |log| then |log| - after else 0)
            && (forall i :: 0 <= i < |out| ==> out[i] == log[after + i])
            && (forall ev :: ev in out <==> ev in log && ev.seqNo > after)
  {
    var out := Replayed(log, after);
    forall ev | ev in log && ev.seqNo > after
      ensures ev in out
    {
      var i :| 0 <= i < |log| && log[i] == ev;
      assert out[i - after] == ev;
    }
  }

  ghost predicate KeysUpTo(bucket: map<nat, Event>, n: nat) {
    && (forall k :: k in bucket <==> 1 <= k <= n)
    && (forall k :: k in bucket ==> bucket[k].seqNo == k)
  }

  ghost function InOrder(bucket: map<nat, Event>, n: nat): seq<Event>
    requires KeysUpTo(bucket, n)
  {
    seq(n, i requires 0 <= i < n => bucket[i + 1])
  }

  class BoltEventStore {
    var bucket: map<nat, Event>
    var origin: nat
    ghost var count: nat

    ghost predicate Valid()
      reads this
    {
      KeysUpTo(bucket, count)
    }

    ghost function Value(): (st: Store)
      requires Valid()
      reads this
      ensures GapFree(st.log) && |st.log| == count && st.watermark == origin
    {
      Store(InOrder(bucket, count), origin)
    }

    constructor ()
      ensures Valid() && Value() == EMPTY
    {
      bucket, origin, count := map[], 0, 0;
    }

    /** The highest key, 0 for an empty bucket. */
    method Tail() returns (last: nat)
      requires Valid()
      ensures last == |Value().log|
    {
      last := 0;
      var keys := bucket.Keys;
      while keys != {}
        invariant keys <= bucket.Keys
        invariant last == 0 || last in bucket
        invariant forall k :: k in bucket && k !in keys ==> k <= last
        decreases |keys|
      {
        var k :| k in keys;
        keys := keys - {k};
        if k > last {
          last := k;
        }
      }
      assert count > 0 ==> count in bucket;
    }

    /** NextSeq and OriginWatermark: the stored tail and cursor, none when the read fails. */
    method NextSeq(fault: bool) returns (last: Option<nat>)
      requires Valid()
      ensures last == if fault then None else Some(|Value().log|)
    {
      if fault {
        return None;
      }
      var tail := Tail();
      return Some(tail);
    }

    method OriginWatermark(fault: bool) returns (mark: Option<nat>)
      requires Valid()
      ensures mark == if fault then None else Some(Value().watermark)
    {
      mark := if fault then None else Some(origin);
    }

    lemma PutExtends(b: map<nat, Event>, n: nat, ev: Event)
      requires KeysUpTo(b, n) && ev.seqNo == n + 1
      ensures KeysUpTo(b[n + 1 := ev], n + 1)
      ensures InOrder(b[n + 1 := ev], n + 1) == InOrder(b, n) + [ev]
    {}

    /** Append: refused unless the seq is exactly one above the stored tail. */
    method Append(ev: Event, fault: bool) returns (ok: bool)
      requires Valid()
      modifies this
      ensures Valid()
      ensures ok <==> !fault && ev.seqNo == |old(Value()).log| + 1
      ensures Value() == if ok then WithEvent(old(Value()), ev) else old(Value())
      ensures Value().log == old(Value()).log + (if ok then [ev] else []) && Value().watermark == old(Value()).watermark
    {
      var last := Tail();
      ok := !fault && ev.seqNo == last + 1;
      if ok {
        PutExtends(bucket, count, ev);
        bucket := bucket[ev.seqNo := ev];
        count := count + 1;
      }
    }

    /** AppendWithOrigin: the same append and the watermark in one transaction. */
    method AppendWithOrigin(ev: Event, spoolId: nat, fault: bool) returns (ok: bool)
      requires Valid()
      modifies this
      ensures Valid()
      ensures ok <==> !fault && ev.seqNo == |old(Value()).log| + 1
      ensures Value() == if ok then WithPulled(old(Value()), ev, spoolId) else old(Value())
      ensures Value().log == old(Value()).log + if ok then [ev] else []
      ensures Value().watermark == if ok && spoolId > old(Value()).watermark then spoolId else old(Value()).watermark
    {
      ok := Append(ev, fault);
      if ok && !(origin > spoolId) {
        origin := spoolId;
      }
    }

    /** Replay: every stored event with a key above the cursor, in key order, or none of
        them when the read fails. */
    method Replay(after: nat, fault: bool) returns (res: Option<seq<Event>>)
      requires Valid()
      ensures res == if fault then None else Some(Replayed(Value().log, after))
    {
      if fault {
        return None;
      }
      var out := [];
      var last := Tail();
      var k := 1;
      while k <= last
        invariant 1 <= k <= last + 1
        invariant out == Replayed(Value().log[..k - 1], after)
      {
        if k in bucket && k > after {
          out := out + [bucket[k]];
        }
        k := k + 1;
      }
      assert Value().log[..last] == Value().log;
      return Some(out);
    }
  }
}
