/** The per-agent event hub (controller/events.go): the seq authority over the
    store, deduplication of pulled records on the origin watermark, and bounded
    live fan-out. Each body runs under the hub's mutex and is one step. */
module EventHub {
  import opened Wrappers
  import opened Events
  import opened EventStore

  const CHANNEL_CAP: nat := 256

  /** The hub's memory: lost in a controller crash. */
  datatype Hub = Hub(nextSeq: nat, origin: nat, closed: bool, subs: map<nat, seq<Event>>)

  /** A store and a hub that agree: the state between any two hub calls. */
  ghost predicate Synced(st: Store, h: Hub) {
    GapFree(st.log) && h.nextSeq == |st.log| && h.origin == st.watermark
  }

  /** NewEventHub: counter and cursor recovered from the store. */
  function Recovered(st: Store): Hub {
    Hub(|st.log|, st.watermark, false, map[])
  }

  function Offer(queue: seq<Event>, ev: Event): seq<Event> {
    if |queue| < CHANNEL_CAP then queue + [ev] else queue
  }

  /** A full channel is skipped, every other one gets the event. */
  function Fanout(subs: map<nat, seq<Event>>, ev: Event): map<nat, seq<Event>> {
    map id | id in subs :: Offer(subs[id], ev)
  }

  function NextEvent(h: Hub, kind: Kind, data: string): Event {
    Event(h.nextSeq + 1, kind, data)
  }

  /** Publish and PublishLifecycle that did not fail. */
  function Published(st: Store, h: Hub, kind: Kind, data: string): (Store, Hub) {
    var ev := NextEvent(h, kind, data);
    (WithEvent(st, ev), h.(nextSeq := h.nextSeq + 1, subs := Fanout(h.subs, ev)))
  }

  /** PublishPulled that did not fail and was not a duplicate. */
  function Pulled(st: Store, h: Hub, kind: Kind, data: string, spoolId: nat): (Store, Hub) {
    var ev := NextEvent(h, kind, data);
    (WithPulled(st, ev, spoolId),
     h.(nextSeq := h.nextSeq + 1, origin := spoolId, subs := Fanout(h.subs, ev)))
  }

  class EventHub {
    const store: BoltEventStore
    var nextSeq: nat
    var origin: nat
    var subscribers: map<nat, seq<Event>>
    var nextSub: nat
    var closed: bool

    ghost predicate Valid()
      reads this, store
    {
      && store.Valid() && Synced(store.Value(), Memory())
      && (forall id :: id in subscribers ==> id < nextSub)
    }

    ghost function Memory(): Hub
      reads this
    {
      Hub(nextSeq, origin, closed, subscribers)
    }

    ghost function State(): (Store, Hub)
      requires Valid()
      reads this, store
    {
      (store.Value(), Memory())
    }

    constructor (store: BoltEventStore, next: nat, origin: nat)
      requires store.Valid() && next == |store.Value().log| && origin == store.Value().watermark
      ensures Valid() && this.store == store && Memory() == Recovered(store.Value())
    {
      this.store := store;
      this.nextSeq, this.origin, this.closed := next, origin, false;
      this.subscribers, this.nextSub := map[], 0;
    }

    /** NewEventHub: no hub when either read fails, else one that agrees with the store. */
    static method Open(store: BoltEventStore, seqFault: bool, originFault: bool) returns (hub: Option<EventHub>)
      requires store.Valid()
      ensures hub.None? <==> seqFault || originFault
      ensures hub.Some? ==>
                && fresh(hub.value) && hub.value.Valid() && hub.value.store == store
                && hub.value.Memory() == Recovered(store.Value())
    {
      var next := store.NextSeq(seqFault);
      if next.None? {
        return None;
      }
      var origin := store.OriginWatermark(originFault);
      if origin.None? {
        return None;
      }
      var h := new EventHub(store, next.value, origin.value);
      return Some(h);
    }

    method Deliver(ev: Event)
      modifies this`subscribers
      ensures subscribers == Fanout(old(subscribers), ev)
      ensures subscribers.Keys == old(subscribers).Keys
      ensures forall id :: id in old(subscribers) ==>
                id in subscribers
                && subscribers[id] == if |old(subscribers)[id]| < 256 then old(subscribers)[id] + [ev]
                                      else old(subscribers)[id]
    {
      var pending := subscribers.Keys;
      while pending != {}
        invariant subscribers.Keys == old(subscribers).Keys && pending <= subscribers.Keys
        invariant forall id :: id in subscribers ==>
                    subscribers[id] == if id in pending then old(subscribers)[id] else Offer(old(subscribers)[id], ev)
        decreases |pending|
      {
        var id :| id in pending;
        pending := pending - {id};
        if |subscribers[id]| < CHANNEL_CAP {
          subscribers := subscribers[id := subscribers[id] + [ev]];
        }
      }
    }

    /** PublishPulled: Ok(0) when the hub is closed or the record is a re-pull, an
        error that changes nothing when the store refuses, else the new seq. */
    method PublishPulled(kind: Kind, raw: string, spoolId: nat, fault: bool) returns (res: Option<nat>)
      requires Valid()
      modifies this, store
      ensures Valid()
      ensures res == None <==> !old(closed) && spoolId > old(origin) && fault
      ensures State() == if old(closed) || spoolId <= old(origin) || fault then old(State())
                         else Pulled(old(State()).0, old(State()).1, kind, raw, spoolId)
      ensures res.Some? ==> res.value == if old(closed) || spoolId <= old(origin) then 0 else old(nextSeq) + 1
      ensures subscribers.Keys == old(subscribers).Keys
      ensures !old(closed) && spoolId > old(origin) && !fault ==>
                && nextSeq == old(nextSeq) + 1 && origin == spoolId
                && store.Value().log == old(store.Value()).log + [Event(old(nextSeq) + 1, kind, raw)]
      ensures !old(closed) && spoolId > old(origin) && !fault ==>
              forall id :: id in old(subscribers) ==>
                id in subscribers
                && subscribers[id] == if |old(subscribers)[id]| < 256
                                      then old(subscribers)[id] + [Event(old(nextSeq) + 1, kind, raw)]
                                      else old(subscribers)[id]
    {
      if closed || spoolId <= origin {
        return Some(0);
      }
      var ev := Event(nextSeq + 1, kind, raw);
      var ok := store.AppendWithOrigin(ev, spoolId, fault);
      if !ok {
        return None;
      }
      nextSeq := nextSeq + 1;
      origin := spoolId;
      Deliver(ev);
      return Some(ev.seqNo);
    }

    /** Publish and PublishLifecycle: 0 when closed or refused, else the new seq. */
    method Publish(kind: Kind, data: string, fault: bool) returns (res: nat)
      requires Valid()
      modifies this, store
      ensures Valid()
      ensures State() == if old(closed) || fault then old(State())
                         else Published(old(State()).0, old(State()).1, kind, data)
      ensures res == if old(closed) || fault then 0 else old(nextSeq) + 1
      ensures subscribers.Keys == old(subscribers).Keys
      ensures !old(closed) && !fault ==>
                && nextSeq == old(nextSeq) + 1 && origin == old(origin)
                && store.Value().log == old(store.Value()).log + [Event(old(nextSeq) + 1, kind, data)]
      ensures !old(closed) && !fault ==>
              forall id :: id in old(subscribers) ==>
                id in subscribers
                && subscribers[id] == if |old(subscribers)[id]| < 256
                                      then old(subscribers)[id] + [Event(old(nextSeq) + 1, kind, data)]
                                      else old(subscribers)[id]
    {
      if closed {
        return 0;
      }
      var ev := Event(nextSeq + 1, kind, data);
      var ok := store.Append(ev, fault);
      if !ok {
        return 0;
      }
      nextSeq := nextSeq + 1;
      Deliver(ev);
      return ev.seqNo;
    }

    /** Subscribe: the stored events after the cursor and an empty live channel,
        registered in the same step; nothing when the replay fails. */
    method Subscribe(after: nat, fault: bool) returns (res: Option<(seq<Event>, nat)>)
      requires Valid()
      modifies this
      ensures Valid() && store.Value() == old(store.Value())
      ensures res.None? <==> fault
      ensures res.None? ==> Memory() == old(Memory())
      ensures res.Some? ==>
                && res.value.0 == Replayed(store.Value().log, after) && res.value.1 !in old(subscribers)
                && Memory() == old(Memory()).(subs := old(subscribers)[res.value.1 := []])
    {
      var replay := store.Replay(after, fault);
      if replay.None? {
        return None;
      }
      var id := nextSub;
      nextSub := nextSub + 1;
      subscribers := subscribers[id := []];
      return Some((replay.value, id));
    }

    method Close()
      requires Valid()
      modifies this
      ensures Valid() && Memory() == old(Memory()).(closed := true)
    {
      closed := true;
    }
  }

  // ---- what every step keeps ----

  /** Every publish, refused or not, leaves store and hub agreeing; so does
      recovering a hub from any gap-free store. */
  lemma PublishKeepsSynced(st: Store, h: Hub, kind: Kind, data: string, spoolId: nat)
    requires Synced(st, h)
    ensures var (st1, h1) := Published(st, h, kind, data); Synced(st1, h1)
    ensures spoolId > h.origin ==> var (st2, h2) := Pulled(st, h, kind, data, spoolId); Synced(st2, h2)
    ensures Synced(st, Recovered(st))
  {}
}
