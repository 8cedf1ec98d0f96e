/** Cursor reads of the log (controller/events.go, ReadFiltered and
    filterEventsExcluding): bounded batches of matching events, polled repeatedly
    from the last returned seq while the log keeps growing. */
module Paging {
  import opened Events
  import opened EventStore

  datatype Filter = Filter(types: set<string>, exclude: set<string>)

  predicate Matches(f: Filter, ev: Event) {
    TypeName(ev.kind) !in f.exclude && (f.types == {} || TypeName(ev.kind) in f.types)
  }

  predicate Ascending(log: seq<Event>) {
    forall i, j :: 0 <= i < j < |log| ==> log[i].seqNo < log[j].seqNo
  }

  /** Every matching event after the cursor, with no bound. */
  function Select(log: seq<Event>, after: nat, f: Filter): seq<Event> {
    if log == [] then []
    else (if log[0].seqNo > after && Matches(f, log[0]) then [log[0]] else []) + Select(log[1..], after, f)
  }

  /** One batch: at most limit of them; a limit below one is no bound. */
  function Page(log: seq<Event>, after: nat, limit: int, f: Filter): seq<Event> {
    var all := Select(log, after, f);
    if 0 < limit < |all| then all[..limit] else all
  }

  lemma {:induction false} SelectConcat(a: seq<Event>, b: seq<Event>, after: nat, f: Filter)
    ensures Select(a + b, after, f) == Select(a, after, f) + Select(b, after, f)
  {
    if a == [] {
      assert a + b == b;
    } else {
      assert (a + b)[1..] == a[1..] + b;
      SelectConcat(a[1..], b, after, f);
    }
  }

  /** filterEventsExcluding: the accumulating loop, stopping at the limit. */
  method FilterEvents(buffer: seq<Event>, after: nat, limit: int, types: seq<string>, exclude: seq<string>)
      returns (out: seq<Event>)
    ensures out == Page(buffer, after, limit, Filter(set t | t in types, set t | t in exclude))
  {
    hide Matches;
    var f := Filter(set t | t in types, set t | t in exclude);
    out := [];
    var i := 0;
    while i < |buffer|
      invariant 0 <= i <= |buffer|
      invariant out == Select(buffer[..i], after, f)
      invariant limit > 0 ==> |out| < limit
    {
      var ev := buffer[i];
      assert buffer[..i + 1] == buffer[..i] + [ev];
      SelectConcat(buffer[..i], [ev], after, f);
      if ev.seqNo > after && Matches(f, ev) {
        out := out + [ev];
        if limit > 0 && |out| == limit {
          assert buffer == buffer[..i + 1] + buffer[i + 1..];
          SelectConcat(buffer[..i + 1], buffer[i + 1..], after, f);
          return;
        }
      }
      i := i + 1;
    }
    assert buffer[..i] == buffer;
  }

  /** A sequence of polls: what the log was at each and the limit asked for. */
  datatype Poll = Poll(log: seq<Event>, limit: int)

  ghost predicate Growing(polls: seq<Poll>) {
    && (forall i :: 0 <= i < |polls| ==> GapFree(polls[i].log))
    && (forall i :: 0 < i < |polls| ==> polls[i - 1].log <= polls[i].log)
  }

  function Cursor(after: nat, page: seq<Event>): nat {
    if page == [] then after else page[|page| - 1].seqNo
  }

  /** The concatenation of the pages, each poll starting after the last seq seen. */
  function Pages(polls: seq<Poll>, after: nat, f: Filter): seq<Event> {
    if polls == [] then []
    else
      var page := Page(polls[0].log, after, polls[0].limit, f);
      page + Pages(polls[1..], Cursor(after, page), f)
  }

  /** Where the reader stands after the polls. */
  function CursorAfter(polls: seq<Poll>, after: nat, f: Filter): nat {
    if polls == [] then after
    else CursorAfter(polls[1..], Cursor(after, Page(polls[0].log, after, polls[0].limit, f)), f)
  }

  predicate Taken(ev: Event, after: nat, f: Filter) {
    ev.seqNo > after && Matches(f, ev)
  }

  /** One step of the selection. */
  lemma SelectHead(log: seq<Event>, after: nat, f: Filter)
    requires log != []
    ensures var tail := Select(log[1..], after, f);
            Select(log, after, f) == if Taken(log[0], after, f) then [log[0]] + tail else tail
  {
    hide Matches;
  }

  lemma {:induction false} NothingBelow(log: seq<Event>, after: nat, after': nat, f: Filter)
    requires forall i :: 0 <= i < |log| ==> log[i].seqNo > after && log[i].seqNo > after'
    ensures Select(log, after, f) == Select(log, after', f)
  {
    hide Matches;
    if log != [] {
      hide Select;
      SelectHead(log, after, f);
      SelectHead(log, after', f);
      NothingBelow(log[1..], after, after', f);
    }
  }

  lemma SelectNone(after: nat, f: Filter)
    ensures Select([], after, f) == []
  {}

  /** What is selected is in the log and above the cursor. */
  lemma {:induction false} SelectedIs(log: seq<Event>, after: nat, f: Filter, j: nat)
    requires j < |Select(log, after, f)|
    ensures Select(log, after, f)[j] in log && Select(log, after, f)[j].seqNo > after
  {
    hide Select, Matches;
    if log == [] {
      SelectNone(after, f);
      assert false;
    } else {
      SelectHead(log, after, f);
      var rest := log[1..];
      assert forall ev :: ev in rest ==> ev in log;
      if !Taken(log[0], after, f) {
        SelectedIs(rest, after, f, j);
      } else if j > 0 {
        SelectedIs(rest, after, f, j - 1);
      }
    }
  }

  /** An event is selected exactly when it is in the log, above the cursor, its type is
      not excluded, and its type is among those asked for, or none were asked for. */
  lemma {:induction false} SelectedIff(log: seq<Event>, after: nat, f: Filter, ev: Event)
    ensures ev in Select(log, after, f) <==>
            && ev in log && ev.seqNo > after
            && TypeName(ev.kind) !in f.exclude && (f.types == {} || TypeName(ev.kind) in f.types)
  {
    hide Select, TypeName;
    if log == [] {
      SelectNone(after, f);
    } else {
      SelectHead(log, after, f);
      SelectedIff(log[1..], after, f, ev);
      assert log == [log[0]] + log[1..];
    }
  }

  /** A page holds only such events, no more of them than the limit, and all of them when
      there is no limit or the page falls short of it. */
  lemma PageIs(log: seq<Event>, after: nat, limit: int, f: Filter, ev: Event)
    ensures var page := Page(log, after, limit, f);
            var asked := && ev in log && ev.seqNo > after
                         && TypeName(ev.kind) !in f.exclude && (f.types == {} || TypeName(ev.kind) in f.types);
            && (ev in page ==> asked)
            && (limit > 0 ==> |page| <= limit)
            && (limit <= 0 || |page| < limit ==> (ev in page <==> asked))
  {
    hide Select, TypeName;
    SelectedIff(log, after, f, ev);
  }

  /** The selection keeps the order of the log. */
  lemma {:induction false} SelectAscends(log: seq<Event>, after: nat, f: Filter)
    requires Ascending(log)
    ensures Ascending(Select(log, after, f))
  {
    hide Select, Matches;
    if log == [] {
      SelectNone(after, f);
    } else {
      SelectHead(log, after, f);
      AscendingRest(log);
      SelectAscends(log[1..], after, f);
      var tail := Select(log[1..], after, f);
      forall j | 0 <= j < |tail|
        ensures tail[j].seqNo > log[0].seqNo
      {
        SelectedIs(log[1..], after, f, j);
      }
    }
  }

  lemma AscendingRest(log: seq<Event>)
    requires Ascending(log) && log != []
    ensures Ascending(log[1..]) && forall ev :: ev in log[1..] ==> ev.seqNo > log[0].seqNo
  {}

  /** A cursor at or above the head's seq skips the head. */
  lemma SkipHead(log: seq<Event>, cursor: nat, f: Filter)
    requires log != [] && log[0].seqNo <= cursor
    ensures Select(log, cursor, f) == Select(log[1..], cursor, f)
  {
    hide Select, Matches;
    SelectHead(log, cursor, f);
  }

  /** Resuming from the j-th selected event selects exactly the rest. */
  lemma {:induction false} ResumeSelect(log: seq<Event>, after: nat, f: Filter, j: nat)
    requires Ascending(log)
    requires 0 < j <= |Select(log, after, f)|
    ensures Select(log, Select(log, after, f)[j - 1].seqNo, f) == Select(log, after, f)[j..]
    ensures Select(log, after, f)[j - 1] in log && Select(log, after, f)[j - 1].seqNo > after
  {
    hide Select, Matches, Ascending;
    SelectedIs(log, after, f, j - 1);
    if log == [] {
      SelectNone(after, f);
      assert false;
    } else {
      AscendingRest(log);
      SelectHead(log, after, f);
      var rest, sel := log[1..], Select(log, after, f);
      var tail := Select(rest, after, f);
      if !Taken(log[0], after, f) {
        ResumeSelect(rest, after, f, j);
        SkipHead(log, sel[j - 1].seqNo, f);
      } else if j == 1 {
        SkipHead(log, log[0].seqNo, f);
        NothingBelow(rest, after, log[0].seqNo, f);
        assert sel[1..] == tail;
      } else {
        ResumeSelect(rest, after, f, j - 1);
        assert sel[j - 1] == tail[j - 2] && sel[j..] == tail[j - 1..];
        SkipHead(log, sel[j - 1].seqNo, f);
      }
    }
  }

  /** One page is a prefix of everything the grown log selects, and resuming from
      its last seq selects exactly what is left. */
  lemma OnePage(log: seq<Event>, later: seq<Event>, after: nat, limit: int, f: Filter)
    requires GapFree(later) && log <= later
    ensures var page := Page(log, after, limit, f);
            Select(later, after, f) == page + Select(later, Cursor(after, page), f)
  {
    hide Select, Matches;
    var page := Page(log, after, limit, f);
    var all := Select(later, after, f);
    assert later == log + later[|log|..];
    SelectConcat(log, later[|log|..], after, f);
    assert page <= all;
    if page != [] {
      ResumeSelect(later, after, f, |page|);
      assert page[|page| - 1] == all[|page| - 1];
    }
  }

  /** Reads page exactly: for every cursor, filter, limits and every growth of the
      log between polls, the pages concatenate to a prefix of the matching events
      of the final log, each event once and in order, and what the reader has not
      seen is exactly what its cursor still selects. */
  lemma {:induction false} PagesAreExact(polls: seq<Poll>, after: nat, f: Filter)
    requires polls != [] && Growing(polls)
    ensures var all := Select(polls[|polls| - 1].log, after, f);
            && Pages(polls, after, f) <= all
            && all == Pages(polls, after, f) + Select(polls[|polls| - 1].log, CursorAfter(polls, after, f), f)
  {
    hide Select, Matches, Page, Cursor, Growing;
    var last := polls[|polls| - 1].log;
    GrowingLast(polls);
    PrefixOfLast(polls, 0);
    var page := Page(polls[0].log, after, polls[0].limit, f);
    var c := Cursor(after, page);
    OnePage(polls[0].log, last, after, polls[0].limit, f);
    var rest := polls[1..];
    if rest == [] {
      assert Pages(polls, after, f) == page + [];
    } else {
      GrowingRest(polls);
      PagesAreExact(rest, c, f);
      hide Pages, CursorAfter;
      var pages, left := Pages(rest, c, f), Select(last, CursorAfter(rest, c, f), f);
      assert page + (pages + left) == (page + pages) + left;
    }
  }

  lemma GrowingLast(polls: seq<Poll>)
    requires polls != [] && Growing(polls)
    ensures GapFree(polls[|polls| - 1].log)
  {}

  lemma GrowingRest(polls: seq<Poll>)
    requires |polls| > 1 && Growing(polls)
    ensures Growing(polls[1..]) && polls[1..][|polls| - 2] == polls[|polls| - 1]
  {
    var rest := polls[1..];
    assert forall i :: 0 <= i < |rest| ==> rest[i] == polls[i + 1];
    assert forall i :: 0 < i < |rest| ==> rest[i - 1] == polls[i];
  }

  lemma {:induction false} PrefixOfLast(polls: seq<Poll>, i: nat)
    requires Growing(polls) && i < |polls|
    ensures polls[i].log <= polls[|polls| - 1].log
    decreases |polls| - i
  {
    if i < |polls| - 1 {
      PrefixOfLast(polls, i + 1);
      assert polls[i].log <= polls[i + 1].log;
    }
  }

  /** A last page that is not full ends the read: nothing matching is left. */
  lemma ShortPageIsTheEnd(log: seq<Event>, after: nat, limit: int, f: Filter)
    requires GapFree(log)
    requires limit < 1 || |Page(log, after, limit, f)| < limit
    ensures Select(log, Cursor(after, Page(log, after, limit, f)), f) == []
  {
    hide Matches;
    OnePage(log, log, after, limit, f);
  }
}
