/** The daemon's record spool (daemon/spool.go): an append-only JSONL file with
    torn-tail recovery and a capped in-memory window over its newest records. */
module Spool {
  import opened Wrappers
  import opened SpoolCodec

  const NOTICE: string := "{\"type\":\"spool_truncated\"}"

  // ---- the file ----

  function Line(e: Entry): string {
    Encode(e) + "\n"
  }

  function FileOf(es: seq<Entry>): string {
    if es == [] then "" else Line(es[0]) + FileOf(es[1..])
  }

  function IndexOfNewline(s: string): (i: nat)
    ensures i <= |s| && '\n' !in s[..i]
    ensures i < |s| ==> s[i] == '\n'
  {
    if s == [] || s[0] == '\n' then 0 else 1 + IndexOfNewline(s[1..])
  }

  /** What a whole scan of the file finds: the records of the terminated lines
      and how many characters those lines span. */
  datatype Parsed = Parsed(recs: seq<Entry>, complete: nat) | Corrupt

  function Parse(s: string): (r: Parsed)
    ensures r.Parsed? ==> r.complete <= |s|
    decreases |s|
  {
    var i := IndexOfNewline(s);
    if i == |s| then Parsed([], 0)
    else if i == 0 then Prefixed([], 1, Parse(s[1..]))
    else
      match Decode(s[..i])
      case None => Corrupt
      case Some(e) => Prefixed([e], i + 1, Parse(s[i + 1..]))
  }

  function Prefixed(recs: seq<Entry>, complete: nat, p: Parsed): Parsed {
    match p
    case Corrupt => Corrupt
    case Parsed(more, k) => Parsed(recs + more, complete + k)
  }

  /** The records that survive a crash which leaves this file behind. */
  function Durable(file: string): seq<Entry> {
    match Parse(file) case Parsed(recs, _) => recs case Corrupt => []
  }

  /** The id after the highest one in recs, starting from next. */
  function NextFrom(next: nat, recs: seq<Entry>): nat
    decreases |recs|
  {
    if recs == [] then next
    else NextFrom(if recs[0].id >= next then recs[0].id + 1 else next, recs[1..])
  }

  // ---- the live spool as a value ----

  datatype State = State(file: string, next: nat, recs: seq<Entry>)

  function Put(st: State, e: Entry): State {
    State(st.file + Line(e), e.id + 1, st.recs + [e])
  }

  predicate Overflows(cap: nat, st: State) {
    |st.recs| + 1 > cap
  }

  /** The state after Append(data) under the record cap. */
  function Appended(cap: nat, st: State, data: string): State {
    var st1 := Put(st, Entry(st.next, data));
    if Overflows(cap, st)
    then Put(st1.(recs := st1.recs[|st1.recs| - cap..]), Entry(st1.next, NOTICE))
    else st1
  }

  /** The records Append(data) writes: the record, then the truncation notice. */
  function Writes(cap: nat, st: State, data: string): seq<Entry> {
    [Entry(st.next, data)] + if Overflows(cap, st) then [Entry(st.next + 1, NOTICE)] else []
  }

  /** The records with an id above the cursor. */
  function After(recs: seq<Entry>, after: nat): seq<Entry> {
    if recs == [] then []
    else (if recs[0].id > after then [recs[0]] else []) + After(recs[1..], after)
  }

  predicate Numbered(es: seq<Entry>, first: nat) {
    forall i :: 0 <= i < |es| ==> es[i].id == first + i
  }

  /** The spool serves a suffix of a file that holds ids 1..n, each once. */
  ghost predicate Healthy(st: State) {
    var es := Durable(st.file);
    && Numbered(es, 1)
    && st.file == FileOf(es)
    && st.next == |es| + 1
    && |st.recs| <= |es|
    && st.recs == es[|es| - |st.recs|..]
  }

  // ---- recovery ----

  lemma {:induction false} PrefixedTwice(a: seq<Entry>, j: nat, b: seq<Entry>, k: nat, p: Parsed)
    ensures Prefixed(a, j, Prefixed(b, k, p)) == Prefixed(a + b, j + k, p)
  {
    if p.Parsed? {
      assert a + (b + p.recs) == (a + b) + p.recs;
    }
  }

  lemma {:induction false} NextFromConcat(next: nat, recs: seq<Entry>, e: Entry)
    ensures NextFrom(next, recs + [e]) == (var n := NextFrom(next, recs); if e.id >= n then e.id + 1 else n)
    decreases |recs|
  {
    if recs == [] {
      assert [e] == recs + [e] && [e][1..] == [];
    } else {
      assert (recs + [e])[1..] == recs[1..] + [e];
      NextFromConcat(if recs[0].id >= next then recs[0].id + 1 else next, recs[1..], e);
    }
  }

  lemma ParseUnfolds(s: string)
    ensures var i := IndexOfNewline(s);
            Parse(s) == if i == |s| then Parsed([], 0)
                        else if i == 0 then Prefixed([], 1, Parse(s[1..]))
                        else match Decode(s[..i])
                             case None => Corrupt
                             case Some(e) => Prefixed([e], i + 1, Parse(s[i + 1..]))
  {
    hide Encode, Decode;
  }

  /** The spool a scan of the file opens; None when a terminated line is malformed. */
  function Reopened(file: string): Option<State> {
    match Parse(file)
    case Corrupt => None
    case Parsed(recs, k) => Some(State(file[..k], NextFrom(1, recs), recs))
  }

  /** NewSpool's scan: a torn final line is cut off, a malformed terminated line
      is an error, and next ends up above every id found. */
  method Recover(file: string) returns (r: Option<State>)
    ensures r == Reopened(file)
  {
    hide Encode, Decode, Parse, IndexOfNewline;
    var recs: seq<Entry>, next: nat, complete: nat := [], 1, 0;
    assert file[0..] == file;
    while true
      invariant complete <= |file|
      invariant next == NextFrom(1, recs)
      invariant Parse(file) == Prefixed(recs, complete, Parse(file[complete..]))
      decreases |file| - complete
    {
      var rest := file[complete..];
      var i := IndexOfNewline(rest);
      ParseUnfolds(rest);
      if i == |rest| {
        assert recs + [] == recs;
        return Some(State(file[..complete], next, recs));
      }
      assert rest[i + 1..] == file[complete + i + 1..];
      if i == 0 {
        PrefixedTwice(recs, complete, [], 1, Parse(rest[1..]));
        assert recs + [] == recs;
        complete := complete + 1;
        continue;
      }
      match Decode(rest[..i]) {
        case None =>
          return None;
        case Some(e) =>
          PrefixedTwice(recs, complete, [e], i + 1, Parse(rest[i + 1..]));
          NextFromConcat(1, recs, e);
          recs := recs + [e];
          complete := complete + i + 1;
          if e.id >= next {
            next := e.id + 1;
          }
      }
    }
  }

  lemma {:induction false} IndexOfNewlineIn(a: string, b: string)
    requires '\n' !in a
    requires b == "" || b[0] == '\n'
    ensures IndexOfNewline(a + b) == |a|
  {
    if a == [] {
      assert a + b == b;
    } else {
      assert (a + b)[1..] == a[1..] + b;
      IndexOfNewlineIn(a[1..], b);
    }
  }

  /** The scan of a line that the encoder wrote takes the entry and goes on. */
  lemma ParseOfLine(e: Entry, tail: string)
    ensures Parse(Line(e) + tail) == Prefixed([e], |Line(e)|, Parse(tail))
  {
    hide Encode, Decode, Parse, IndexOfNewline;
    var line := Encode(e);
    var s := Line(e) + tail;
    EncodeHasNoNewline(e);
    DecodeOfEncode(e);
    assert s == line + ("\n" + tail);
    IndexOfNewlineIn(line, "\n" + tail);
    assert s[..|line|] == line && s[|line| + 1..] == tail;
    ParseUnfolds(s);
  }

  /** Recovery round trip: whatever the records and whatever newline-free
      fragment a crash left behind them, the scan returns exactly the records and
      keeps exactly their characters. */
  lemma {:induction false} ParseOfFile(es: seq<Entry>, torn: string)
    requires '\n' !in torn
    ensures Parse(FileOf(es) + torn) == Parsed(es, |FileOf(es)|)
  {
    hide Line, Parse, IndexOfNewline;
    if es == [] {
      IndexOfNewlineIn(torn, "");
      assert FileOf(es) + torn == torn && torn + "" == torn;
      ParseUnfolds(torn);
    } else {
      var tail := FileOf(es[1..]) + torn;
      assert FileOf(es) + torn == Line(es[0]) + tail;
      ParseOfLine(es[0], tail);
      ParseOfFile(es[1..], torn);
      assert [es[0]] + es[1..] == es;
    }
  }

  /** A malformed line that a newline ends, whatever precedes and follows it, is no torn
      tail: the spool does not open. */
  lemma {:induction false} MalformedLineFails(es: seq<Entry>, line: string, rest: string)
    requires line != "" && '\n' !in line && Decode(line).None?
    ensures Parse(FileOf(es) + line + "\n" + rest) == Corrupt
    ensures Reopened(FileOf(es) + line + "\n" + rest) == None
  {
    hide Line, Parse, IndexOfNewline, Decode;
    if es == [] {
      var s := line + ("\n" + rest);
      assert FileOf(es) + line + "\n" + rest == s;
      IndexOfNewlineIn(line, "\n" + rest);
      assert s[..|line|] == line;
      ParseUnfolds(s);
    } else {
      var tail := FileOf(es[1..]) + line + "\n" + rest;
      assert FileOf(es) + line + "\n" + rest == Line(es[0]) + tail;
      ParseOfLine(es[0], tail);
      MalformedLineFails(es[1..], line, rest);
    }
  }

  lemma DurableOfFile(es: seq<Entry>, torn: string)
    requires '\n' !in torn
    ensures Durable(FileOf(es) + torn) == es && Durable(FileOf(es)) == es
  {
    hide Encode, Decode;
    ParseOfFile(es, torn);
    ParseOfFile(es, "");
    assert FileOf(es) + "" == FileOf(es);
  }

  lemma {:induction false} FileOfConcat(a: seq<Entry>, b: seq<Entry>)
    ensures FileOf(a + b) == FileOf(a) + FileOf(b)
  {
    hide Encode, Decode;
    if a == [] {
      assert a + b == b;
    } else {
      assert (a + b)[1..] == a[1..] + b;
      FileOfConcat(a[1..], b);
    }
  }

  lemma {:induction false} NextOfNumbered(next: nat, es: seq<Entry>)
    requires Numbered(es, next)
    ensures NextFrom(next, es) == next + |es|
    decreases |es|
  {
    if es != [] {
      assert es[0].id == next;
      assert Numbered(es[1..], next + 1) by {
        forall i | 0 <= i < |es[1..]| ensures es[1..][i].id == next + 1 + i { assert es[1..][i] == es[i + 1]; }
      }
      NextOfNumbered(next + 1, es[1..]);
    }
  }

  /** Recovery of a well-numbered file with a torn tail gives a healthy spool over
      exactly the durable records, with the torn tail cut off and the next id one
      above the highest; the whole file is served again, cap or no cap. */
  lemma ReopenedIsHealthy(es: seq<Entry>, torn: string)
    requires '\n' !in torn && Numbered(es, 1)
    ensures Reopened(FileOf(es) + torn) == Some(State(FileOf(es), |es| + 1, es))
    ensures Durable(FileOf(es) + torn) == es && Durable(FileOf(es)) == es
    ensures Healthy(State(FileOf(es), |es| + 1, es))
  {
    hide Encode, Decode, Parse, FileOf;
    ParseOfFile(es, torn);
    DurableOfFile(es, torn);
    NextOfNumbered(1, es);
    assert (FileOf(es) + torn)[..|FileOf(es)|] == FileOf(es);
    assert es == es[|es| - |es|..];
  }

  // ---- appending ----

  lemma FileOfOne(e: Entry)
    ensures FileOf([e]) == Line(e)
  {
    assert [e][1..] == [];
    assert FileOf([e]) == Line(e) + "";
  }

  lemma WritesFile(cap: nat, st: State, data: string)
    ensures Appended(cap, st, data).file == st.file + FileOf(Writes(cap, st, data))
  {
    hide Encode, Decode;
    var e, n := Entry(st.next, data), Entry(st.next + 1, NOTICE);
    FileOfOne(e);
    FileOfOne(n);
    if Overflows(cap, st) {
      FileOfConcat([e], [n]);
      assert [e] + [n] == Writes(cap, st, data);
      assert (st.file + Line(e)) + Line(n) == st.file + (Line(e) + Line(n));
    } else {
      assert [e] + [] == [e];
    }
  }

  lemma SuffixOfConcat<T>(a: seq<T>, b: seq<T>, k: nat)
    requires k <= |a|
    ensures (a + b)[|a| - k..] == a[|a| - k..] + b
  {}

  /** Keeping the newest cap of the records and adding one more leaves the newest
      cap + 1 of all records. */
  lemma NewestAfterDrop(cap: nat, es: seq<Entry>, recs: seq<Entry>, e: Entry, n: Entry)
    requires |recs| <= |es| && recs == es[|es| - |recs|..]
    requires |recs| + 1 > cap
    ensures var recs1, all := recs + [e], es + [e, n];
            var recs' := recs1[|recs1| - cap..] + [n];
            && |recs'| == cap + 1 && recs' == all[|all| - |recs'|..]
            && (cap >= 1 ==> e == recs'[cap - 1])
  {
    var recs1 := recs + [e];
    SuffixOfConcat(es, [e], |recs|);
    assert recs1[|recs1| - cap..] == (es + [e])[|es| + 1 - cap..];
    SuffixOfConcat(es + [e], [n], cap);
    assert (es + [e]) + [n] == es + [e, n];
  }

  /** After an append the window is the newest records: one more than before while there
      is room, otherwise cap of them and the notice, which comes last; it holds the new
      record exactly when the cap is at least one. */
  lemma AppendBoundsWindow(cap: nat, es: seq<Entry>, st: State, data: string)
    requires |st.recs| <= |es| && st.recs == es[|es| - |st.recs|..]
    requires Numbered(es, 1) && st.next == |es| + 1
    ensures var recs', all := Appended(cap, st, data).recs, es + Writes(cap, st, data);
            && |recs'| == (if |st.recs| >= cap then cap + 1 else |st.recs| + 1) && |recs'| <= |all|
            && recs' == all[|all| - |recs'|..]
            && (cap >= 1 <==> Entry(st.next, data) in recs')
            && (|st.recs| >= cap ==> recs'[|recs'| - 1] == Entry(st.next + 1, "{\"type\":\"spool_truncated\"}"))
  {
    hide *;
    assert Overflows(cap, st) <==> |st.recs| >= cap by { OverflowIs(cap, st); }
    NoticeIs();
    if Overflows(cap, st) {
      OverflowBoundsWindow(cap, es, st, data, NOTICE);
    } else {
      RoomBoundsWindow(cap, es, st, data, NOTICE);
    }
  }

  lemma NoticeIs()
    ensures NOTICE == "{\"type\":\"spool_truncated\"}"
  {}

  lemma OverflowIs(cap: nat, st: State)
    ensures Overflows(cap, st) <==> |st.recs| >= cap
  {}

  lemma OverflowBoundsWindow(cap: nat, es: seq<Entry>, st: State, data: string, notice: string)
    requires |st.recs| <= |es| && st.recs == es[|es| - |st.recs|..]
    requires Overflows(cap, st) && notice == NOTICE
    ensures var recs', all := Appended(cap, st, data).recs, es + Writes(cap, st, data);
            && |recs'| == cap + 1 && |recs'| <= |all|
            && recs' == all[|all| - |recs'|..]
            && (cap >= 1 <==> Entry(st.next, data) in recs')
            && recs'[|recs'| - 1] == Entry(st.next + 1, notice)
  {
    hide *;
    AppendShape(cap, st, data, notice);
    var e, n := Entry(st.next, data), Entry(st.next + 1, notice);
    NewestAfterDrop(cap, es, st.recs, e, n);
    OnlyWithRoom(cap, st.recs, e, n);
  }

  lemma RoomBoundsWindow(cap: nat, es: seq<Entry>, st: State, data: string, notice: string)
    requires |st.recs| <= |es| && st.recs == es[|es| - |st.recs|..]
    requires !Overflows(cap, st) && notice == NOTICE
    ensures var recs', all := Appended(cap, st, data).recs, es + Writes(cap, st, data);
            && |recs'| == |st.recs| + 1 <= cap && |recs'| <= |all|
            && recs' == all[|all| - |recs'|..]
            && Entry(st.next, data) in recs'
  {
    hide *;
    AppendShape(cap, st, data, notice);
    var e := Entry(st.next, data);
    SuffixOfConcat(es, [e], |st.recs|);
    assert (st.recs + [e])[|st.recs|] == e;
  }

  /** What one append leaves in the window and writes to the file. */
  lemma AppendShape(cap: nat, st: State, data: string, notice: string)
    requires notice == NOTICE
    ensures var e, n := Entry(st.next, data), Entry(st.next + 1, notice);
            if Overflows(cap, st)
            then && |st.recs| + 1 > cap
                 && Appended(cap, st, data).recs == (st.recs + [e])[|st.recs| + 1 - cap..] + [n]
                 && Writes(cap, st, data) == [e, n]
            else && |st.recs| + 1 <= cap
                 && Appended(cap, st, data).recs == st.recs + [e] && Writes(cap, st, data) == [e]
  {
    hide Line;
  }

  lemma OnlyWithRoom(cap: nat, recs: seq<Entry>, e: Entry, n: Entry)
    requires |recs| + 1 > cap && e.id != n.id
    ensures var recs' := (recs + [e])[|recs| + 1 - cap..] + [n];
            e in recs' <==> cap >= 1
  {
    var recs' := (recs + [e])[|recs| + 1 - cap..] + [n];
    if cap >= 1 {
      assert recs'[cap - 1] == e;
    } else {
      assert recs' == [n];
    }
  }

  /** Append keeps the spool healthy and its durable records grow by exactly what
      was written. */
  lemma AppendIsDurable(cap: nat, st: State, data: string)
    requires Healthy(st)
    ensures var st' := Appended(cap, st, data);
            Healthy(st') && Durable(st'.file) == Durable(st.file) + Writes(cap, st, data)
  {
    hide Parse, Durable, FileOf, Line;
    var es := Durable(st.file);
    var ws := Writes(cap, st, data);
    WritesFile(cap, st, data);
    FileOfConcat(es, ws);
    DurableOfFile(es + ws, "");
    AppendBoundsWindow(cap, es, st, data);
    assert Numbered(es + ws, 1);
  }

  lemma NewRecordIsDurable(cap: nat, st: State, data: string)
    requires Healthy(st)
    ensures var st' := Appended(cap, st, data);
            && Entry(st.next, data) in Durable(st'.file)
            && |st'.recs| == if |st.recs| >= cap then cap + 1 else |st.recs| + 1
  {
    hide Parse, Durable, FileOf, Line;
    AppendIsDurable(cap, st, data);
    AppendBoundsWindow(cap, Durable(st.file), st, data);
    var es := Durable(st.file);
    assert (es + Writes(cap, st, data))[|es|] == Entry(st.next, data);
  }

  lemma {:induction false} PrefixOfOneLine(e: Entry, k: nat)
    requires k <= |Line(e)|
    ensures k < |Line(e)| ==> '\n' !in Line(e)[..k]
  {
    EncodeHasNoNewline(e);
    if k < |Line(e)| {
      assert Line(e)[..k] <= Encode(e);
    }
  }

  /** A crash that lets only the first k characters of some records' lines reach
      the disk keeps a whole number of them and at most a newline-free rest. */
  lemma {:induction false} PrefixOfFile(es: seq<Entry>, k: nat) returns (m: nat, torn: string)
    requires k <= |FileOf(es)|
    ensures m <= |es| && '\n' !in torn
    ensures FileOf(es)[..k] == FileOf(es[..m]) + torn
  {
    hide Encode, Decode;
    if es == [] {
      return 0, "";
    }
    var line := Line(es[0]);
    if k < |line| {
      PrefixOfOneLine(es[0], k);
      m, torn := 0, line[..k];
      assert FileOf(es)[..k] == torn;
      assert es[..0] == [];
    } else {
      var m', torn' := PrefixOfFile(es[1..], k - |line|);
      m, torn := m' + 1, torn';
      assert FileOf(es)[..k] == line + FileOf(es[1..])[..k - |line|];
      assert es[..m][0] == es[0] && es[..m][1..] == es[1..][..m'];
    }
  }

  /** The file a crash leaves when only k of the characters Append writes had
      reached the disk. */
  function CrashFile(cap: nat, st: State, data: string, k: nat): string
    requires k <= |FileOf(Writes(cap, st, data))|
  {
    st.file + FileOf(Writes(cap, st, data))[..k]
  }

  /** Crash in the middle of Append: every record that was durable before is
      durable after, in order and under its id; beyond those only records of this
      very Append can have survived, and the file reopens to a healthy spool over
      all of them. */
  lemma CrashDuringAppend(cap: nat, st: State, data: string, k: nat) returns (m: nat)
    requires Healthy(st)
    requires k <= |FileOf(Writes(cap, st, data))|
    ensures m <= |Writes(cap, st, data)|
    ensures var file := CrashFile(cap, st, data, k);
            var es := Durable(st.file) + Writes(cap, st, data)[..m];
            && Durable(file) == es
            && Reopened(file) == Some(State(FileOf(es), |es| + 1, es))
            && Healthy(State(FileOf(es), |es| + 1, es))
            && Numbered(es, 1) && Durable(FileOf(es)) == es
  {
    hide Encode, Decode, Parse, Durable, FileOf, Reopened;
    var ws := Writes(cap, st, data);
    var torn: string;
    m, torn := PrefixOfFile(ws, k);
    var es := Durable(st.file) + ws[..m];
    FileOfConcat(Durable(st.file), ws[..m]);
    assert CrashFile(cap, st, data, k) == FileOf(es) + torn;
    assert Numbered(es, 1);
    ReopenedIsHealthy(es, torn);
  }

  // ---- reading ----

  lemma {:induction false} AfterIsSuffix(recs: seq<Entry>, first: nat, after: nat)
    requires Numbered(recs, first)
    ensures After(recs, after) == recs[if after < first then 0 else if after - first + 1 <= |recs| then after - first + 1 else |recs|..]
  {
    if recs != [] {
      assert Numbered(recs[1..], first + 1) by {
        forall i | 0 <= i < |recs[1..]| ensures recs[1..][i].id == first + 1 + i { assert recs[1..][i] == recs[i + 1]; }
      }
      assert recs[0].id == first;
      AfterIsSuffix(recs[1..], first + 1, after);
      assert [recs[0]] + recs[1..] == recs;
    }
  }

  // ---- the class ----

  class Spool {
    var file: string
    var next: nat
    const maxRecs: nat
    var recs: seq<Entry>

    ghost function Value(): State
      reads this
    {
      State(file, next, recs)
    }

    /** Wraps the state a successful Recover returned. */
    constructor (st: State, cap: nat)
      requires Healthy(st)
      ensures Value() == st && maxRecs == cap
    {
      file, next, maxRecs, recs := st.file, st.next, cap, st.recs;
    }

    method AppendLocked(e: Entry)
      modifies this
      ensures Value() == Put(old(Value()), e)
    {
      file := file + Line(e);
      recs := recs + [e];
      next := e.id + 1;
    }

    /** Append: durably stores data under the next id, drops the oldest records
        over the cap, and records a truncation as a notice. */
    method Append(data: string) returns (rec: Entry)
      requires Healthy(Value())
      modifies this
      ensures Value() == Appended(maxRecs, old(Value()), data)
      ensures rec == Entry(old(next), data) && rec in Durable(file)
      ensures Healthy(Value()) && |recs| == if |old(recs)| >= maxRecs then maxRecs + 1 else |old(recs)| + 1
    {
      hide Durable, FileOf, Line, Healthy;
      ghost var st0 := Value();
      AppendIsDurable(maxRecs, st0, data);
      NewRecordIsDurable(maxRecs, st0, data);
      rec := Entry(next, data);
      AppendLocked(rec);
      ghost var st1 := Value();
      var truncated := false;
      while |recs| > maxRecs
        invariant !truncated ==> Value() == st1
        invariant truncated ==> |st1.recs| > maxRecs && Value() == st1.(recs := st1.recs[|st1.recs| - maxRecs..])
        decreases |recs|
      {
        recs := recs[|recs| - maxRecs..];
        truncated := true;
      }
      if truncated {
        AppendLocked(Entry(next, NOTICE));
      }
    }

    /** Read without blocking: the records from the first id above the cursor on. */
    method Read(after: nat) returns (out: seq<Entry>)
      requires Healthy(Value())
      ensures out == After(recs, after)
    {
      hide Parse, Durable, FileOf, Line;
      var idx := 0;
      while idx < |recs| && recs[idx].id <= after
        invariant 0 <= idx <= |recs|
        invariant forall i :: 0 <= i < idx ==> recs[i].id <= after
      {
        idx := idx + 1;
      }
      out := recs[idx..];
      var first := next - |recs|;
      assert Numbered(recs, first);
      assert idx < |recs| ==> recs[idx].id == first + idx;
      assert idx > 0 ==> recs[idx - 1].id == first + idx - 1;
      AfterIsSuffix(recs, first, after);
    }
  }
}
