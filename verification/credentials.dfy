/** Credential policy stamping (controller/credentials.go): the binding table, the
    additive merge of one rule, and the operations that stamp the bindings into an
    existing policy. */
module Credentials {
  import opened Wrappers
  import opened HostSpec
  import opened Lexicographic

  // ---- policies ----

  /** The allow clause of an L7 rule. */
  datatype L7Rule = L7Rule(verb: string, path: string)

  /** provider "" is an endpoint without a credential binding; access 0 is the
      unspecified preset; rest stands for the fields stamping never looks at. */
  datatype Endpoint = Endpoint(
    host: string,
    port: nat,
    protocol: string,
    access: nat,
    rules: seq<L7Rule>,
    provider: string,
    rest: string)

  /** None is a nil endpoint. */
  datatype Rule = Rule(name: string, endpoints: seq<Option<Endpoint>>, binaries: seq<string>)

  /** Rules by policy key; None is a nil rule. */
  type Policy = map<string, Option<Rule>>

  datatype Binding = Binding(provider: string, hosts: seq<string>)

  /** An add-rule operation: an upsert by policy key. */
  datatype AddRule = AddRule(key: string, rule: Rule)

  datatype Error = NilPolicy | MalformedSpec | ConflictingProvider
  datatype Result = Ok(ops: seq<AddRule>) | Err(error: Error)

  const RULE_NAME: string := "m1_credential_bindings"
  const BINARIES: seq<string> := ["/usr/bin/git", "/usr/bin/gh", "/usr/bin/pi"]
  const ANY: L7Rule := L7Rule("*", "**")

  function KeyOf(e: Endpoint): string {
    EndpointKey(e.host, e.port)
  }

  function NonNil(es: seq<Option<Endpoint>>): seq<Endpoint> {
    if es == [] then []
    else
      var front, last := NonNil(es[..|es| - 1]), es[|es| - 1];
      if last.Some? then front + [last.value] else front
  }

  // ---- the binding table ----

  /** Host patterns with their provider, in listing order. */
  function Flat(bindings: seq<Binding>): seq<(string, string)> {
    if bindings == [] then []
    else Flat(bindings[..|bindings| - 1]) + Pairs(bindings[|bindings| - 1], |bindings[|bindings| - 1].hosts|)
  }

  function Pairs(b: Binding, n: nat): (ps: seq<(string, string)>)
    requires n <= |b.hosts|
    ensures |ps| == n
  {
    seq(n, i requires 0 <= i < n => (b.hosts[i], b.provider))
  }

  /** Provider by key, and the keys in order of first listing. */
  datatype Table = Table(providers: map<string, string>, order: seq<string>)

  function AddSpec(t: Table, spec: string, provider: string): Option<Table> {
    match SplitHostSpec(spec)
    case None => None
    case Some((host, port)) =>
      var key := EndpointKey(host, port);
      if key in t.providers then Some(t) else Some(Table(t.providers[key := provider], t.order + [key]))
  }

  function TableOf(flat: seq<(string, string)>): Option<Table> {
    if flat == [] then Some(Table(map[], []))
    else
      match TableOf(flat[..|flat| - 1])
      case None => None
      case Some(t) => AddSpec(t, flat[|flat| - 1].0, flat[|flat| - 1].1)
  }

  predicate Malformed(spec: string) {
    SplitHostSpec(spec).None?
  }

  /** The key of a pattern that parses. */
  function SpecKey(spec: string): string {
    match SplitHostSpec(spec)
    case None => ""
    case Some((host, port)) => EndpointKey(host, port)
  }

  /** A key that parses, and is the key of what it parses to. */
  predicate Canonical(key: string) {
    !Malformed(key) && SpecKey(key) == key
  }

  predicate Distinct(ks: seq<string>) {
    forall i, j :: 0 <= i < j < |ks| ==> ks[i] != ks[j]
  }

  ghost predicate TableOk(t: Table) {
    && (forall k :: k in t.providers <==> k in t.order)
    && Distinct(t.order)
    && (forall k :: k in t.order ==> Canonical(k))
  }

  /** The pattern at i is the first listing of its key. */
  predicate FirstListing(flat: seq<(string, string)>, i: nat)
    requires i < |flat|
  {
    forall j :: 0 <= j < i ==> SpecKey(flat[j].0) != SpecKey(flat[i].0)
  }

  lemma TableAppend(flat: seq<(string, string)>, x: (string, string))
    ensures TableOf(flat + [x]) == match TableOf(flat) case None => None case Some(t) => AddSpec(t, x.0, x.1)
  {
    assert (flat + [x])[..|flat|] == flat;
  }

  lemma SpecKeyIsCanonical(spec: string)
    requires !Malformed(spec)
    ensures Canonical(SpecKey(spec))
  {
    hide ToLower, EndpointKey;
    var (host, port) := SplitHostSpec(spec).value;
    KeyRoundTrip(host, port);
  }

  lemma AddSpecIs(t: Table, spec: string, provider: string)
    ensures AddSpec(t, spec, provider) ==
            if Malformed(spec) then None
            else if SpecKey(spec) in t.providers then Some(t)
            else Some(Table(t.providers[SpecKey(spec) := provider], t.order + [SpecKey(spec)]))
  {
    hide EndpointKey;
  }

  /** The table exists exactly when every pattern parses. */
  lemma {:induction false} TableExists(flat: seq<(string, string)>)
    ensures TableOf(flat).None? <==> exists i :: 0 <= i < |flat| && Malformed(flat[i].0)
  {
    hide SplitHostSpec, AddSpec, Malformed;
    if flat != [] {
      var n := |flat| - 1;
      TableExists(flat[..n]);
      AddSpecIs(if TableOf(flat[..n]).Some? then TableOf(flat[..n]).value else Table(map[], []), flat[n].0, flat[n].1);
      assert forall i :: 0 <= i < n ==> flat[..n][i] == flat[i];
    }
  }

  /** Its keys are the keys of the patterns, each listed once. */
  lemma {:induction false} TableKeys(flat: seq<(string, string)>)
    requires TableOf(flat).Some?
    ensures TableOk(TableOf(flat).value)
    ensures forall i :: 0 <= i < |flat| ==> SpecKey(flat[i].0) in TableOf(flat).value.providers
    ensures forall k :: k in TableOf(flat).value.providers ==> ListedKey(flat, k)
  {
    hide SplitHostSpec, EndpointKey, AddSpec, SpecKey, Malformed, Canonical;
    if flat != [] {
      var n := |flat| - 1;
      var front, x := flat[..n], flat[n];
      TableKeys(front);
      var t0, t := TableOf(front).value, TableOf(flat).value;
      AddSpecIs(t0, x.0, x.1);
      SpecKeyIsCanonical(x.0);
      var key := SpecKey(x.0);
      assert forall i :: 0 <= i < n ==> front[i] == flat[i];
      forall k | k in t.providers
        ensures ListedKey(flat, k)
      {
        if k in t0.providers {
          var i :| 0 <= i < |front| && SpecKey(front[i].0) == k;
          assert SpecKey(flat[i].0) == k;
        } else {
          assert SpecKey(flat[n].0) == k;
        }
      }
      if key !in t0.providers {
        assert t.order == t0.order + [key];
      }
    }
  }

  predicate ListedKey(flat: seq<(string, string)>, k: string) {
    exists i :: 0 <= i < |flat| && SpecKey(flat[i].0) == k
  }

  /** Each key is bound to its first-listed provider. */
  lemma {:induction false} TableFirstWins(flat: seq<(string, string)>, i: nat)
    requires TableOf(flat).Some? && i < |flat| && FirstListing(flat, i)
    ensures SpecKey(flat[i].0) in TableOf(flat).value.providers
    ensures TableOf(flat).value.providers[SpecKey(flat[i].0)] == flat[i].1
  {
    hide SplitHostSpec, EndpointKey, AddSpec, SpecKey, Malformed, TableOk;
    var n := |flat| - 1;
    var front, x := flat[..n], flat[n];
    var t0 := TableOf(front).value;
    TableKeys(flat);
    AddSpecIs(t0, x.0, x.1);
    assert forall j :: 0 <= j < n ==> front[j] == flat[j];
    if i < n {
      assert FirstListing(front, i);
      TableFirstWins(front, i);
    } else {
      TableKeys(front);
      assert SpecKey(x.0) in t0.providers ==> ListedKey(front, SpecKey(x.0));
    }
  }

  // ---- the additive merge of one rule ----

  function KeyOfNilable(e: Option<Endpoint>): string {
    if e.Some? then KeyOf(e.value) else EndpointKey("", 0)
  }

  predicate Seen(es: seq<Option<Endpoint>>, key: string) {
    exists i :: 0 <= i < |es| && KeyOfNilable(es[i]) == key
  }

  /** The endpoint the merge adds for a bound pattern: any method and path over L7,
      carrying the provider. */
  function BoundEndpoint(host: string, port: nat, provider: string): Endpoint {
    Endpoint(host, port, "rest", 0, [ANY], provider, "")
  }

  function AddEndpoint(es: seq<Option<Endpoint>>, spec: string, provider: string): Option<seq<Option<Endpoint>>> {
    match SplitHostSpec(spec)
    case None => None
    case Some((host, port)) =>
      if Seen(es, EndpointKey(host, port)) then Some(es)
      else Some(es + [Some(BoundEndpoint(host, port, provider))])
  }

  function MergeEndpoints(es: seq<Option<Endpoint>>, flat: seq<(string, string)>): Option<seq<Option<Endpoint>>> {
    if flat == [] then Some(es)
    else
      match MergeEndpoints(es, flat[..|flat| - 1])
      case None => None
      case Some(es1) => AddEndpoint(es1, flat[|flat| - 1].0, flat[|flat| - 1].1)
  }

  function MergeBinaries(bs: seq<string>, paths: seq<string>): seq<string> {
    if paths == [] then bs
    else
      var bs1 := MergeBinaries(bs, paths[..|paths| - 1]);
      if paths[|paths| - 1] in bs1 then bs1 else bs1 + [paths[|paths| - 1]]
  }

  /** MergePolicy's result; None is its error. */
  function Merged(policy: Option<Rule>, bindings: seq<Binding>): Option<Rule> {
    if policy.None? then None
    else if bindings == [] then policy
    else
      match MergeEndpoints(policy.value.endpoints, Flat(bindings))
      case None => None
      case Some(es) => Some(Rule(policy.value.name, es, MergeBinaries(policy.value.binaries, BINARIES)))
  }

  lemma MergeAppend(es: seq<Option<Endpoint>>, flat: seq<(string, string)>, x: (string, string))
    ensures MergeEndpoints(es, flat + [x]) ==
            match MergeEndpoints(es, flat) case None => None case Some(es1) => AddEndpoint(es1, x.0, x.1)
  {
    assert (flat + [x])[..|flat|] == flat;
  }

  lemma {:induction false} MergeFails(es: seq<Option<Endpoint>>, a: seq<(string, string)>, b: seq<(string, string)>)
    requires MergeEndpoints(es, a).None?
    ensures MergeEndpoints(es, a + b).None?
  {
    hide AddEndpoint;
    if b == [] {
      assert a + b == a;
    } else {
      var n := |b| - 1;
      MergeFails(es, a, b[..n]);
      assert a + b == (a + b[..n]) + [b[n]];
      MergeAppend(es, a + b[..n], b[n]);
    }
  }

  lemma {:induction false} TableFails(a: seq<(string, string)>, b: seq<(string, string)>)
    requires TableOf(a).None?
    ensures TableOf(a + b).None?
  {
    hide AddSpec;
    if b == [] {
      assert a + b == a;
    } else {
      var n := |b| - 1;
      TableFails(a, b[..n]);
      assert a + b == (a + b[..n]) + [b[n]];
      TableAppend(a + b[..n], b[n]);
    }
  }

  /** Listing up to pattern j of binding i, and what is still to come. */
  lemma FlatSplit(bindings: seq<Binding>, i: nat, j: nat) returns (rest: seq<(string, string)>)
    requires i < |bindings| && j < |bindings[i].hosts|
    ensures Flat(bindings) == Flat(bindings[..i]) + Pairs(bindings[i], j) + [(bindings[i].hosts[j], bindings[i].provider)] + rest
  {
    var b := bindings[i];
    var here := Flat(bindings[..i + 1]);
    assert bindings[..i + 1][..i] == bindings[..i];
    var x := (b.hosts[j], b.provider);
    var later := Pairs(b, |b.hosts|)[j + 1..];
    assert Pairs(b, |b.hosts|) == Pairs(b, j) + [x] + later;
    var more := FlatTail(bindings, i + 1);
    rest := later + more;
  }

  lemma {:induction false} FlatTail(bindings: seq<Binding>, i: nat) returns (rest: seq<(string, string)>)
    requires i <= |bindings|
    ensures Flat(bindings) == Flat(bindings[..i]) + rest
  {
    if i == |bindings| {
      assert bindings[..i] == bindings;
      rest := [];
    } else {
      var n := |bindings| - 1;
      var front := FlatTail(bindings[..n], i);
      assert bindings[..n][..i] == bindings[..i];
      rest := front + Pairs(bindings[n], |bindings[n].hosts|);
    }
  }

  lemma PairsNext(b: Binding, j: nat)
    requires j < |b.hosts|
    ensures Pairs(b, j + 1) == Pairs(b, j) + [(b.hosts[j], b.provider)]
  {}

  lemma FlatNext(bindings: seq<Binding>, i: nat)
    requires i < |bindings|
    ensures Flat(bindings[..i + 1]) == Flat(bindings[..i]) + Pairs(bindings[i], |bindings[i].hosts|)
  {
    assert bindings[..i + 1][..i] == bindings[..i];
  }

  /** MergePolicy: the nested loops over bindings and patterns, then the binaries. */
  method MergePolicy(policy: Option<Rule>, bindings: seq<Binding>) returns (res: Option<Rule>)
    ensures res == Merged(policy, bindings)
  {
    hide SplitHostSpec, EndpointKey, MergeEndpoints, Flat, AddEndpoint, Pairs, Seen;
    if policy.None? {
      return None;
    }
    var es := policy.value.endpoints;
    if bindings == [] {
      return policy;
    }
    assert Flat(bindings[..0]) == [] && MergeEndpoints(es, []) == Some(es) by { MergeStart(bindings, es); }
    var i := 0;
    while i < |bindings|
      invariant 0 <= i <= |bindings|
      invariant MergeEndpoints(policy.value.endpoints, Flat(bindings[..i])) == Some(es)
    {
      var b := bindings[i];
      var j := 0;
      assert Flat(bindings[..i]) + Pairs(b, 0) == Flat(bindings[..i]);
      while j < |b.hosts|
        invariant 0 <= j <= |b.hosts|
        invariant MergeEndpoints(policy.value.endpoints, Flat(bindings[..i]) + Pairs(b, j)) == Some(es)
      {
        ghost var done := Flat(bindings[..i]) + Pairs(b, j);
        ghost var x := (b.hosts[j], b.provider);
        MergeAppend(policy.value.endpoints, done, x);
        var next := AddEndpoint(es, b.hosts[j], b.provider);
        if next.None? {
          ghost var rest := FlatSplit(bindings, i, j);
          MergeFails(policy.value.endpoints, done + [x], rest);
          return None;
        }
        es := next.value;
        PairsNext(b, j);
        assert Flat(bindings[..i]) + Pairs(b, j + 1) == done + [x];
        j := j + 1;
      }
      FlatNext(bindings, i);
      i := i + 1;
    }
    assert bindings[..i] == bindings;
    var bins := policy.value.binaries;
    for k := 0 to |BINARIES|
      invariant bins == MergeBinaries(policy.value.binaries, BINARIES[..k])
    {
      assert BINARIES[..k + 1][..k] == BINARIES[..k];
      if BINARIES[k] !in bins {
        bins := bins + [BINARIES[k]];
      }
    }
    assert BINARIES[..|BINARIES|] == BINARIES;
    return Some(Rule(policy.value.name, es, bins));
  }

  lemma MergeStart(bindings: seq<Binding>, es: seq<Option<Endpoint>>)
    ensures Flat(bindings[..0]) == [] && MergeEndpoints(es, []) == Some(es)
  {}

  lemma AddEndpointIs(es: seq<Option<Endpoint>>, spec: string, provider: string)
    ensures AddEndpoint(es, spec, provider).None? <==> Malformed(spec)
    ensures !Malformed(spec) ==>
              var es' := AddEndpoint(es, spec, provider).value;
              && es <= es' && |es'| <= |es| + 1
              && Seen(es', SpecKey(spec))
              && (Seen(es, SpecKey(spec)) <==> es' == es)
              && (|es'| > |es| ==> es'[|es|].Some? && AddedFor(es'[|es|].value, spec, provider))
  {
    hide EndpointKey;
    if !Malformed(spec) {
      var es' := AddEndpoint(es, spec, provider).value;
      if |es'| > |es| {
        assert KeyOfNilable(es'[|es|]) == SpecKey(spec);
      }
    }
  }

  /** Any method and any path over REST, with no access preset. */
  predicate Open(e: Endpoint) {
    e.protocol == "rest" && e.access == 0 && e.rules == [L7Rule("*", "**")]
  }

  /** What a pattern adds: its host and port, open to inspected traffic, with its provider. */
  predicate AddedFor(e: Endpoint, spec: string, provider: string) {
    && SplitHostSpec(spec) == Some((e.host, e.port)) && KeyOf(e) == SpecKey(spec)
    && e.provider == provider && e.rest == "" && Open(e)
  }

  /** The endpoint at j is the one its pattern's first listing adds, and the first
      declaration of its key. */
  ghost predicate AddedAt(es: seq<Option<Endpoint>>, flat: seq<(string, string)>, j: nat)
    requires j < |es|
  {
    && es[j].Some? && !Seen(es[..j], KeyOf(es[j].value))
    && exists i :: 0 <= i < |flat| && FirstListing(flat, i) && AddedFor(es[j].value, flat[i].0, flat[i].1)
  }

  lemma SeenMore(es: seq<Option<Endpoint>>, es': seq<Option<Endpoint>>, key: string)
    requires es <= es' && Seen(es, key)
    ensures Seen(es', key)
  {
    var i :| 0 <= i < |es| && KeyOfNilable(es[i]) == key;
    assert es'[i] == es[i];
  }

  /** The merge is additive: what the rule had stays in front, unchanged; every bound
      pattern is declared afterwards; what was added is open to inspected traffic, carries
      its first-listed provider and declares a key for the first time. It fails exactly
      when some pattern does not parse. */
  lemma {:induction false} MergeIsAdditive(es: seq<Option<Endpoint>>, flat: seq<(string, string)>)
    ensures MergeEndpoints(es, flat).None? <==> exists i :: 0 <= i < |flat| && Malformed(flat[i].0)
    ensures MergeEndpoints(es, flat).Some? ==>
              var es' := MergeEndpoints(es, flat).value;
              && es <= es'
              && (forall i :: 0 <= i < |flat| ==> Seen(es', SpecKey(flat[i].0)))
              && (forall j :: |es| <= j < |es'| ==> AddedAt(es', flat, j))
  {
    hide SplitHostSpec, AddEndpoint, Malformed, SpecKey, Seen, AddedAt;
    if flat != [] {
      var n := |flat| - 1;
      var front := flat[..n];
      MergeIsAdditive(es, front);
      assert forall i :: 0 <= i < n ==> front[i] == flat[i];
      if MergeEndpoints(es, front).Some? {
        var es1 := MergeEndpoints(es, front).value;
        AddEndpointIs(es1, flat[n].0, flat[n].1);
        if MergeEndpoints(es, flat).Some? {
          var es' := MergeEndpoints(es, flat).value;
          forall i | 0 <= i < |flat|
            ensures Seen(es', SpecKey(flat[i].0))
          {
            if i < n { SeenMore(es1, es', SpecKey(front[i].0)); }
          }
          forall j | |es| <= j < |es'|
            ensures AddedAt(es', flat, j)
          {
            AddedStays(es1, es', flat, j);
          }
        }
      }
    }
  }

  lemma AddedStays(es: seq<Option<Endpoint>>, es': seq<Option<Endpoint>>, flat: seq<(string, string)>, j: nat)
    requires flat != [] && es <= es' && j < |es'| <= |es| + 1
    requires j < |es| ==> AddedAt(es, flat[..|flat| - 1], j)
    requires forall i :: 0 <= i < |flat| - 1 ==> Seen(es, SpecKey(flat[i].0))
    requires !Malformed(flat[|flat| - 1].0) && Some(es') == AddEndpoint(es, flat[|flat| - 1].0, flat[|flat| - 1].1)
    ensures AddedAt(es', flat, j)
  {
    hide SplitHostSpec, AddEndpoint, Malformed, SpecKey, Seen, KeyOf, Open;
    var n := |flat| - 1;
    var front := flat[..n];
    assert forall i :: 0 <= i < n ==> front[i] == flat[i];
    if j < |es| {
      assert es'[..j] == es[..j];
      var i :| 0 <= i < n && FirstListing(front, i) && AddedFor(es[j].value, front[i].0, front[i].1);
      assert FirstListing(flat, i);
    } else {
      AddEndpointIs(es, flat[n].0, flat[n].1);
      assert es'[..j] == es;
      assert FirstListing(flat, n);
    }
  }

  lemma {:induction false} MergeNothing(es: seq<Option<Endpoint>>, flat: seq<(string, string)>)
    requires forall i :: 0 <= i < |flat| ==> !Malformed(flat[i].0) && Seen(es, SpecKey(flat[i].0))
    ensures MergeEndpoints(es, flat) == Some(es)
  {
    hide SplitHostSpec, AddEndpoint, Malformed, SpecKey, Seen;
    if flat != [] {
      var n := |flat| - 1;
      assert forall i :: 0 <= i < n ==> flat[..n][i] == flat[i];
      MergeNothing(es, flat[..n]);
      AddEndpointIs(es, flat[n].0, flat[n].1);
    }
  }

  /** The binaries the rule had stay in front, every path is there afterwards, and nothing
      else is added or added twice. */
  lemma {:induction false} BinariesMerged(bs: seq<string>, paths: seq<string>)
    ensures bs <= MergeBinaries(bs, paths)
    ensures forall b :: b in MergeBinaries(bs, paths) ==> b in bs || b in paths
    ensures var bs' := MergeBinaries(bs, paths); forall i, j :: 0 <= i < j < |bs'| && |bs| <= j ==> bs'[i] != bs'[j]
    ensures forall i :: 0 <= i < |paths| ==> paths[i] in MergeBinaries(bs, paths)
    ensures (forall i :: 0 <= i < |paths| ==> paths[i] in bs) ==> MergeBinaries(bs, paths) == bs
  {
    if paths != [] {
      var n := |paths| - 1;
      BinariesMerged(bs, paths[..n]);
      assert forall i :: 0 <= i < n ==> paths[..n][i] == paths[i];
    }
  }

  /** Re-applying the merge changes nothing. */
  lemma MergeIsIdempotent(policy: Rule, bindings: seq<Binding>)
    requires Merged(Some(policy), bindings).Some?
    ensures Merged(Merged(Some(policy), bindings), bindings) == Merged(Some(policy), bindings)
  {
    hide Flat, MergeEndpoints, MergeBinaries, Malformed, Seen, SpecKey;
    if bindings != [] {
      var flat := Flat(bindings);
      MergeIsAdditive(policy.endpoints, flat);
      MergeNothing(MergeEndpoints(policy.endpoints, flat).value, flat);
      BinariesMerged(policy.binaries, BINARIES);
      BinariesMerged(MergeBinaries(policy.binaries, BINARIES), BINARIES);
    }
  }

  // ---- stamping ----

  predicate IsL7(e: Endpoint) {
    (e.protocol != "" && e.protocol != "tcp") || e.access != 0 || e.rules != []
  }

  /** ensureL7: a bare L4 endpoint is opened to L7 inspection, any other is left. */
  function EnsureL7(e: Endpoint): (r: Endpoint)
    ensures if IsL7(e) then r == e else Open(r)
    ensures r.host == e.host && r.port == e.port && r.provider == e.provider && r.rest == e.rest
  {
    if e.protocol != "" && e.protocol != "tcp" then e
    else if e.access != 0 || |e.rules| > 0 then e
    else e.(protocol := "rest", rules := [ANY])
  }

  predicate Bound(t: Table, e: Endpoint) {
    KeyOf(e) in t.providers
  }

  predicate Bare(t: Table, e: Endpoint) {
    Bound(t, e) && e.provider == ""
  }

  predicate Clash(t: Table, e: Endpoint) {
    Bound(t, e) && e.provider != "" && e.provider != t.providers[KeyOf(e)]
  }

  function Stamp(t: Table, e: Endpoint): Endpoint {
    if Bare(t, e) then EnsureL7(e.(provider := t.providers[KeyOf(e)])) else e
  }

  function StampAll(t: Table, es: seq<Endpoint>): (r: seq<Option<Endpoint>>)
    ensures |r| == |es|
  {
    seq(|es|, i requires 0 <= i < |es| => Some(Stamp(t, es[i])))
  }

  function StampRule(t: Table, r: Rule): Rule {
    Rule(r.name, StampAll(t, NonNil(r.endpoints)), r.binaries)
  }

  predicate NeedsStamp(t: Table, r: Rule) {
    exists e :: e in NonNil(r.endpoints) && Bare(t, e)
  }

  predicate RuleClashes(t: Table, r: Rule) {
    exists e :: e in NonNil(r.endpoints) && Clash(t, e)
  }

  predicate Declares(r: Option<Rule>, key: string) {
    r.Some? && exists e :: e in NonNil(r.value.endpoints) && KeyOf(e) == key
  }

  predicate Declared(p: Policy, key: string) {
    exists k :: k in p && Declares(p[k], key)
  }

  predicate Clashes(p: Policy, t: Table) {
    exists k :: k in p && p[k].Some? && RuleClashes(t, p[k].value)
  }

  /** The in-place operations for the rules listed, in that order. */
  function StampOps(t: Table, p: Policy, keys: seq<string>): seq<AddRule>
    requires forall k :: k in keys ==> k in p
  {
    if keys == [] then []
    else
      var k := keys[|keys| - 1];
      StampOps(t, p, keys[..|keys| - 1]) +
      if p[k].Some? && NeedsStamp(t, p[k].value) then [AddRule(k, StampRule(t, p[k].value))] else []
  }

  /** The keys among these that no rule declares. */
  function Undeclared(p: Policy, ks: seq<string>): seq<string> {
    if ks == [] then []
    else
      var k := ks[|ks| - 1];
      Undeclared(p, ks[..|ks| - 1]) + if Declared(p, k) then [] else [k]
  }

  function ProviderOf(t: Table, key: string): string {
    if key in t.providers then t.providers[key] else ""
  }

  function AdditiveEndpoint(t: Table, key: string): Option<Endpoint> {
    match SplitHostSpec(key)
    case None => None
    case Some((host, port)) => Some(BoundEndpoint(host, port, ProviderOf(t, key)))
  }

  /** The rule for bound hosts the policy does not declare: one endpoint per key. */
  function AdditiveRule(t: Table, ks: seq<string>): Rule {
    Rule(RULE_NAME, seq(|ks|, i requires 0 <= i < |ks| => AdditiveEndpoint(t, ks[i])), BINARIES)
  }

  /** All operations, the rules visited in the order listed. */
  function OpsFor(p: Policy, t: Table, keys: seq<string>): seq<AddRule>
    requires forall k :: k in keys ==> k in p
  {
    var missing := Undeclared(p, t.order);
    StampOps(t, p, keys) + if missing == [] then [] else [AddRule(RULE_NAME, AdditiveRule(t, missing))]
  }

  /** What CredentialPolicyOps answers when it visits the rules in this order. */
  function Outcome(policy: Option<Policy>, bindings: seq<Binding>, keys: seq<string>): Result
    requires policy.Some? ==> forall k :: k in keys ==> k in policy.value
  {
    if bindings == [] then Ok([])
    else if policy.None? then Err(NilPolicy)
    else
      match TableOf(Flat(bindings))
      case None => Err(MalformedSpec)
      case Some(t) =>
        if Clashes(policy.value, t) then Err(ConflictingProvider) else Ok(OpsFor(policy.value, t, keys))
  }

  // ---- CredentialPolicyOps ----

  /** The binding lookup: first binding wins, a malformed pattern is an error. */
  method BuildTable(bindings: seq<Binding>) returns (res: Option<Table>)
    ensures res == TableOf(Flat(bindings))
  {
    hide SplitHostSpec, EndpointKey, TableOf, Flat, AddSpec, Pairs;
    var t := Table(map[], []);
    assert Flat(bindings[..0]) == [] && TableOf([]) == Some(t) by { TableStart(bindings); }
    var i := 0;
    while i < |bindings|
      invariant 0 <= i <= |bindings|
      invariant TableOf(Flat(bindings[..i])) == Some(t)
    {
      var b := bindings[i];
      var j := 0;
      assert Flat(bindings[..i]) + Pairs(b, 0) == Flat(bindings[..i]);
      while j < |b.hosts|
        invariant 0 <= j <= |b.hosts|
        invariant TableOf(Flat(bindings[..i]) + Pairs(b, j)) == Some(t)
      {
        ghost var done := Flat(bindings[..i]) + Pairs(b, j);
        ghost var x := (b.hosts[j], b.provider);
        TableAppend(done, x);
        var next := AddSpec(t, b.hosts[j], b.provider);
        if next.None? {
          ghost var rest := FlatSplit(bindings, i, j);
          TableFails(done + [x], rest);
          return None;
        }
        t := next.value;
        PairsNext(b, j);
        assert Flat(bindings[..i]) + Pairs(b, j + 1) == done + [x];
        j := j + 1;
      }
      FlatNext(bindings, i);
      i := i + 1;
    }
    assert bindings[..i] == bindings;
    return Some(t);
  }

  lemma TableStart(bindings: seq<Binding>)
    ensures Flat(bindings[..0]) == [] && TableOf([]) == Some(Table(map[], []))
  {}

  lemma NonNilNext(es: seq<Option<Endpoint>>, i: nat)
    requires i < |es|
    ensures NonNil(es[..i + 1]) == if es[i].Some? then NonNil(es[..i]) + [es[i].value] else NonNil(es[..i])
  {
    assert es[..i + 1][..i] == es[..i];
  }

  /** One rule: every nil endpoint dropped, every bare bound endpoint stamped, a
      different provider on a bound one is a conflict. */
  method RewriteRule(t: Table, rule: Rule)
      returns (clash: bool, endpoints: seq<Option<Endpoint>>, changed: bool, declared: set<string>)
    ensures clash <==> RuleClashes(t, rule)
    ensures !clash ==> endpoints == StampAll(t, NonNil(rule.endpoints)) && (changed <==> NeedsStamp(t, rule))
    ensures !clash ==> |endpoints| == |NonNil(rule.endpoints)|
    ensures !clash ==> forall i :: 0 <= i < |endpoints| ==>
                         endpoints[i].Some? && EndpointFramed(t, NonNil(rule.endpoints)[i], endpoints[i].value)
    ensures !clash ==> forall key :: key in declared <==> key in t.providers && Declares(Some(rule), key)
  {
    hide EndpointKey, EndpointFramed, Stamp, IsL7;
    clash, endpoints, changed, declared := false, [], false, {};
    var i := 0;
    ghost var seen: seq<Endpoint> := [];
    while i < |rule.endpoints|
      invariant 0 <= i <= |rule.endpoints| && seen == NonNil(rule.endpoints[..i])
      invariant endpoints == StampAll(t, seen)
      invariant changed <==> exists e :: e in seen && Bare(t, e)
      invariant forall e :: e in seen ==> !Clash(t, e)
      invariant forall key :: key in declared <==> key in t.providers && exists e :: e in seen && KeyOf(e) == key
    {
      NonNilNext(rule.endpoints, i);
      if rule.endpoints[i].Some? {
        var e := rule.endpoints[i].value;
        if Bound(t, e) {
          if Clash(t, e) {
            NonNilHas(rule.endpoints, i);
            return true, [], false, {};
          }
          declared := declared + {KeyOf(e)};
        }
        if Bare(t, e) {
          changed := true;
        }
        endpoints := endpoints + [Some(Stamp(t, e))];
        seen := seen + [e];
      }
      i := i + 1;
    }
    assert rule.endpoints[..i] == rule.endpoints;
    StampsAreFramed(t, seen);
  }

  lemma StampsAreFramed(t: Table, es: seq<Endpoint>)
    ensures forall i :: 0 <= i < |es| ==> EndpointFramed(t, es[i], StampAll(t, es)[i].value)
  {
    hide EndpointKey;
  }

  lemma {:induction false} NonNilHas(es: seq<Option<Endpoint>>, i: nat)
    requires i < |es| && es[i].Some?
    ensures es[i].value in NonNil(es)
  {
    if i < |es| - 1 {
      NonNilHas(es[..|es| - 1], i);
    }
  }

  lemma UndeclaredNext(p: Policy, ks: seq<string>, j: nat)
    requires j < |ks|
    ensures Undeclared(p, ks[..j + 1]) == Undeclared(p, ks[..j]) + if Declared(p, ks[j]) then [] else [ks[j]]
  {
    assert ks[..j + 1][..j] == ks[..j];
  }

  lemma {:induction false} UndeclaredAre(p: Policy, ks: seq<string>)
    requires Distinct(ks)
    ensures forall k :: k in Undeclared(p, ks) <==> k in ks && !Declared(p, k)
    ensures Distinct(Undeclared(p, ks))
  {
    hide Declared;
    if ks != [] {
      var n := |ks| - 1;
      UndeclaredAre(p, ks[..n]);
      assert forall k :: k in ks <==> k in ks[..n] || k == ks[n] by { assert ks == ks[..n] + [ks[n]]; }
      assert ks[n] !in ks[..n];
      var us := Undeclared(p, ks[..n]);
      assert ks[n] !in us;
      var all := Undeclared(p, ks);
      assert all == us || all == us + [ks[n]];
    }
  }

  /** One binding per key, as the additive fallback lists them. */
  function KeyBindings(t: Table, ks: seq<string>): (bs: seq<Binding>)
    ensures |bs| == |ks|
  {
    seq(|ks|, i requires 0 <= i < |ks| => Binding(ProviderOf(t, ks[i]), [ks[i]]))
  }

  lemma NoKeys(t: Table)
    ensures KeyBindings(t, []) == []
  {}

  lemma MoreKeys(t: Table, ks: seq<string>, key: string)
    ensures KeyBindings(t, ks + [key]) == KeyBindings(t, ks) + [Binding(ProviderOf(t, key), [key])]
  {}

  lemma {:induction false} FlatOfKeys(t: Table, ks: seq<string>)
    ensures |Flat(KeyBindings(t, ks))| == |ks|
    ensures forall i :: 0 <= i < |ks| ==> Flat(KeyBindings(t, ks))[i] == (ks[i], ProviderOf(t, ks[i]))
  {
    if ks != [] {
      var n := |ks| - 1;
      FlatOfKeys(t, ks[..n]);
      assert KeyBindings(t, ks)[..n] == KeyBindings(t, ks[..n]);
    }
  }

  lemma AdditiveKey(t: Table, key: string)
    requires Canonical(key)
    ensures AdditiveEndpoint(t, key).Some? && KeyOf(AdditiveEndpoint(t, key).value) == key
    ensures AddedFor(AdditiveEndpoint(t, key).value, key, ProviderOf(t, key))
  {
    hide EndpointKey;
  }

  /** The fallback merge succeeds, because every key parses again, and yields one
      endpoint per key, because the keys are distinct. */
  lemma {:induction false} MergeOfKeys(t: Table, ks: seq<string>, flat: seq<(string, string)>)
    requires forall k :: k in ks ==> Canonical(k)
    requires Distinct(ks)
    requires |flat| == |ks| && forall i :: 0 <= i < |ks| ==> flat[i] == (ks[i], ProviderOf(t, ks[i]))
    ensures MergeEndpoints([], flat) == Some(AdditiveRule(t, ks).endpoints)
  {
    hide SplitHostSpec, EndpointKey, Canonical, AdditiveEndpoint, AddEndpoint;
    if ks != [] {
      var n := |ks| - 1;
      MergeOfKeys(t, ks[..n], flat[..n]);
      var es := AdditiveRule(t, ks[..n]).endpoints;
      var key := ks[n];
      AdditiveKey(t, key);
      forall i | 0 <= i < |es|
        ensures KeyOfNilable(es[i]) != key
      {
        AdditiveKey(t, ks[i]);
      }
      AddCanonical(t, es, key);
      assert AdditiveRule(t, ks).endpoints == es + [AdditiveEndpoint(t, key)];
    }
  }

  lemma AddCanonical(t: Table, es: seq<Option<Endpoint>>, key: string)
    requires Canonical(key) && !Seen(es, key)
    ensures AddEndpoint(es, key, ProviderOf(t, key)) == Some(es + [AdditiveEndpoint(t, key)])
  {
    hide EndpointKey, Seen;
  }

  lemma MergeOfMissing(t: Table, ks: seq<string>)
    requires ks != [] && forall k :: k in ks ==> Canonical(k)
    requires Distinct(ks)
    ensures Merged(Some(Rule(RULE_NAME, [], [])), KeyBindings(t, ks)) == Some(AdditiveRule(t, ks))
  {
    hide Canonical, MergeEndpoints, Flat, MergeBinaries;
    FlatOfKeys(t, ks);
    MergeOfKeys(t, ks, Flat(KeyBindings(t, ks)));
    FreshBinaries();
  }

  lemma FreshBinaries()
    ensures MergeBinaries([], BINARIES) == BINARIES
  {
    var a, b, c := BINARIES[0], BINARIES[1], BINARIES[2];
    assert a[9] == 'g' && a[10] == 'i' && b[10] == 'h' && c[9] == 'p';
    var none: seq<string> := [];
    assert BINARIES[..2] == [a, b] && [a, b][..1] == [a] && [a][..0] == none;
    assert MergeBinaries([], []) == [];
    assert MergeBinaries([], [a]) == [a];
    assert MergeBinaries([], [a, b]) == [a, b];
  }

  lemma CanonicalHasColon(key: string)
    requires Canonical(key)
    ensures IndexOfColon(key) < |key|
    ensures key[..IndexOfColon(key)] + ":" + key[IndexOfColon(key) + 1..] == key
  {
    hide SpecKey, IndexOfColon, Atoi, ValidHost, SplitHostSpec;
    assert IndexOfColon(key) < |key| by { SplitNeedsColon(key); }
    Rejoined(key, IndexOfColon(key));
  }

  lemma SplitNeedsColon(spec: string)
    requires SplitHostSpec(spec).Some?
    ensures IndexOfColon(spec) < |spec|
  {
    hide IndexOfColon, Atoi, ValidHost;
  }

  lemma Rejoined(s: string, i: nat)
    requires i < |s| && s[i] == ':'
    ensures s[..i] + ":" + s[i + 1..] == s
  {}

  predicate Within(ks: seq<string>, p: Policy) {
    forall k :: k in ks ==> k in p
  }

  predicate ClashFree(p: Policy, t: Table, ks: seq<string>)
    requires Within(ks, p)
  {
    forall k :: k in ks && p[k].Some? ==> !RuleClashes(t, p[k].value)
  }

  predicate DeclaredIn(p: Policy, ks: seq<string>, key: string)
    requires Within(ks, p)
  {
    exists k :: k in ks && Declares(p[k], key)
  }

  /** stamped holds the bound keys that these rules declare. */
  ghost predicate Collected(p: Policy, t: Table, ks: seq<string>, stamped: set<string>)
    requires Within(ks, p)
  {
    forall key :: key in stamped <==> key in t.providers && DeclaredIn(p, ks, key)
  }

  /** The loop over the rules in key order. */
  method StampRules(p: Policy, t: Table, keys: seq<string>)
      returns (clash: bool, ops: seq<AddRule>, stamped: set<string>)
    requires Lists(keys, p.Keys)
    ensures forall k :: k in keys ==> k in p
    ensures clash <==> Clashes(p, t)
    ensures !clash ==> ops == StampOps(t, p, keys)
    ensures !clash ==> forall key :: key in stamped <==> key in t.providers && Declared(p, key)
  {
    KeysListed(p, keys);
    hide *;
    clash, ops, stamped := false, [], {};
    NothingYet(p, t);
    assert keys[..0] == [];
    var i := 0;
    while i < |keys|
      invariant 0 <= i <= |keys|
      invariant Progress(p, t, keys[..i], ops, stamped)
    {
      var k := keys[i];
      assert keys[..i + 1] == keys[..i] + [k];
      if p[k].Some? {
        var bad, endpoints, changed, declared := RewriteRule(t, p[k].value);
        if bad {
          ClashAt(p, t, k);
          return true, [], {};
        }
        NextRule(p, t, keys[..i], ops, stamped, k, endpoints, declared);
        stamped := stamped + declared;
        if changed {
          ops := ops + [AddRule(k, Rule(p[k].value.name, endpoints, p[k].value.binaries))];
        }
      } else {
        NextNil(p, t, keys[..i], ops, stamped, k);
      }
      i := i + 1;
    }
    assert keys[..i] == keys;
    AllStamped(p, t, keys, ops, stamped);
  }

  /** What the loop has done after the rules listed. */
  ghost predicate Progress(p: Policy, t: Table, ks: seq<string>, ops: seq<AddRule>, stamped: set<string>) {
    Within(ks, p) && ops == StampOps(t, p, ks) && ClashFree(p, t, ks) && Collected(p, t, ks, stamped)
  }

  lemma NextRule(p: Policy, t: Table, ks: seq<string>, ops: seq<AddRule>, stamped: set<string>, k: string,
                 endpoints: seq<Option<Endpoint>>, declared: set<string>)
    requires Progress(p, t, ks, ops, stamped) && k in p && p[k].Some? && !RuleClashes(t, p[k].value)
    requires endpoints == StampAll(t, NonNil(p[k].value.endpoints))
    requires forall key :: key in declared <==> key in t.providers && Declares(Some(p[k].value), key)
    ensures var rule := p[k].value;
            Progress(p, t, ks + [k],
                     if NeedsStamp(t, rule) then ops + [AddRule(k, Rule(rule.name, endpoints, rule.binaries))] else ops,
                     stamped + declared)
  {
    hide RuleClashes, NeedsStamp, Declares, NonNil, StampRule, StampAll, StampOps, Collected, ClashFree;
    StampRuleIs(t, p[k].value);
    StampOpsNext(t, p, ks, k);
    CollectNext(p, t, ks, k, stamped, declared);
    ClashFreeNext(p, t, ks, k);
  }

  lemma NextNil(p: Policy, t: Table, ks: seq<string>, ops: seq<AddRule>, stamped: set<string>, k: string)
    requires Progress(p, t, ks, ops, stamped) && k in p && p[k].None?
    ensures Progress(p, t, ks + [k], ops, stamped)
  {
    hide RuleClashes, NeedsStamp, Declares, StampRule, StampOps, Collected, ClashFree;
    NilDeclares();
    StampOpsNext(t, p, ks, k);
    CollectNext(p, t, ks, k, stamped, {});
    ClashFreeNext(p, t, ks, k);
    assert stamped + {} == stamped;
  }

  lemma AllStamped(p: Policy, t: Table, keys: seq<string>, ops: seq<AddRule>, stamped: set<string>)
    requires (forall k :: k in keys <==> k in p) && Progress(p, t, keys, ops, stamped)
    ensures !Clashes(p, t) && ops == StampOps(t, p, keys)
    ensures forall key :: key in stamped <==> key in t.providers && Declared(p, key)
  {
    hide Clashes, Declared, StampOps, Collected, ClashFree;
    NoClashIn(p, t, keys);
    AllCollected(p, t, keys, stamped);
  }

  lemma NothingYet(p: Policy, t: Table)
    ensures Progress(p, t, [], [], {})
  {}

  lemma StampOpsNext(t: Table, p: Policy, ks: seq<string>, k: string)
    requires Within(ks, p) && k in p && Within(ks + [k], p)
    ensures StampOps(t, p, ks + [k]) == StampOps(t, p, ks) +
            if p[k].Some? && NeedsStamp(t, p[k].value) then [AddRule(k, StampRule(t, p[k].value))] else []
  {
    hide NeedsStamp, StampRule;
    assert (ks + [k])[..|ks|] == ks;
  }

  lemma CollectNext(p: Policy, t: Table, ks: seq<string>, k: string, stamped: set<string>, declared: set<string>)
    requires Within(ks, p) && k in p && Within(ks + [k], p) && Collected(p, t, ks, stamped)
    requires forall key :: key in declared <==> key in t.providers && Declares(p[k], key)
    ensures Collected(p, t, ks + [k], stamped + declared)
  {
    hide Declares;
    forall key
      ensures DeclaredIn(p, ks + [k], key) <==> DeclaredIn(p, ks, key) || Declares(p[k], key)
    {
      assert k in ks + [k];
    }
  }

  lemma ClashFreeNext(p: Policy, t: Table, ks: seq<string>, k: string)
    requires Within(ks, p) && k in p && Within(ks + [k], p) && ClashFree(p, t, ks)
    requires p[k].Some? ==> !RuleClashes(t, p[k].value)
    ensures ClashFree(p, t, ks + [k])
  {
    hide RuleClashes;
  }

  lemma AllCollected(p: Policy, t: Table, keys: seq<string>, stamped: set<string>)
    requires (forall k :: k in keys <==> k in p) && Collected(p, t, keys, stamped)
    ensures forall key :: key in stamped <==> key in t.providers && Declared(p, key)
  {
    hide Declares;
    forall key
      ensures DeclaredIn(p, keys, key) <==> Declared(p, key)
    {}
  }

  lemma KeysListed(p: Policy, keys: seq<string>)
    requires Lists(keys, p.Keys)
    ensures forall k :: k in keys <==> k in p
  {}

  lemma ClashAt(p: Policy, t: Table, k: string)
    requires k in p && p[k].Some? && RuleClashes(t, p[k].value)
    ensures Clashes(p, t)
  {
    hide RuleClashes;
  }

  lemma NoClashIn(p: Policy, t: Table, keys: seq<string>)
    requires (forall k :: k in keys <==> k in p) && ClashFree(p, t, keys)
    ensures !Clashes(p, t)
  {
    hide RuleClashes;
  }

  /** The additive fallback for the keys no rule declares. */
  method Fallback(p: Policy, t: Table, stamped: set<string>) returns (ops: seq<AddRule>)
    requires TableOk(t)
    requires forall key :: key in stamped <==> key in t.providers && Declared(p, key)
    ensures var missing := Undeclared(p, t.order);
            ops == if missing == [] then [] else [AddRule(RULE_NAME, AdditiveRule(t, missing))]
  {
    hide Merged, Canonical, AdditiveRule, Declared, IndexOfColon, EndpointKey, KeyBindings;
    NoKeys(t);
    var missing: seq<string>, extra: seq<Binding> := [], [];
    var j := 0;
    while j < |t.order|
      invariant 0 <= j <= |t.order|
      invariant missing == Undeclared(p, t.order[..j]) && extra == KeyBindings(t, missing)
    {
      UndeclaredNext(p, t.order, j);
      var key := t.order[j];
      if key !in stamped {
        CanonicalHasColon(key);
        var c := IndexOfColon(key);
        var host, port := key[..c], key[c + 1..];
        MoreKeys(t, missing, key);
        extra := extra + [Binding(t.providers[key], [host + ":" + port])];
        missing := missing + [key];
      }
      j := j + 1;
    }
    assert t.order[..j] == t.order;
    ops := [];
    if |extra| > 0 {
      UndeclaredAre(p, t.order);
      MergeOfMissing(t, missing);
      var rule := MergePolicy(Some(Rule(RULE_NAME, [], [])), extra);
      ops := [AddRule(RULE_NAME, rule.value)];
    }
  }

  /** CredentialPolicyOps: the operations that carry the bindings into the policy, the
      rules visited in key order. */
  method CredentialPolicyOps(policy: Option<Policy>, bindings: seq<Binding>)
      returns (res: Result)
    ensures policy.None? ==> res == Outcome(policy, bindings, [])
    ensures policy.Some? ==> forall k :: k in KeyOrder(policy.value.Keys) ==> k in policy.value
    ensures policy.Some? ==> res == Outcome(policy, bindings, KeyOrder(policy.value.Keys))
  {
    hide TableOf, Flat, Clashes, Declared, StampOps, AdditiveRule;
    if policy.None? {
      return if bindings == [] then Ok([]) else Err(NilPolicy);
    }
    var p := policy.value;
    var ruleKeys := SortKeys(p.Keys);
    ListingIsUnique(ruleKeys, KeyOrder(p.Keys), p.Keys);
    assert forall k :: k in ruleKeys ==> k in p;
    if bindings == [] {
      return Ok([]);
    }
    var table := BuildTable(bindings);
    if table.None? {
      return Err(MalformedSpec);
    }
    TableKeys(Flat(bindings));
    var clash, ops, stamped := StampRules(p, table.value, ruleKeys);
    if clash {
      return Err(ConflictingProvider);
    }
    var extra := Fallback(p, table.value, stamped);
    return Ok(ops + extra);
  }

  lemma NilDeclares()
    ensures forall key :: !Declares(None, key)
  {}

  lemma StampRuleIs(t: Table, r: Rule)
    ensures StampRule(t, r) == Rule(r.name, StampAll(t, NonNil(r.endpoints)), r.binaries)
  {}

  // ---- applying the operations ----

  /** The gateway's add-rule: an upsert by key, in order. */
  function Upsert(p: Policy, ops: seq<AddRule>): Policy {
    if ops == [] then p
    else Upsert(p, ops[..|ops| - 1])[ops[|ops| - 1].key := Some(ops[|ops| - 1].rule)]
  }

  function StampedRule(t: Table, r: Option<Rule>): Option<Rule> {
    if r.Some? && NeedsStamp(t, r.value) then Some(StampRule(t, r.value)) else r
  }

  function Stamped(p: Policy, t: Table): Policy {
    map k | k in p :: StampedRule(t, p[k])
  }

  /** The policy after the operations. */
  function Final(p: Policy, t: Table): Policy {
    var missing := Undeclared(p, t.order);
    if missing == [] then Stamped(p, t) else Stamped(p, t)[RULE_NAME := Some(AdditiveRule(t, missing))]
  }

  lemma UpsertOne(p: Policy, ops: seq<AddRule>, op: AddRule)
    ensures Upsert(p, ops + [op]) == Upsert(p, ops)[op.key := Some(op.rule)]
  {
    assert (ops + [op])[..|ops|] == ops;
  }

  function PartlyStamped(p: Policy, t: Table, keys: seq<string>): Policy {
    map k | k in p :: if k in keys then StampedRule(t, p[k]) else p[k]
  }

  lemma StampOneMore(p: Policy, t: Table, front: seq<string>, last: string)
    requires last in p && last !in front
    ensures PartlyStamped(p, t, front + [last]) == PartlyStamped(p, t, front)[last := StampedRule(t, p[last])]
    ensures StampedRule(t, p[last]) == p[last] ==> PartlyStamped(p, t, front + [last]) == PartlyStamped(p, t, front)
  {
    hide StampedRule;
  }

  lemma {:induction false} UpsertStamps(p: Policy, t: Table, keys: seq<string>)
    requires Distinct(keys) && forall k :: k in keys ==> k in p
    ensures Upsert(p, StampOps(t, p, keys)) == PartlyStamped(p, t, keys)
  {
    hide NeedsStamp, StampRule, PartlyStamped, Upsert;
    if keys == [] {
      assert PartlyStamped(p, t, []) == p && Upsert(p, []) == p by { NothingStamped(p, t); }
    } else {
      var n := |keys| - 1;
      var front, last := keys[..n], keys[n];
      assert keys == front + [last] && last !in front;
      UpsertStamps(p, t, front);
      StampOneMore(p, t, front, last);
      if p[last].Some? && NeedsStamp(t, p[last].value) {
        UpsertOne(p, StampOps(t, p, front), AddRule(last, StampRule(t, p[last].value)));
      } else {
        assert StampOps(t, p, keys) == StampOps(t, p, front);
      }
    }
  }

  lemma NothingStamped(p: Policy, t: Table)
    ensures PartlyStamped(p, t, []) == p && Upsert(p, []) == p
  {}

  lemma ListsAreDistinct(keys: seq<string>, all: set<string>)
    requires Lists(keys, all)
    ensures Distinct(keys)
  {}

  /** Applying the emitted operations by upsert gives the stamped policy. */
  lemma OpsApply(p: Policy, t: Table, keys: seq<string>)
    requires Lists(keys, p.Keys)
    ensures forall k :: k in keys ==> k in p
    ensures Upsert(p, OpsFor(p, t, keys)) == Final(p, t)
  {
    hide StampOps, Undeclared, AdditiveRule, StampedRule;
    assert forall k :: k in keys <==> k in p;
    ListsAreDistinct(keys, p.Keys);
    UpsertStamps(p, t, keys);
    assert PartlyStamped(p, t, keys) == Stamped(p, t);
    var missing := Undeclared(p, t.order);
    if missing == [] {
      assert OpsFor(p, t, keys) == StampOps(t, p, keys);
    } else {
      UpsertOne(p, StampOps(t, p, keys), AddRule(RULE_NAME, AdditiveRule(t, missing)));
    }
  }

  // ---- what the stamped policy says ----

  lemma {:induction false} NonNilOfSome(es: seq<Option<Endpoint>>)
    requires forall i :: 0 <= i < |es| ==> es[i].Some?
    ensures |NonNil(es)| == |es| && forall i :: 0 <= i < |es| ==> NonNil(es)[i] == es[i].value
  {
    if es != [] {
      NonNilOfSome(es[..|es| - 1]);
    }
  }

  lemma StampKeepsKey(t: Table, e: Endpoint)
    ensures KeyOf(Stamp(t, e)) == KeyOf(e)
    ensures Bare(t, e) ==> Stamp(t, e).provider == t.providers[KeyOf(e)] && IsL7(Stamp(t, e))
    ensures !Bare(t, e) ==> Stamp(t, e) == e
  {
    hide EndpointKey;
  }

  /** The declarations of a stamped rule are the stamped declarations. */
  lemma StampedEndpoints(t: Table, r: Rule)
    ensures var es, es' := NonNil(r.endpoints), NonNil(StampRule(t, r).endpoints);
            |es'| == |es| && forall i :: 0 <= i < |es| ==> es'[i] == Stamp(t, es[i])
  {
    hide Stamp;
    NonNilOfSome(StampAll(t, NonNil(r.endpoints)));
  }

  lemma StampKeepsDeclared(p: Policy, t: Table, k: string, key: string)
    requires k in p
    ensures Declares(Stamped(p, t)[k], key) <==> Declares(p[k], key)
  {
    hide NonNil, KeyOf, Stamp, StampRule, NeedsStamp;
    var r, r' := p[k], StampedRule(t, p[k]);
    if r' != r {
      var es, es' := NonNil(r.value.endpoints), NonNil(r'.value.endpoints);
      StampedEndpoints(t, r.value);
      if Declares(r, key) {
        var e :| e in es && KeyOf(e) == key;
        var i :| 0 <= i < |es| && es[i] == e;
        StampKeepsKey(t, e);
        assert es'[i] in es' && KeyOf(es'[i]) == key;
      }
      if Declares(r', key) {
        var e' :| e' in es' && KeyOf(e') == key;
        var i :| 0 <= i < |es'| && es'[i] == e';
        StampKeepsKey(t, es[i]);
        assert es[i] in es && KeyOf(es[i]) == key;
      }
    }
  }

  /** The fallback rule declares exactly the missing keys, each with its provider. */
  lemma AdditiveDeclares(t: Table, ks: seq<string>)
    requires forall k :: k in ks ==> Canonical(k)
    ensures forall key :: Declares(Some(AdditiveRule(t, ks)), key) <==> key in ks
    ensures forall e :: e in NonNil(AdditiveRule(t, ks).endpoints) ==> e.provider == ProviderOf(t, KeyOf(e)) && Open(e)
  {
    hide SplitHostSpec, EndpointKey, Canonical, AdditiveEndpoint, NonNil, KeyOf, Open, ProviderOf;
    var os := AdditiveRule(t, ks).endpoints;
    forall i | 0 <= i < |ks|
      ensures os[i].Some? && KeyOf(os[i].value) == ks[i]
      ensures os[i].value.provider == ProviderOf(t, ks[i]) && Open(os[i].value)
    {
      AdditiveKey(t, ks[i]);
    }
    NonNilOfSome(os);
    var es := NonNil(os);
    assert forall i :: 0 <= i < |ks| ==> es[i] == os[i].value && es[i] in es;
    forall key | key in ks
      ensures Declares(Some(AdditiveRule(t, ks)), key)
    {
      var i :| 0 <= i < |ks| && ks[i] == key;
      assert es[i] in es && KeyOf(es[i]) == key;
    }
  }

  ghost predicate CarriesProvider(t: Table, r: Option<Rule>) {
    r.Some? ==> forall e :: e in NonNil(r.value.endpoints) && Bound(t, e) ==> e.provider == t.providers[KeyOf(e)]
  }

  lemma StampedCarries(t: Table, r: Rule)
    requires !RuleClashes(t, r)
    ensures CarriesProvider(t, StampedRule(t, Some(r)))
  {
    hide NonNil, KeyOf, Stamp, StampRule;
    if NeedsStamp(t, r) {
      StampedEndpoints(t, r);
      var es, es' := NonNil(r.endpoints), NonNil(StampRule(t, r).endpoints);
      forall e' | e' in es' && Bound(t, e')
        ensures e'.provider == t.providers[KeyOf(e')]
      {
        var i :| 0 <= i < |es'| && es'[i] == e';
        StampKeepsKey(t, es[i]);
        assert es[i] in es && !Clash(t, es[i]);
      }
    } else {
      forall e | e in NonNil(r.endpoints) && Bound(t, e)
        ensures e.provider == t.providers[KeyOf(e)]
      {
        assert !Clash(t, e) && !Bare(t, e);
      }
    }
  }

  /** Conflict-free: in the stamped policy every declaration of a bound key, in every
      rule, carries the provider the table binds it to. */
  lemma StampedIsConflictFree(p: Policy, t: Table, k: string)
    requires TableOk(t) && !Clashes(p, t) && k in Final(p, t)
    ensures CarriesProvider(t, Final(p, t)[k])
  {
    hide RuleClashes, StampedRule, Undeclared, NonNil, KeyOf, AdditiveRule, Canonical;
    var missing := Undeclared(p, t.order);
    UndeclaredAre(p, t.order);
    if missing != [] && k == RULE_NAME {
      AdditiveDeclares(t, missing);
    } else if p[k].Some? {
      StampedCarries(t, p[k].value);
    } else {
      NilIsKept(t);
    }
  }

  lemma NilIsKept(t: Table)
    ensures StampedRule(t, None) == None
  {}

  // ---- complete, framed, fixpoint, fail closed: exactly when ----

  predicate DeclaredBeside(p: Policy, key: string) {
    exists k :: k in p && k != RULE_NAME && Declares(p[k], key)
  }

  /** The fallback rule is about to replace a rule already stored under its key, and
      with it the only declaration of some bound key. */
  predicate Orphans(p: Policy, t: Table) {
    && RULE_NAME in p && Undeclared(p, t.order) != []
    && exists key :: key in t.providers && Declares(p[RULE_NAME], key) && !DeclaredBeside(p, key)
  }

  ghost predicate Complete(p: Policy, t: Table) {
    forall key :: key in t.providers ==> Declared(p, key)
  }

  /** Which keys the stamped policy declares. */
  lemma FinalDeclares(p: Policy, t: Table, key: string)
    requires TableOk(t) && key in t.providers
    ensures Declared(Final(p, t), key) <==>
            if Undeclared(p, t.order) == [] then Declared(p, key)
            else DeclaredBeside(p, key) || key in Undeclared(p, t.order)
  {
    hide Declares, Stamped, Undeclared, AdditiveRule, Canonical;
    var missing, f := Undeclared(p, t.order), Final(p, t);
    UndeclaredAre(p, t.order);
    AdditiveDeclares(t, missing);
    StampedKeys(p, t);
    forall k | k in p
      ensures Declares(Stamped(p, t)[k], key) <==> Declares(p[k], key)
    {
      StampKeepsDeclared(p, t, k, key);
    }
    if Declared(p, key) {
      var k :| k in p && Declares(p[k], key);
      assert k in f && (missing == [] || k != RULE_NAME ==> f[k] == Stamped(p, t)[k]);
    }
    if DeclaredBeside(p, key) {
      var k :| k in p && k != RULE_NAME && Declares(p[k], key);
      assert k in f && f[k] == Stamped(p, t)[k];
    }
    if missing != [] && key in missing {
      assert RULE_NAME in f && Declares(f[RULE_NAME], key);
    }
    if Declared(f, key) {
      var k :| k in f && Declares(f[k], key);
      assert missing == [] || k != RULE_NAME ==> k in p && Declares(p[k], key);
    }
  }

  lemma StampedKeys(p: Policy, t: Table)
    ensures Stamped(p, t).Keys == p.Keys
  {}

  /** Complete: every bound host:port is declared somewhere in the stamped policy,
      exactly when the fallback rule orphans none. */
  lemma CompleteIff(p: Policy, t: Table)
    requires TableOk(t)
    ensures Complete(Final(p, t), t) <==> !Orphans(p, t)
  {
    hide Declares, Undeclared, Final, Canonical;
    UndeclaredAre(p, t.order);
    forall key | key in t.providers
      ensures Declared(Final(p, t), key) <==>
              !(RULE_NAME in p && Undeclared(p, t.order) != [] && Declares(p[RULE_NAME], key) && !DeclaredBeside(p, key))
    {
      FinalDeclares(p, t, key);
      SplitDeclared(p, key);
    }
  }

  lemma SplitDeclared(p: Policy, key: string)
    ensures Declared(p, key) <==> DeclaredBeside(p, key) || (RULE_NAME in p && Declares(p[RULE_NAME], key))
  {
    hide Declares;
  }

  /** An endpoint after stamping: only a bare bound one changes; it gains the provider and
      keeps everything else. One that was inspected keeps its own restrictions; one that
      was not is inspected now, and any method and path still pass. */
  predicate EndpointFramed(t: Table, e: Endpoint, e': Endpoint) {
    if Bare(t, e) then
      && e'.host == e.host && e'.port == e.port && e'.access == e.access && e'.rest == e.rest
      && e'.provider == t.providers[KeyOf(e)]
      && if IsL7(e) then e'.protocol == e.protocol && e'.rules == e.rules
         else e'.protocol == "rest" && e'.rules == [L7Rule("*", "**")]
    else e' == e
  }

  /** A rule after stamping: name and binaries unchanged, declarations framed one by
      one; a rule with nothing to stamp is untouched. */
  ghost predicate RuleFramed(t: Table, r: Option<Rule>, r': Option<Rule>) {
    if r.Some? && NeedsStamp(t, r.value) then
      && r'.Some? && r'.value.name == r.value.name && r'.value.binaries == r.value.binaries
      && var es, es' := NonNil(r.value.endpoints), NonNil(r'.value.endpoints);
         |es'| == |es| && forall i :: 0 <= i < |es| ==> EndpointFramed(t, es[i], es'[i])
    else r' == r
  }

  ghost predicate Framed(p: Policy, t: Table, q: Policy) {
    q.Keys <= p.Keys + {RULE_NAME} && forall k :: k in p ==> k in q && RuleFramed(t, p[k], q[k])
  }

  lemma StampIsFramed(t: Table, r: Option<Rule>)
    ensures RuleFramed(t, r, StampedRule(t, r))
  {
    hide NonNil, KeyOf, NeedsStamp;
    if r.Some? {
      StampedEndpoints(t, r.value);
    }
  }

  lemma FramedKeepsKeys(t: Table, r: Rule, r': Option<Rule>, key: string)
    requires RuleFramed(t, Some(r), r') && Declares(r', key)
    ensures Declares(Some(r), key)
  {
    hide NonNil, NeedsStamp, IsL7;
    if NeedsStamp(t, r) {
      var es, es' := NonNil(r.endpoints), NonNil(r'.value.endpoints);
      var e' :| e' in es' && KeyOf(e') == key;
      var i :| 0 <= i < |es'| && es'[i] == e';
      assert EndpointFramed(t, es[i], es'[i]);
      assert es[i] in es && KeyOf(es[i]) == key;
    }
  }

  /** Framed: all other endpoints, rule names and binaries are unchanged, exactly when
      the fallback rule replaces no rule the policy already had under its key. */
  lemma FramedIff(p: Policy, t: Table)
    requires TableOk(t)
    ensures Framed(p, t, Final(p, t)) <==> (RULE_NAME !in p || Undeclared(p, t.order) == [])
  {
    hide Declares, Undeclared, RuleFramed, StampedRule, AdditiveRule, Canonical;
    var missing, f := Undeclared(p, t.order), Final(p, t);
    UndeclaredAre(p, t.order);
    AdditiveDeclares(t, missing);
    forall k | k in p
      ensures RuleFramed(t, p[k], StampedRule(t, p[k]))
    {
      StampIsFramed(t, p[k]);
    }
    if RULE_NAME in p && missing != [] {
      assert Declares(f[RULE_NAME], missing[0]) && missing[0] in missing;
      assert !Declares(p[RULE_NAME], missing[0]);
      if Framed(p, t, f) {
        assert RuleFramed(t, p[RULE_NAME], f[RULE_NAME]);
        NilFrame(t, f[RULE_NAME]);
        FramedKeepsKeys(t, p[RULE_NAME].value, f[RULE_NAME], missing[0]);
      }
    }
  }

  lemma NilFrame(t: Table, r': Option<Rule>)
    ensures RuleFramed(t, None, r') ==> r' == None
  {}

  /** Every provider the bindings list is a non-empty name, as ParseBindings checks. */
  predicate Named(t: Table) {
    forall key :: key in t.providers ==> t.providers[key] != ""
  }

  lemma {:induction false} NoStampOps(t: Table, p: Policy, keys: seq<string>)
    requires forall k :: k in keys ==> k in p
    requires forall k :: k in p ==> CarriesProvider(t, p[k])
    requires Named(t)
    ensures StampOps(t, p, keys) == []
  {
    hide NonNil, KeyOf;
    if keys != [] {
      NoStampOps(t, p, keys[..|keys| - 1]);
      var k := keys[|keys| - 1];
      assert CarriesProvider(t, p[k]);
    }
  }

  lemma NoClashes(t: Table, p: Policy)
    requires forall k :: k in p ==> CarriesProvider(t, p[k])
    ensures !Clashes(p, t)
  {
    hide NonNil, KeyOf;
    forall k | k in p && p[k].Some?
      ensures !RuleClashes(t, p[k].value)
    {
      assert CarriesProvider(t, p[k]);
    }
  }

  lemma NothingUndeclared(p: Policy, t: Table)
    requires TableOk(t)
    ensures Undeclared(p, t.order) == [] <==> Complete(p, t)
  {
    hide Declared, Canonical;
    UndeclaredAre(p, t.order);
    var us := Undeclared(p, t.order);
    assert us != [] ==> us[0] in us;
  }

  /** Fixpoint: running the stamping again on its own result emits no operations,
      exactly when the first run orphaned no bound key. */
  lemma FixpointIff(p: Policy, t: Table, bindings: seq<Binding>, keys: seq<string>)
    requires bindings != [] && TableOf(Flat(bindings)) == Some(t) && Named(t)
    requires !Clashes(p, t) && Lists(keys, Final(p, t).Keys)
    ensures forall k :: k in keys ==> k in Final(p, t)
    ensures Outcome(Some(Final(p, t)), bindings, keys) == Ok([]) <==> !Orphans(p, t)
  {
    hide TableOf, Flat, Final, Clashes, CarriesProvider, StampOps, Undeclared, AdditiveRule, Orphans, Complete, Named;
    var f := Final(p, t);
    TableKeys(Flat(bindings));
    assert forall k :: k in keys <==> k in f;
    forall k | k in f
      ensures CarriesProvider(t, f[k])
    {
      StampedIsConflictFree(p, t, k);
    }
    NoClashes(t, f);
    NoStampOps(t, f, keys);
    NothingUndeclared(f, t);
    CompleteIff(p, t);
  }

  /** Fails closed: with bindings to apply, the call errors exactly when the policy is
      nil, a host pattern is malformed, or a declared bound endpoint already names a
      different provider. */
  lemma FailsClosedIff(policy: Option<Policy>, bindings: seq<Binding>, keys: seq<string>)
    requires bindings != [] && (policy.Some? ==> Lists(keys, policy.value.Keys))
    ensures policy.Some? ==> forall k :: k in keys ==> k in policy.value
    ensures Outcome(policy, bindings, keys).Err? <==>
            || policy.None?
            || (exists i :: 0 <= i < |Flat(bindings)| && Malformed(Flat(bindings)[i].0))
            || (TableOf(Flat(bindings)).Some? && Clashes(policy.value, TableOf(Flat(bindings)).value))
  {
    hide TableOf, Flat, Clashes, OpsFor, Malformed;
    TableExists(Flat(bindings));
  }

  /** The rule that stamping stores for hosts the policy does not declare: each endpoint
      carries its provider and is open to traffic, for the three programs. */
  ghost predicate FallbackAdmits(t: Table, r: Option<Rule>) {
    && r.Some? && r.value.name == "m1_credential_bindings"
    && r.value.binaries == ["/usr/bin/git", "/usr/bin/gh", "/usr/bin/pi"]
    && forall e :: e in NonNil(r.value.endpoints) ==> e.provider == ProviderOf(t, KeyOf(e)) && Open(e)
  }

  lemma FallbackIsOpen(p: Policy, t: Table)
    requires TableOk(t) && RULE_NAME !in p && RULE_NAME in Final(p, t)
    ensures FallbackAdmits(t, Final(p, t)[RULE_NAME])
  {
    hide Undeclared, Stamped, NonNil, KeyOf, Open, ProviderOf, Canonical;
    StampedKeys(p, t);
    UndeclaredAre(p, t.order);
    AdditiveDeclares(t, Undeclared(p, t.order));
  }

  /** Stamping end to end, on a policy without a stored fallback rule: the operations
      answered, applied by upsert, leave every declaration of every bound host:port with
      its first-listed provider, every bound host:port declared, every endpoint that gained
      a credential inspected and open to the traffic it admitted before, and everything
      else as it was. */
  lemma StampingIsSound(p: Policy, bindings: seq<Binding>, keys: seq<string>)
    requires bindings != [] && Lists(keys, p.Keys) && RULE_NAME !in p
    requires forall k :: k in keys ==> k in p
    requires Outcome(Some(p), bindings, keys).Ok?
    ensures TableOf(Flat(bindings)).Some?
    ensures var t, q := TableOf(Flat(bindings)).value, Upsert(p, Outcome(Some(p), bindings, keys).ops);
            && (forall i :: 0 <= i < |Flat(bindings)| && FirstListing(Flat(bindings), i) ==>
                  ProviderOf(t, SpecKey(Flat(bindings)[i].0)) == Flat(bindings)[i].1)
            && (forall k :: k in q ==> CarriesProvider(t, q[k]))
            && Complete(q, t)
            && Framed(p, t, q)
            && (RULE_NAME in q ==> FallbackAdmits(t, q[RULE_NAME]))
  {
    hide TableOf, Flat, Clashes, CarriesProvider, Complete, Framed, FirstListing, SpecKey, Final, OpsFor, Undeclared,
         FallbackAdmits;
    var flat := Flat(bindings);
    var t := TableOf(flat).value;
    TableKeys(flat);
    forall i | 0 <= i < |flat| && FirstListing(flat, i)
      ensures ProviderOf(t, SpecKey(flat[i].0)) == flat[i].1
    {
      TableFirstWins(flat, i);
    }
    OpsApply(p, t, keys);
    forall k | k in Final(p, t)
      ensures CarriesProvider(t, Final(p, t)[k])
    {
      StampedIsConflictFree(p, t, k);
    }
    CompleteIff(p, t);
    FramedIff(p, t);
    if RULE_NAME in Final(p, t) {
      FallbackIsOpen(p, t);
    }
  }

  /** The answer does not depend on how the rule map is walked. */
  lemma OutcomeIsDeterministic(p: Policy, bindings: seq<Binding>, keys: seq<string>, keys': seq<string>)
    requires Lists(keys, p.Keys) && Lists(keys', p.Keys)
    ensures forall k :: k in keys ==> k in p
    ensures Outcome(Some(p), bindings, keys) == Outcome(Some(p), bindings, keys') && keys == keys'
  {
    hide Outcome;
    ListingIsUnique(keys, keys', p.Keys);
  }

  // ---- a policy that stamping never settles on ----

  lemma OneLetterKey(c: char)
    requires c == 'a' || c == 'b'
    ensures SplitHostSpec([c] + ":1") == Some(([c], 1)) && EndpointKey([c], 1) == [c] + ":1"
    ensures SpecKey([c] + ":1") == [c] + ":1"
  {
    var spec := [c] + ":1";
    assert spec == [c, ':', '1'];
    assert spec[1..] == [':', '1'] && IndexOfColon(spec[1..]) == 0;
    assert IndexOfColon(spec) == 1;
    assert spec[..1] == [c] && spec[2..] == ['1'];
    assert ['1'][..0] == "" && Decimal.Value("1") == 1;
    assert Decimal.Print(1) == "1";
    assert ToLower([c]) == [c];
  }

  lemma TwoKeyTable(a: string, b: string, x: string)
    requires Canonical(a) && Canonical(b) && a != b
    ensures TableOf(Flat([Binding(x, [a, b])])) == Some(Table(map[a := x, b := x], [a, b]))
  {
    hide SplitHostSpec, EndpointKey, SpecKey, Malformed, AddSpec;
    var bind := Binding(x, [a, b]);
    var u, v := (a, x), (b, x);
    assert [bind][..0] == [] && Flat([bind]) == [] + Pairs(bind, 2) == [u, v];
    assert [u, v] == [u] + [v] && [u] == [] + [u];
    TableAppend([], u);
    TableAppend([u], v);
    var t0, t1 := Table(map[], []), Table(map[a := x], [a]);
    AddSpecIs(t0, a, x);
    assert TableOf([]) == Some(t0);
    assert t0.order + [a] == [a] && t0.providers[a := x] == map[a := x];
    assert AddSpec(t0, a, x) == Some(t1);
    assert TableOf([u]) == Some(t1);
    AddSpecIs(t1, b, x);
    assert [a] + [b] == [a, b] && t1.providers[b := x] == map[a := x, b := x];
  }

  /** A policy whose stored fallback rule holds the only declaration of one bound key
      loses it when another key has to be added, whatever the two keys. */
  lemma FallbackOrphans(a: string, b: string, x: string, e: Endpoint)
    requires Canonical(a) && Canonical(b) && a != b && KeyOf(e) == a && e.provider == x != ""
    ensures var p: Policy := map[RULE_NAME := Some(Rule(RULE_NAME, [Some(e)], BINARIES))];
            var t := Table(map[a := x, b := x], [a, b]);
            TableOf(Flat([Binding(x, [a, b])])) == Some(t) && Named(t) && !Clashes(p, t) && Orphans(p, t)
  {
    hide SplitHostSpec, EndpointKey, SpecKey, NonNil, KeyOf, Canonical, TableOf, Flat;
    var r := Rule(RULE_NAME, [Some(e)], BINARIES);
    var p: Policy := map[RULE_NAME := Some(r)];
    var t := Table(map[a := x, b := x], [a, b]);
    TwoKeyTable(a, b, x);
    NonNilOfSome(r.endpoints);
    assert NonNil(r.endpoints) == [e];
    OneDeclaration(p, e, r);
    assert !Declared(p, b) && !DeclaredBeside(p, a);
    UndeclaredNext(p, t.order, 1);
    assert t.order[..2] == t.order;
  }

  lemma OneDeclaration(p: Policy, e: Endpoint, r: Rule)
    requires p == map[RULE_NAME := Some(r)] && NonNil(r.endpoints) == [e]
    ensures forall key :: Declares(Some(r), key) <==> key == KeyOf(e)
  {
    hide NonNil, KeyOf;
    assert e in NonNil(r.endpoints);
  }

  /** It does happen: with a:1 in the stored rule and b:1 to add, stamping its own
      result emits operations again. */
  lemma StampingCanOrphan()
    ensures exists p: Policy, t, bindings ::
              TableOf(Flat(bindings)) == Some(t) && Named(t) && !Clashes(p, t) && Orphans(p, t)
  {
    hide SplitHostSpec, EndpointKey, TableOf, Flat, Orphans, Clashes, Named;
    OneLetterKey('a');
    OneLetterKey('b');
    var a, b := ['a'] + ":1", ['b'] + ":1";
    assert a[0] != b[0];
    FallbackOrphans(a, b, "x", BoundEndpoint(['a'], 1, "x"));
  }
}
