/** String order and sorted listings of a set, as sort.Strings leaves them. */
module Lexicographic {

  predicate Below(a: string, b: string) {
    a == "" || (b != "" && (a[0] < b[0] || (a[0] == b[0] && Below(a[1..], b[1..]))))
  }

  lemma {:induction false} Total(a: string, b: string)
    ensures Below(a, b) || Below(b, a)
    ensures Below(a, b) && Below(b, a) ==> a == b
  {
    if a != "" && b != "" && a[0] == b[0] {
      Total(a[1..], b[1..]);
      assert a == [a[0]] + a[1..] && b == [b[0]] + b[1..];
    }
  }

  lemma {:induction false} Transitive(a: string, b: string, c: string)
    requires Below(a, b) && Below(b, c)
    ensures Below(a, c)
  {
    if a != "" && a[0] == b[0] == c[0] {
      Transitive(a[1..], b[1..], c[1..]);
    }
  }

  predicate Sorted(s: seq<string>) {
    forall i, j :: 0 <= i < j < |s| ==> Below(s[i], s[j]) && s[i] != s[j]
  }

  /** s lists the set in ascending order, each member once. */
  ghost predicate Lists(s: seq<string>, keys: set<string>) {
    Sorted(s) && keys == set k | k in s
  }

  function Insert(s: seq<string>, k: string): seq<string> {
    if s == [] || Below(k, s[0]) then [k] + s else [s[0]] + Insert(s[1..], k)
  }

  lemma {:induction false} InsertMembers(s: seq<string>, k: string)
    ensures forall x :: x in Insert(s, k) <==> x == k || x in s
  {
    if s != [] && !Below(k, s[0]) {
      InsertMembers(s[1..], k);
      assert s == [s[0]] + s[1..];
    }
  }

  lemma {:induction false} InsertSorted(s: seq<string>, k: string)
    requires Sorted(s) && k !in s
    ensures Sorted(Insert(s, k))
  {
    hide Below;
    if s != [] {
      Total(k, s[0]);
      SortedTail(s);
      if Below(k, s[0]) {
        forall i | 0 <= i < |s|
          ensures Below(k, s[i])
        {
          if i > 0 { Transitive(k, s[0], s[i]); }
        }
        SortedCons(k, s);
      } else {
        InsertSorted(s[1..], k);
        InsertMembers(s[1..], k);
        SortedCons(s[0], Insert(s[1..], k));
      }
    }
  }

  lemma SortedTail(s: seq<string>)
    requires Sorted(s) && s != []
    ensures Sorted(s[1..]) && forall x :: x in s[1..] ==> Below(s[0], x) && s[0] != x
  {
    hide Below;
    var rest := s[1..];
    assert forall i :: 0 <= i < |rest| ==> rest[i] == s[i + 1];
  }

  lemma SortedCons(a: string, r: seq<string>)
    requires Sorted(r) && forall x :: x in r ==> Below(a, x) && a != x
    ensures Sorted([a] + r)
  {
    hide Below;
    var s := [a] + r;
    assert forall i :: 0 < i < |s| ==> s[i] == r[i - 1] && s[i] in r;
  }

  lemma InsertLists(s: seq<string>, k: string, keys: set<string>)
    requires k in keys && Lists(s, keys - {k})
    ensures Lists(Insert(s, k), keys)
  {
    assert forall x :: x in s <==> x in keys - {k};
    InsertMembers(s, k);
    InsertSorted(s, k);
    var r := Insert(s, k);
    assert forall x :: x in r <==> x in keys;
    assert keys == set x | x in r;
  }

  /** The listing of a set. */
  ghost function KeyOrder(keys: set<string>): (s: seq<string>)
    ensures Lists(s, keys)
    decreases keys
  {
    if keys == {} then []
    else
      var k :| k in keys;
      InsertLists(KeyOrder(keys - {k}), k, keys);
      Insert(KeyOrder(keys - {k}), k)
  }

  method SortKeys(keys: set<string>) returns (s: seq<string>)
    ensures Lists(s, keys)
  {
    s := [];
    var left := keys;
    while left != {}
      invariant left <= keys && Lists(s, keys - left)
      decreases |left|
    {
      var k :| k in left;
      InsertMembers(s, k);
      InsertSorted(s, k);
      assert forall x :: x in keys - (left - {k}) <==> x == k || x in keys - left;
      s := Insert(s, k);
      left := left - {k};
    }
    assert keys - left == keys;
  }

  /** The listing is determined by the set, so the emission order is too. */
  lemma {:induction false} ListingIsUnique(a: seq<string>, b: seq<string>, keys: set<string>)
    requires Lists(a, keys) && Lists(b, keys)
    ensures a == b
  {
    if a == [] {
      assert forall i :: 0 <= i < |b| ==> b[i] in keys;
    } else {
      assert a[0] in keys;
      assert b != [];
      assert b[0] in keys;
      var i :| 0 <= i < |a| && a[i] == b[0];
      var j :| 0 <= j < |b| && b[j] == a[0];
      Total(a[0], b[0]);
      assert a[0] == b[0];
      assert Lists(a[1..], keys - {a[0]}) by { TailLists(a, keys); }
      assert Lists(b[1..], keys - {a[0]}) by { TailLists(b, keys); }
      ListingIsUnique(a[1..], b[1..], keys - {a[0]});
      assert a == [a[0]] + a[1..] && b == [b[0]] + b[1..];
    }
  }

  lemma TailLists(a: seq<string>, keys: set<string>)
    requires a != [] && Lists(a, keys)
    ensures Lists(a[1..], keys - {a[0]})
  {
    assert forall i :: 0 <= i < |a[1..]| ==> a[1..][i] == a[i + 1];
    assert forall k :: k in a <==> k == a[0] || k in a[1..] by {
      assert a == [a[0]] + a[1..];
    }
  }
}
