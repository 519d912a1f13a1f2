/** PHP arrays with string keys, as the gateway sees them: request
    parameters and form arguments. A PHP array is an ordered map, so it is
    modelled as a sequence of key/value entries in insertion order; a well
    formed one never repeats a key. */
module PhpArrays {
  import opened Wrappers
  import opened PhpStrings

  type Entry = (string, string)
  type Params = seq<Entry>

  function KeysOf(p: Params): set<string> {
    set e | e in p :: e.0
  }

  predicate DistinctKeys(p: Params) {
    forall i, j :: 0 <= i < j < |p| ==> p[i].0 != p[j].0
  }

  /** `$p[k]`, or `None` when the key is not set. */
  function Lookup(p: Params, k: string): (r: Option<string>)
    ensures r.Some? <==> k in KeysOf(p)
    ensures r.Some? ==> (k, r.value) in p
    decreases |p|
  {
    if p == [] then None
    else if p[0].0 == k then Some(p[0].1)
    else
      assert forall e :: e in p[1..] ==> e in p;
      assert forall e :: e in p ==> e == p[0] || e in p[1..];
      Lookup(p[1..], k)
  }

  /** Entries under other keys in front of `k` do not change `$p[k]`. */
  lemma {:induction false} LookupPastOthers(a: Params, b: Params, k: string)
    requires forall i :: 0 <= i < |a| ==> a[i].0 != k
    ensures Lookup(a + b, k) == Lookup(b, k)
    decreases |a|
  {
    if a == [] {
      assert a + b == b;
    } else {
      assert (a + b)[0] == a[0];
      assert (a + b)[1..] == a[1..] + b;
      LookupPastOthers(a[1..], b, k);
    }
  }

  lemma KeysOfAppend(a: Params, b: Params)
    ensures KeysOf(a + b) == KeysOf(a) + KeysOf(b)
  {
    assert forall e :: e in a + b <==> e in a || e in b;
  }

  lemma KeysOfSingle(k: string, v: string)
    ensures KeysOf([(k, v)]) == {k}
  {
    assert forall e :: e in [(k, v)] <==> e == (k, v);
  }

  lemma KeysOfPair(a: Entry, b: Entry)
    ensures KeysOf([a, b]) == {a.0, b.0}
  {
    assert forall e :: e in [a, b] <==> e == a || e == b;
  }

  /** Entries appended behind a set key do not change `$p[k]`. */
  lemma {:induction false} LookupBeforeOthers(a: Params, b: Params, k: string)
    requires Lookup(a, k).Some?
    ensures Lookup(a + b, k) == Lookup(a, k)
    decreases |a|
  {
    assert (a + b)[0] == a[0];
    if a[0].0 != k {
      assert (a + b)[1..] == a[1..] + b;
      LookupBeforeOthers(a[1..], b, k);
    }
  }

  /** The first entry under `k` is the one `$p[k]` reads. */
  lemma LookupFirst(a: Params, k: string, v: string, b: Params)
    requires forall i :: 0 <= i < |a| ==> a[i].0 != k
    ensures Lookup(a + [(k, v)] + b, k) == Some(v)
  {
    assert a + [(k, v)] + b == a + ([(k, v)] + b);
    LookupPastOthers(a, [(k, v)] + b, k);
  }

  /** `$p[k]` reads the entry at the first position holding `k`. */
  lemma {:induction false} LookupAt(p: Params, i: nat, k: string)
    requires i < |p| && p[i].0 == k
    requires forall j :: 0 <= j < i ==> p[j].0 != k
    ensures Lookup(p, k) == Some(p[i].1)
    decreases i
  {
    if i > 0 {
      LookupAt(p[1..], i - 1, k);
    }
  }

  /** In a well-formed array the entry for a key is the only one. */
  lemma LookupDistinct(p: Params, k: string, v: string)
    requires DistinctKeys(p) && (k, v) in p
    ensures Lookup(p, k) == Some(v)
  {
    var r := Lookup(p, k);
    var i :| 0 <= i < |p| && p[i] == (k, v);
    var j :| 0 <= j < |p| && p[j] == (k, r.value);
    assert i == j;
  }

  /** `unset($p[k])`: the array without its `k` entry, order kept. */
  function Unset(p: Params, k: string): (r: Params)
    ensures forall e :: e in r <==> e in p && e.0 != k
    ensures |r| <= |p|
    decreases |p|
  {
    if p == [] then []
    else if p[0].0 == k then Unset(p[1..], k)
    else [p[0]] + Unset(p[1..], k)
  }

  /** The value of the `k` entry replaced by `v`; keys and order are kept. */
  function SetValue(p: Params, k: string, v: string): (r: Params)
    ensures |r| == |p|
    ensures forall i :: 0 <= i < |p| ==> r[i].0 == p[i].0
    ensures forall i :: 0 <= i < |p| ==> r[i].1 == (if p[i].0 == k then v else p[i].1)
    decreases |p|
  {
    if p == [] then []
    else [if p[0].0 == k then (k, v) else p[0]] + SetValue(p[1..], k, v)
  }

  /** `$p[k] = v`: an existing key keeps its position, a new key goes last. */
  function Assign(p: Params, k: string, v: string): (r: Params)
    ensures Lookup(r, k) == Some(v)
    ensures forall j :: j != k ==> Lookup(r, j) == Lookup(p, j)
    ensures KeysOf(r) == KeysOf(p) + {k}
    ensures DistinctKeys(p) ==> DistinctKeys(r)
  {
    if k in KeysOf(p) then
      var r := SetValue(p, k, v);
      SetValueLookup(p, k, v);
      assert KeysOf(r) == KeysOf(p) by {
        forall x ensures x in KeysOf(r) <==> x in KeysOf(p) {
          if x in KeysOf(r) {
            var e :| e in r && e.0 == x;
            var i :| 0 <= i < |r| && r[i] == e;
            assert p[i] in p;
          }
          if x in KeysOf(p) {
            var e :| e in p && e.0 == x;
            var i :| 0 <= i < |p| && p[i] == e;
            assert r[i] in r;
          }
        }
      }
      r
    else
      var r := p + [(k, v)];
      AppendLookup(p, k, v);
      assert KeysOf(r) == KeysOf(p) + {k} by {
        assert forall e :: e in r <==> e in p || e == (k, v);
      }
      r
  }

  lemma {:induction false} SetValueLookup(p: Params, k: string, v: string)
    requires k in KeysOf(p)
    ensures Lookup(SetValue(p, k, v), k) == Some(v)
    ensures forall j :: j != k ==> Lookup(SetValue(p, k, v), j) == Lookup(p, j)
    decreases |p|
  {
    if p[0].0 != k {
      assert forall e :: e in p ==> e == p[0] || e in p[1..];
      SetValueLookup(p[1..], k, v);
    }
    var r := SetValue(p, k, v);
    assert r[1..] == SetValue(p[1..], k, v);
    forall j | j != k
      ensures Lookup(r, j) == Lookup(p, j)
    {
      if p[0].0 != j && p[1..] != [] && k in KeysOf(p[1..]) {
        SetValueLookup(p[1..], k, v);
      } else if p[0].0 != j {
        SetValueUntouched(p[1..], k, v);
      }
    }
  }

  lemma {:induction false} SetValueUntouched(p: Params, k: string, v: string)
    requires k !in KeysOf(p)
    ensures SetValue(p, k, v) == p
    decreases |p|
  {
    if p != [] {
      assert forall e :: e in p[1..] ==> e in p;
      SetValueUntouched(p[1..], k, v);
    }
  }

  lemma {:induction false} AppendLookup(p: Params, k: string, v: string)
    requires k !in KeysOf(p)
    ensures Lookup(p + [(k, v)], k) == Some(v)
    ensures forall j :: j != k ==> Lookup(p + [(k, v)], j) == Lookup(p, j)
    decreases |p|
  {
    if p != [] {
      assert forall e :: e in p[1..] ==> e in p;
      assert (p + [(k, v)])[1..] == p[1..] + [(k, v)];
      AppendLookup(p[1..], k, v);
    }
  }

  function Values(p: Params): (r: seq<string>)
    ensures |r| == |p|
    ensures forall i :: 0 <= i < |p| ==> r[i] == p[i].1
  {
    seq(|p|, i requires 0 <= i < |p| => p[i].1)
  }

  /** Keys in ascending order, equal keys allowed next to each other. */
  predicate Sorted(p: Params) {
    forall i, j :: 0 <= i < j < |p| ==> LessEq(p[i].0, p[j].0)
  }

  /** Keys in strictly ascending order. */
  predicate StrictlySorted(p: Params) {
    forall i, j :: 0 <= i < j < |p| ==> Less(p[i].0, p[j].0)
  }

  lemma StrictlySortedHasDistinctKeys(p: Params)
    requires StrictlySorted(p)
    ensures DistinctKeys(p) && Sorted(p)
  {
    forall i, j | 0 <= i < j < |p|
      ensures p[i].0 != p[j].0
    {
      LessIrreflexive(p[i].0);
    }
  }

  /** One step of insertion sort: `e` goes in front of the first entry
      whose key is not below its own. */
  function Insert(e: Entry, s: Params): (r: Params)
    ensures multiset(r) == multiset(s) + multiset{e}
    ensures Sorted(s) ==> Sorted(r)
    ensures StrictlySorted(s) && e.0 !in KeysOf(s) ==> StrictlySorted(r)
    decreases |s|
  {
    if s == [] then [e]
    else if Less(s[0].0, e.0) then
      var tail := Insert(e, s[1..]);
      InsertedTailMembers(s, e, tail);
      InsertKeepsOrderAhead(s, e, tail);
      [s[0]] + tail
    else
      InsertInFront(e, s);
      [e] + s
  }

  lemma InsertedTailMembers(s: Params, e: Entry, tail: Params)
    requires s != []
    requires multiset(tail) == multiset(s[1..]) + multiset{e}
    ensures multiset([s[0]] + tail) == multiset(s) + multiset{e}
    ensures forall x :: x in tail ==> x == e || x in s[1..]
  {
    assert s == [s[0]] + s[1..];
    assert forall x :: x in tail <==> x in multiset(tail);
  }

  lemma InsertKeepsOrderAhead(s: Params, e: Entry, tail: Params)
    requires s != [] && Less(s[0].0, e.0)
    requires forall x :: x in tail ==> x == e || x in s[1..]
    requires Sorted(s[1..]) ==> Sorted(tail)
    requires StrictlySorted(s[1..]) && e.0 !in KeysOf(s[1..]) ==> StrictlySorted(tail)
    ensures Sorted(s) ==> Sorted([s[0]] + tail)
    ensures StrictlySorted(s) && e.0 !in KeysOf(s) ==> StrictlySorted([s[0]] + tail)
  {
    var r := [s[0]] + tail;
    if Sorted(s) {
      forall j | 1 <= j < |r|
        ensures LessEq(r[0].0, r[j].0)
      {
        assert r[j] in tail;
      }
    }
    if StrictlySorted(s) && e.0 !in KeysOf(s) {
      assert e.0 !in KeysOf(s[1..]) by {
        assert forall x :: x in s[1..] ==> x in s;
      }
      forall j | 1 <= j < |r|
        ensures Less(r[0].0, r[j].0)
      {
        assert r[j] in tail;
        if r[j] != e {
          var i :| 0 <= i < |s[1..]| && s[1..][i] == r[j];
          assert s[i + 1] == r[j];
        }
      }
    }
  }

  lemma InsertInFront(e: Entry, s: Params)
    requires s != [] && !Less(s[0].0, e.0)
    ensures Sorted(s) ==> Sorted([e] + s)
    ensures StrictlySorted(s) && e.0 !in KeysOf(s) ==> StrictlySorted([e] + s)
  {
    var r := [e] + s;
    NotLessIsLessEq(s[0].0, e.0);
    if Sorted(s) {
      forall j | 1 <= j < |r|
        ensures LessEq(r[0].0, r[j].0)
      {
        LessEqTransitive(e.0, s[0].0, s[j - 1].0);
      }
    }
    if StrictlySorted(s) && e.0 !in KeysOf(s) {
      assert s[0] in s;
      forall j | 1 <= j < |r|
        ensures Less(r[0].0, r[j].0)
      {
        if j > 1 {
          LessTransitive(e.0, s[0].0, s[j - 1].0);
        }
      }
    }
  }

  /** PHP `ksort`: the same entries, keys ascending. */
  function KSort(p: Params): (r: Params)
    ensures multiset(r) == multiset(p)
    ensures Sorted(r)
    ensures DistinctKeys(p) ==> StrictlySorted(r)
    decreases |p|
  {
    if p == [] then []
    else
      var rest := KSort(p[1..]);
      assert p == [p[0]] + p[1..];
      FirstKeyNotInRest(p, rest);
      Insert(p[0], rest)
  }

  lemma FirstKeyNotInRest(p: Params, rest: Params)
    requires p != [] && multiset(rest) == multiset(p[1..])
    ensures DistinctKeys(p) ==> DistinctKeys(p[1..]) && p[0].0 !in KeysOf(rest)
  {
    if DistinctKeys(p) {
      forall x | x in rest
        ensures x.0 != p[0].0
      {
        assert x in multiset(rest);
        assert x in p[1..];
        var i :| 0 <= i < |p[1..]| && p[1..][i] == x;
        assert p[i + 1] == x;
      }
    }
  }

  lemma FirstIsMember(p: Params)
    ensures p != [] ==> p[0] in p
  {
  }

  /** Two strictly sorted arrays holding the same entries are the same array. */
  lemma {:induction false} StrictlySortedUnique(a: Params, b: Params)
    requires StrictlySorted(a) && StrictlySorted(b)
    requires forall e :: e in a <==> e in b
    ensures a == b
    decreases |a|
  {
    if a == [] {
      FirstIsMember(b);
    } else {
      assert a[0] in a && a[0] in b;
      assert b[0] in b && b[0] in a;
      var i :| 0 <= i < |b| && b[i] == a[0];
      var j :| 0 <= j < |a| && a[j] == b[0];
      if i > 0 && j > 0 {
        LessAsymmetric(a[0].0, b[0].0);
      } else if i > 0 {
        LessIrreflexive(b[0].0);
      } else if j > 0 {
        LessIrreflexive(a[0].0);
      }
      assert a[0] == b[0];
      forall e
        ensures e in a[1..] <==> e in b[1..]
      {
        if e in a[1..] {
          var k :| 0 <= k < |a[1..]| && a[1..][k] == e;
          LessIrreflexive(a[0].0);
          assert e != a[0];
          assert e in b;
        }
        if e in b[1..] {
          var k :| 0 <= k < |b[1..]| && b[1..][k] == e;
          LessIrreflexive(b[0].0);
          assert e != b[0];
          assert e in a;
        }
      }
      StrictlySortedUnique(a[1..], b[1..]);
      assert a == [a[0]] + a[1..] && b == [b[0]] + b[1..];
    }
  }
}

/** How `ksort`, `unset` and assignment interact: the algebra the
    signature codec relies on. */
module PhpArrayLaws {
  import opened PhpStrings
  import opened PhpArrays

  /** Where `Insert` places an entry that is not above the first key. */
  lemma InsertAtFront(e: Entry, s: Params)
    requires s == [] || !Less(s[0].0, e.0)
    ensures Insert(e, s) == [e] + s
  {
  }

  lemma UnsetKeepsOrder(p: Params, k: string)
    ensures Sorted(p) ==> Sorted(Unset(p, k))
    ensures StrictlySorted(p) ==> StrictlySorted(Unset(p, k))
  {
    UnsetKeepsSorted(p, k);
    UnsetKeepsStrictlySorted(p, k);
  }

  lemma {:induction false} UnsetKeepsSorted(p: Params, k: string)
    ensures Sorted(p) ==> Sorted(Unset(p, k))
    decreases |p|
  {
    if p != [] && Sorted(p) {
      UnsetKeepsSorted(p[1..], k);
      var u := Unset(p[1..], k);
      if p[0].0 != k {
        var r := [p[0]] + u;
        forall j | 1 <= j < |r|
          ensures LessEq(r[0].0, r[j].0)
        {
          assert r[j] in u;
          var i :| 0 <= i < |p[1..]| && p[1..][i] == r[j];
          assert p[i + 1] == r[j];
        }
      }
    }
  }

  lemma {:induction false} UnsetKeepsStrictlySorted(p: Params, k: string)
    ensures StrictlySorted(p) ==> StrictlySorted(Unset(p, k))
    decreases |p|
  {
    if p != [] && StrictlySorted(p) {
      UnsetKeepsStrictlySorted(p[1..], k);
      var u := Unset(p[1..], k);
      if p[0].0 != k {
        var r := [p[0]] + u;
        forall j | 1 <= j < |r|
          ensures Less(r[0].0, r[j].0)
        {
          assert r[j] in u;
          var i :| 0 <= i < |p[1..]| && p[1..][i] == r[j];
          assert p[i + 1] == r[j];
        }
      }
    }
  }


  /** Removing a key after inserting an entry is inserting into the array
      with that key already removed. */
  lemma {:induction false} UnsetInsert(e: Entry, s: Params, k: string)
    requires Sorted(s)
    ensures Unset(Insert(e, s), k) == if e.0 == k then Unset(s, k) else Insert(e, Unset(s, k))
    decreases |s|
  {
    if s != [] {
      assert Sorted(s[1..]);
      if Less(s[0].0, e.0) {
        UnsetInsert(e, s[1..], k);
        if s[0].0 != k && e.0 != k {
          var u := Unset(s[1..], k);
          assert Unset(s, k) == [s[0]] + u;
          assert ([s[0]] + u)[1..] == u;
        }
      } else if e.0 != k {
        var u := Unset(s, k);
        UnsetKeepsOrder(s, k);
        if u != [] {
          assert u[0] in s;
          var i :| 0 <= i < |s| && s[i] == u[0];
          NotLessIsLessEq(s[0].0, e.0);
          LessEqTransitive(e.0, s[0].0, s[i].0);
          if e.0 != u[0].0 {
            LessAsymmetric(e.0, u[0].0);
          } else {
            LessIrreflexive(e.0);
          }
        }
        InsertAtFront(e, u);
      }
    }
  }

  /** `ksort` then `unset` is `unset` then `ksort`. */
  lemma {:induction false} UnsetKSort(p: Params, k: string)
    ensures Unset(KSort(p), k) == KSort(Unset(p, k))
    decreases |p|
  {
    if p != [] {
      UnsetKSort(p[1..], k);
      UnsetInsert(p[0], KSort(p[1..]), k);
      if p[0].0 != k {
        var u := Unset(p[1..], k);
        assert Unset(p, k) == [p[0]] + u;
        assert ([p[0]] + u)[1..] == u;
      }
    }
  }

  /** The entry `e` after `SetValue(_, k, v)`. */
  function SetEntry(e: Entry, k: string, v: string): Entry {
    if e.0 == k then (k, v) else e
  }

  lemma {:induction false} SetValueInsert(e: Entry, s: Params, k: string, v: string)
    ensures SetValue(Insert(e, s), k, v) == Insert(SetEntry(e, k, v), SetValue(s, k, v))
    decreases |s|
  {
    var e' := SetEntry(e, k, v);
    var t := SetValue(s, k, v);
    if s == [] {
      assert SetValue([e], k, v) == [e'];
    } else {
      assert t[0] == SetEntry(s[0], k, v) && t[0].0 == s[0].0;
      assert t[1..] == SetValue(s[1..], k, v);
      assert t == [t[0]] + t[1..];
      if Less(s[0].0, e.0) {
        var tail := Insert(e, s[1..]);
        SetValueInsert(e, s[1..], k, v);
        assert Insert(e, s) == [s[0]] + tail;
        assert Insert(e', t) == [t[0]] + Insert(e', t[1..]);
        var w := [s[0]] + tail;
        assert w[1..] == tail;
        assert SetValue(w, k, v) == [SetEntry(s[0], k, v)] + SetValue(tail, k, v);
      } else {
        assert Insert(e, s) == [e] + s;
        assert Insert(e', t) == [e'] + t;
        var w := [e] + s;
        assert w[1..] == s;
        assert SetValue(w, k, v) == [e'] + SetValue(s, k, v);
      }
    }
  }

  /** Values are irrelevant to `ksort`: changing one commutes with sorting. */
  lemma {:induction false} SetValueKSort(p: Params, k: string, v: string)
    ensures SetValue(KSort(p), k, v) == KSort(SetValue(p, k, v))
    decreases |p|
  {
    if p != [] {
      SetValueKSort(p[1..], k, v);
      SetValueInsert(p[0], KSort(p[1..]), k, v);
      var t := SetValue(p, k, v);
      assert t[0] == SetEntry(p[0], k, v);
      assert t[1..] == SetValue(p[1..], k, v);
    }
  }

  lemma {:induction false} UnsetSetValue(p: Params, k: string, v: string, j: string)
    ensures Unset(SetValue(p, k, v), j) == SetValue(Unset(p, j), k, v)
    decreases |p|
  {
    if p != [] {
      UnsetSetValue(p[1..], k, v, j);
      var t := SetValue(p, k, v);
      assert t[0] == SetEntry(p[0], k, v);
      assert t[1..] == SetValue(p[1..], k, v);
      if p[0].0 != j {
        var u := Unset(p[1..], j);
        assert Unset(p, j) == [p[0]] + u;
        assert ([p[0]] + u)[1..] == u;
      }
    }
  }

  lemma {:induction false} UnsetAppend(p: Params, e: Entry, j: string)
    ensures Unset(p + [e], j) == Unset(p, j) + (if e.0 == j then [] else [e])
    decreases |p|
  {
    if p != [] {
      assert (p + [e])[1..] == p[1..] + [e];
      UnsetAppend(p[1..], e, j);
    } else {
      assert [] + [e] == [e];
    }
  }

  lemma {:induction false} UnsetRemovesSetValue(p: Params, k: string, v: string)
    ensures Unset(SetValue(p, k, v), k) == Unset(p, k)
    decreases |p|
  {
    if p != [] {
      UnsetRemovesSetValue(p[1..], k, v);
      var t := SetValue(p, k, v);
      assert t[1..] == SetValue(p[1..], k, v);
    }
  }

  /** Assigning a key and then removing it leaves no trace. */
  lemma UnsetAssignSame(p: Params, k: string, v: string)
    ensures Unset(Assign(p, k, v), k) == Unset(p, k)
  {
    if k in KeysOf(p) {
      UnsetRemovesSetValue(p, k, v);
    } else {
      UnsetAppend(p, (k, v), k);
      assert Unset(p, k) + [] == Unset(p, k);
    }
  }

  /** Removing one key commutes with assigning another. */
  lemma UnsetAssignOther(p: Params, k: string, v: string, j: string)
    requires j != k
    ensures Unset(Assign(p, k, v), j) == Assign(Unset(p, j), k, v)
  {
    assert k in KeysOf(Unset(p, j)) <==> k in KeysOf(p) by {
      forall e | e in p && e.0 == k
        ensures e in Unset(p, j)
      {
      }
    }
    if k in KeysOf(p) {
      UnsetSetValue(p, k, v, j);
    } else {
      UnsetAppend(p, (k, v), j);
    }
  }
}
