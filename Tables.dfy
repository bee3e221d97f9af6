/** In-memory tables: sequences of rows with distinct, increasing, non-empty
    ids below the store's next fresh id. Lookups by id and filters mirror the
    repositories' FindAsync / FirstOrDefaultAsync and Where. */
module Tables {
  import opened Guids
  import opened Wrappers
  import opened Entities

  /** Ids are non-empty, strictly increasing in insertion order, and below `bound`. */
  ghost predicate Keyed<T>(t: Table<T>, bound: nat) {
    (forall i :: 0 <= i < |t| ==> Empty < t[i].id < bound) &&
    (forall i, j :: 0 <= i < j < |t| ==> t[i].id < t[j].id)
  }

  /** Position of the first row with this id. */
  function Find<T>(t: Table<T>, id: Guid): (r: Option<nat>)
    ensures r.Some? ==> r.value < |t| && t[r.value].id == id
    ensures r.None? <==> forall i :: 0 <= i < |t| ==> t[i].id != id
  {
    if t == [] then None
    else if t[0].id == id then Some(0)
    else match Find(t[1..], id)
      case None => None
      case Some(k) => Some(k + 1)
  }

  predicate HasKey<T>(t: Table<T>, id: Guid) {
    exists i :: 0 <= i < |t| && t[i].id == id
  }

  /** The row with this id, or null. */
  function Lookup<T>(t: Table<T>, id: Guid): (r: Option<Row<T>>)
    ensures r.Some? <==> HasKey(t, id)
    ensures r.Some? ==> r.value in t && r.value.id == id
  {
    match Find(t, id)
    case None => None
    case Some(i) => Some(t[i])
  }

  /** In a keyed table the lookup finds the one row carrying the id. */
  lemma FindKeyed<T>(t: Table<T>, n: nat, i: nat)
    requires Keyed(t, n) && i < |t|
    ensures Find(t, t[i].id) == Some(i)
  {
  }

  lemma KeyBelowBound<T>(t: Table<T>, n: nat, id: Guid)
    requires Keyed(t, n) && HasKey(t, id)
    ensures Empty < id < n
  {
  }

  lemma KeyedAppend<T>(t: Table<T>, n: nat, v: T)
    requires Keyed(t, n) && n > Empty
    ensures Keyed(t + [Row(n, v)], n + 1)
  {
  }

  lemma KeyedReplace<T>(t: Table<T>, n: nat, i: nat, v: T)
    requires Keyed(t, n) && i < |t|
    ensures Keyed(t[i := Row(t[i].id, v)], n)
  {
  }

  lemma KeyedGrow<T>(t: Table<T>, n: nat, m: nat)
    requires Keyed(t, n) && n <= m
    ensures Keyed(t, m)
  {
  }

  /** The rows satisfying `keep`, in table order. */
  function Where<T>(t: Table<T>, keep: Row<T> -> bool): (r: Table<T>)
    ensures |r| <= |t|
    ensures forall i :: 0 <= i < |r| ==> r[i] in t && keep(r[i])
    ensures forall i :: 0 <= i < |t| && keep(t[i]) ==> t[i] in r
  {
    if t == [] then []
    else
      assert t == [t[0]] + t[1..];
      (if keep(t[0]) then [t[0]] else []) + Where(t[1..], keep)
  }

  lemma {:induction false} WhereKeyed<T>(t: Table<T>, keep: Row<T> -> bool, n: nat)
    requires Keyed(t, n)
    ensures Keyed(Where(t, keep), n)
  {
    if t != [] {
      var tail := t[1..];
      assert Keyed(tail, n) by {
        forall i | 0 <= i < |tail| ensures tail[i] == t[i + 1] { }
      }
      WhereKeyed(tail, keep, n);
      var rest := Where(tail, keep);
      forall j | 0 <= j < |rest| ensures t[0].id < rest[j].id {
        var k :| 0 <= k < |tail| && tail[k] == rest[j];
        assert t[k + 1] == rest[j];
      }
      if keep(t[0]) {
        KeyedCons(t[0], rest, n);
      }
    }
  }

  /** A row whose id is below every id of a keyed table can go in front of it. */
  lemma KeyedCons<T>(x: Row<T>, t: Table<T>, n: nat)
    requires Keyed(t, n) && Empty < x.id < n
    requires forall j :: 0 <= j < |t| ==> x.id < t[j].id
    ensures Keyed([x] + t, n)
  {
    var s := [x] + t;
    forall i | 0 < i < |s| ensures s[i] == t[i - 1] { }
  }

  /** The table without the row carrying `id` (the repositories' Remove + SaveChanges). */
  function RemoveKey<T>(t: Table<T>, id: Guid): (r: Table<T>)
    ensures forall i :: 0 <= i < |r| ==> r[i] in t && r[i].id != id
    ensures forall i :: 0 <= i < |t| && t[i].id != id ==> t[i] in r
  {
    Where(t, (x: Row<T>) => x.id != id)
  }

  lemma RemoveKeyCons<T>(t: Table<T>, id: Guid)
    requires t != []
    ensures RemoveKey(t, id) == (if t[0].id != id then [t[0]] else []) + RemoveKey(t[1..], id)
  {
  }

  lemma {:induction false} RemoveAbsentKey<T>(t: Table<T>, id: Guid)
    requires forall i :: 0 <= i < |t| ==> t[i].id != id
    ensures RemoveKey(t, id) == t
  {
    if t != [] {
      RemoveKeyCons(t, id);
      RemoveAbsentKey(t[1..], id);
      assert t == [t[0]] + t[1..];
    }
  }

  lemma {:induction false} RemoveUnique<T>(t: Table<T>, i: nat)
    requires i < |t|
    requires forall k :: 0 <= k < |t| && k != i ==> t[k].id != t[i].id
    ensures RemoveKey(t, t[i].id) == t[..i] + t[i + 1..]
  {
    var id := t[i].id;
    RemoveKeyCons(t, id);
    if i == 0 {
      forall k | 0 <= k < |t[1..]| ensures t[1..][k].id != id {
        assert t[1..][k] == t[k + 1];
      }
      RemoveAbsentKey(t[1..], id);
      assert t[1..] == t[i + 1..];
    } else {
      var u := t[1..];
      forall k | 0 <= k < |u| && k != i - 1 ensures u[k].id != u[i - 1].id {
        assert u[k] == t[k + 1];
      }
      RemoveUnique(u, i - 1);
      assert u[i - 1] == t[i];
      assert t[..i] == [t[0]] + u[..i - 1];
      assert t[i + 1..] == u[i..];
    }
  }

  /** Removing a key from a keyed table takes out exactly the one row carrying it. */
  lemma RemoveKeyed<T>(t: Table<T>, n: nat, i: nat)
    requires Keyed(t, n) && i < |t|
    ensures RemoveKey(t, t[i].id) == t[..i] + t[i + 1..]
  {
    RemoveUnique(t, i);
  }

  lemma {:induction false} WhereAppend<T>(a: Table<T>, b: Table<T>, keep: Row<T> -> bool)
    ensures Where(a + b, keep) == Where(a, keep) + Where(b, keep)
  {
    if a != [] {
      assert (a + b)[1..] == a[1..] + b;
      WhereAppend(a[1..], b, keep);
    } else {
      assert a + b == b;
    }
  }

  lemma {:induction false} WhereNone<T>(t: Table<T>, keep: Row<T> -> bool)
    requires forall i :: 0 <= i < |t| ==> !keep(t[i])
    ensures Where(t, keep) == []
  {
    if t != [] {
      WhereNone(t[1..], keep);
    }
  }

  lemma {:induction false} WhereAll<T>(t: Table<T>, keep: Row<T> -> bool)
    requires forall i :: 0 <= i < |t| ==> keep(t[i])
    ensures Where(t, keep) == t
  {
    if t != [] {
      assert t == [t[0]] + t[1..];
      WhereAll(t[1..], keep);
    }
  }

  /** A row appended under an id no earlier row carries is found by that id. */
  lemma FindLast<T>(t: Table<T>, id: Guid, v: T)
    requires forall i :: 0 <= i < |t| ==> t[i].id != id
    ensures Lookup(t + [Row(id, v)], id) == Some(Row(id, v))
  {
    var u := t + [Row(id, v)];
    assert u[|t|].id == id;
    var k := Find(u, id);
    assert k.Some? && u[k.value].id == id;
    assert k.value == |t|;
  }

  /** `after` is `before` with rows appended. */
  ghost predicate Extends<T>(before: Table<T>, after: Table<T>) {
    |before| <= |after| && after[..|before|] == before
  }

  lemma ExtendsTrans<T>(a: Table<T>, b: Table<T>, c: Table<T>)
    requires Extends(a, b) && Extends(b, c)
    ensures Extends(a, c)
  {
    assert c[..|b|][..|a|] == c[..|a|];
  }

  lemma HasKeyExtends<T>(t: Table<T>, u: Table<T>, id: Guid)
    requires Extends(t, u) && HasKey(t, id)
    ensures HasKey(u, id)
  {
    var k := Find(t, id).value;
    assert u[k] == t[k];
  }

  lemma HasKeyLast<T>(t: Table<T>, id: Guid, v: T)
    ensures HasKey(t + [Row(id, v)], id)
  {
    assert (t + [Row(id, v)])[|t|].id == id;
  }

  /** The table with the row carrying `id` given the new value `v` (an Update + SaveChanges). */
  function SetVal<T>(t: Table<T>, id: Guid, v: T): (r: Table<T>)
    requires HasKey(t, id)
    ensures |r| == |t| && r[Find(t, id).value] == Row(id, v)
    ensures forall i :: 0 <= i < |t| ==> r[i].id == t[i].id
    ensures forall i :: 0 <= i < |t| && i != Find(t, id).value ==> r[i] == t[i]
  {
    t[Find(t, id).value := Row(id, v)]
  }

  /** Tables with the same ids position by position have the same keys. */
  lemma SameIdsHasKey<T, U>(t: Table<T>, u: Table<U>, id: Guid)
    requires |t| == |u| && forall i :: 0 <= i < |t| ==> t[i].id == u[i].id
    ensures HasKey(t, id) <==> HasKey(u, id)
  {
    if HasKey(t, id) {
      assert u[Find(t, id).value].id == id;
    }
    if HasKey(u, id) {
      assert t[Find(u, id).value].id == id;
    }
  }

  /** In a keyed table the updated row is the one the id now finds, with its new value. */
  lemma LookupSetVal<T>(t: Table<T>, n: nat, id: Guid, v: T)
    requires Keyed(t, n) && HasKey(t, id)
    ensures Lookup(SetVal(t, id, v), id) == Some(Row(id, v))
    ensures Keyed(SetVal(t, id, v), n)
  {
    var k := Find(t, id).value;
    KeyedReplace(t, n, k, v);
    FindKeyed(SetVal(t, id, v), n, k);
  }

  /** A property every row has survives any filter. */
  lemma WhereAllHold<T>(t: Table<T>, keep: Row<T> -> bool, p: Row<T> -> bool)
    requires forall i :: 0 <= i < |t| ==> p(t[i])
    ensures forall i :: 0 <= i < |Where(t, keep)| ==> p(Where(t, keep)[i])
  {
    var r := Where(t, keep);
    forall i | 0 <= i < |r| ensures p(r[i]) {
      var j :| 0 <= j < |t| && t[j] == r[i];
    }
  }

  /** A key whose row passes the filter is still a key afterwards. */
  lemma HasKeyWhere<T>(t: Table<T>, keep: Row<T> -> bool, id: Guid)
    requires HasKey(t, id) && keep(Lookup(t, id).value)
    ensures HasKey(Where(t, keep), id)
  {
    var row := Lookup(t, id).value;
    var r := Where(t, keep);
    assert t[Find(t, id).value] == row;
    var j :| 0 <= j < |r| && r[j] == row;
  }

  /** The ids a table holds. */
  function Ids<T>(t: Table<T>): (r: set<Guid>)
    ensures forall i :: 0 <= i < |t| ==> t[i].id in r
    ensures forall id :: id in r ==> HasKey(t, id)
  {
    set i | 0 <= i < |t| :: t[i].id
  }

  /** No two rows share a key: the uniqueness a composite key or a service check gives. */
  ghost predicate DistinctBy<T, K>(t: Table<T>, key: Row<T> -> K) {
    forall i, j :: 0 <= i < j < |t| ==> key(t[i]) != key(t[j])
  }

  /** Appending a row keeps keys distinct exactly when its key is new. */
  lemma DistinctByAppend<T, K>(t: Table<T>, key: Row<T> -> K, x: Row<T>)
    requires DistinctBy(t, key)
    ensures DistinctBy(t + [x], key) <==> forall i :: 0 <= i < |t| ==> key(t[i]) != key(x)
  {
    var u := t + [x];
    if forall i :: 0 <= i < |t| ==> key(t[i]) != key(x) {
      forall i, j | 0 <= i < j < |u| ensures key(u[i]) != key(u[j]) {
        if j < |t| {
          assert u[i] == t[i] && u[j] == t[j];
        } else {
          assert u[i] == t[i] && u[j] == x;
        }
      }
    } else {
      var i :| 0 <= i < |t| && key(t[i]) == key(x);
      assert u[i] == t[i] && u[|t|] == x;
    }
  }

  /** A filter keeps keys distinct. */
  lemma {:induction false} WhereDistinctBy<T, K>(t: Table<T>, keep: Row<T> -> bool, key: Row<T> -> K)
    requires DistinctBy(t, key)
    ensures DistinctBy(Where(t, keep), key)
  {
    if t != [] {
      assert DistinctBy(t[1..], key) by {
        forall i, j | 0 <= i < j < |t[1..]| ensures key(t[1..][i]) != key(t[1..][j]) {
          assert t[1..][i] == t[i + 1] && t[1..][j] == t[j + 1];
        }
      }
      WhereDistinctBy(t[1..], keep, key);
      var rest := Where(t[1..], keep);
      if keep(t[0]) {
        var r := [t[0]] + rest;
        assert Where(t, keep) == r;
        forall i, j | 0 <= i < j < |r| ensures key(r[i]) != key(r[j]) {
          if i == 0 {
            var k :| 0 <= k < |t[1..]| && t[1..][k] == rest[j - 1];
            assert t[k + 1] == r[j];
          } else {
            assert r[i] == rest[i - 1] && r[j] == rest[j - 1];
          }
        }
      } else {
        assert Where(t, keep) == rest;
      }
    }
  }

  /** Overwriting a row's value without changing its key keeps keys distinct. */
  lemma DistinctBySetVal<T, K>(t: Table<T>, key: Row<T> -> K, id: Guid, v: T)
    requires DistinctBy(t, key) && HasKey(t, id)
    requires key(Row(id, v)) == key(t[Find(t, id).value])
    ensures DistinctBy(SetVal(t, id, v), key)
  {
    var u := SetVal(t, id, v);
    var k := Find(t, id).value;
    forall i, j | 0 <= i < j < |u| ensures key(u[i]) != key(u[j]) {
      assert key(u[i]) == key(t[i]) && key(u[j]) == key(t[j]);
    }
  }

  /** Filtering twice, where the second filter implies the first, is filtering once. */
  lemma {:induction false} WhereWhere<T>(t: Table<T>, first: Row<T> -> bool, second: Row<T> -> bool)
    requires forall i :: 0 <= i < |t| && second(t[i]) ==> first(t[i])
    ensures Where(Where(t, first), second) == Where(t, second)
  {
    if t != [] {
      WhereWhere(t[1..], first, second);
      var inner := Where(t, first);
      if first(t[0]) {
        assert inner == [t[0]] + Where(t[1..], first);
        assert inner[0] == t[0] && inner[1..] == Where(t[1..], first);
      } else {
        assert inner == Where(t[1..], first);
      }
    }
  }

  /** In a keyed table two rows with the same id are the same row. */
  lemma KeyedUnique<T>(t: Table<T>, n: nat, a: Row<T>, b: Row<T>)
    requires Keyed(t, n) && a in t && b in t && a.id == b.id
    ensures a == b
  {
    var i :| 0 <= i < |t| && t[i] == a;
    var j :| 0 <= j < |t| && t[j] == b;
  }

  /** Lookup in a keyed table that only grew at the end finds the same row. */
  lemma LookupExtends<T>(t: Table<T>, u: Table<T>, n: nat, id: Guid)
    requires Keyed(u, n) && Extends(t, u) && HasKey(t, id)
    ensures Lookup(u, id) == Lookup(t, id)
  {
    var k := Find(t, id).value;
    assert u[k] == t[k];
    FindKeyed(u, n, k);
  }

  /** Lookup in a keyed table after a filter that keeps the row finds the same row. */
  lemma LookupWhere<T>(t: Table<T>, n: nat, keep: Row<T> -> bool, id: Guid)
    requires Keyed(t, n) && HasKey(t, id) && keep(Lookup(t, id).value)
    ensures Lookup(Where(t, keep), id) == Lookup(t, id)
  {
    HasKeyWhere(t, keep, id);
    WhereKeyed(t, keep, n);
    KeyedUnique(t, n, Lookup(t, id).value, Lookup(Where(t, keep), id).value);
  }

  /** Updating one row leaves every other id finding what it found before. */
  lemma LookupSetValOther<T>(t: Table<T>, n: nat, id: Guid, v: T, other: Guid)
    requires Keyed(t, n) && HasKey(t, id) && other != id
    ensures Lookup(SetVal(t, id, v), other) == Lookup(t, other)
  {
    var u := SetVal(t, id, v);
    LookupSetVal(t, n, id, v);
    SameIdsHasKey(t, u, other);
    if HasKey(t, other) {
      var k := Find(t, other).value;
      FindKeyed(u, n, k);
    }
  }

  /** A filter adds no key. */
  lemma HasKeyWhereBack<T>(t: Table<T>, keep: Row<T> -> bool, id: Guid)
    requires HasKey(Where(t, keep), id)
    ensures HasKey(t, id)
  {
    var r := Where(t, keep);
    var k := Find(r, id).value;
    var i :| 0 <= i < |t| && t[i] == r[k];
  }
}
