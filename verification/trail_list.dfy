/**
 The list of a park's trails: the rows the route keeps (module ParkPolygon) merged by name and sorted,
 as the end of `api_hiking_park_trails` in `app.py` does. How names become lower case is a parameter.
 */
module TrailList {
  import opened Common
  import opened ParkPolygon

  /** What is shown under one name, and the length of the row it shows. */
  datatype Entry = Entry(id: int, name: string, center: Point, segments: nat, best: real)

  type Lower = string -> string

  function KeyOf(lower: Lower, t: Trail): string {
    lower(t.name)
  }

  /** How many rows have a name. */
  function Count(lower: Lower, rows: seq<Trail>, key: string): nat {
    if rows == [] then 0
    else Count(lower, rows[..|rows| - 1], key) + if KeyOf(lower, rows[|rows| - 1]) == key then 1 else 0
  }

  predicate Has(lower: Lower, rows: seq<Trail>, key: string, i: int) {
    0 <= i < |rows| && KeyOf(lower, rows[i]) == key
  }

  /** The first row with the name. */
  ghost predicate First(lower: Lower, rows: seq<Trail>, key: string, i: int) {
    Has(lower, rows, key, i) && forall j :: Has(lower, rows, key, j) ==> i <= j
  }

  /** The first of the longest rows with the name. */
  ghost predicate Longest(lower: Lower, rows: seq<Trail>, key: string, i: int) {
    && Has(lower, rows, key, i)
    && (forall j :: Has(lower, rows, key, j) ==> rows[j].length <= rows[i].length)
    && (forall j :: Has(lower, rows, key, j) && rows[j].length == rows[i].length ==> i <= j)
  }

  /** The entry counts the rows with its name, is written as the first of them and shows the longest. */
  ghost predicate Stands(lower: Lower, rows: seq<Trail>, key: string, e: Entry) {
    && e.segments == Count(lower, rows, key)
    && (exists i :: First(lower, rows, key, i) && e.name == rows[i].name)
    && (exists i :: Longest(lower, rows, key, i) && Shows(e, rows[i]))
  }

  predicate Shows(e: Entry, t: Trail) {
    e.id == t.id && e.center == Center(t.box) && e.best == t.length
  }

  /** The dictionary holds one such entry for each name and no others. */
  ghost predicate Merged(lower: Lower, rows: seq<Trail>, entries: map<string, Entry>) {
    && (forall i :: 0 <= i < |rows| ==> KeyOf(lower, rows[i]) in entries)
    && (forall key :: key in entries ==> Stands(lower, rows, key, entries[key]))
  }

  // ---------- The merge ----------

  /** What one more row does to the entry of its name. */
  function WithRow(entries: map<string, Entry>, key: string, t: Trail): Entry {
    if key !in entries then Entry(t.id, t.name, Center(t.box), 1, t.length)
    else
      var e := entries[key].(segments := entries[key].segments + 1);
      if t.length > e.best then e.(id := t.id, center := Center(t.box), best := t.length) else e
  }

  lemma HasGrows(lower: Lower, rows: seq<Trail>, t: Trail, key: string, i: int)
    ensures Has(lower, rows + [t], key, i) <==> Has(lower, rows, key, i) || (i == |rows| && KeyOf(lower, t) == key)
  {
  }

  lemma CountGrows(lower: Lower, rows: seq<Trail>, t: Trail, key: string)
    ensures Count(lower, rows + [t], key) == Count(lower, rows, key) + if KeyOf(lower, t) == key then 1 else 0
  {
    assert (rows + [t])[..|rows|] == rows;
  }

  /** An entry is unaffected by a row of another name. */
  lemma OtherStands(lower: Lower, rows: seq<Trail>, t: Trail, key: string, e: Entry)
    requires Stands(lower, rows, key, e) && KeyOf(lower, t) != key
    ensures Stands(lower, rows + [t], key, e)
  {
    var more := rows + [t];
    CountGrows(lower, rows, t, key);
    forall i ensures Has(lower, more, key, i) <==> Has(lower, rows, key, i) { HasGrows(lower, rows, t, key, i); }
    var f :| First(lower, rows, key, f) && e.name == rows[f].name;
    var l :| Longest(lower, rows, key, l) && Shows(e, rows[l]);
    assert First(lower, more, key, f) && Longest(lower, more, key, l);
  }

  lemma NewStands(lower: Lower, rows: seq<Trail>, t: Trail)
    requires forall i :: 0 <= i < |rows| ==> KeyOf(lower, rows[i]) != KeyOf(lower, t)
    ensures Stands(lower, rows + [t], KeyOf(lower, t), Entry(t.id, t.name, Center(t.box), 1, t.length))
  {
    var key, more := KeyOf(lower, t), rows + [t];
    CountGrows(lower, rows, t, key);
    NoneCounted(lower, rows, key);
    forall i ensures Has(lower, more, key, i) <==> i == |rows| { HasGrows(lower, rows, t, key, i); }
    assert First(lower, more, key, |rows|) && Longest(lower, more, key, |rows|);
  }

  lemma {:induction false} NoneCounted(lower: Lower, rows: seq<Trail>, key: string)
    requires forall i :: 0 <= i < |rows| ==> KeyOf(lower, rows[i]) != key
    ensures Count(lower, rows, key) == 0
  {
    if rows != [] { NoneCounted(lower, rows[..|rows| - 1], key); }
  }

  lemma SameStands(lower: Lower, rows: seq<Trail>, t: Trail, entries: map<string, Entry>)
    requires KeyOf(lower, t) in entries && Stands(lower, rows, KeyOf(lower, t), entries[KeyOf(lower, t)])
    ensures Stands(lower, rows + [t], KeyOf(lower, t), WithRow(entries, KeyOf(lower, t), t))
  {
    var key, more := KeyOf(lower, t), rows + [t];
    var e := entries[key];
    CountGrows(lower, rows, t, key);
    forall i ensures Has(lower, more, key, i) <==> Has(lower, rows, key, i) || i == |rows| {
      HasGrows(lower, rows, t, key, i);
    }
    var f :| First(lower, rows, key, f) && e.name == rows[f].name;
    var l :| Longest(lower, rows, key, l) && Shows(e, rows[l]);
    assert First(lower, more, key, f);
    assert Longest(lower, more, key, if t.length > e.best then |rows| else l);
  }

  lemma RowMerges(lower: Lower, rows: seq<Trail>, t: Trail, entries: map<string, Entry>)
    requires Merged(lower, rows, entries)
    ensures Merged(lower, rows + [t], entries[KeyOf(lower, t) := WithRow(entries, KeyOf(lower, t), t)])
  {
    var key := KeyOf(lower, t);
    var after := entries[key := WithRow(entries, key, t)];
    forall k | k in after
      ensures Stands(lower, rows + [t], k, after[k])
    {
      if k != key {
        OtherStands(lower, rows, t, k, entries[k]);
      } else if key in entries {
        SameStands(lower, rows, t, entries);
      } else {
        NewStands(lower, rows, t);
      }
    }
  }

  /** The loop over the rows. */
  method MergeByName(lower: Lower, rows: seq<Trail>) returns (entries: map<string, Entry>)
    ensures Merged(lower, rows, entries)
  {
    entries := map[];
    hide Stands;
    for k := 0 to |rows|
      invariant Merged(lower, rows[..k], entries)
    {
      var t := rows[k];
      var key := lower(t.name);
      RowMerges(lower, rows[..k], t, entries);
      assert rows[..k + 1] == rows[..k] + [t];
      if key !in entries {
        entries := entries[key := Entry(t.id, t.name, Center(t.box), 1, t.length)];
      } else {
        var e := entries[key].(segments := entries[key].segments + 1);
        if t.length > e.best { e := e.(id := t.id, center := Center(t.box), best := t.length); }
        entries := entries[key := e];
      }
    }
    assert rows[..|rows|] == rows;
  }

  // ---------- The order ----------

  /** Python's order of strings. */
  predicate Before(a: string, b: string) {
    b != [] && (a == [] || a[0] < b[0] || (a[0] == b[0] && Before(a[1..], b[1..])))
  }

  lemma {:induction false} BeforeTransitive(a: string, b: string, c: string)
    requires Before(a, b) && Before(b, c)
    ensures Before(a, c)
  {
    if a != [] && a[0] == b[0] == c[0] { BeforeTransitive(a[1..], b[1..], c[1..]); }
  }

  lemma {:induction false} BeforeTotal(a: string, b: string)
    ensures a == b || Before(a, b) || Before(b, a)
    ensures !(Before(a, b) && Before(b, a)) && !Before(a, a)
  {
    if a != [] { BeforeTotal(a[1..], a[1..]); }
    if a != [] && b != [] && a[0] == b[0] {
      BeforeTotal(a[1..], b[1..]);
      if a[1..] == b[1..] { assert a == [a[0]] + a[1..] && b == [b[0]] + b[1..]; }
    }
  }

  /** Strictly in order, so without repetition. */
  predicate InOrder(keys: seq<string>) {
    forall i, j :: 0 <= i < j < |keys| ==> Before(keys[i], keys[j])
  }

  /** Two lists in order of the same keys are the same list. */
  lemma {:induction false} OrderIsUnique(a: seq<string>, b: seq<string>)
    requires InOrder(a) && InOrder(b) && forall k :: k in a <==> k in b
    ensures a == b
  {
    assert (a != [] ==> a[0] in b) && (b != [] ==> b[0] in a);
    if a != [] {
      HeadIsLeast(a, b);
      var s, t := a[1..], b[1..];
      forall k
        ensures k in s <==> k in t
      {
        TailHas(a, k);
        TailHas(b, k);
      }
      OrderIsUnique(s, t);
      assert a == [a[0]] + s && b == [b[0]] + t;
    }
  }

  lemma HeadIsLeast(a: seq<string>, b: seq<string>)
    requires InOrder(a) && InOrder(b) && a != [] && b != []
    requires a[0] in b && b[0] in a
    ensures a[0] == b[0]
  {
    BeforeTotal(a[0], b[0]);
    HeadBefore(a, b[0]);
    HeadBefore(b, a[0]);
    hide Before;
  }

  lemma HeadBefore(keys: seq<string>, k: string)
    requires InOrder(keys) && k in keys
    ensures k == keys[0] || Before(keys[0], k)
  {
    hide Before;
  }

  lemma TailHas(a: seq<string>, k: string)
    requires InOrder(a) && a != []
    ensures k in a[1..] <==> k in a && k != a[0]
  {
    BeforeTotal(k, k);
    hide Before;
    if k in a[1..] {
      var i :| 0 <= i < |a| - 1 && a[1..][i] == k;
      assert Before(a[0], a[i + 1]);
    }
    if k in a && k != a[0] {
      var i :| 0 <= i < |a| && a[i] == k;
      assert a[1..][i - 1] == k;
    }
  }

  function Keys(lower: Lower, list: seq<Entry>): (keys: seq<string>)
    ensures |keys| == |list| && forall i :: 0 <= i < |list| ==> keys[i] == lower(list[i].name)
  {
    seq(|list|, i requires 0 <= i < |list| => lower(list[i].name))
  }

  /** What the route answers: every name of a row once, in order, with an entry that stands for its rows. */
  ghost predicate Listing(lower: Lower, rows: seq<Trail>, list: seq<Entry>) {
    && InOrder(Keys(lower, list))
    && (forall i :: 0 <= i < |rows| ==> KeyOf(lower, rows[i]) in Keys(lower, list))
    && (forall i :: 0 <= i < |list| ==> Stands(lower, rows, lower(list[i].name), list[i]))
  }

  /** An entry sorted into a list, by its name in lower case. */
  method Place(lower: Lower, e: Entry, list: seq<Entry>) returns (longer: seq<Entry>)
    requires InOrder(Keys(lower, list)) && lower(e.name) !in Keys(lower, list)
    ensures InOrder(Keys(lower, longer))
    ensures exists k :: 0 <= k <= |list| && longer == list[..k] + [e] + list[k..]
  {
    var key, keys := lower(e.name), Keys(lower, list);
    var k := 0;
    while k < |list| && Before(lower(list[k].name), key)
      invariant k <= |list| && forall i :: 0 <= i < k ==> Before(keys[i], key)
    {
      k := k + 1;
    }
    longer := list[..k] + [e] + list[k..];
    if k < |list| { BeforeTotal(keys[k], key); }
    hide Before;
    forall i | k <= i < |list|
      ensures Before(key, keys[i])
    {
      if i > k { BeforeTransitive(key, keys[k], keys[i]); }
    }
    InOrderWith(keys, k, key);
    assert Keys(lower, longer) == keys[..k] + [key] + keys[k..];
  }

  lemma InOrderWith(keys: seq<string>, k: nat, key: string)
    requires InOrder(keys) && k <= |keys|
    requires forall i :: 0 <= i < k ==> Before(keys[i], key)
    requires forall i :: k <= i < |keys| ==> Before(key, keys[i])
    ensures InOrder(keys[..k] + [key] + keys[k..])
  {
    hide Before;
  }

  /** The dictionary's entries in order of their names. */
  method Listed(lower: Lower, rows: seq<Trail>) returns (list: seq<Entry>)
    ensures Listing(lower, rows, list)
  {
    var entries := MergeByName(lower, rows);
    list := [];
    var rest := entries.Keys;
    hide Stands, InOrder;
    assert InOrder(Keys(lower, [])) by { EmptyInOrder(); assert Keys(lower, []) == []; }
    while rest != {}
      invariant rest <= entries.Keys && InOrder(Keys(lower, list))
      invariant forall key :: key in entries ==> key in rest || key in Keys(lower, list)
      invariant forall e :: e in list ==> lower(e.name) in entries.Keys - rest && entries[lower(e.name)] == e
      decreases |rest|
    {
      var key :| key in rest;
      var e := entries[key];
      NamedAsKey(lower, rows, key, e);
      NotListed(lower, list, entries, rest, key);
      ghost var before := list;
      list := Place(lower, e, list);
      rest := rest - {key};
      SameKeysAndOne(lower, before, e, list);
    }
    forall i | 0 <= i < |list|
      ensures Stands(lower, rows, lower(list[i].name), list[i])
    {
      assert list[i] in list;
    }
  }

  /** `api_hiking_park_trails` for a park it knows. */
  method HikingParkTrails(lower: Lower, trails: seq<Trail>, code: string, park: Park) returns (list: seq<Entry>)
    ensures Listing(lower, ParkTrailsSpec(trails, code, park), list)
  {
    var kept := ParkTrails(trails, code, park);
    list := Listed(lower, kept);
  }

  lemma EmptyInOrder()
    ensures InOrder([])
  {
  }

  lemma NamedAsKey(lower: Lower, rows: seq<Trail>, key: string, e: Entry)
    requires Stands(lower, rows, key, e)
    ensures lower(e.name) == key
  {
  }

  lemma NotListed(lower: Lower, list: seq<Entry>, entries: map<string, Entry>, rest: set<string>, key: string)
    requires key in rest && forall e :: e in list ==> lower(e.name) in entries.Keys - rest
    ensures key !in Keys(lower, list)
  {
    assert forall i :: 0 <= i < |list| ==> list[i] in list;
  }

  lemma SameKeysAndOne(lower: Lower, list: seq<Entry>, e: Entry, longer: seq<Entry>)
    requires exists k :: 0 <= k <= |list| && longer == list[..k] + [e] + list[k..]
    ensures forall x :: x in longer <==> x in list || x == e
    ensures forall key :: key in Keys(lower, longer) <==> key in Keys(lower, list) || key == lower(e.name)
  {
    var k :| 0 <= k <= |list| && longer == list[..k] + [e] + list[k..];
    assert list == list[..k] + list[k..];
    var keys, key := Keys(lower, list), lower(e.name);
    assert Keys(lower, longer) == keys[..k] + [key] + keys[k..];
    assert keys == keys[..k] + keys[k..];
  }

  // ---------- What the list is ----------

  lemma FirstIsUnique(lower: Lower, rows: seq<Trail>, key: string, i: int, j: int)
    requires First(lower, rows, key, i) && First(lower, rows, key, j)
    ensures i == j
  {
  }

  lemma LongestIsUnique(lower: Lower, rows: seq<Trail>, key: string, i: int, j: int)
    requires Longest(lower, rows, key, i) && Longest(lower, rows, key, j)
    ensures i == j
  {
  }

  lemma StandsIsUnique(lower: Lower, rows: seq<Trail>, key: string, d: Entry, e: Entry)
    requires Stands(lower, rows, key, d) && Stands(lower, rows, key, e)
    ensures d == e
  {
    var i :| First(lower, rows, key, i) && d.name == rows[i].name;
    var j :| First(lower, rows, key, j) && e.name == rows[j].name;
    var k :| Longest(lower, rows, key, k) && Shows(d, rows[k]);
    var l :| Longest(lower, rows, key, l) && Shows(e, rows[l]);
    FirstIsUnique(lower, rows, key, i, j);
    LongestIsUnique(lower, rows, key, k, l);
    hide First, Longest;
  }

  /** The rows determine the list. */
  lemma ListingIsUnique(lower: Lower, rows: seq<Trail>, a: seq<Entry>, b: seq<Entry>)
    requires Listing(lower, rows, a) && Listing(lower, rows, b)
    ensures a == b
  {
    forall k
      ensures k in Keys(lower, a) <==> k in Keys(lower, b)
    {
      if k in Keys(lower, a) { KeysAreNames(lower, rows, a, b, k); }
      if k in Keys(lower, b) { KeysAreNames(lower, rows, b, a, k); }
    }
    hide Stands, InOrder;
    OrderIsUnique(Keys(lower, a), Keys(lower, b));
    SameEntries(lower, rows, a, b);
  }

  lemma SameEntries(lower: Lower, rows: seq<Trail>, a: seq<Entry>, b: seq<Entry>)
    requires Keys(lower, a) == Keys(lower, b)
    requires forall i :: 0 <= i < |a| ==> Stands(lower, rows, Keys(lower, a)[i], a[i])
    requires forall i :: 0 <= i < |b| ==> Stands(lower, rows, Keys(lower, b)[i], b[i])
    ensures a == b
  {
    hide Stands;
    assert |a| == |Keys(lower, a)| == |b|;
    forall i | 0 <= i < |a|
      ensures a[i] == b[i]
    {
      StandsIsUnique(lower, rows, Keys(lower, a)[i], a[i], b[i]);
    }
  }

  lemma KeysAreNames(lower: Lower, rows: seq<Trail>, a: seq<Entry>, b: seq<Entry>, k: string)
    requires Listing(lower, rows, a) && Listing(lower, rows, b) && k in Keys(lower, a)
    ensures k in Keys(lower, b)
  {
    var i :| 0 <= i < |a| && Keys(lower, a)[i] == k;
    assert Stands(lower, rows, k, a[i]);
  }

  function Segments(list: seq<Entry>): nat {
    if list == [] then 0 else list[0].segments + Segments(list[1..])
  }

  /** The rows that have one of the names, each counted once for each time its name is listed. */
  function CountAll(lower: Lower, rows: seq<Trail>, keys: seq<string>): nat {
    if keys == [] then 0 else Count(lower, rows, keys[0]) + CountAll(lower, rows, keys[1..])
  }

  lemma {:induction false} SegmentsCount(lower: Lower, rows: seq<Trail>, list: seq<Entry>)
    requires forall i :: 0 <= i < |list| ==> list[i].segments == Count(lower, rows, lower(list[i].name))
    ensures Segments(list) == CountAll(lower, rows, Keys(lower, list))
  {
    if list != [] {
      assert Keys(lower, list)[1..] == Keys(lower, list[1..]);
      SegmentsCount(lower, rows, list[1..]);
    }
  }

  lemma {:induction false} CountAllGrows(lower: Lower, rows: seq<Trail>, t: Trail, keys: seq<string>)
    requires InOrder(keys)
    ensures CountAll(lower, rows + [t], keys)
         == CountAll(lower, rows, keys) + if KeyOf(lower, t) in keys then 1 else 0
  {
    if keys != [] {
      CountGrows(lower, rows, t, keys[0]);
      CountAllGrows(lower, rows, t, keys[1..]);
      TailHas(keys, KeyOf(lower, t));
    }
  }

  lemma {:induction false} CountAllRows(lower: Lower, rows: seq<Trail>, keys: seq<string>)
    requires InOrder(keys) && forall i :: 0 <= i < |rows| ==> KeyOf(lower, rows[i]) in keys
    ensures CountAll(lower, rows, keys) == |rows|
  {
    if rows == [] {
      NothingToCount(lower, keys);
    } else {
      var n := |rows| - 1;
      CountAllRows(lower, rows[..n], keys);
      CountAllGrows(lower, rows[..n], rows[n], keys);
      assert rows[..n] + [rows[n]] == rows;
    }
  }

  lemma {:induction false} NothingToCount(lower: Lower, keys: seq<string>)
    ensures CountAll(lower, [], keys) == 0
  {
    if keys != [] { NothingToCount(lower, keys[1..]); }
  }

  /** No row is lost or counted twice: the segments of the list add up to the rows. */
  lemma SegmentsAddUp(lower: Lower, rows: seq<Trail>, list: seq<Entry>)
    requires Listing(lower, rows, list)
    ensures Segments(list) == |rows|
  {
    SegmentsCount(lower, rows, list);
    CountAllRows(lower, rows, Keys(lower, list));
  }
}
