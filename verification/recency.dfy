/** The recency-wins step of `consolidate_data` (app.py lines 124-125 and 133-134):
    `sort_values(by='last_updated', ascending=False)` followed by
    `drop_duplicates(subset=key, keep='first')`. pandas' default sort is not stable,
    so which of several rows with the same key and the same timestamp survives is
    not determined; the sort below is one admissible order, and every property
    proved here holds for any order that is newest-first. */
module Recency {
  import opened Dates
  import opened Frames

  /** One row of a consolidated frame: the key column's value, the other selected
      columns, `last_updated` after `pd.to_datetime`, and the `_source` tag. */
  datatype Entry = Entry(key: Value, values: Row, updated: Date, source: Source)

  /** Sorted by `last_updated`, descending. */
  predicate NewestFirst(s: seq<Entry>) {
    forall i, j :: 0 <= i < j < |s| ==> NotAfter(s[j].updated, s[i].updated)
  }

  function KeysOf(s: seq<Entry>): set<Value> {
    set i | 0 <= i < |s| :: s[i].key
  }

  lemma KeysOfCons(e: Entry, s: seq<Entry>)
    ensures KeysOf([e] + s) == {e.key} + KeysOf(s)
  {
    var t := [e] + s;
    forall x | x in KeysOf(s) ensures x in KeysOf(t) {
      var i :| 0 <= i < |s| && s[i].key == x;
      assert t[i + 1] == s[i];
    }
    forall x | x in KeysOf(t) && x != e.key ensures x in KeysOf(s) {
      var i :| 0 <= i < |t| && t[i].key == x;
      assert s[i - 1] == t[i];
    }
    assert t[0].key == e.key;
  }

  /** No key occurs twice. */
  predicate UniqueKeys(s: seq<Entry>) {
    forall i, j :: 0 <= i < j < |s| ==> s[i].key != s[j].key
  }

  function Insert(e: Entry, s: seq<Entry>): (r: seq<Entry>)
    requires NewestFirst(s)
    ensures NewestFirst(r)
    ensures multiset(r) == multiset(s) + multiset{e}
    ensures forall k :: 0 <= k < |r| ==> r[k] == e || r[k] in s
  {
    if s == [] || NotAfter(s[0].updated, e.updated) then
      [e] + s
    else
      var rest := Insert(e, s[1..]);
      assert s == [s[0]] + s[1..];
      [s[0]] + rest
  }

  /** A newest-first permutation of `s`. */
  function SortNewestFirst(s: seq<Entry>): (r: seq<Entry>)
    ensures NewestFirst(r)
    ensures multiset(r) == multiset(s)
  {
    if s == [] then []
    else
      assert s == [s[0]] + s[1..];
      Insert(s[0], SortNewestFirst(s[1..]))
  }

  /** `drop_duplicates(keep='first')` on `s`, where the keys in `seen` were already
      kept earlier. */
  function KeepFirst(s: seq<Entry>, seen: set<Value>): (r: seq<Entry>)
    ensures forall k :: 0 <= k < |r| ==> r[k] in s && r[k].key !in seen
    ensures UniqueKeys(r)
    ensures KeysOf(r) == KeysOf(s) - seen
  {
    if s == [] then []
    else if s[0].key in seen then
      var r := KeepFirst(s[1..], seen);
      KeysOfCons(s[0], s[1..]);
      r
    else
      var rest := KeepFirst(s[1..], seen + {s[0].key});
      KeysOfCons(s[0], s[1..]);
      KeysOfCons(s[0], rest);
      [s[0]] + rest
  }

  /** Keeping first occurrences preserves a newest-first order. */
  lemma {:induction false} KeepFirstNewestFirst(s: seq<Entry>, seen: set<Value>)
    requires NewestFirst(s)
    ensures NewestFirst(KeepFirst(s, seen))
  {
    if s != [] {
      if s[0].key in seen {
        KeepFirstNewestFirst(s[1..], seen);
      } else {
        KeepFirstNewestFirst(s[1..], seen + {s[0].key});
      }
    }
  }

  /** On a newest-first sequence, the kept row of a key is at least as recent as
      every row of `s` with that key. */
  lemma {:induction false} KeepFirstIsLatest(s: seq<Entry>, seen: set<Value>)
    requires NewestFirst(s)
    ensures forall k, m :: 0 <= k < |KeepFirst(s, seen)| && 0 <= m < |s| && s[m].key == KeepFirst(s, seen)[k].key
              ==> NotAfter(s[m].updated, KeepFirst(s, seen)[k].updated)
  {
    if s != [] {
      var r := KeepFirst(s, seen);
      if s[0].key in seen {
        KeepFirstIsLatest(s[1..], seen);
        assert r == KeepFirst(s[1..], seen);
        forall k, m | 0 <= k < |r| && 0 <= m < |s| && s[m].key == r[k].key
          ensures NotAfter(s[m].updated, r[k].updated)
        {
          assert m > 0;
          assert s[1..][m - 1] == s[m];
        }
      } else {
        var rest := KeepFirst(s[1..], seen + {s[0].key});
        KeepFirstIsLatest(s[1..], seen + {s[0].key});
        forall k, m | 0 <= k < |r| && 0 <= m < |s| && s[m].key == r[k].key
          ensures NotAfter(s[m].updated, r[k].updated)
        {
          if k > 0 {
            assert r[k] == rest[k - 1];
            assert m > 0;
            assert s[1..][m - 1] == s[m];
          } else {
            assert r[0] == s[0];
            NotAfterIsTotalOrder();
          }
        }
      }
    }
  }

  /** Position of the first row of `s` with the given key. */
  function FirstIndex(s: seq<Entry>, key: Value): (i: nat)
    requires key in KeysOf(s)
    ensures i < |s| && s[i].key == key
    ensures forall j :: 0 <= j < i ==> s[j].key != key
  {
    KeysOfCons(s[0], s[1..]);
    assert s == [s[0]] + s[1..];
    if s[0].key == key then 0 else 1 + FirstIndex(s[1..], key)
  }

  lemma FirstIndexInTail(s: seq<Entry>, key: Value)
    requires s != [] && key in KeysOf(s[1..]) && key != s[0].key
    ensures key in KeysOf(s) && FirstIndex(s, key) == 1 + FirstIndex(s[1..], key)
  {
    KeysOfCons(s[0], s[1..]);
    assert s == [s[0]] + s[1..];
  }

  /** Every row of `r` is the first row of `s` with its key. */
  ghost predicate FirstsOf(r: seq<Entry>, s: seq<Entry>) {
    forall k :: 0 <= k < |r| ==> r[k].key in KeysOf(s) && r[k] == s[FirstIndex(s, r[k].key)]
  }

  /** The rows of `r` appear in `r` in the order of their first rows in `s`. */
  ghost predicate InFirstOrder(r: seq<Entry>, s: seq<Entry>) {
    forall k, l :: 0 <= k < l < |r| ==>
      r[k].key in KeysOf(s) && r[l].key in KeysOf(s) && FirstIndex(s, r[k].key) < FirstIndex(s, r[l].key)
  }

  /** Skipping a head row whose key no row of `r` has. */
  lemma SkipHeadKeepsFirsts(s: seq<Entry>, r: seq<Entry>)
    requires s != [] && forall k :: 0 <= k < |r| ==> r[k].key != s[0].key
    requires FirstsOf(r, s[1..]) && InFirstOrder(r, s[1..])
    ensures FirstsOf(r, s) && InFirstOrder(r, s)
  {
    forall k | 0 <= k < |r|
      ensures r[k].key in KeysOf(s) && FirstIndex(s, r[k].key) == 1 + FirstIndex(s[1..], r[k].key)
    {
      FirstIndexInTail(s, r[k].key);
    }
  }

  /** Keeping a head row whose key no row of `rest` has. */
  lemma TakeHeadKeepsFirsts(s: seq<Entry>, rest: seq<Entry>)
    requires s != [] && forall k :: 0 <= k < |rest| ==> rest[k].key != s[0].key
    requires FirstsOf(rest, s[1..]) && InFirstOrder(rest, s[1..])
    ensures FirstsOf([s[0]] + rest, s) && InFirstOrder([s[0]] + rest, s)
  {
    SkipHeadKeepsFirsts(s, rest);
    var r := [s[0]] + rest;
    KeysOfCons(s[0], s[1..]);
    assert s[0].key in KeysOf(s);
    var head := FirstIndex(s, s[0].key);
    assert head == 0;
    forall k | 0 <= k < |r|
      ensures r[k].key in KeysOf(s) && r[k] == s[FirstIndex(s, r[k].key)]
    {
      if k > 0 { assert r[k] == rest[k - 1]; }
    }
    forall k, l | 0 <= k < l < |r|
      ensures FirstIndex(s, r[k].key) < FirstIndex(s, r[l].key)
    {
      assert r[l] == rest[l - 1];
      if k > 0 { assert r[k] == rest[k - 1]; }
    }
  }

  /** `drop_duplicates(keep='first')` exactly: every kept row is the first row of `s`
      with its key, and the kept rows follow the order of `s`. With the key-set
      clause of `KeepFirst` this determines the result completely. */
  lemma {:induction false} KeepFirstKeepsFirsts(s: seq<Entry>, seen: set<Value>)
    ensures FirstsOf(KeepFirst(s, seen), s)
    ensures InFirstOrder(KeepFirst(s, seen), s)
  {
    if s != [] {
      if s[0].key in seen {
        var r := KeepFirst(s[1..], seen);
        KeepFirstKeepsFirsts(s[1..], seen);
        SkipHeadKeepsFirsts(s, r);
      } else {
        var rest := KeepFirst(s[1..], seen + {s[0].key});
        KeepFirstKeepsFirsts(s[1..], seen + {s[0].key});
        TakeHeadKeepsFirsts(s, rest);
      }
    }
  }

  lemma SameElementsSameKeys(a: seq<Entry>, b: seq<Entry>)
    requires multiset(a) == multiset(b)
    ensures KeysOf(a) == KeysOf(b)
  {
    forall x | x in KeysOf(a) ensures x in KeysOf(b) {
      var i :| 0 <= i < |a| && a[i].key == x;
      assert a[i] in multiset(b);
      var j :| 0 <= j < |b| && b[j] == a[i];
    }
    forall x | x in KeysOf(b) ensures x in KeysOf(a) {
      var j :| 0 <= j < |b| && b[j].key == x;
      assert b[j] in multiset(a);
      var i :| 0 <= i < |a| && a[i] == b[j];
    }
  }

  /** Lines 124-125: sort newest first, keep the first row of each key. The result
      holds one row per candidate key, each a candidate, none older than another
      candidate with its key. */
  function KeepLatest(candidates: seq<Entry>): (r: seq<Entry>)
    ensures UniqueKeys(r)
    ensures forall k :: 0 <= k < |r| ==> r[k] in candidates
    ensures KeysOf(r) == KeysOf(candidates)
    ensures forall k, m :: 0 <= k < |r| && 0 <= m < |candidates| && candidates[m].key == r[k].key
              ==> NotAfter(candidates[m].updated, r[k].updated)
    ensures NewestFirst(r)
  {
    var sorted := SortNewestFirst(candidates);
    var r := KeepFirst(sorted, {});
    KeepFirstNewestFirst(sorted, {});
    KeepFirstIsLatest(sorted, {});
    SameElementsSameKeys(sorted, candidates);
    assert forall k :: 0 <= k < |r| ==> r[k] in multiset(candidates);
    assert forall m :: 0 <= m < |candidates| ==> candidates[m] in multiset(sorted);
    r
  }

  /** Without a tie the outcome is determined: a candidate strictly more recent than
      every other candidate with its key is the one kept. */
  lemma StrictlyNewestWins(candidates: seq<Entry>, e: Entry)
    requires e in candidates
    requires forall c :: c in candidates && c.key == e.key && c != e ==> !NotAfter(e.updated, c.updated)
    ensures e in KeepLatest(candidates)
  {
    var r := KeepLatest(candidates);
    var m :| 0 <= m < |candidates| && candidates[m] == e;
    assert e.key in KeysOf(candidates);
    var k :| 0 <= k < |r| && r[k].key == e.key;
    assert NotAfter(e.updated, r[k].updated);
  }
}
