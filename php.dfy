/**
 * The few pieces of PHP's value model that the plugin's decision logic relies on:
 * dynamically typed values, PHP's ordered arrays with string keys, the truthiness
 * and `empty()` rules, the `(string)` and `(int)` casts, and small string helpers.
 *
 * PHP array keys are written as strings throughout; an integer key is its canonical
 * decimal string, which is also how PHP itself folds "0" and 0 into one key.
 */
module Php {

  datatype Option<+T> = None | Some(value: T)

  /** The outcome of running PHP code that may stop with a fatal error. */
  datatype Result<+T> = Ok(value: T) | Fatal(message: string)

  /** A PHP value. `Arr` is an ordered array with string keys. */
  datatype Value =
    | Null
    | Bool(b: bool)
    | Int(i: int)
    | Str(s: string)
    | Arr(entries: seq<(string, Value)>)

  /** An ordered PHP array: insertion order is iteration order. */
  type OMap<V> = seq<(string, V)>

  function Keys<V>(m: OMap<V>): (ks: seq<string>)
    ensures |ks| == |m|
    ensures forall i :: 0 <= i < |m| ==> ks[i] == m[i].0
  {
    if m == [] then [] else [m[0].0] + Keys(m[1..])
  }

  /** No key occurs twice: every PHP array has this shape. */
  ghost predicate Wf<V>(m: OMap<V>)
  {
    forall i, j :: 0 <= i < j < |m| ==> m[i].0 != m[j].0
  }

  predicate HasKey<V>(m: OMap<V>, k: string)
  {
    k in Keys(m)
  }

  /** Position of the first entry with key `k`. */
  function IndexOf<V>(m: OMap<V>, k: string): (i: nat)
    requires HasKey(m, k)
    ensures i < |m| && m[i].0 == k
    ensures forall j :: 0 <= j < i ==> m[j].0 != k
  {
    if m[0].0 == k then 0 else IndexOf(m[1..], k) + 1
  }

  /** `$m[$k]` for a key that may be absent (`array_key_exists`). */
  function Lookup<V>(m: OMap<V>, k: string): (r: Option<V>)
    ensures r.None? <==> !HasKey(m, k)
    ensures r.Some? ==> r.value == m[IndexOf(m, k)].1
  {
    if HasKey(m, k) then Some(m[IndexOf(m, k)].1) else None
  }

  /** `$m[$k] = $v`: an existing key keeps its place, a new key goes last. */
  function Put<V>(m: OMap<V>, k: string, v: V): (r: OMap<V>)
  {
    if HasKey(m, k) then m[IndexOf(m, k) := (k, v)] else m + [(k, v)]
  }

  /** `unset($m[$k])`. */
  function Remove<V>(m: OMap<V>, k: string): (r: OMap<V>)
    ensures |r| <= |m|
  {
    if m == [] then []
    else if m[0].0 == k then Remove(m[1..], k)
    else [m[0]] + Remove(m[1..], k)
  }

  /** Assigning every entry of `es`, first to last: `array_merge` for string keys. */
  function PutAll<V>(m: OMap<V>, es: OMap<V>): OMap<V>
  {
    if es == [] then m
    else Put(PutAll(m, es[..|es| - 1]), es[|es| - 1].0, es[|es| - 1].1)
  }

  /** The value of the LAST entry of `es` with key `k`. */
  function LastValue<V>(es: OMap<V>, k: string): V
    requires HasKey(es, k)
  {
    if es[|es| - 1].0 == k then es[|es| - 1].1
    else (assert Keys(es[..|es| - 1]) == Keys(es)[..|es| - 1]; LastValue(es[..|es| - 1], k))
  }

  /** The entries of `m` whose value satisfies `keep`, in order (`array_filter`). */
  function FilterValues<V>(m: OMap<V>, keep: V -> bool): (r: OMap<V>)
    ensures |r| <= |m|
  {
    if m == [] then []
    else if keep(m[0].1) then [m[0]] + FilterValues(m[1..], keep)
    else FilterValues(m[1..], keep)
  }

  /** The entries of `m` that satisfy `keep`, in order. */
  function FilterEntries<V>(m: OMap<V>, keep: ((string, V)) -> bool): (r: OMap<V>)
    ensures |r| <= |m|
  {
    if m == [] then []
    else (if keep(m[0]) then [m[0]] else []) + FilterEntries(m[1..], keep)
  }

  /** The test "key not already in `a`". */
  function NotKeyOf<V>(a: OMap<V>): ((string, V)) -> bool
  {
    (e: (string, V)) => !HasKey(a, e.0)
  }

  /** PHP's array union `$a + $b`: the entries of `b` whose key `a` lacks go after `a`. */
  function Union<V>(a: OMap<V>, b: OMap<V>): OMap<V>
  {
    a + FilterEntries(b, NotKeyOf(a))
  }

  // ---------------------------------------------------------------------------------
  // Lemmas about the ordered map

  lemma KeysAppend<V>(a: OMap<V>, b: OMap<V>)
    ensures Keys(a + b) == Keys(a) + Keys(b)
  {
  }

  /** Two arrays with the same keys in the same order find every key at the same place. */
  lemma SameKeysIndex<V>(a: OMap<V>, b: OMap<V>, x: string)
    requires Keys(a) == Keys(b) && HasKey(a, x)
    ensures HasKey(b, x) && IndexOf(a, x) == IndexOf(b, x)
  {
    var ia, ib := IndexOf(a, x), IndexOf(b, x);
    assert a[ib].0 == Keys(b)[ib];
    assert b[ia].0 == Keys(a)[ia];
  }

  lemma PutLookupPresent<V>(m: OMap<V>, k: string, v: V, k': string)
    requires HasKey(m, k)
    ensures Lookup(Put(m, k, v), k') == if k' == k then Some(v) else Lookup(m, k')
  {
    var i := IndexOf(m, k);
    var r := m[i := (k, v)];
    assert Put(m, k, v) == r;
    assert Keys(r) == Keys(m);
    if HasKey(m, k') { SameKeysIndex(m, r, k'); }
  }

  lemma PutLookupAbsent<V>(m: OMap<V>, k: string, v: V, k': string)
    requires !HasKey(m, k)
    ensures Lookup(Put(m, k, v), k') == if k' == k then Some(v) else Lookup(m, k')
  {
    var r := m + [(k, v)];
    assert Put(m, k, v) == r;
    KeysAppend(m, [(k, v)]);
    assert Keys(r) == Keys(m) + [k];
    if k' == k {
      assert IndexOf(r, k) == |m|;
    } else if HasKey(m, k') {
      var j := IndexOf(m, k');
      assert r[j] == m[j];
      assert IndexOf(r, k') == j;
    }
  }

  /** Assignment reads back what it wrote and leaves every other key alone. */
  lemma PutLookup<V>(m: OMap<V>, k: string, v: V, k': string)
    ensures Lookup(Put(m, k, v), k') == if k' == k then Some(v) else Lookup(m, k')
  {
    if HasKey(m, k) { PutLookupPresent(m, k, v, k'); } else { PutLookupAbsent(m, k, v, k'); }
  }

  lemma PutKeys<V>(m: OMap<V>, k: string, v: V)
    ensures Keys(Put(m, k, v)) == if HasKey(m, k) then Keys(m) else Keys(m) + [k]
  {
    if !HasKey(m, k) { KeysAppend(m, [(k, v)]); }
  }

  lemma PutWf<V>(m: OMap<V>, k: string, v: V)
    requires Wf(m)
    ensures Wf(Put(m, k, v))
  {
    PutKeys(m, k, v);
  }

  lemma {:induction false} PutAllLookup<V>(m: OMap<V>, es: OMap<V>, k: string)
    ensures Lookup(PutAll(m, es), k) == if HasKey(es, k) then Some(LastValue(es, k)) else Lookup(m, k)
  {
    if es != [] {
      var init, last := es[..|es| - 1], es[|es| - 1];
      assert es == init + [last];
      KeysAppend(init, [last]);
      PutAllLookup(m, init, k);
      PutLookup(PutAll(m, init), last.0, last.1, k);
    }
  }

  /** Merging a list that has at most one more entry. */
  lemma PutAllSnoc<V>(m: OMap<V>, es: OMap<V>, tail: OMap<V>)
    requires |tail| <= 1
    ensures PutAll(m, es + tail) == if tail == [] then PutAll(m, es) else Put(PutAll(m, es), tail[0].0, tail[0].1)
  {
    if tail == [] {
      assert es + tail == es;
    } else {
      assert (es + tail)[..|es + tail| - 1] == es;
    }
  }

  /** Merging in two batches is merging their concatenation. */
  lemma {:induction false} PutAllConcat<V>(m: OMap<V>, a: OMap<V>, b: OMap<V>)
    ensures PutAll(m, a + b) == PutAll(PutAll(m, a), b)
  {
    if b == [] {
      assert a + b == a;
    } else {
      var init := b[..|b| - 1];
      assert (a + b)[..|a + b| - 1] == a + init;
      assert (a + b)[|a + b| - 1] == b[|b| - 1];
      PutAllConcat(m, a, init);
    }
  }

  lemma {:induction false} PutAllWf<V>(m: OMap<V>, es: OMap<V>)
    requires Wf(m)
    ensures Wf(PutAll(m, es))
  {
    if es != [] {
      PutAllWf(m, es[..|es| - 1]);
      PutWf(PutAll(m, es[..|es| - 1]), es[|es| - 1].0, es[|es| - 1].1);
    }
  }

  /** Merging never drops a key of `m` and only adds keys of `es`. */
  lemma {:induction false} PutAllKeys<V>(m: OMap<V>, es: OMap<V>, k: string)
    ensures HasKey(PutAll(m, es), k) <==> HasKey(m, k) || HasKey(es, k)
  {
    PutAllLookup(m, es, k);
  }

  lemma {:induction false} RemoveSpec<V>(m: OMap<V>, k: string, k': string)
    requires Wf(m)
    ensures Wf(Remove(m, k))
    ensures Lookup(Remove(m, k), k') == if k' == k then None else Lookup(m, k')
  {
    if m != [] {
      assert Wf(m[1..]) by {
        forall i, j | 0 <= i < j < |m[1..]| ensures m[1..][i].0 != m[1..][j].0 {
          assert m[1..][i] == m[i + 1] && m[1..][j] == m[j + 1];
        }
      }
      RemoveSpec(m[1..], k, k');
      RemoveKeysSub(m[1..], k);
      assert m == [m[0]] + m[1..];
      LookupCons(m[0], m[1..], k');
      if m[0].0 != k {
        var r := Remove(m, k);
        assert r == [m[0]] + Remove(m[1..], k);
        LookupCons(m[0], Remove(m[1..], k), k');
        assert Keys(r) == [m[0].0] + Keys(Remove(m[1..], k));
        assert m[0].0 !in Keys(m[1..]);
      }
    }
  }

  /** Looking a key up in an array whose first entry is `x`. */
  lemma LookupCons<V>(x: (string, V), rest: OMap<V>, k: string)
    ensures Lookup([x] + rest, k) == if x.0 == k then Some(x.1) else Lookup(rest, k)
  {
    var m := [x] + rest;
    assert m[1..] == rest;
    assert Keys(m) == [x.0] + Keys(rest);
    if x.0 != k && HasKey(rest, k) {
      assert IndexOf(m, k) == IndexOf(rest, k) + 1;
    }
  }

  lemma {:induction false} RemoveKeysSub<V>(m: OMap<V>, k: string)
    ensures forall x :: x in Keys(Remove(m, k)) ==> x in Keys(m) && x != k
  {
    if m != [] {
      RemoveKeysSub(m[1..], k);
      if m[0].0 != k {
        assert Keys(Remove(m, k)) == [m[0].0] + Keys(Remove(m[1..], k));
      }
    }
  }

  lemma {:induction false} RemoveAppend<V>(a: OMap<V>, b: OMap<V>, k: string)
    ensures Remove(a + b, k) == Remove(a, k) + Remove(b, k)
  {
    if a != [] {
      assert (a + b)[1..] == a[1..] + b;
      RemoveAppend(a[1..], b, k);
    } else {
      assert a + b == b;
    }
  }

  /** Unsetting a key that is not there changes nothing. */
  lemma {:induction false} RemoveAbsent<V>(m: OMap<V>, k: string)
    requires !HasKey(m, k)
    ensures Remove(m, k) == m
  {
    if m != [] {
      assert Keys(m) == [m[0].0] + Keys(m[1..]);
      RemoveAbsent(m[1..], k);
      assert m == [m[0]] + m[1..];
    }
  }

  /** In a well-formed array the key at `i` occurs neither before nor after it. */
  lemma WfSplit<V>(m: OMap<V>, i: nat)
    requires Wf(m) && i < |m|
    ensures !HasKey(m[..i], m[i].0) && !HasKey(m[i + 1..], m[i].0)
  {
    forall j | 0 <= j < i ensures Keys(m[..i])[j] != m[i].0 { assert m[..i][j] == m[j]; }
    var t := m[i + 1..];
    forall j | 0 <= j < |t| ensures Keys(t)[j] != m[i].0 { assert t[j] == m[i + 1 + j]; }
  }

  /** Unsetting the key of an entry whose key occurs nowhere else drops just that entry. */
  lemma RemoveMiddle<V>(f: OMap<V>, e: (string, V), rest: OMap<V>)
    requires !HasKey(f, e.0) && !HasKey(rest, e.0)
    ensures Remove(f + ([e] + rest), e.0) == f + rest
  {
    RemoveAppend(f, [e] + rest, e.0);
    RemoveAppend([e], rest, e.0);
    RemoveAbsent(f, e.0);
    RemoveAbsent(rest, e.0);
    assert Remove([e], e.0) == [];
  }

  lemma {:induction false} FilterEntriesAppend<V>(a: OMap<V>, b: OMap<V>, keep: ((string, V)) -> bool)
    ensures FilterEntries(a + b, keep) == FilterEntries(a, keep) + FilterEntries(b, keep)
  {
    if a != [] {
      assert (a + b)[1..] == a[1..] + b;
      FilterEntriesAppend(a[1..], b, keep);
    } else {
      assert a + b == b;
    }
  }

  /** Filtering one entry further. */
  lemma FilterEntriesSnoc<V>(m: OMap<V>, i: nat, keep: ((string, V)) -> bool)
    requires i < |m|
    ensures FilterEntries(m[..i + 1], keep) == FilterEntries(m[..i], keep) + (if keep(m[i]) then [m[i]] else [])
  {
    assert m[..i + 1] == m[..i] + [m[i]];
    FilterEntriesAppend(m[..i], [m[i]], keep);
    assert FilterEntries([m[i]], keep) == (if keep(m[i]) then [m[i]] else []) + FilterEntries([], keep);
  }

  /** Exactly the entries that satisfy `keep` survive, unchanged. */
  lemma {:induction false} FilterEntriesSpec<V>(m: OMap<V>, keep: ((string, V)) -> bool)
    ensures forall e :: e in FilterEntries(m, keep) <==> e in m && keep(e)
  {
    if m != [] {
      FilterEntriesSpec(m[1..], keep);
      assert m == [m[0]] + m[1..];
    }
  }

  lemma FilterEntriesKeys<V>(m: OMap<V>, keep: ((string, V)) -> bool, k: string)
    requires HasKey(FilterEntries(m, keep), k)
    ensures HasKey(m, k)
  {
    FilterEntriesSpec(m, keep);
    var f := FilterEntries(m, keep);
    var e := f[IndexOf(f, k)];
    assert e in m;
    var j :| 0 <= j < |m| && m[j] == e;
    assert Keys(m)[j] == k;
  }

  lemma FilterEntriesNoNewKeys<V>(m: OMap<V>, keep: ((string, V)) -> bool, k: string)
    requires !HasKey(m, k)
    ensures !HasKey(FilterEntries(m, keep), k)
  {
    if HasKey(FilterEntries(m, keep), k) { FilterEntriesKeys(m, keep, k); }
  }

  /**
   * One step of a loop that walks a well-formed array and unsets every entry failing
   * `keep`: the array stays "filtered prefix, then untouched rest".
   */
  lemma UnsetLoopStep<V>(m: OMap<V>, i: nat, keep: ((string, V)) -> bool)
    requires Wf(m) && i < |m|
    ensures keep(m[i]) ==> FilterEntries(m[..i], keep) + m[i..] == FilterEntries(m[..i + 1], keep) + m[i + 1..]
    ensures !keep(m[i]) ==> Remove(FilterEntries(m[..i], keep) + m[i..], m[i].0) == FilterEntries(m[..i + 1], keep) + m[i + 1..]
  {
    var e := m[i];
    assert m[..i + 1] == m[..i] + [e];
    assert m[i..] == [e] + m[i + 1..];
    FilterEntriesAppend(m[..i], [e], keep);
    if !keep(e) {
      WfSplit(m, i);
      FilterEntriesNoNewKeys(m[..i], keep, e.0);
      RemoveMiddle(FilterEntries(m[..i], keep), e, m[i + 1..]);
    }
  }

  lemma {:induction false} FilterEntriesAll<V>(m: OMap<V>, keep: ((string, V)) -> bool)
    requires forall e :: e in m ==> keep(e)
    ensures FilterEntries(m, keep) == m
  {
    if m != [] {
      assert m[0] in m;
      forall e | e in m[1..] ensures keep(e) { assert e in m; }
      FilterEntriesAll(m[1..], keep);
      assert m == [m[0]] + m[1..];
    }
  }

  lemma {:induction false} FilterEntriesWf<V>(m: OMap<V>, keep: ((string, V)) -> bool)
    requires Wf(m)
    ensures Wf(FilterEntries(m, keep))
  {
    if m != [] {
      var t := m[1..];
      assert Wf(t);
      FilterEntriesWf(t, keep);
      WfSplit(m, 0);
      FilterEntriesNoNewKeys(t, keep, m[0].0);
      WfCons(m[0], FilterEntries(t, keep));
    }
  }

  /** Union of arrays with disjoint keys is concatenation. */
  lemma UnionDisjoint<V>(a: OMap<V>, b: OMap<V>)
    requires forall e :: e in b ==> !HasKey(a, e.0)
    ensures Union(a, b) == a + b
  {
    FilterEntriesAll(b, NotKeyOf(a));
  }

  lemma WfCons<V>(e: (string, V), m: OMap<V>)
    requires Wf(m) && !HasKey(m, e.0)
    ensures Wf([e] + m)
  {
    forall j | 0 <= j < |m| ensures m[j].0 != e.0 { assert Keys(m)[j] == m[j].0; }
  }

  lemma WfSnoc<V>(m: OMap<V>, e: (string, V))
    requires Wf(m) && !HasKey(m, e.0)
    ensures Wf(m + [e])
  {
    forall j | 0 <= j < |m| ensures m[j].0 != e.0 { assert Keys(m)[j] == m[j].0; }
  }

  /** An assignment keeps or replaces entries and adds only the assigned one. */
  lemma PutMembers<V>(m: OMap<V>, k: string, v: V)
    ensures forall e :: e in Put(m, k, v) ==> e in m || e == (k, v)
  {
    if HasKey(m, k) {
      var i := IndexOf(m, k);
      forall e | e in Put(m, k, v) ensures e in m || e == (k, v) {
        var j :| 0 <= j < |m| && Put(m, k, v)[j] == e;
        if j != i { assert e == m[j]; }
      }
    }
  }

  lemma {:induction false} PutAllMembers<V>(m: OMap<V>, es: OMap<V>)
    ensures forall e :: e in PutAll(m, es) ==> e in m || e in es
  {
    if es != [] {
      var init, last := es[..|es| - 1], es[|es| - 1];
      PutAllMembers(m, init);
      PutMembers(PutAll(m, init), last.0, last.1);
      assert es == init + [last];
    }
  }

  lemma {:induction false} RemoveMembers<V>(m: OMap<V>, k: string)
    ensures forall e :: e in Remove(m, k) <==> e in m && e.0 != k
  {
    if m != [] {
      RemoveMembers(m[1..], k);
      assert m == [m[0]] + m[1..];
    }
  }

  /** Merging entries with distinct keys into an empty array gives those entries. */
  lemma {:induction false} PutAllFresh<V>(es: OMap<V>)
    requires Wf(es)
    ensures PutAll([], es) == es
  {
    if es != [] {
      var n := |es| - 1;
      var init, last := es[..n], es[n];
      WfInit(es);
      PutAllFresh(init);
      assert PutAll([], es) == Put(init, last.0, last.1);
      assert init + [last] == es;
    }
  }

  /** Without its last entry a PHP array is still one, and lacks that entry's key. */
  lemma WfInit<V>(es: OMap<V>)
    requires Wf(es) && es != []
    ensures Wf(es[..|es| - 1]) && !HasKey(es[..|es| - 1], es[|es| - 1].0)
  {
    var n := |es| - 1;
    var init := es[..n];
    forall i, j | 0 <= i < j < |init| ensures init[i].0 != init[j].0 {
      assert init[i] == es[i] && init[j] == es[j];
    }
    forall p | 0 <= p < |init| ensures Keys(init)[p] != es[n].0 {
      assert init[p] == es[p];
    }
  }

  lemma {:induction false} FilterAppend<V>(a: OMap<V>, b: OMap<V>, keep: V -> bool)
    ensures FilterValues(a + b, keep) == FilterValues(a, keep) + FilterValues(b, keep)
  {
    if a != [] {
      assert (a + b)[1..] == a[1..] + b;
      FilterAppend(a[1..], b, keep);
    } else {
      assert a + b == b;
    }
  }

  /** Every kept entry is an entry of `m` whose value passes `keep`. */
  lemma {:induction false} FilterKept<V>(m: OMap<V>, keep: V -> bool)
    ensures forall e :: e in FilterValues(m, keep) ==> e in m && keep(e.1)
  {
    if m != [] {
      FilterKept(m[1..], keep);
    }
  }

  lemma FilterKeys<V>(m: OMap<V>, keep: V -> bool, k: string)
    requires HasKey(FilterValues(m, keep), k)
    ensures HasKey(m, k)
  {
    var f := FilterValues(m, keep);
    FilterKept(m, keep);
    assert f[IndexOf(f, k)] in m;
    var j :| 0 <= j < |m| && m[j] == f[IndexOf(f, k)];
    assert Keys(m)[j] == k;
  }

  lemma FilterNoNewKeys<V>(m: OMap<V>, keep: V -> bool, k: string)
    requires !HasKey(m, k)
    ensures !HasKey(FilterValues(m, keep), k)
  {
    if HasKey(FilterValues(m, keep), k) { FilterKeys(m, keep, k); }
  }

  /** In a well-formed array, filtering keeps exactly the keys whose value passes. */
  lemma {:induction false} FilterLookup<V>(m: OMap<V>, keep: V -> bool, k: string)
    requires Wf(m)
    ensures Lookup(FilterValues(m, keep), k) ==
            if Lookup(m, k).Some? && keep(Lookup(m, k).value) then Lookup(m, k) else None
  {
    if m != [] {
      var t := m[1..];
      assert Wf(t);
      FilterLookup(t, keep, k);
      assert Keys(m) == [m[0].0] + Keys(t);
      if m[0].0 == k {
        assert !HasKey(t, k);
        if HasKey(FilterValues(t, keep), k) { FilterKeys(t, keep, k); }
      } else {
        if HasKey(t, k) {
          assert IndexOf(m, k) == IndexOf(t, k) + 1;
        }
        if keep(m[0].1) {
          var f := FilterValues(t, keep);
          assert Keys([m[0]] + f) == [m[0].0] + Keys(f);
          if HasKey(f, k) { assert IndexOf([m[0]] + f, k) == IndexOf(f, k) + 1; }
        }
      }
    }
  }

  lemma {:induction false} FilterWf<V>(m: OMap<V>, keep: V -> bool)
    requires Wf(m)
    ensures Wf(FilterValues(m, keep))
  {
    if m != [] {
      var t := m[1..];
      assert Wf(t);
      FilterWf(t, keep);
      if keep(m[0].1) {
        var f := FilterValues(t, keep);
        assert !HasKey(t, m[0].0) by {
          forall j | 0 <= j < |t| ensures Keys(t)[j] != m[0].0 { assert t[j] == m[j + 1]; }
        }
        FilterNoNewKeys(t, keep, m[0].0);
        assert Keys([m[0]] + f) == [m[0].0] + Keys(f);
      }
    }
  }

  /** Entries after the last one with key `k` do not change which value is last. */
  lemma {:induction false} LastValueAppend<V>(a: OMap<V>, b: OMap<V>, k: string)
    requires HasKey(a, k) && !HasKey(b, k)
    ensures HasKey(a + b, k) && LastValue(a + b, k) == LastValue(a, k)
  {
    KeysAppend(a, b);
    if b == [] {
      assert a + b == a;
    } else {
      var n := |b| - 1;
      var init, ab := b[..n], a + b;
      assert Keys(init) == Keys(b)[..n];
      assert Keys(b)[n] == b[n].0;
      assert ab[..|ab| - 1] == a + init;
      LastValueAppend(a, init, k);
      LastValueDrop(ab, k);
    }
  }

  /** An entry with another key at the end does not change the last value of `k`. */
  lemma LastValueDrop<V>(es: OMap<V>, k: string)
    requires HasKey(es, k) && es[|es| - 1].0 != k
    ensures HasKey(es[..|es| - 1], k) && LastValue(es, k) == LastValue(es[..|es| - 1], k)
  {
    assert Keys(es[..|es| - 1]) == Keys(es)[..|es| - 1];
  }

  /** The value `LastValue` picks is the value of some entry with that key. */
  lemma {:induction false} LastValueIn<V>(es: OMap<V>, k: string)
    requires HasKey(es, k)
    ensures (k, LastValue(es, k)) in es
  {
    if es[|es| - 1].0 != k {
      assert Keys(es[..|es| - 1]) == Keys(es)[..|es| - 1];
      LastValueIn(es[..|es| - 1], k);
    }
  }

  // ---------------------------------------------------------------------------------
  // Truthiness, empty() and casts

  /** PHP's `empty()` on a string: the empty string and "0". */
  predicate EmptyStr(s: string)
  {
    s == "" || s == "0"
  }

  /** PHP's conversion of a value to bool (`if ($v)`, `! empty($v)`). */
  predicate Truthy(v: Value)
  {
    match v
    case Null => false
    case Bool(b) => b
    case Int(i) => i != 0
    case Str(s) => !EmptyStr(s)
    case Arr(es) => es != []
  }

  predicate IsDigit(c: char)
  {
    '0' <= c <= '9'
  }

  predicate AllDigits(s: string)
  {
    forall i :: 0 <= i < |s| ==> IsDigit(s[i])
  }

  /** `is_numeric` on a string, restricted to integers: an optional sign and digits. */
  predicate IsNumeric(s: string)
  {
    if |s| > 0 && (s[0] == '-' || s[0] == '+') then |s| > 1 && AllDigits(s[1..])
    else |s| > 0 && AllDigits(s)
  }

  /** The value of a string of digits. */
  function DigitsValue(s: string): (n: nat)
    requires AllDigits(s)
  {
    if s == [] then 0 else DigitsValue(s[..|s| - 1]) * 10 + (s[|s| - 1] as int - '0' as int)
  }

  /** The longest prefix of `s` made of digits. */
  function LeadingDigits(s: string): (p: string)
    ensures AllDigits(p) && |p| <= |s| && p == s[..|p|]
    ensures |p| < |s| ==> !IsDigit(s[|p|])
  {
    if s != [] && IsDigit(s[0]) then [s[0]] + LeadingDigits(s[1..]) else []
  }

  /** The white space a numeric string may start with: space, tab, line feed, carriage return, vertical tab and form feed. */
  predicate IsNumericSpace(c: char)
  {
    c == ' ' || c == '\t' || c == '\n' || c == '\r' || c as int == 0x0B || c as int == 0x0C
  }

  /** `s` without its leading white space. */
  function SkipSpace(s: string): (t: string)
    ensures |t| <= |s| && t == s[|s| - |t|..]
    ensures t == [] || !IsNumericSpace(t[0])
    ensures forall i :: 0 <= i < |s| - |t| ==> IsNumericSpace(s[i])
  {
    if s != [] && IsNumericSpace(s[0]) then SkipSpace(s[1..]) else s
  }

  /**
   * `intval` on a string: leading white space is skipped, then an optional sign and the
   * leading digits are read; 0 when there are none.
   */
  function IntVal(s: string): int
  {
    var t := SkipSpace(s);
    if |t| > 0 && t[0] == '-' then 0 - DigitsValue(LeadingDigits(t[1..])) as int
    else if |t| > 0 && t[0] == '+' then DigitsValue(LeadingDigits(t[1..]))
    else DigitsValue(LeadingDigits(t))
  }

  /** White space in front of a string does not change its integer value. */
  lemma IntValSkipsSpace(w: string, s: string)
    requires forall i :: 0 <= i < |w| ==> IsNumericSpace(w[i])
    ensures IntVal(w + s) == IntVal(s)
  {
    SkipSpaceAppend(w, s);
  }

  lemma {:induction false} SkipSpaceAppend(w: string, s: string)
    requires forall i :: 0 <= i < |w| ==> IsNumericSpace(w[i])
    ensures SkipSpace(w + s) == SkipSpace(s)
  {
    if w != [] {
      assert (w + s)[0] == w[0];
      assert (w + s)[1..] == w[1..] + s;
      SkipSpaceAppend(w[1..], s);
    } else {
      assert w + s == s;
    }
  }

  /** `absint`: the absolute value of `intval`. */
  function AbsInt(s: string): (n: nat)
  {
    var i := IntVal(s); if i < 0 then -i else i
  }

  /** "0" is a numeric string whose `absint` is 0. */
  lemma ZeroIsNumeric()
    ensures IsNumeric("0") && AbsInt("0") == 0
  {
    assert SkipSpace("0") == "0";
    assert LeadingDigits("0") == "0";
    assert DigitsValue("0") == 0;
  }

  /** The `(int)` cast. */
  function IntCast(v: Value): int
  {
    match v
    case Null => 0
    case Bool(b) => if b then 1 else 0
    case Int(i) => i
    case Str(s) => IntVal(s)
    case Arr(es) => if es == [] then 0 else 1
  }

  /** Canonical decimal writing of a natural number. */
  function NatStr(n: nat): (s: string)
    ensures |s| > 0 && AllDigits(s)
  {
    if n < 10 then [('0' as int + n) as char] else NatStr(n / 10) + [('0' as int + n % 10) as char]
  }

  function IntStr(i: int): string
  {
    if i < 0 then "-" + NatStr(-i) else NatStr(i)
  }

  /** The `(array)` cast: null becomes `[]`, a scalar becomes a one-entry list. */
  function ArrayCast(v: Value): (r: OMap<Value>)
    ensures v.Arr? ==> r == v.entries
    ensures v.Null? <==> r == [] && !v.Arr?
    ensures !v.Null? && !v.Arr? ==> r == [("0", v)]
  {
    match v
    case Null => []
    case Arr(es) => es
    case _ => [("0", v)]
  }

  /** The `(string)` cast; an array becomes "Array". */
  function ToStr(v: Value): string
  {
    match v
    case Null => ""
    case Bool(b) => if b then "1" else ""
    case Int(i) => IntStr(i)
    case Str(s) => s
    case Arr(_) => "Array"
  }

  // ---------------------------------------------------------------------------------
  // Strings

  function LowerChar(c: char): char
  {
    if 'A' <= c <= 'Z' then (c as int - 'A' as int + 'a' as int) as char else c
  }

  /** `strtolower` (ASCII letters). */
  function ToLower(s: string): (r: string)
    ensures |r| == |s|
    ensures forall i :: 0 <= i < |s| ==> r[i] == LowerChar(s[i])
  {
    seq(|s|, i requires 0 <= i < |s| => LowerChar(s[i]))
  }

  /** `strpos($hay, $needle) !== false`. */
  predicate Contains(hay: string, needle: string)
  {
    exists i :: 0 <= i <= |hay| - |needle| && MatchAt(hay, needle, i)
  }

  predicate MatchAt(hay: string, needle: string, i: int)
    requires 0 <= i <= |hay| - |needle|
  {
    hay[i..i + |needle|] == needle
  }

  /** `implode($sep, $parts)`. */
  function Join(parts: seq<string>, sep: string): string
  {
    if parts == [] then ""
    else if |parts| == 1 then parts[0]
    else parts[0] + sep + Join(parts[1..], sep)
  }

  /** `str_replace($from, $to, $s)` for single characters. */
  function ReplaceChar(s: string, from: char, to: char): (r: string)
    ensures |r| == |s|
    ensures forall i :: 0 <= i < |s| ==> r[i] == if s[i] == from then to else s[i]
  {
    seq(|s|, i requires 0 <= i < |s| => if s[i] == from then to else s[i])
  }

  /** `explode($sep, $s)` / JavaScript `split` on one character. */
  function Split(s: string, sep: char): (parts: seq<string>)
    ensures |parts| > 0
    decreases |s|
  {
    if s == [] then [""]
    else if s[0] == sep then [""] + Split(s[1..], sep)
    else var rest := Split(s[1..], sep); [[s[0]] + rest[0]] + rest[1..]
  }

  predicate IsSpace(c: char)
  {
    c == ' ' || c == '\t' || c == '\n' || c == '\r' || c == '\0' || c == '\U{0B}'
  }

  function TrimLeft(s: string): (r: string)
    ensures |r| <= |s|
  {
    if s != [] && IsSpace(s[0]) then TrimLeft(s[1..]) else s
  }

  function TrimRight(s: string): (r: string)
    ensures |r| <= |s|
  {
    if s != [] && IsSpace(s[|s| - 1]) then TrimRight(s[..|s| - 1]) else s
  }

  /** `trim`. */
  function Trim(s: string): string
  {
    TrimRight(TrimLeft(s))
  }

  /** Lexicographic order on strings, as PHP's `<` on non-numeric strings. */
  predicate StrLess(a: string, b: string)
  {
    if a == [] then b != []
    else if b == [] then false
    else if a[0] != b[0] then a[0] < b[0]
    else StrLess(a[1..], b[1..])
  }

  predicate StrLessEq(a: string, b: string)
  {
    a == b || StrLess(a, b)
  }

  lemma {:induction false} StrLessTotal(a: string, b: string)
    ensures a == b || StrLess(a, b) || StrLess(b, a)
  {
    if a != [] && b != [] && a[0] == b[0] {
      StrLessTotal(a[1..], b[1..]);
      if a[1..] == b[1..] { assert a == [a[0]] + a[1..] && b == [b[0]] + b[1..]; }
    }
  }

  lemma {:induction false} StrLessTrans(a: string, b: string, c: string)
    requires StrLess(a, b) && StrLess(b, c)
    ensures StrLess(a, c)
  {
    if a != [] && b != [] && c != [] && a[0] == b[0] && b[0] == c[0] {
      StrLessTrans(a[1..], b[1..], c[1..]);
    }
  }

  lemma {:induction false} StrLessIrrefl(a: string)
    ensures !StrLess(a, a)
  {
    if a != [] { StrLessIrrefl(a[1..]); }
  }

  /** A string without the separator splits into itself. */
  lemma {:induction false} SplitNone(a: string, sep: char)
    requires sep !in a
    ensures Split(a, sep) == [a]
    decreases |a|
  {
    if a != [] {
      SplitNone(a[1..], sep);
      assert [a[0]] + a[1..] == a;
    }
  }

  /** `explode` cuts at the first separator. */
  lemma {:induction false} SplitAfter(a: string, rest: string, sep: char)
    requires sep !in a
    ensures Split(a + [sep] + rest, sep) == [a] + Split(rest, sep)
    decreases |a|
  {
    var s := a + [sep] + rest;
    if a == [] {
      assert s == [sep] + rest && s[1..] == rest;
    } else {
      assert s[0] == a[0] && s[1..] == a[1..] + [sep] + rest;
      SplitAfter(a[1..], rest, sep);
      assert [a[0]] + a[1..] == a;
    }
  }

  /** Joining parts that hold no separator and splitting again gives the parts back. */
  lemma {:induction false} SplitJoin(parts: seq<string>, sep: char)
    requires |parts| > 0
    requires forall i :: 0 <= i < |parts| ==> sep !in parts[i]
    ensures Split(Join(parts, [sep]), sep) == parts
  {
    if |parts| == 1 {
      SplitNone(parts[0], sep);
    } else {
      SplitJoin(parts[1..], sep);
      SplitAfter(parts[0], Join(parts[1..], [sep]), sep);
      assert parts == [parts[0]] + parts[1..];
    }
  }

  /** Splitting and joining again gives the string back; no part holds the separator. */
  lemma {:induction false} JoinSplit(s: string, sep: char)
    ensures Join(Split(s, sep), [sep]) == s
    ensures forall i :: 0 <= i < |Split(s, sep)| ==> sep !in Split(s, sep)[i]
    decreases |s|
  {
    if s == [] {
    } else if s[0] == sep {
      JoinSplit(s[1..], sep);
      var r := Split(s[1..], sep);
      assert Split(s, sep) == [""] + r;
      assert ([""] + r)[1..] == r;
      assert s == [sep] + s[1..];
    } else {
      JoinSplit(s[1..], sep);
      var r := Split(s[1..], sep);
      var parts := [[s[0]] + r[0]] + r[1..];
      assert Split(s, sep) == parts;
      assert parts[1..] == r[1..];
      if |r| == 1 {
        assert s == [s[0]] + s[1..];
      } else {
        assert r == [r[0]] + r[1..];
        assert Join(r, [sep]) == r[0] + [sep] + Join(r[1..], [sep]);
        assert s == [s[0]] + s[1..];
      }
      forall i | 0 <= i < |parts| ensures sep !in parts[i] {
        if i > 0 { assert parts[i] == r[i]; }
      }
    }
  }
}
