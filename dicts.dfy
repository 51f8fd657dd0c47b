/**
 * Python dictionaries keyed by strings, as lists of entries in insertion order: assigning to a
 * key already present keeps its place, a new key goes at the end.
 */
module Dicts {
  import opened Wrappers

  /** The keys, in insertion order. */
  function Names<V>(entries: seq<(string, V)>): (r: seq<string>)
    ensures |r| == |entries| && forall i :: 0 <= i < |r| ==> r[i] == entries[i].0
  {
    if entries == [] then [] else [entries[0].0] + Names(entries[1..])
  }

  /** The first position of `key` in `names`. */
  function KeyIndex(names: seq<string>, key: string): (r: Option<nat>)
    ensures r.Some? ==> r.value < |names| && names[r.value] == key
    ensures r.None? <==> key !in names
  {
    if names == [] then None
    else if names[0] == key then Some(0)
    else match KeyIndex(names[1..], key)
      case Some(k) => Some(k + 1)
      case None => None
  }

  /** `d[key] = v` on a dictionary whose entries are listed in insertion order. */
  function Upsert<V>(entries: seq<(string, V)>, key: string, v: V): seq<(string, V)> {
    match KeyIndex(Names(entries), key)
    case Some(k) => entries[k := (key, v)]
    case None => entries + [(key, v)]
  }

  /**
   * `d[key] = v` keeps the keys (adding `key` at the end when it is new), leaves every other entry
   * as it was, and `key` then maps to `v`.
   */
  lemma UpsertKeeps<V>(entries: seq<(string, V)>, key: string, v: V)
    ensures Names(Upsert(entries, key, v)) == if key in Names(entries) then Names(entries) else Names(entries) + [key]
    ensures forall i :: 0 <= i < |entries| && entries[i].0 != key ==> Upsert(entries, key, v)[i] == entries[i]
    ensures KeyIndex(Names(Upsert(entries, key, v)), key).Some?
    ensures Upsert(entries, key, v)[KeyIndex(Names(Upsert(entries, key, v)), key).value] == (key, v)
  {
    UpsertNames(entries, key, v);
    UpsertOthers(entries, key, v);
    UpsertFinds(entries, key, v);
  }

  lemma UpsertNames<V>(entries: seq<(string, V)>, key: string, v: V)
    ensures Names(Upsert(entries, key, v)) == if key in Names(entries) then Names(entries) else Names(entries) + [key]
  {
    var r := Upsert(entries, key, v);
    if key in Names(entries) {
      assert Names(r) == Names(entries);
    } else {
      assert Names(r) == Names(entries) + [key];
    }
  }

  lemma UpsertOthers<V>(entries: seq<(string, V)>, key: string, v: V)
    ensures forall i :: 0 <= i < |entries| && entries[i].0 != key ==> Upsert(entries, key, v)[i] == entries[i]
  {
  }

  lemma UpsertFinds<V>(entries: seq<(string, V)>, key: string, v: V)
    ensures KeyIndex(Names(Upsert(entries, key, v)), key).Some?
    ensures Upsert(entries, key, v)[KeyIndex(Names(Upsert(entries, key, v)), key).value] == (key, v)
  {
    UpsertNames(entries, key, v);
    match KeyIndex(Names(entries), key)
    case Some(k) =>
      assert KeyIndex(Names(Upsert(entries, key, v)), key) == Some(k);
    case None =>
      KeyIndexAppend(Names(entries), key);
  }

  /** Where `d[key] = v` puts the new entry: over the old entry for `key`, or at the end. */
  function UpsertIndex<V>(entries: seq<(string, V)>, key: string): nat {
    match KeyIndex(Names(entries), key)
    case Some(k) => k
    case None => |entries|
  }

  lemma {:induction false} KeyIndexAppend(names: seq<string>, key: string)
    requires key !in names
    ensures KeyIndex(names + [key], key) == Some(|names|)
  {
    if names != [] {
      assert (names + [key])[1..] == names[1..] + [key];
      KeyIndexAppend(names[1..], key);
    }
  }

  /**
   * `d[key] = v` on two dictionaries with the same keys: both put the new entry at the same
   * place, where `key` is then first found, and leave every other entry as it was.
   */
  lemma UpsertAligned<V, W>(a: seq<(string, V)>, b: seq<(string, W)>, key: string, v: V, w: W)
    requires Names(a) == Names(b)
    ensures |Upsert(a, key, v)| == |Upsert(b, key, w)| && UpsertIndex(a, key) < |Upsert(a, key, v)|
    ensures Upsert(a, key, v)[UpsertIndex(a, key)] == (key, v) && Upsert(b, key, w)[UpsertIndex(a, key)] == (key, w)
    ensures KeyIndex(Names(Upsert(a, key, v)), key) == Some(UpsertIndex(a, key))
    ensures forall j :: 0 <= j < |Upsert(a, key, v)| && j != UpsertIndex(a, key) ==>
      Upsert(a, key, v)[j] == a[j] && Upsert(b, key, w)[j] == b[j]
  {
    UpsertKeeps(a, key, v);
    if key !in Names(a) {
      KeyIndexAppend(Names(a), key);
    }
  }

  /** `d.get(key)` on a dictionary built by `Upsert`, where each key occurs once. */
  function ValueOf<V>(entries: seq<(string, V)>, key: string): Option<V> {
    match KeyIndex(Names(entries), key)
    case Some(k) => Some(entries[k].1)
    case None => None
  }

  lemma {:induction false} KeyIndexAppendOther(names: seq<string>, key: string, other: string)
    requires other != key
    ensures KeyIndex(names + [key], other) == KeyIndex(names, other)
  {
    if names != [] {
      assert (names + [key])[1..] == names[1..] + [key];
      KeyIndexAppendOther(names[1..], key, other);
    }
  }

  /** After `d[key] = v`, `key` holds `v` and every other key holds what it held before. */
  lemma ValueOfUpsert<V>(entries: seq<(string, V)>, key: string, v: V, other: string)
    ensures ValueOf(Upsert(entries, key, v), other) == if other == key then Some(v) else ValueOf(entries, other)
  {
    UpsertKeeps(entries, key, v);
    if other != key && key !in Names(entries) {
      KeyIndexAppendOther(Names(entries), key, other);
    }
  }

  /**
   * The value of the last entry named `key`: what a dictionary built from the entries in order
   * holds for `key`.
   */
  function Lookup<V>(entries: seq<(string, V)>, key: string): Option<V>
    decreases |entries|
  {
    if entries == [] then None
    else if entries[|entries| - 1].0 == key then Some(entries[|entries| - 1].1)
    else Lookup(entries[..|entries| - 1], key)
  }

  /** An object holds `key` exactly when one of its entries is named so, and yields its value. */
  lemma {:induction false} LookupFinds<V>(entries: seq<(string, V)>, key: string)
    ensures Lookup(entries, key).Some? <==> exists v :: (key, v) in entries
    ensures Lookup(entries, key).Some? ==> (key, Lookup(entries, key).value) in entries
    decreases |entries|
  {
    if entries != [] {
      var init := entries[..|entries| - 1];
      assert entries == init + [entries[|entries| - 1]];
      LookupFinds(init, key);
    }
  }

  /** The value found is that of the last entry with the key. */
  lemma {:induction false} LookupLast<V>(entries: seq<(string, V)>, key: string, i: nat)
    requires i < |entries| && entries[i].0 == key
    requires forall k :: i < k < |entries| ==> entries[k].0 != key
    ensures Lookup(entries, key) == Some(entries[i].1)
    decreases |entries|
  {
    if i < |entries| - 1 {
      LookupLast(entries[..|entries| - 1], key, i);
    }
  }
}
