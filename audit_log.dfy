/** `json_store_append_locked`: the audit trail is one JSON document on disk,
    rewritten whole on every append. The exclusive `flock` only serialises
    concurrent writers; appends are modelled one after another. */
module AuditLog {
  import opened Php

  /** The stored document as the writer reads it back: a PHP array (a JSON
      list, or an object, which decodes to an array too), or anything that
      does not decode to an array (an empty file, "0", text that does not
      parse, a JSON scalar). */
  datatype Doc = Stored(list: seq<Entry>) | Unusable

  /** Whether `fopen($path, 'c+')` gave a handle and `flock($fp, LOCK_EX)` was granted. */
  datatype FileAccess = FileAccess(gotHandle: bool, gotLock: bool)

  /** `$list` before the push: the decoded array, or `[]` for anything else. */
  function Current(d: Doc): seq<Entry> {
    if d.Stored? then d.list else []
  }

  /** The largest integer key of `es`, if it has one. */
  function MaxIntKey(es: seq<Entry>): (r: Option<int>)
    ensures r.None? <==> forall i :: 0 <= i < |es| ==> es[i].key.StrKey?
    ensures r.Some? ==> forall i :: 0 <= i < |es| && es[i].key.IntKey? ==> es[i].key.n <= r.value
    ensures r.Some? ==> IntKey(r.value) in set i | 0 <= i < |es| :: es[i].key
  {
    if es == [] then None
    else
      var rest := MaxIntKey(es[1..]);
      assert forall i :: 1 <= i < |es| ==> es[i] == es[1..][i - 1];
      match es[0].key
      case StrKey(_) => rest
      case IntKey(k) =>
        if rest.Some? && rest.value > k then rest else Some(k)
  }

  /** The key `$list[] = $entry` assigns: one past the largest integer key,
      or 0 when there is none (PHP 8.3 and later). */
  function NextIndex(es: seq<Entry>): (n: int)
    ensures forall i :: 0 <= i < |es| ==> es[i].key != IntKey(n)
  {
    match MaxIntKey(es)
    case None => 0
    case Some(m) => m + 1
  }

  /** The document after one call of `json_store_append_locked($path, $entry)`. */
  function Appended(d: Doc, entry: Value, fs: FileAccess): (r: Doc)
    ensures !(fs.gotHandle && fs.gotLock) ==> r == d
    ensures fs.gotHandle && fs.gotLock ==>
      && r.Stored?
      && |r.list| == |Current(d)| + 1
      && r.list[..|Current(d)|] == Current(d)
      && r.list[|Current(d)|].val == entry
      && Find(Current(d), r.list[|Current(d)|].key).None?
  {
    if fs.gotHandle && fs.gotLock then
      var list := Current(d);
      Stored(list + [Entry(IntKey(NextIndex(list)), entry)])
    else d
  }

  /** The file behind the audit trail. */
  class Store {
    var doc: Doc

    constructor (initial: Doc)
      ensures doc == initial
    {
      doc := initial;
    }

    /** Read the document, treat anything but an array as `[]`, push the
        entry, and write the whole list back. Without a handle or the lock
        nothing is written. */
    method Append(entry: Value, fs: FileAccess)
      modifies this
      ensures doc == Appended(old(doc), entry, fs)
    {
      if !fs.gotHandle {
        return;
      }
      if fs.gotLock {
        var list := if doc.Stored? then doc.list else [];
        list := list + [Entry(IntKey(NextIndex(list)), entry)];
        doc := Stored(list);
      }
    }
  }

  function Values(es: seq<Entry>): (vs: seq<Value>)
    ensures |vs| == |es|
    ensures forall i :: 0 <= i < |es| ==> vs[i] == es[i].val
  {
    seq(|es|, i requires 0 <= i < |es| => es[i].val)
  }

  /** A granted append adds exactly the entry at the end; the earlier entries
      keep their values and order. Anything that was not an array starts over
      as `[entry]`. */
  lemma AppendedValues(d: Doc, entry: Value, fs: FileAccess)
    requires fs.gotHandle && fs.gotLock
    ensures Values(Current(Appended(d, entry, fs))) == Values(Current(d)) + [entry]
    ensures d.Unusable? ==> Values(Current(Appended(d, entry, fs))) == [entry]
  {
  }

  /** The array keeps distinct keys: the pushed key is new. */
  lemma AppendedDistinct(d: Doc, entry: Value, fs: FileAccess)
    requires DistinctKeys(Current(d))
    ensures DistinctKeys(Current(Appended(d, entry, fs)))
  {
    if fs.gotHandle && fs.gotLock {
      var r := Current(Appended(d, entry, fs));
      var n := |Current(d)|;
      forall i, j | 0 <= i < j < |r| ensures r[i].key != r[j].key {
        if j == n {
          assert r[i] == Current(d)[i];
        } else {
          assert r[i] == Current(d)[i] && r[j] == Current(d)[j];
        }
      }
    }
  }

  /** Keys `off`, `off + 1`, ... in order: a JSON list once shifted to 0. */
  predicate CountsFrom(es: seq<Entry>, off: int) {
    forall i :: 0 <= i < |es| ==> es[i].key == IntKey(off + i)
  }

  lemma {:induction false} MaxOfCount(es: seq<Entry>, off: int)
    requires CountsFrom(es, off) && es != []
    ensures MaxIntKey(es) == Some(off + |es| - 1)
  {
    if |es| > 1 {
      MaxOfCount(es[1..], off + 1);
    }
  }

  /** A document holding a JSON list stays a JSON list: the entry gets the
      next position. */
  lemma AppendedStaysList(d: Doc, entry: Value, fs: FileAccess)
    requires CountsFrom(Current(d), 0)
    ensures CountsFrom(Current(Appended(d, entry, fs)), 0)
  {
    if fs.gotHandle && fs.gotLock && Current(d) != [] {
      MaxOfCount(Current(d), 0);
    }
  }

  /** Two granted appends, one after the other, lose neither entry. */
  lemma AppendedTwice(d: Doc, a: Value, b: Value, fs1: FileAccess, fs2: FileAccess)
    requires fs1.gotHandle && fs1.gotLock && fs2.gotHandle && fs2.gotLock
    ensures Values(Current(Appended(Appended(d, a, fs1), b, fs2))) == Values(Current(d)) + [a, b]
  {
    AppendedValues(d, a, fs1);
    AppendedValues(Appended(d, a, fs1), b, fs2);
  }

  /** The document after appending `entries` in order, the `k`-th append
      getting `access(k)`. */
  function AppendAll(d: Doc, entries: seq<Value>, access: nat -> FileAccess, k: nat): Doc
    decreases |entries|
  {
    if entries == [] then d
    else AppendAll(Appended(d, entries[0], access(k)), entries[1..], access, k + 1)
  }

  lemma ConcatAfter(before: seq<Value>, x: Value, tail: seq<Value>)
    ensures (before + [x]) + tail == before + ([x] + tail)
  {
  }

  /** When every append is granted, the entries land at the end, in order. */
  lemma {:induction false} AppendAllValues(d: Doc, entries: seq<Value>, access: nat -> FileAccess, k: nat)
    requires forall j :: k <= j < k + |entries| ==> access(j).gotHandle && access(j).gotLock
    ensures Values(Current(AppendAll(d, entries, access, k))) == Values(Current(d)) + entries
    decreases |entries|
  {
    if entries != [] {
      var d1 := Appended(d, entries[0], access(k));
      var rest, before := entries[1..], Values(Current(d));
      assert Values(Current(d1)) == before + [entries[0]] by {
        AppendedValues(d, entries[0], access(k));
      }
      assert Values(Current(AppendAll(d1, rest, access, k + 1))) == Values(Current(d1)) + rest by {
        AppendAllValues(d1, rest, access, k + 1);
      }
      assert AppendAll(d, entries, access, k) == AppendAll(d1, rest, access, k + 1);
      assert (before + [entries[0]]) + rest == before + entries by {
        ConcatAfter(before, entries[0], rest);
        assert [entries[0]] + rest == entries;
      }
    } else {
      assert Values(Current(d)) + entries == Values(Current(d));
    }
  }

  /** When no append gets a handle and the lock, the document is untouched. */
  lemma {:induction false} AppendAllDenied(d: Doc, entries: seq<Value>, access: nat -> FileAccess, k: nat)
    requires forall j :: k <= j < k + |entries| ==> !(access(j).gotHandle && access(j).gotLock)
    ensures AppendAll(d, entries, access, k) == d
    decreases |entries|
  {
    if entries != [] {
      AppendAllDenied(Appended(d, entries[0], access(k)), entries[1..], access, k + 1);
    }
  }
}
