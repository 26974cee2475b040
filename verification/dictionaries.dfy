/**
 * Filling a C# Dictionary<int, V> row by row with Add, the pattern of the
 * galaxy loaders and of the activity statistics: each row yields an entry,
 * nothing, or an exception; Add throws on a key already present; the first
 * exception ends the loop and leaves the entries added so far.
 */
module Dictionaries {
  import opened Common

  /** What one row contributes: nothing, an Add, or an exception thrown before the Add. */
  datatype Entry<V, E> = Skip | Add(key: int, val: V) | Throw(error: E)

  /** What a fill leaves: the entries added and the exception that ended it, if any. */
  datatype Filled<V, E> = Filled(entries: map<int, V>, error: Option<E>)

  /** The result of adding, to `acc`, the entry of each row in order. */
  function FillFrom<R, V, E>(acc: map<int, V>, rows: seq<R>, entry: R -> Entry<V, E>, duplicate: E): Filled<V, E>
    decreases |rows|
  {
    if rows == [] then Filled(acc, None)
    else match entry(rows[0])
      case Throw(e) => Filled(acc, Some(e))
      case Skip => FillFrom(acc, rows[1..], entry, duplicate)
      case Add(k, v) =>
        if k in acc then Filled(acc, Some(duplicate))
        else FillFrom(acc[k := v], rows[1..], entry, duplicate)
  }

  /** Some row yields the entry (k, v). */
  ghost predicate Yields<R, V, E>(rows: seq<R>, entry: R -> Entry<V, E>, k: int, v: V) {
    exists i :: 0 <= i < |rows| && entry(rows[i]) == Add(k, v)
  }

  /** A fill keeps the entries it started from. */
  lemma {:induction false} FillKeeps<R, V, E>(acc: map<int, V>, rows: seq<R>, entry: R -> Entry<V, E>, duplicate: E)
    ensures forall k :: k in acc ==> k in FillFrom(acc, rows, entry, duplicate).entries
                                     && FillFrom(acc, rows, entry, duplicate).entries[k] == acc[k]
    decreases |rows|
  {
    if rows != [] {
      match entry(rows[0])
      case Throw(_) =>
      case Skip =>
        FillKeeps(acc, rows[1..], entry, duplicate);
      case Add(k, v) =>
        if k !in acc {
          FillKeeps(acc[k := v], rows[1..], entry, duplicate);
        }
    }
  }

  /** Every entry a fill adds was yielded by a row. */
  lemma {:induction false} FillSound<R, V, E>(acc: map<int, V>, rows: seq<R>, entry: R -> Entry<V, E>, duplicate: E)
    ensures forall k :: k in FillFrom(acc, rows, entry, duplicate).entries && k !in acc ==>
              Yields(rows, entry, k, FillFrom(acc, rows, entry, duplicate).entries[k])
    decreases |rows|
  {
    if rows != [] {
      match entry(rows[0])
      case Throw(_) =>
      case Skip =>
        FillSound(acc, rows[1..], entry, duplicate);
        YieldsTail(rows, entry);
      case Add(k, v) =>
        if k !in acc {
          var acc' := acc[k := v];
          FillSound(acc', rows[1..], entry, duplicate);
          FillKeeps(acc', rows[1..], entry, duplicate);
          YieldsTail(rows, entry);
          assert Yields(rows, entry, k, v) by {
            assert entry(rows[0]) == Add(k, v);
          }
        }
    }
  }

  lemma YieldsTail<R, V, E>(rows: seq<R>, entry: R -> Entry<V, E>)
    requires rows != []
    ensures forall k, v :: Yields(rows[1..], entry, k, v) ==> Yields(rows, entry, k, v)
  {
    forall k, v | Yields(rows[1..], entry, k, v)
      ensures Yields(rows, entry, k, v)
    {
      var i :| 0 <= i < |rows[1..]| && entry(rows[1..][i]) == Add(k, v);
      assert rows[i + 1] == rows[1..][i];
    }
  }

  /**
   * A fill that ends without an exception holds every entry a row yielded,
   * with the value that row gave.
   */
  lemma {:induction false} FillComplete<R, V, E>(acc: map<int, V>, rows: seq<R>, entry: R -> Entry<V, E>, duplicate: E)
    requires FillFrom(acc, rows, entry, duplicate).error == None
    ensures forall i :: 0 <= i < |rows| && entry(rows[i]).Add? ==>
              entry(rows[i]).key in FillFrom(acc, rows, entry, duplicate).entries &&
              FillFrom(acc, rows, entry, duplicate).entries[entry(rows[i]).key] == entry(rows[i]).val
    decreases |rows|
  {
    if rows != [] {
      match entry(rows[0])
      case Throw(_) =>
      case Skip =>
        FillComplete(acc, rows[1..], entry, duplicate);
        forall i | 1 <= i < |rows| ensures rows[i] == rows[1..][i - 1] { }
      case Add(k, v) =>
        var acc' := acc[k := v];
        FillComplete(acc', rows[1..], entry, duplicate);
        FillKeeps(acc', rows[1..], entry, duplicate);
        assert k in acc';
        forall i | 1 <= i < |rows| ensures rows[i] == rows[1..][i - 1] { }
    }
  }

  /** A fill that ends without an exception met no row that throws. */
  lemma {:induction false} FillNoThrow<R, V, E>(acc: map<int, V>, rows: seq<R>, entry: R -> Entry<V, E>, duplicate: E)
    requires FillFrom(acc, rows, entry, duplicate).error == None
    ensures forall i :: 0 <= i < |rows| ==> !entry(rows[i]).Throw?
    decreases |rows|
  {
    if rows != [] {
      match entry(rows[0])
      case Throw(_) =>
      case Skip =>
        FillNoThrow(acc, rows[1..], entry, duplicate);
        forall i | 1 <= i < |rows| ensures rows[i] == rows[1..][i - 1] { }
      case Add(k, v) =>
        FillNoThrow(acc[k := v], rows[1..], entry, duplicate);
        forall i | 1 <= i < |rows| ensures rows[i] == rows[1..][i - 1] { }
    }
  }

  /** A fill ends without an exception when no row throws and no key is added twice. */
  lemma {:induction false} FillWithoutError<R, V, E>(acc: map<int, V>, rows: seq<R>, entry: R -> Entry<V, E>, duplicate: E)
    requires forall i :: 0 <= i < |rows| ==> !entry(rows[i]).Throw?
    requires forall i :: 0 <= i < |rows| && entry(rows[i]).Add? ==> entry(rows[i]).key !in acc
    requires forall i, j :: 0 <= i < j < |rows| && entry(rows[i]).Add? && entry(rows[j]).Add? ==>
               entry(rows[i]).key != entry(rows[j]).key
    ensures FillFrom(acc, rows, entry, duplicate).error == None
    decreases |rows|
  {
    if rows != [] {
      var acc' := match entry(rows[0]) case Add(k, v) => acc[k := v] case _ => acc;
      forall i | 0 <= i < |rows[1..]| ensures rows[1..][i] == rows[i + 1] { }
      FillWithoutError(acc', rows[1..], entry, duplicate);
    }
  }

  /** A fill depends only on the entries the rows yield, not on the rest of the rows. */
  lemma {:induction false} FillSameEntries<R, R', V, E>(acc: map<int, V>, rows: seq<R>, entry: R -> Entry<V, E>,
                                                         rows': seq<R'>, entry': R' -> Entry<V, E>, duplicate: E)
    requires |rows| == |rows'|
    requires forall i :: 0 <= i < |rows| ==> entry(rows[i]) == entry'(rows'[i])
    ensures FillFrom(acc, rows, entry, duplicate) == FillFrom(acc, rows', entry', duplicate)
    decreases |rows|
  {
    if rows != [] {
      assert entry(rows[0]) == entry'(rows'[0]);
      var acc' := match entry(rows[0]) case Add(k, v) => acc[k := v] case _ => acc;
      forall i | 0 <= i < |rows[1..]| ensures entry(rows[1..][i]) == entry'(rows'[1..][i]) {
        assert rows[1..][i] == rows[i + 1] && rows'[1..][i] == rows'[i + 1];
      }
      FillSameEntries(acc', rows[1..], entry, rows'[1..], entry', duplicate);
    }
  }
}
