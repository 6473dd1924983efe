/**
 * A database table as the reconciler sees it: rows in insertion (surrogate id) order, each row
 * carrying the natural key it is looked up by. Lookup returns the FIRST row with the key, as
 * SQLAlchemy's `query(...).filter(...).first()` does; `Put` is the look-up-then-update-or-add
 * step every upsert in the importer performs. `Unique` is the natural-key invariant the
 * reconciler keeps by always looking up before adding.
 */
module Tables {
  import opened Outcomes

  datatype Entry<K, V> = Entry(key: K, val: V)

  type Table<K, V> = seq<Entry<K, V>>

  /** Index of the first row whose key is `k`. */
  function Find<K(==), V>(t: Table<K, V>, k: K): (r: Option<nat>)
    ensures r.Some? ==> r.value < |t| && t[r.value].key == k
    ensures r.Some? ==> forall j :: 0 <= j < r.value ==> t[j].key != k
    ensures r.None? ==> forall j :: 0 <= j < |t| ==> t[j].key != k
  {
    if |t| == 0 then None
    else if t[0].key == k then Some(0)
    else match Find(t[1..], k)
      case None => None
      case Some(i) => Some(i + 1)
  }

  /** The value of the first row with key `k`, if any. */
  function Get<K(==), V>(t: Table<K, V>, k: K): Option<V>
  {
    match Find(t, k)
    case None => None
    case Some(i) => Some(t[i].val)
  }

  function Keys<K(==), V>(t: Table<K, V>): set<K>
  {
    set i | 0 <= i < |t| :: t[i].key
  }

  /** Update the first row with key `k` in place, or add a new row at the end. */
  function Put<K(==), V>(t: Table<K, V>, k: K, v: V): Table<K, V>
  {
    match Find(t, k)
    case Some(i) => t[i := Entry(k, v)]
    case None => t + [Entry(k, v)]
  }

  /** Delete the first row with key `k` (session.delete of the looked-up row), if any. */
  function Remove<K(==), V>(t: Table<K, V>, k: K): Table<K, V>
  {
    match Find(t, k)
    case Some(i) => t[..i] + t[i + 1..]
    case None => t
  }

  /** Keep exactly the rows whose key satisfies `keep` (a bulk DELETE of the others). */
  function Keep<K(==), V>(t: Table<K, V>, keep: K -> bool): (r: Table<K, V>)
    ensures |r| <= |t|
    ensures forall i :: 0 <= i < |r| ==> keep(r[i].key) && r[i].key in Keys(t)
  {
    if |t| == 0 then []
    else if keep(t[0].key) then [t[0]] + Keep(t[1..], keep)
    else Keep(t[1..], keep)
  }

  /** No two rows share a natural key. */
  ghost predicate Unique<K, V>(t: Table<K, V>)
  {
    forall i, j :: 0 <= i < j < |t| ==> t[i].key != t[j].key
  }

  /** Number of rows whose key is `k`. */
  function Count<K(==), V>(t: Table<K, V>, k: K): nat
  {
    if |t| == 0 then 0 else (if t[0].key == k then 1 else 0) + Count(t[1..], k)
  }

  /** The `.first()` query as the session runs it: a scan for the first row with the key. */
  method First<K(==), V>(t: Table<K, V>, k: K) returns (r: Option<V>)
    ensures r == Get(t, k)
  {
    var i := 0;
    while i < |t|
      invariant 0 <= i <= |t|
      invariant forall j :: 0 <= j < i ==> t[j].key != k
    {
      if t[i].key == k {
        r := Some(t[i].val);
        return;
      }
      i := i + 1;
    }
    r := None;
  }

  lemma GetSomeIffKey<K, V>(t: Table<K, V>, k: K)
    ensures Get(t, k).Some? <==> k in Keys(t)
  {
  }

  lemma {:induction false} CountZeroIffAbsent<K, V>(t: Table<K, V>, k: K)
    ensures Count(t, k) == 0 <==> k !in Keys(t)
  {
    if |t| > 0 {
      CountZeroIffAbsent(t[1..], k);
      assert Keys(t) == {t[0].key} + Keys(t[1..]) by {
        forall x | x in Keys(t) ensures x == t[0].key || x in Keys(t[1..]) {
          var i :| 0 <= i < |t| && t[i].key == x;
          if i > 0 { assert t[1..][i - 1].key == x; }
        }
      }
    }
  }

  /** Under the invariant a key occurs at most once. */
  lemma {:induction false} CountAtMostOne<K, V>(t: Table<K, V>, k: K)
    requires Unique(t)
    ensures Count(t, k) <= 1
    ensures Count(t, k) == 1 <==> k in Keys(t)
  {
    CountZeroIffAbsent(t, k);
    if |t| > 0 {
      CountAtMostOne(t[1..], k);
      if t[0].key == k {
        assert k !in Keys(t[1..]) by {
          forall j | 0 <= j < |t[1..]| ensures t[1..][j].key != k {
            assert t[j + 1].key != t[0].key;
          }
        }
        CountZeroIffAbsent(t[1..], k);
      }
    }
  }

  /** `Find` is characterised by its contract: any first occurrence is what it returns. */
  lemma FindIsFirst<K, V>(t: Table<K, V>, k: K, i: nat)
    requires i < |t| && t[i].key == k
    requires forall j :: 0 <= j < i ==> t[j].key != k
    ensures Find(t, k) == Some(i)
  {
  }

  /** Upsert reads back: the key gives the new value, every other key is undisturbed. */
  lemma PutGet<K, V>(t: Table<K, V>, k: K, v: V, k': K)
    ensures Get(Put(t, k, v), k') == if k' == k then Some(v) else Get(t, k')
  {
    var u := Put(t, k, v);
    match Find(t, k)
    case Some(i) =>
      if k' != k {
        match Find(t, k')
        case None =>
          assert forall j :: 0 <= j < |u| ==> u[j].key != k';
        case Some(m) =>
          FindIsFirst(u, k', m);
      } else {
        FindIsFirst(u, k, i);
      }
    case None =>
      if k' != k {
        match Find(t, k')
        case None =>
          assert forall j :: 0 <= j < |u| ==> u[j].key != k';
        case Some(m) =>
          FindIsFirst(u, k', m);
      } else {
        FindIsFirst(u, k, |t|);
      }
  }

  /** Upsert keeps the natural key unique and leaves exactly one row for the key. */
  lemma PutKeepsUnique<K, V>(t: Table<K, V>, k: K, v: V)
    requires Unique(t)
    ensures Unique(Put(t, k, v))
    ensures Keys(Put(t, k, v)) == Keys(t) + {k}
    ensures |Put(t, k, v)| == if k in Keys(t) then |t| else |t| + 1
    ensures Count(Put(t, k, v), k) == 1
  {
    var u := Put(t, k, v);
    match Find(t, k)
    case Some(i) =>
      assert forall j :: 0 <= j < |u| ==> u[j].key == t[j].key;
      assert Keys(u) == Keys(t);
      CountAtMostOne(u, k);
    case None =>
      assert Keys(u) == Keys(t) + {k} by {
        forall x | x in Keys(u) ensures x in Keys(t) + {k} {
          var j :| 0 <= j < |u| && u[j].key == x;
          if j < |t| { assert t[j].key == x; }
        }
        assert u[|t|].key == k;
        forall x | x in Keys(t) ensures x in Keys(u) {
          var j :| 0 <= j < |t| && t[j].key == x;
          assert u[j].key == x;
        }
      }
      CountAtMostOne(u, k);
  }

  /** A later write to the same key wins: last write wins within a batch. */
  lemma PutOverwrites<K, V>(t: Table<K, V>, k: K, v: V, w: V)
    ensures Put(Put(t, k, v), k, w) == Put(t, k, w)
  {
    var u := Put(t, k, v);
    match Find(t, k)
    case Some(i) =>
      FindIsFirst(u, k, i);
    case None =>
      FindIsFirst(u, k, |t|);
  }

  /** Writing the same value twice is writing it once. */
  lemma PutIdempotent<K, V>(t: Table<K, V>, k: K, v: V)
    ensures Put(Put(t, k, v), k, v) == Put(t, k, v)
  {
    PutOverwrites(t, k, v, v);
  }

  /** Deletion removes the key (under the invariant) and leaves every other key's row as it was. */
  lemma RemoveGet<K, V>(t: Table<K, V>, k: K, k': K)
    requires Unique(t)
    ensures Get(Remove(t, k), k') == if k' == k then None else Get(t, k')
  {
    var u := Remove(t, k);
    match Find(t, k)
    case None =>
    case Some(i) =>
      assert forall j :: 0 <= j < |u| ==> u[j] == if j < i then t[j] else t[j + 1];
      if k' == k {
        forall j | 0 <= j < |u| ensures u[j].key != k {
          if j >= i { assert t[j + 1].key != t[i].key; }
        }
      } else {
        match Find(t, k')
        case None =>
          assert forall j :: 0 <= j < |u| ==> u[j].key != k';
        case Some(m) =>
          if m < i { FindIsFirst(u, k', m); } else { FindIsFirst(u, k', m - 1); }
      }
  }

  lemma RemoveKeepsUnique<K, V>(t: Table<K, V>, k: K)
    requires Unique(t)
    ensures Unique(Remove(t, k))
    ensures Keys(Remove(t, k)) == Keys(t) - {k}
  {
    var u := Remove(t, k);
    match Find(t, k)
    case None =>
    case Some(i) =>
      assert forall j :: 0 <= j < |u| ==> u[j] == if j < i then t[j] else t[j + 1];
      forall x ensures x in Keys(u) <==> x in Keys(t) && x != k {
        RemoveGet(t, k, x);
        GetSomeIffKey(u, x);
        GetSomeIffKey(t, x);
      }
  }

  lemma {:induction false} KeepGet<K, V>(t: Table<K, V>, keep: K -> bool, k: K)
    ensures Get(Keep(t, keep), k) == if keep(k) then Get(t, k) else None
  {
    if |t| > 0 {
      KeepGet(t[1..], keep, k);
      var r := Keep(t[1..], keep);
      if keep(t[0].key) {
        assert Keep(t, keep) == [t[0]] + r;
        if t[0].key != k {
          match Find(r, k)
          case None =>
            assert forall j :: 0 <= j < |[t[0]] + r| ==> ([t[0]] + r)[j].key != k;
          case Some(m) =>
            FindIsFirst([t[0]] + r, k, m + 1);
        }
      }
    }
  }

  lemma {:induction false} KeepKeepsUnique<K, V>(t: Table<K, V>, keep: K -> bool)
    requires Unique(t)
    ensures Unique(Keep(t, keep))
  {
    if |t| > 0 {
      KeepKeepsUnique(t[1..], keep);
      var r := Keep(t[1..], keep);
      if keep(t[0].key) {
        forall j | 0 <= j < |r| ensures r[j].key != t[0].key {
          var m :| 0 <= m < |t[1..]| && t[1..][m].key == r[j].key;
          assert t[m + 1].key != t[0].key;
        }
      }
    }
  }

  /** Writing back the value a key already has leaves the table as it is. */
  lemma PutSame<K, V>(t: Table<K, V>, k: K, v: V)
    requires Get(t, k) == Some(v)
    ensures Put(t, k, v) == t
  {
    var i := Find(t, k).value;
    assert t[i] == Entry(k, v);
  }

  /** Deleting a key that is not there leaves the table as it is. */
  lemma RemoveAbsent<K, V>(t: Table<K, V>, k: K)
    requires Get(t, k) == None
    ensures Remove(t, k) == t
  {
  }
}
