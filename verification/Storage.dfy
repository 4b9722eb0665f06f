/** The metadata store of pkg/metadata/bolt.go as an ordered bucket of records, and void.go's for none. */
module Storage {
  import opened Options
  import opened Seqs
  import opened EventLog

  // ---------------------------------------------------------------- the order of keys

  /** Byte order on keys. */
  predicate LessEq(a: string, b: string) {
    a == "" || (b != "" && (a[0] < b[0] || (a[0] == b[0] && LessEq(a[1..], b[1..]))))
  }

  lemma {:induction false} LessEqTotal(a: string, b: string)
    ensures LessEq(a, b) || LessEq(b, a)
  {
    if a != "" && b != "" && a[0] == b[0] {
      LessEqTotal(a[1..], b[1..]);
    }
  }

  lemma {:induction false} LessEqAntisymmetric(a: string, b: string)
    requires LessEq(a, b) && LessEq(b, a)
    ensures a == b
  {
    if a != "" {
      LessEqAntisymmetric(a[1..], b[1..]);
      assert a == [a[0]] + a[1..] && b == [b[0]] + b[1..];
    }
  }

  lemma {:induction false} LessEqTransitive(a: string, b: string, c: string)
    requires LessEq(a, b) && LessEq(b, c)
    ensures LessEq(a, c)
  {
    if a != "" && a[0] == b[0] == c[0] {
      LessEqTransitive(a[1..], b[1..], c[1..]);
    }
  }

  /** a is the beginning of b, or has the smaller character where the two first differ. */
  lemma {:induction false} LessEqIs(a: string, b: string)
    ensures LessEq(a, b) <==>
            a <= b || exists i :: 0 <= i < |a| && i < |b| && a[..i] == b[..i] && a[i] < b[i]
  {
    if a != "" && b != "" && a[0] == b[0] {
      LessEqIs(a[1..], b[1..]);
      assert a == [a[0]] + a[1..] && b == [b[0]] + b[1..];
      if i :| 0 <= i < |a[1..]| && i < |b[1..]| && a[1..][..i] == b[1..][..i] && a[1..][i] < b[1..][i] {
        assert a[..i + 1] == [a[0]] + a[1..][..i] && b[..i + 1] == [b[0]] + b[1..][..i];
      }
      if i :| 0 <= i < |a| && i < |b| && a[..i] == b[..i] && a[i] < b[i] {
        assert a[1..][..i - 1] == a[..i][1..] && b[1..][..i - 1] == b[..i][1..];
      }
    } else if a != "" && b != "" {
      assert a[..0] == b[..0];
      assert forall i :: 0 < i < |a| && i < |b| && a[..i] == b[..i] ==> a[..i][0] == b[..i][0];
    }
  }

  lemma {:induction false} LeastExists(ks: set<string>) returns (k: string)
    requires ks != {}
    ensures k in ks && forall j :: j in ks ==> LessEq(k, j)
    decreases ks
  {
    var x :| x in ks;
    LessEqTotal(x, x);
    if ks == {x} {
      k := x;
    } else {
      var y := LeastExists(ks - {x});
      LessEqTotal(x, y);
      k := if LessEq(x, y) then x else y;
      forall j | j in ks ensures LessEq(k, j) {
        if j != x && k == x {
          LessEqTransitive(x, y, j);
        }
      }
    }
  }

  /** The first key of a cursor. */
  function Least(ks: set<string>): (k: string)
    requires ks != {}
    ensures k in ks && forall j :: j in ks ==> LessEq(k, j)
  {
    HasLeast(ks);
    var k :| k in ks && forall j :: j in ks ==> LessEq(k, j);
    k
  }

  lemma HasLeast(ks: set<string>)
    requires ks != {}
    ensures exists k :: k in ks && forall j :: j in ks ==> LessEq(k, j)
    ensures forall a, b :: a in ks && b in ks && LessEq(a, b) && LessEq(b, a) ==> a == b
  {
    var k := LeastExists(ks);
    forall a, b | a in ks && b in ks && LessEq(a, b) && LessEq(b, a) ensures a == b {
      LessEqAntisymmetric(a, b);
    }
  }

  /** The keys in the order in which a cursor visits them. */
  function Ascending(ks: set<string>): (r: seq<string>)
    ensures Distinct(r) && (forall k :: k in r <==> k in ks)
    ensures forall i, j :: 0 <= i < j < |r| ==> LessEq(r[i], r[j])
  {
    if ks == {} then []
    else
      var k := Least(ks);
      var rest := Ascending(ks - {k});
      assert forall i :: 0 <= i < |rest| ==> rest[i] in rest;
      [k] + rest
  }

  // ---------------------------------------------------------------- the bucket

  type Bucket = map<string, Metadata>

  /** The records of the given keys, in order. */
  function RecordsOf(data: Bucket, keys: seq<string>): (r: seq<Metadata>)
    requires forall i :: 0 <= i < |keys| ==> keys[i] in data
    ensures |r| == |keys| && forall i :: 0 <= i < |keys| ==> r[i] == data[keys[i]]
  {
    seq(|keys|, i requires 0 <= i < |keys| => data[keys[i]])
  }

  /** What a full listing returns. */
  function Listing(data: Bucket): seq<Metadata> {
    RecordsOf(data, Ascending(data.Keys))
  }

  /** The requested part of the bucket. */
  function Restricted(data: Bucket, ids: seq<string>): Bucket {
    map k | k in data && k in ids :: data[k]
  }

  /** The order of a cursor is the only one. */
  lemma {:induction false} AscendingOnly(r: seq<string>, ks: set<string>)
    requires Distinct(r) && (forall k :: k in r <==> k in ks)
    requires forall i, j :: 0 <= i < j < |r| ==> LessEq(r[i], r[j])
    ensures r == Ascending(ks)
  {
    if r == [] {
      assert forall k :: k in ks ==> k in r;
      assert ks == {};
    } else {
      HeadOrTail(r);
      assert r[0] in r && r[0] in ks;
      HasLeast(ks);
      LessEqTotal(r[0], r[0]);
      assert forall j :: j in ks ==> LessEq(r[0], j);
      assert r[0] == Least(ks);
      assert r[0] !in r[1..];
      AscendingOnly(r[1..], ks - {r[0]});
    }
  }

  /** What is stored under an id. */
  function Lookup(data: Bucket, id: string): Option<Metadata> {
    if id in data then Some(data[id]) else None
  }

  datatype Change = Put(m: Metadata, works: bool) | Drop(id: string, works: bool) | Prune(ids: seq<string>, works: bool)

  function ChangedBy(data: Bucket, c: Change): Bucket {
    match c
    case Put(m, works) => if works && m.camundaDeploymentId != "" then data[m.camundaDeploymentId := m] else data
    case Drop(id, works) => if works then data - {id} else data
    case Prune(ids, works) => if works then Restricted(data, ids) else data
  }

  class Db {
    const placeholder: bool  // no storage is configured
    var data: Bucket

    constructor (placeholder: bool)
      ensures this.placeholder == placeholder && data == map[]
    {
      this.placeholder, data := placeholder, map[];
    }

    /** Store; `works` says whether the transaction goes through. */
    method Store(m: Metadata, works: bool) returns (ok: bool)
      modifies this
      ensures ok == (placeholder || (m.camundaDeploymentId != "" && works))
      ensures data == if ok && !placeholder then old(data)[m.camundaDeploymentId := m] else old(data)
      ensures !placeholder ==> data == ChangedBy(old(data), Put(m, works))
    {
      if placeholder {
        return true;
      }
      if m.camundaDeploymentId == "" || !works {
        return false;
      }
      data := data[m.camundaDeploymentId := m];
      return true;
    }

    method Remove(id: string, works: bool) returns (ok: bool)
      modifies this
      ensures ok == (placeholder || works)
      ensures data == if ok && !placeholder then old(data) - {id} else old(data)
      ensures !placeholder ==> data == ChangedBy(old(data), Drop(id, works))
    {
      if placeholder {
        return true;
      }
      if !works {
        return false;
      }
      data := data - {id};
      return true;
    }

    /** Read fails on an id that is not stored: there is no value to decode. */
    method Read(id: string) returns (r: Option<Metadata>)
      ensures r == if placeholder then None else Lookup(data, id)
    {
      return if !placeholder && id in data then Some(data[id]) else None;
    }

    method List() returns (known: seq<Metadata>)
      ensures known == if placeholder then [] else Listing(data)
    {
      known := [];
      if placeholder {
        return;
      }
      known := Fetch(Ascending(data.Keys));
    }

    /**
     * Drops what is not asked for and returns the rest. A transaction that fails changes nothing, but what has been
     * fetched until then, `fetched` records at most, is returned all the same.
     */
    method EnsureKnownDeployments(ids: seq<string>, works: bool, fetched: nat) returns (ok: bool, known: seq<Metadata>)
      modifies this
      ensures ok == (placeholder || works)
      ensures data == if ok && !placeholder then Restricted(old(data), ids) else old(data)
      ensures !placeholder ==> data == ChangedBy(old(data), Prune(ids, works))
      ensures placeholder ==> known == []
      ensures ok && !placeholder ==> known == Listing(data)
      ensures !ok ==> known <= Listing(Restricted(data, ids)) && |known| <= fetched
    {
      ok, known := true, [];
      if placeholder {
        return;
      }
      var fetchIds, deleteIds := Sorted(ids);
      if !works {
        known := Fetch(if fetched <= |fetchIds| then fetchIds[..fetched] else fetchIds);
        ok := false;
        return;
      }
      known := Fetch(fetchIds);
      Delete(deleteIds);
      assert data == Restricted(old(data), ids);
    }

    /** The keys to fetch, in order, and the keys to delete. */
    method Sorted(ids: seq<string>) returns (fetchIds: seq<string>, deleteIds: seq<string>)
      ensures fetchIds == Ascending(Restricted(data, ids).Keys)
      ensures forall i :: 0 <= i < |fetchIds| ==> fetchIds[i] in data
      ensures forall k :: k in deleteIds <==> k in data && k !in ids
    {
      fetchIds, deleteIds := Split(Ascending(data.Keys), ids);
      AscendingOnly(fetchIds, Restricted(data, ids).Keys);
      assert forall i :: 0 <= i < |fetchIds| ==> fetchIds[i] in fetchIds;
    }

    method Fetch(keys: seq<string>) returns (known: seq<Metadata>)
      requires forall i :: 0 <= i < |keys| ==> keys[i] in data
      ensures known == RecordsOf(data, keys)
    {
      known := [];
      for i := 0 to |keys|
        invariant known == RecordsOf(data, keys[..i])
      {
        known := known + [data[keys[i]]];
      }
      assert keys[..|keys|] == keys;
    }

    method Delete(keys: seq<string>)
      modifies this
      ensures data == map k | k in old(data) && k !in keys :: old(data)[k]
    {
      ghost var was := data;
      for i := 0 to |keys|
        invariant data == map k | k in was && k !in keys[..i] :: was[k]
      {
        data := data - {keys[i]};
        assert keys[..i + 1] == keys[..i] + [keys[i]];
      }
      assert keys[..|keys|] == keys;
    }
  }

  /** The keys to fetch and the keys to delete, both in order. */
  method Split(keys: seq<string>, ids: seq<string>) returns (fetchIds: seq<string>, deleteIds: seq<string>)
    requires Distinct(keys) && forall i, j :: 0 <= i < j < |keys| ==> LessEq(keys[i], keys[j])
    ensures forall k :: k in fetchIds <==> k in keys && k in ids
    ensures forall k :: k in deleteIds <==> k in keys && k !in ids
    ensures Distinct(fetchIds) && forall i, j :: 0 <= i < j < |fetchIds| ==> LessEq(fetchIds[i], fetchIds[j])
  {
    hide LessEq;
    fetchIds, deleteIds := [], [];
    for n := 0 to |keys|
      invariant forall k :: k in fetchIds <==> k in keys[..n] && k in ids
      invariant forall k :: k in deleteIds <==> k in keys[..n] && k !in ids
      invariant Distinct(fetchIds) && forall i, j :: 0 <= i < j < |fetchIds| ==> LessEq(fetchIds[i], fetchIds[j])
    {
      assert keys[..n + 1] == keys[..n] + [keys[n]];
      assert forall i :: 0 <= i < |fetchIds| ==> fetchIds[i] in fetchIds && fetchIds[i] in keys[..n];
      if keys[n] in ids {
        fetchIds := fetchIds + [keys[n]];
      } else {
        deleteIds := deleteIds + [keys[n]];
      }
    }
    assert keys[..|keys|] == keys;
  }

  // ---------------------------------------------------------------- whole runs of the store

  /** The bucket after some calls of Store, Remove and EnsureKnownDeployments. */
  function AfterChanges(data: Bucket, calls: seq<Change>): Bucket
    decreases |calls|
  {
    if calls == [] then data else AfterChanges(ChangedBy(data, calls[0]), calls[1..])
  }

  /** Whether a call has the last word on an id unless later ones have. */
  predicate Decides(c: Change, id: string) {
    && c.works
    && match c
       case Put(m, _) => m.camundaDeploymentId == id && id != ""
       case Drop(gone, _) => gone == id
       case Prune(ids, _) => id !in ids
  }

  lemma OneChange(data: Bucket, c: Change, id: string)
    ensures Lookup(ChangedBy(data, c), id) ==
            if !Decides(c, id) then Lookup(data, id) else if c.Put? then Some(c.m) else None
  {
  }

  /** The last of the calls that decides on an id, or none. */
  ghost predicate LastWord(calls: seq<Change>, id: string, i: int) {
    && -1 <= i < |calls| && (i >= 0 ==> Decides(calls[i], id))
    && forall j :: i < j < |calls| ==> !Decides(calls[j], id)
  }

  /** Read gives the record stored last, unless a later call has removed it, and what was there if no call decides. */
  lemma {:induction false} ReadAfter(data: Bucket, calls: seq<Change>, id: string, i: int)
    requires LastWord(calls, id, i)
    ensures Lookup(AfterChanges(data, calls), id) ==
            if i < 0 then Lookup(data, id) else if calls[i].Put? then Some(calls[i].m) else None
    decreases |calls|
  {
    hide ChangedBy, Lookup, Decides;
    if calls != [] {
      OneChange(data, calls[0], id);
      ReadAfter(ChangedBy(data, calls[0]), calls[1..], id, if i > 0 then i - 1 else -1);
    }
  }
}
