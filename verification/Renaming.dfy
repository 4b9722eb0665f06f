/** Replacing strings by a map, all at once and one key after another in some order. */
module Renaming {
  import opened Seqs

  /** All at once: what the map says, anything else unchanged. */
  function Renamed(m: map<string, string>, x: string): string {
    if x in m then m[x] else x
  }

  /** One key after another, as a loop over the map in the order `keys` does it. */
  function RenamedInTurn(m: map<string, string>, keys: seq<string>, x: string): string
    requires forall i :: 0 <= i < |keys| ==> keys[i] in m
  {
    if keys == [] then x
    else RenamedInTurn(m, keys[1..], if x == keys[0] then m[keys[0]] else x)
  }

  /** An order in which Go may iterate over the map: every key once. */
  predicate Orders(keys: seq<string>, m: map<string, string>) {
    Distinct(keys) && (forall i :: 0 <= i < |keys| ==> keys[i] in m) && (forall k :: k in m ==> k in keys)
  }

  /** No value is a key that stands for something else. */
  predicate Settled(m: map<string, string>) {
    forall k :: k in m && m[k] in m ==> m[m[k]] == m[k]
  }

  lemma {:induction false} SettledStays(m: map<string, string>, keys: seq<string>, x: string)
    requires forall i :: 0 <= i < |keys| ==> keys[i] in m
    requires x in m ==> m[x] == x
    ensures RenamedInTurn(m, keys, x) == x
  {
    if keys != [] {
      SettledStays(m, keys[1..], x);
    }
  }

  lemma {:induction false} SettledInTurn(m: map<string, string>, keys: seq<string>, x: string)
    requires Settled(m) && forall i :: 0 <= i < |keys| ==> keys[i] in m
    requires x in m ==> x in keys
    ensures RenamedInTurn(m, keys, x) == Renamed(m, x)
  {
    if keys != [] {
      HeadOrTail(keys);
      if x == keys[0] {
        SettledStays(m, keys[1..], m[x]);
      } else {
        SettledInTurn(m, keys[1..], x);
      }
    }
  }

  lemma {:induction false} InTurnConcat(m: map<string, string>, a: seq<string>, b: seq<string>, x: string)
    requires forall i :: 0 <= i < |a| ==> a[i] in m
    requires forall i :: 0 <= i < |b| ==> b[i] in m
    ensures RenamedInTurn(m, a + b, x) == RenamedInTurn(m, b, RenamedInTurn(m, a, x))
  {
    if a == [] {
      assert a + b == b;
    } else {
      assert (a + b)[1..] == a[1..] + b;
      InTurnConcat(m, a[1..], b, if x == a[0] then m[a[0]] else x);
    }
  }

  lemma {:induction false} OthersInTurn(m: map<string, string>, keys: seq<string>, x: string)
    requires forall i :: 0 <= i < |keys| ==> keys[i] in m
    requires x !in keys
    ensures RenamedInTurn(m, keys, x) == x
  {
    if keys != [] {
      HeadOrTail(keys);
      OthersInTurn(m, keys[1..], x);
    }
  }

  lemma {:induction false} SomeOrder(ks: set<string>, m: map<string, string>) returns (keys: seq<string>)
    requires ks <= m.Keys
    ensures Distinct(keys) && (forall i :: 0 <= i < |keys| ==> keys[i] in ks) && (forall k :: k in ks ==> k in keys)
    decreases ks
  {
    if ks == {} {
      keys := [];
    } else {
      var k :| k in ks;
      var rest := SomeOrder(ks - {k}, m);
      keys := [k] + rest;
      HeadOrTail(keys);
    }
  }

  /**
   * The result is the same for any two iteration orders exactly when no value is a key that stands for something
   * else, and then it is the simultaneous replacement.
   */
  lemma OrderIrrelevant(m: map<string, string>)
    ensures Settled(m) <==>
            forall a, b, x :: Orders(a, m) && Orders(b, m) ==> RenamedInTurn(m, a, x) == RenamedInTurn(m, b, x)
    ensures Settled(m) ==> forall keys, x :: Orders(keys, m) ==> RenamedInTurn(m, keys, x) == Renamed(m, x)
  {
    if Settled(m) {
      forall keys, x | Orders(keys, m) ensures RenamedInTurn(m, keys, x) == Renamed(m, x) {
        SettledInTurn(m, keys, x);
      }
    } else {
      var a, b, k := TwoOrders(m);
      assert RenamedInTurn(m, a, k) != RenamedInTurn(m, b, k);
    }
  }

  /**
   * If a value v of a key k is a key that stands for something else, then it matters which of the two comes first:
   * with k just before v, k is moved twice, and otherwise once.
   */
  lemma TwoOrders(m: map<string, string>) returns (a: seq<string>, b: seq<string>, k: string)
    requires !Settled(m)
    ensures Orders(a, m) && Orders(b, m) && RenamedInTurn(m, a, k) != RenamedInTurn(m, b, k)
  {
    k :| k in m && m[k] in m && m[m[k]] != m[k];
    var v := m[k];
    var others := SomeOrder(m.Keys - {k, v}, m);
    a, b := others + [k, v], others + [v, k];
    DistinctConcat(others, [k, v]);
    DistinctConcat(others, [v, k]);
    OthersInTurn(m, others, k);
    InTurnConcat(m, others, [k, v], k);
    InTurnConcat(m, others, [v, k], k);
    TwoInTurn(m, k, v);
  }

  lemma TwoInTurn(m: map<string, string>, k: string, v: string)
    requires k in m && v in m && m[k] == v && k != v
    ensures RenamedInTurn(m, [k, v], k) == m[v] && RenamedInTurn(m, [v, k], k) == v
  {
    assert [k, v][1..] == [v] && [v][1..] == [] && [v, k][1..] == [k] && [k][1..] == [];
    assert RenamedInTurn(m, [v], v) == RenamedInTurn(m, [], m[v]) == m[v];
    assert RenamedInTurn(m, [k], k) == RenamedInTurn(m, [], v) == v;
  }

  /** The map that undoes an injective one. */
  ghost predicate Inverse(m: map<string, string>, n: map<string, string>) {
    (forall k :: k in m ==> m[k] in n && n[m[k]] == k) && (forall v :: v in n ==> n[v] in m && m[n[v]] == v)
  }

  lemma RenamedBack(m: map<string, string>, n: map<string, string>, x: string)
    requires Inverse(m, n)
    ensures Renamed(n, Renamed(m, x)) == x <==> x in m || x !in n
  {
  }

  /** Keys and values disjoint: neither the map nor its inverse chains. */
  lemma DisjointSettled(m: map<string, string>, n: map<string, string>)
    requires Inverse(m, n) && m.Keys !! n.Keys
    ensures Settled(m) && Settled(n)
  {
  }

  /** If a map does not chain, neither does its inverse. */
  lemma InverseSettled(m: map<string, string>, n: map<string, string>)
    requires Inverse(m, n)
    ensures Settled(m) <==> Settled(n)
  {
  }
}
