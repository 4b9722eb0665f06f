/**
 * Trees that differ in attribute values only. Whatever the trips through the text ask of a tree depends on those values
 * only in that they are clean, so it is kept by replacing topics and by numbering processes.
 */
module Retouching {
  import opened Attrs
  import opened Trees
  import opened TokenTrip
  import opened TextTrip
  import opened Returns

  /** The same names; values that have changed are clean. */
  predicate RetouchedAttrs(a: seq<Attr>, b: seq<Attr>) {
    |a| == |b| && forall i :: 0 <= i < |a| ==> a[i].space == b[i].space && a[i].key == b[i].key &&
                                               (a[i].value == b[i].value || Clean(b[i].value))
  }

  predicate Retouched(a: Tree, b: Tree)
    decreases a, 1
  {
    a.kind == b.kind && RetouchedAttrs(a.attr, b.attr) && RetouchedAll(a.kids, b.kids)
  }

  predicate RetouchedAll(a: seq<Tree>, b: seq<Tree>)
    decreases a, 0
  {
    |a| == |b| && (a == [] || (Retouched(a[0], b[0]) && RetouchedAll(a[1..], b[1..])))
  }

  lemma RetouchedAttrsKept(a: seq<Attr>, b: seq<Attr>)
    requires RetouchedAttrs(a, b)
    ensures |a| == |b|
    ensures UniqueAttrs(a) ==> UniqueAttrs(b)
    ensures WritableAttrs(a) ==> WritableAttrs(b)
    ensures CleanAttrs(a) ==> CleanAttrs(b)
  {
    hide Clean, WellNamed;
  }

  /** Everything that the trips ask of a tree depends on attribute values only in that they are clean. */
  lemma {:induction false} RetouchedKept(a: Tree, b: Tree)
    requires Retouched(a, b)
    ensures Sound(a) ==> Sound(b)
    ensures Printable(a) ==> Printable(b)
    ensures CleanTree(a) ==> CleanTree(b)
    ensures Normal(a) == a ==> Normal(b) == b
    decreases a, 1
  {
    hide UniqueAttrs, WritableAttrs, CleanAttrs, RetouchedAttrs, Writable, CleanKind, NormalKind;
    hide SoundAll, PrintableAll, CleanTrees, NormalAll;
    RetouchedAttrsKept(a.attr, b.attr);
    RetouchedAllKept(a.kids, b.kids);
  }

  lemma {:induction false} RetouchedAllKept(a: seq<Tree>, b: seq<Tree>)
    requires RetouchedAll(a, b)
    ensures SoundAll(a) ==> SoundAll(b)
    ensures PrintableAll(a) ==> PrintableAll(b)
    ensures CleanTrees(a) ==> CleanTrees(b)
    ensures NormalAll(a) == a ==> NormalAll(b) == b
    decreases a, 0
  {
    hide Sound, Printable, CleanTree, Normal, RetouchedAttrs;
    if a != [] {
      RetouchedKept(a[0], b[0]);
      RetouchedAllKept(a[1..], b[1..]);
      if NormalAll(a) == a {
        assert NormalAll(a)[0] == a[0] && NormalAll(a)[1..] == a[1..];
      }
    }
  }

  lemma {:induction false} RetouchedParts(a: seq<Tree>, b: seq<Tree>, c: seq<Tree>)
    requires RetouchedAll(a + b, c)
    ensures |a| <= |c| && RetouchedAll(a, c[..|a|]) && RetouchedAll(b, c[|a|..])
  {
    hide Retouched;
    if a == [] {
      assert a + b == b && c[0..] == c;
    } else {
      assert (a + b)[1..] == a[1..] + b;
      RetouchedParts(a[1..], b, c[1..]);
      assert c[1..][..|a| - 1] == c[..|a|][1..] && c[1..][|a| - 1..] == c[|a|..];
    }
  }
}
