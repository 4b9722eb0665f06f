/** The attributes of an element of pkg/controller/etree/etree.go. */
module Attrs {
  import opened Names

  datatype Attr = Attr(space: string, key: string, value: string)

  predicate AttrMatches(a: Attr, space: string, key: string) {
    SpaceMatch(space, a.space) && key == a.key
  }

  /** The position of the first attribute that the name matches, or the number of attributes. */
  function Matching(attrs: seq<Attr>, space: string, key: string): (i: nat)
    ensures i <= |attrs| && (i < |attrs| ==> AttrMatches(attrs[i], space, key))
    ensures forall j :: 0 <= j < i ==> !AttrMatches(attrs[j], space, key)
  {
    if attrs == [] || AttrMatches(attrs[0], space, key) then 0 else 1 + Matching(attrs[1..], space, key)
  }

  /** No two attributes with the same namespace and key. */
  predicate UniqueAttrs(attrs: seq<Attr>) {
    forall i, j :: 0 <= i < j < |attrs| ==> attrs[i].space != attrs[j].space || attrs[i].key != attrs[j].key
  }

  /** createAttr: set the attribute that has the name, or add one. */
  function WithAttr(attrs: seq<Attr>, a: Attr): (r: seq<Attr>)
    ensures |attrs| <= |r| <= |attrs| + 1
    ensures forall i :: 0 <= i < |attrs| ==> r[i].space == attrs[i].space && r[i].key == attrs[i].key
  {
    if attrs == [] then [a]
    else if attrs[0].space == a.space && attrs[0].key == a.key then [attrs[0].(value := a.value)] + attrs[1..]
    else [attrs[0]] + WithAttr(attrs[1..], a)
  }

  function WithAttrs(attrs: seq<Attr>, more: seq<Attr>): seq<Attr>
    decreases |more|
  {
    if more == [] then attrs else WithAttrs(WithAttr(attrs, more[0]), more[1..])
  }

  lemma {:induction false} WithAttrNew(attrs: seq<Attr>, a: Attr)
    requires forall i :: 0 <= i < |attrs| ==> attrs[i].space != a.space || attrs[i].key != a.key
    ensures WithAttr(attrs, a) == attrs + [a]
  {
    if attrs != [] {
      WithAttrNew(attrs[1..], a);
    }
  }

  lemma {:induction false} WithAttrOld(attrs: seq<Attr>, a: Attr, i: nat)
    requires i < |attrs| && attrs[i].space == a.space && attrs[i].key == a.key
    requires forall j :: 0 <= j < i ==> attrs[j].space != a.space || attrs[j].key != a.key
    ensures WithAttr(attrs, a) == attrs[i := attrs[i].(value := a.value)]
  {
    if i > 0 {
      WithAttrOld(attrs[1..], a, i - 1);
    }
  }

  lemma {:induction false} WithAttrUnique(attrs: seq<Attr>, a: Attr)
    requires UniqueAttrs(attrs)
    ensures UniqueAttrs(WithAttr(attrs, a))
  {
    if i :| 0 <= i < |attrs| && attrs[i].space == a.space && attrs[i].key == a.key {
      WithAttrOld(attrs, a, i);
    } else {
      WithAttrNew(attrs, a);
    }
  }

  lemma {:induction false} WithAttrsUnique(attrs: seq<Attr>, more: seq<Attr>)
    requires UniqueAttrs(attrs)
    ensures UniqueAttrs(WithAttrs(attrs, more))
    decreases |more|
  {
    if more != [] {
      WithAttrUnique(attrs, more[0]);
      WithAttrsUnique(WithAttr(attrs, more[0]), more[1..]);
    }
  }

  /** Attributes with different names are all kept, in order. */
  lemma {:induction false} WithAttrsAll(attrs: seq<Attr>, more: seq<Attr>)
    requires UniqueAttrs(attrs + more)
    ensures WithAttrs(attrs, more) == attrs + more
    decreases |more|
  {
    if more != [] {
      assert (attrs + more)[|attrs|] == more[0];
      assert forall i :: 0 <= i < |attrs| ==> (attrs + more)[i] == attrs[i];
      WithAttrNew(attrs, more[0]);
      assert attrs + more == (attrs + [more[0]]) + more[1..];
      WithAttrsAll(attrs + [more[0]], more[1..]);
    }
  }
}
