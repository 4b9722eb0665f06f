/** Replacing the topics of service tasks: ReplaceTaskTopics of pkg/controller/deployment.go. */
module Topics {
  import opened Seqs
  import opened Names
  import opened Attrs
  import opened Forest
  import opened Trees
  import opened PathSpec
  import opened PathRelation
  import opened Pather
  import opened TopicPath
  import opened Renaming

  /** x is a bpmn:serviceTask somewhere below e. */
  ghost predicate IsTask(s: Shot, e: Token, x: Token) {
    IsElement(s, x) && s[x].kind.space == "bpmn" && s[x].kind.tag == "serviceTask" && x != e && Above(s, e, x)
  }

  predicate IsTopic(a: Attr) {
    a.space == "camunda" && a.key == "topic"
  }

  /** The attributes with every topic replaced, one key after another. */
  function Retopiced(attrs: seq<Attr>, m: map<string, string>, keys: seq<string>): (r: seq<Attr>)
    requires forall i :: 0 <= i < |keys| ==> keys[i] in m
    ensures |r| == |attrs|
    ensures forall i :: 0 <= i < |attrs| ==>
              r[i] == if IsTopic(attrs[i]) then attrs[i].(value := RenamedInTurn(m, keys, attrs[i].value)) else attrs[i]
  {
    seq(|attrs|, i requires 0 <= i < |attrs| =>
      if IsTopic(attrs[i]) then attrs[i].(value := RenamedInTurn(m, keys, attrs[i].value)) else attrs[i])
  }

  /** The document with the topics of all service tasks below e replaced, and nothing else changed. */
  ghost function Replaced(s: Shot, e: Token, m: map<string, string>, keys: seq<string>): Shot
    requires forall i :: 0 <= i < |keys| ==> keys[i] in m
  {
    map x | x in s :: if IsTask(s, e, x) then s[x].(attr := Retopiced(s[x].attr, m, keys)) else s[x]
  }

  // ---------------------------------------------------------------- what the topic path finds

  lemma TaskBelow(s: Shot, e: Token, x: Token)
    requires WellFormed(s) && e in s && x in s
    ensures x != e && Above(s, e, x) <==> s[x].parent != null && s[x].parent in s && Above(s, e, s[x].parent)
  {
    assert TokenOk(s, x);
    if x != e && Above(s, e, x) {
      AboveParent(s, e, x);
    }
    if s[x].parent != null && Above(s, e, s[x].parent) {
      var p := s[x].parent;
      AboveChild(s, p, x);
      AboveTransitive(s, e, p, x);
      assert TokenOk(s, p);
      NotBelowChild(s, p, x);
    }
  }

  lemma TopicLeads(s: Shot, e: Token, k: string, x: Token)
    requires WellFormed(s) && IsElement(s, e) && IsElement(s, x)
    ensures Leads(s, TopicGroup(k), e, x) <==>
            IsTask(s, e, x) && exists a :: a in s[x].attr && IsTopic(a) && a.value == k
  {
    hide WellFormed, Above, StepsTo, Leads;
    var g := TopicGroup(k);
    TaskBelow(s, e, x);
    LeadsThrice(s, g, e, x);
    forall c | c in s ensures StepsTo(s, g[2], c, x) <==> s[x].parent == c && IsTopicTask(s, k, x) {
      TopicStep(s, k, c, x);
    }
    if s[x].parent != null {
      ParentIsElement(s, x);
    }
  }

  ghost predicate IsTopicTask(s: Shot, k: string, x: Token)
    requires IsElement(s, x)
  {
    && s[x].kind.space == "bpmn" && s[x].kind.tag == "serviceTask"
    && exists a :: a in s[x].attr && IsTopic(a) && a.value == k
  }

  lemma TopicStep(s: Shot, k: string, c: Token, x: Token)
    requires c in s && IsElement(s, x)
    ensures StepsTo(s, TopicSegment(k), c, x) <==> s[x].parent == c && IsTopicTask(s, k, x)
  {
    var seg := TopicSegment(k);
    var f := AttrIs("camunda", "topic", k);
    assert seg.filters[0] == f;
    assert f in seg.filters && forall h :: h in seg.filters ==> h == f;
    assert Passes(s, f, x) <==> exists a :: a in s[x].attr && IsCalled(a, "camunda", "topic") && a.value == k;
  }

  /** Three segments, the first of which stays where it is and the second goes down any distance. */
  lemma LeadsThrice(s: Shot, g: Group, e: Token, x: Token)
    requires IsElement(s, e) && |g| == 3 && g[0] == Segment(Self, []) && g[1] == Segment(Descendants, [])
    ensures Leads(s, g, e, x) <==> exists c :: c in s && IsElement(s, c) && Above(s, e, c) && StepsTo(s, g[2], c, x)
  {
    hide Above;
    assert g[1..][1..] == [g[2]] && [g[2]][1..] == [];
    assert forall c :: c in s ==> (Leads(s, [g[2]], c, x) <==> x in s && StepsTo(s, g[2], c, x));
    assert forall c :: c in s ==> (StepsTo(s, g[0], e, c) <==> c == e);
    assert forall c :: c in s ==> (StepsTo(s, g[1], e, c) <==> IsElement(s, c) && Above(s, e, c));
    assert Leads(s, g, e, x) <==> Leads(s, g[1..], e, x);
  }

  /** A service task below e with the topic k. */
  ghost predicate HasTopic(s: Shot, e: Token, k: string, x: Token) {
    IsTask(s, e, x) && exists a :: a in s[x].attr && IsTopic(a) && a.value == k
  }

  /** Evaluating the topic path of a key finds the service tasks with that topic, each once. */
  lemma TopicFound(s: Shot, e: Token, k: string)
    requires WellFormed(s) && IsElement(s, e)
    ensures Distinct(Found(s, [TopicGroup(k)], e))
    ensures forall x :: x in Found(s, [TopicGroup(k)], e) <==> HasTopic(s, e, k, x)
  {
    hide WellFormed, Found, Leads, Above;
    var path := [TopicGroup(k)];
    assert path[0] == TopicGroup(k);
    assert forall g :: g in path ==> g == TopicGroup(k);
    FoundAre(s, path, e);
    forall x ensures x in Found(s, path, e) <==> HasTopic(s, e, k, x) {
      if IsElement(s, x) {
        TopicLeads(s, e, k, x);
      }
    }
  }

  // ---------------------------------------------------------------- one key

  /** What `SelectAttr("camunda:topic")` followed by an assignment does to the attributes. */
  function TopicSet(attrs: seq<Attr>, v: string): seq<Attr> {
    var i := Matching(attrs, "camunda", "topic");
    if i == |attrs| then attrs else attrs[i := attrs[i].(value := v)]
  }

  ghost function Marked(s: Shot, done: seq<Token>, v: string): Shot {
    map x | x in s :: if x in done then s[x].(attr := TopicSet(s[x].attr, v)) else s[x]
  }

  lemma RenamedByOne(m: map<string, string>, k: string, x: string)
    requires k in m
    ensures RenamedInTurn(m, [k], x) == if x == k then m[k] else x
  {
    assert [k][1..] == [];
  }

  /** With unique names there is only one topic, which is the one that is selected. */
  lemma TheTopic(attrs: seq<Attr>, j: nat)
    requires UniqueAttrs(attrs) && j < |attrs| && IsTopic(attrs[j])
    ensures Matching(attrs, "camunda", "topic") == j
    ensures forall i :: 0 <= i < |attrs| && IsTopic(attrs[i]) ==> i == j
  {
    assert AttrMatches(attrs[j], "camunda", "topic");
  }

  /** With unique attribute names, setting the first topic of a task that has the topic k replaces k by its value. */
  lemma TopicSetIs(attrs: seq<Attr>, m: map<string, string>, k: string)
    requires k in m && UniqueAttrs(attrs)
    ensures (exists a :: a in attrs && IsTopic(a) && a.value == k) ==> TopicSet(attrs, m[k]) == Retopiced(attrs, m, [k])
    ensures !(exists a :: a in attrs && IsTopic(a) && a.value == k) ==> Retopiced(attrs, m, [k]) == attrs
  {
    hide UniqueAttrs, IsTopic, RenamedInTurn, AttrMatches, Matching;
    forall x ensures RenamedInTurn(m, [k], x) == if x == k then m[k] else x {
      RenamedByOne(m, k, x);
    }
    assert forall i :: 0 <= i < |attrs| ==> attrs[i] in attrs;
    if a :| a in attrs && IsTopic(a) && a.value == k {
      var j :| 0 <= j < |attrs| && attrs[j] == a;
      TheTopic(attrs, j);
      assert TopicSet(attrs, m[k]) == Retopiced(attrs, m, [k]);
    }
  }

  lemma MarkedIs(s: Shot, e: Token, m: map<string, string>, k: string, found: seq<Token>)
    requires k in m && UniquelyNamed(s) && forall x :: x in found <==> HasTopic(s, e, k, x)
    ensures Marked(s, found, m[k]) == Replaced(s, e, m, [k])
  {
    hide Above, TopicSet, Retopiced;
    forall x | x in s ensures Marked(s, found, m[k])[x] == Replaced(s, e, m, [k])[x] {
      TopicSetIs(s[x].attr, m, k);
    }
  }

  /** The inner loop of ReplaceTaskTopics: every element that the path finds gets the topic v, if it has one. */
  method ReplaceFound(doc: Token, path: Path, v: string, ghost u: set<Token>) returns (ok: bool)
    requires doc in u && WellFormed(Taken(u)) && doc.kind.Element? && Compiled(path)
    modifies u`attr
    ensures ok <==> !Panics(old(Taken(u)), path, doc)
    ensures Taken(u) == if ok then Marked(old(Taken(u)), Found(old(Taken(u)), path, doc), v) else old(Taken(u))
  {
    hide WellFormed, Found, TopicSet, Panics;
    ghost var s := Taken(u);
    var found;
    ok, found := FindElements(doc, path, u);
    if !ok {
      return;
    }
    assert Taken(u) == Marked(s, found[..0], v);
    for i := 0 to |found|
      invariant Taken(u) == Marked(s, found[..i], v)
    {
      MarkTopic(found[i], v, u);
      MarkedNext(s, found, i, v);
    }
    assert found[..|found|] == found;
  }

  /** For the path that a key is meant to give, that replaces the key by its value and changes nothing else. */
  lemma KeyReplaced(s: Shot, e: Token, m: map<string, string>, k: string)
    requires WellFormed(s) && UniquelyNamed(s) && IsElement(s, e) && k in m
    ensures Marked(s, Found(s, [TopicGroup(k)], e), m[k]) == Replaced(s, e, m, [k])
  {
    hide WellFormed, Found, UniquelyNamed, HasTopic, TopicSet, Replaced;
    TopicFound(s, e, k);
    MarkedIs(s, e, m, k, Found(s, [TopicGroup(k)], e));
  }

  lemma MarkedNext(s: Shot, found: seq<Token>, i: nat, v: string)
    requires Distinct(found) && i < |found| && found[i] in s
    ensures var r := Marked(s, found[..i], v); var x := found[i];
            Marked(s, found[..i + 1], v) == r[x := r[x].(attr := TopicSet(r[x].attr, v))]
  {
    hide TopicSet;
    assert found[..i + 1] == found[..i] + [found[i]];
    assert found[i] !in found[..i];
  }

  /** The body of the inner loop in ReplaceTaskTopics. */
  method MarkTopic(x: Token, v: string, ghost u: set<Token>)
    requires x in u
    modifies x`attr
    ensures Taken(u) == old(Taken(u))[x := old(Taken(u))[x].(attr := TopicSet(old(x.attr), v))]
  {
    hide TOPIC, Matching;
    TopicDecomposed();
    var i := x.SelectAttr(TOPIC);
    if i < |x.attr| {
      x.attr := x.attr[i := x.attr[i].(value := v)];
    }
  }

  lemma TopicDecomposed()
    ensures SpaceDecompose(TOPIC) == ("camunda", "topic")
  {
    TopicName();
    DecomposeQualified("camunda", "topic");
  }
}
