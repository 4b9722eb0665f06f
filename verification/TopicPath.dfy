/**
 * The paths that pkg/controller/deployment.go composes, and what they compile to: for a fixed text by going through it,
 * for a key by the characters that it holds, as a delimiter or a quote in the key gives the path another shape.
 */
module TopicPath {
  import opened Names
  import opened Texts
  import opened PathSpec
  import opened PathGrammar
  import opened PathSpelling

  const SERVICE_TASK := "bpmn:serviceTask"
  const TOPIC := "camunda:topic"
  const PROCESS := "bpmn:process"

  /** //bpmn:serviceTask[@camunda:topic='key'] */
  function TopicText(key: string): string {
    "//" + SERVICE_TASK + "[" + TopicFilter(key) + "]"
  }

  function TopicFilter(key: string): string {
    "@" + TOPIC + "='" + key + "'"
  }

  /** All service tasks at any depth whose topic is the key. */
  function TopicGroup(key: string): Group {
    [Segment(Self, []), Segment(Descendants, []), TopicSegment(key)]
  }

  function TopicSegment(key: string): Segment {
    Segment(ChildrenByTag("bpmn", "serviceTask"), [AttrIs("camunda", "topic", key)])
  }

  /** //bpmn:process */
  function ProcessText(): string {
    "//" + PROCESS
  }

  const PROCESS_GROUP: Group :=
    [Segment(Self, []), Segment(Descendants, []), Segment(ChildrenByTag("bpmn", "process"), [])]

  // ---------------------------------------------------------------- the fixed names

  lemma NoEqualsNoPair(q: string)
    requires '=' !in q
    ensures IndexPair(q, '=', '\'') == |q|
  {
  }

  lemma NameLegal(space: string, tag: string)
    requires space != "" && Plain(Qualified(space, tag)) && ':' !in space && '=' !in Qualified(space, tag)
    ensures LegalName(space, tag)
  {
    hide IndexPair, Plain;
    NoEqualsNoPair(Qualified(space, tag));
  }

  lemma ServiceTaskName()
    ensures Qualified("bpmn", "serviceTask") == SERVICE_TASK && LegalName("bpmn", "serviceTask")
    ensures |SERVICE_TASK| == 16
  {
    hide LegalName;
    assert Qualified("bpmn", "serviceTask") == "bpmn:serviceTask";
    NameLegal("bpmn", "serviceTask");
  }

  lemma TopicName()
    ensures Qualified("camunda", "topic") == TOPIC && LegalName("camunda", "topic")
  {
    hide LegalName;
    assert Qualified("camunda", "topic") == "camunda:topic";
    NameLegal("camunda", "topic");
  }

  lemma ProcessName()
    ensures Qualified("bpmn", "process") == PROCESS && LegalName("bpmn", "process")
  {
    assert Qualified("bpmn", "process") == "bpmn:process";
    NameLegal("bpmn", "process");
  }

  // ---------------------------------------------------------------- how the paths are spelled

  /** A text that starts with two slashes means the same with a "." in front. */
  lemma DotInFront(text: string)
    requires HasPrefix(text, "//")
    ensures ParseGroup(text) == ParseGroup("." + text)
  {
    assert ("." + text)[..2][0] == '.';
  }

  lemma SpelledBare(sel: Selector)
    ensures SpellSegment(Segment(sel, [])) == SpellSelector(sel)
  {
    assert [SpellSelector(sel)] + SpellFilters([]) == [SpellSelector(sel)];
  }

  lemma SpelledOnce(sel: Selector, f: Filter)
    ensures SpellSegment(Segment(sel, [f])) == SpellSelector(sel) + "[" + SpellFilter(f) + "]"
  {
    hide SpellSelector, SpellFilter;
    var parts := [SpellSelector(sel), SpellFilter(f) + "]"];
    assert [SpellSelector(sel)] + SpellFilters([f]) == parts;
    assert parts[1..] == [SpellFilter(f) + "]"];
    assert Join(parts, '[') == parts[0] + ['['] + parts[1];
  }

  /** .// followed by one segment */
  lemma SpelledBelow(seg: Segment)
    ensures SpellGroup([Segment(Self, []), Segment(Descendants, []), seg]) == "." + ("//" + SpellSegment(seg))
  {
    hide SpellSegment;
    var g := [Segment(Self, []), Segment(Descendants, []), seg];
    SpelledBare(Self);
    SpelledBare(Descendants);
    var parts := SpellSegments(g);
    assert parts[1..][1..] == [SpellSegment(seg)];
    assert Join(parts[1..], '/') == "" + ['/'] + SpellSegment(seg);
    assert Join(parts, '/') == "." + ['/'] + Join(parts[1..], '/');
  }

  lemma TopicSpelled(key: string)
    ensures SpellSegment(TopicSegment(key)) == SERVICE_TASK + "[" + TopicFilter(key) + "]"
    ensures SpellGroup(TopicGroup(key)) == "." + TopicText(key)
  {
    hide SpellSegment, SpellGroup, Qualified, SERVICE_TASK, TOPIC;
    ServiceTaskName();
    TopicName();
    SpelledOnce(ChildrenByTag("bpmn", "serviceTask"), AttrIs("camunda", "topic", key));
    SpelledBelow(TopicSegment(key));
    assert "//" + (SERVICE_TASK + "[" + TopicFilter(key) + "]") == TopicText(key);
  }

  lemma ProcessSpelled()
    ensures SpellGroup(PROCESS_GROUP) == "." + ProcessText()
  {
    hide SpellSegment, SpellGroup, Qualified, PROCESS;
    ProcessName();
    SpelledBare(PROCESS_GROUP[2].sel);
    SpelledBelow(PROCESS_GROUP[2]);
  }

  // ---------------------------------------------------------------- what the paths compile to

  lemma OneGroup(text: string)
    requires '|' !in text
    ensures Compile(text) == match ParseGroup(text)
                             case Panicked => Panic
                             case Parsed(g, err) => if err != "" then Fail(err) else Ok([g])
  {
    hide ParseGroup;
    assert Split(text, '|') == [text];
    match ParseGroup(text)
    case Panicked =>
    case Parsed(g, err) =>
      var none: Path := [];
      assert none + [g] == [g] && [text][1..] == [];
      assert err == "" ==> ParseGroups([text], none) == ParseGroups([], [g]) == Parsed([g], "");
  }

  lemma TopicDotted(key: string)
    ensures ParseGroup(TopicText(key)) == ParseGroup("." + TopicText(key))
  {
    hide ParseGroup, SERVICE_TASK, TopicFilter;
    assert TopicText(key)[..2] == "//";
    DotInFront(TopicText(key));
  }

  lemma TopicCompiles(key: string)
    requires LegalValue(key)
    ensures Compile(TopicText(key)) == Ok([TopicGroup(key)])
  {
    hide ParseGroup, SpellGroup, LegalName, Qualified, SERVICE_TASK, TOPIC, TopicText;
    ServiceTaskName();
    TopicName();
    var g := TopicGroup(key);
    assert LegalGroup(g);
    GroupReadBack(g);
    TopicSpelled(key);
    TopicDotted(key);
    OneGroup(TopicText(key));
  }

  lemma ProcessCompiles()
    ensures Compile(ProcessText()) == Ok([PROCESS_GROUP])
  {
    hide ParseGroup, SpellGroup, LegalName;
    ProcessName();
    assert LegalGroup(PROCESS_GROUP);
    GroupReadBack(PROCESS_GROUP);
    ProcessSpelled();
    assert ProcessText()[..2] == "//";
    DotInFront(ProcessText());
    OneGroup(ProcessText());
  }

  // ---------------------------------------------------------------- which keys compile to their topic path

  lemma ServiceTaskPlain()
    ensures Plain(SERVICE_TASK)
  {
  }

  lemma TopicPlain()
    ensures Plain(TOPIC) && '\'' !in TOPIC && '=' !in TOPIC
  {
  }

  /** The path of a key compiles to what it is meant to be exactly when the key holds no delimiter and no quote. */
  lemma TopicCompilesIff(key: string)
    ensures Compile(TopicText(key)) == Ok([TopicGroup(key)]) <==> LegalValue(key)
  {
    hide Compile, LegalValue, TopicText;
    if LegalValue(key) {
      TopicCompiles(key);
    } else if Compile(TopicText(key)) == Ok([TopicGroup(key)]) {
      CompiledValues(TopicText(key), 0, 2, 0);
    }
  }

  // ---------------------------------------------------------------- keys that are cut to pieces

  predicate Separator(c: char) {
    c == '/' || c == '[' || c == '|'
  }

  /** t is p, or goes on after p with a separator. */
  predicate Ends(t: string, p: string) {
    |p| <= |t| && t[..|p|] == p && (|t| == |p| || Separator(t[|p|]))
  }

  lemma EndsSplit(t: string, p: string, c: char)
    requires Ends(t, p) && c !in p
    ensures Ends(Split(t, c)[0], p)
  {
    var i := Index(t, c);
    assert forall k :: 0 <= k < |p| ==> t[k] == t[..|p|][k] && t[k] in p;
    assert t[..i][..|p|] == t[..|p|];
  }

  /** The first piece after a text without separators cuts off at its end. */
  lemma EndsPlain(t: string, p: string)
    requires Ends(t, p) && Plain(t)
    ensures t == p
  {
    assert forall k :: 0 <= k < |t| ==> t[k] in t;
    assert t[..|t|] == t;
  }

  lemma EndsAfter(a: string, t: string, p: string)
    requires Ends(t, p)
    ensures Ends(a + t, a + p)
  {
    assert (a + t)[..|a + p|] == a + p;
  }

  lemma SplitAfter(p: string, c: char, rest: string)
    requires c !in p
    ensures Split(p + [c] + rest, c) == [p] + Split(rest, c)
  {
    var s := p + [c] + rest;
    assert s[..|p|] == p && s[|p|] == c;
    IndexFirst(s, c, |p|);
    assert s[|p| + 1..] == rest;
  }

  /** A text without quotes, then the quote and the bracket that close a filter. */
  predicate ClosesOnce(k: string) {
    |k| >= 2 && k[|k| - 1] == ']' && k[|k| - 2] == '\'' && '\'' !in k[..|k| - 2]
  }

  /** The piece that holds the start of a key is a filter only if that start closes it. */
  lemma PieceCloses(k: string, f: Filter)
    requires Holds("@" + TOPIC + "='" + k, f)
    ensures ClosesOnce(k)
  {
    hide TOPIC, Index, IndexPair;
    var q := "@" + TOPIC;
    TopicOpens();
    PieceParts(q, k);
    if k != "" && k[|k| - 1] == ']' {
      PairAfter(q, k[..|k| - 1]);
      QuoteLast(k);
    }
  }

  lemma PieceParts(q: string, k: string)
    ensures k == "" ==> (q + "='" + k)[|q + "='" + k| - 1] == '\''
    ensures k != "" ==>
              var piece := q + "='" + k;
              && piece[|piece| - 1] == k[|k| - 1]
              && piece[..|piece| - 1] == q + "='" + k[..|k| - 1]
              && (q + "='" + k[..|k| - 1])[|q| + 2..] == k[..|k| - 1]
  {
  }

  lemma QuoteLast(k: string)
    requires k != "" && k[|k| - 1] == ']' && Index(k[..|k| - 1], '\'') == |k| - 2
    ensures ClosesOnce(k)
  {
    var rest := k[..|k| - 1];
    assert rest[..|rest| - 1] == k[..|k| - 2];
  }

  lemma TopicOpens()
    ensures IndexPair("@" + TOPIC, '=', '\'') == |"@" + TOPIC|
  {
    hide TOPIC;
    TopicPlain();
    NoEqualsNoPair("@" + TOPIC);
  }

  lemma SecondPiece(text: string, tag: string, a: string)
    requires Ends(text, tag + "[" + a) && '/' !in text && '|' !in text && '[' !in tag && Plain(a)
    ensures |Split(text, '[')| > 1 && Split(text, '[')[1] == a
  {
    hide Plain, Ends, Split, Index;
    SecondPart(text, tag, a);
    var z := text[|tag| + 1..];
    SplitAfter(tag, '[', z);
    PlainNoBracket(a);
    EndsSplit(z, a, '[');
    SplitPieces(text, '[');
    PlainPiece(Split(text, '[')[1]);
    EndsPlain(Split(text, '[')[1], a);
  }

  lemma SecondPart(text: string, tag: string, a: string)
    requires Ends(text, tag + "[" + a)
    ensures |tag| < |text| && text == tag + ['['] + text[|tag| + 1..] && Ends(text[|tag| + 1..], a)
  {
    var s := tag + "[" + a;
    var z := text[|tag| + 1..];
    assert forall i :: 0 <= i < |s| ==> text[i] == text[..|s|][i] == s[i];
    assert z[..|a|] == a;
  }

  lemma PlainNoBracket(a: string)
    requires Plain(a)
    ensures '[' !in a
  {
  }

  lemma PlainPiece(p: string)
    requires '[' !in p && '/' !in p && '|' !in p
    ensures Plain(p)
  {
  }

  lemma SegmentCloses(text: string, k: string)
    requires Ends(text, SERVICE_TASK + "[" + ("@" + TOPIC + "='" + k)) && '/' !in text && '|' !in text
    requires Plain(k) && ParseSegment(text).Parsed? && ParseSegment(text).err == ""
    ensures ClosesOnce(k)
  {
    hide SERVICE_TASK, TOPIC, ParseFilters, ParseFilter, ParseSelector, Holds, Split, Ends, ClosesOnce;
    var a := "@" + TOPIC + "='" + k;
    ServiceTaskPlain();
    TopicPlain();
    SecondPiece(text, SERVICE_TASK, a);
    var pieces := Split(text, '[');
    assert pieces[1..][0] == a;
    FiltersParsed(pieces[1..], [], "");
    PieceCloses(k, ParseFilters(pieces[1..], [], "").value[0]);
  }

  /** Up to the first separator in the key the path reads as it would without the rest. */
  lemma CutGroup(key: string, d: nat)
    requires d < |key| && Separator(key[d]) && Plain(key[..d])
    ensures Ends(TopicText(key), "//" + (SERVICE_TASK + "[" + ("@" + TOPIC + "='" + key[..d])))
  {
    hide SERVICE_TASK, TOPIC;
    var k := key[..d];
    var front := "//" + (SERVICE_TASK + "[" + ("@" + TOPIC + "='" + k));
    assert key == k + key[d..];
    assert TopicText(key) == front + (key[d..] + "']");
    assert Ends(key[d..] + "']", "");
    EndsAfter(front, key[d..] + "']", "");
    assert front + "" == front;
  }

  /** Completing a group text does not disturb how it starts. */
  lemma CutCompleted(t: string, y: string)
    requires Ends(t, "//" + y) && y != "" && y[|y| - 1] != '/'
    ensures Ends(Completed(t), "./" + ("/" + y))
  {
    var p := "//" + y;
    assert t[..2] == t[..|p|][..2] == "//";
    assert "." + p == "./" + ("/" + y);
    EndsAfter(".", t, p);
    var u := "." + t;
    assert |t| == |p| ==> t == p && u[|u| - 1] == y[|y| - 1];
    assert HasSuffix(u, "//") ==> u[|u| - 2..][1] == u[|u| - 1];
    assert (u + "*")[..|p| + 1] == u[..|p| + 1];
  }

  lemma CutSegments(t: string, y: string)
    requires Ends(t, "./" + ("/" + y)) && '/' !in y
    ensures |Split(t, '/')| > 2 && Ends(Split(t, '/')[2], y)
  {
    hide Split, Ends;
    TwoBars(t, y);
    SplitAfter(".", '/', t[2..]);
    SplitAfter("", '/', t[3..]);
    EndsSplit(t[3..], y, '/');
  }

  lemma TwoBars(t: string, y: string)
    requires Ends(t, "./" + ("/" + y))
    ensures |t| >= 3 && t == "." + ['/'] + t[2..] && t[2..] == "" + ['/'] + t[3..] && Ends(t[3..], y)
  {
    var p := "./" + ("/" + y);
    assert t[..|p|][0] == '.' && t[..|p|][1] == '/' && t[..|p|][2] == '/';
    assert t[3..][..|y|] == t[..|p|][3..] == y;
  }

  /** If the path of a key compiles, then what it holds of the key, up to the first separator, closes the filter. */
  lemma KeyCloses(key: string, k: string)
    requires Ends(TopicText(key), "//" + (SERVICE_TASK + "[" + ("@" + TOPIC + "='" + k)))
    requires Plain(k) && Compile(TopicText(key)).Ok?
    ensures ClosesOnce(k)
  {
    hide SERVICE_TASK, TOPIC, TopicText, ParseGroups, Ends, Plain, ParseSegment, Split, Completed, ClosesOnce;
    var a := "@" + TOPIC + "='" + k;
    var y := SERVICE_TASK + "[" + a;
    var text := TopicText(key);
    CutNames(k);
    EndsSplit(text, "//" + y, '|');
    SplitPieces(text, '|');
    var t := Split(text, '|')[0];
    CutCompleted(t, y);
    var u := Completed(t);
    CompletedBars(t);
    CutSegments(u, y);
    SplitPieces(u, '/');
    NothingCompiled();
    GroupsParsed(Split(text, '|'), []);
    GroupParsed(t);
    SegmentCloses(Split(u, '/')[2], k);
  }

  /** A key that closes the filter itself and goes on with a separator. */
  predicate Escapes(key: string) {
    exists d :: 2 <= d < |key| && Separator(key[d]) && ClosesOnce(key[..d]) && Plain(key[..d])
  }

  /** Every other key that holds a delimiter or a quote makes a path that does not compile. */
  lemma KeyCompiles(key: string)
    requires Compile(TopicText(key)).Ok?
    ensures LegalValue(key) || Escapes(key)
  {
    hide Compile, TopicText, Plain, Ends;
    if Plain(key) {
      WholeGroup(key);
      PlainClosed(key);
      KeyCloses(key, key + "']");
      assert (key + "']")[..|key|] == key;
    } else {
      var d := FirstSeparator(key);
      CutGroup(key, d);
      KeyCloses(key, key[..d]);
    }
  }

  lemma PlainClosed(key: string)
    requires Plain(key)
    ensures Plain(key + "']")
  {
  }

  lemma WholeGroup(key: string)
    ensures Ends(TopicText(key), "//" + (SERVICE_TASK + "[" + ("@" + TOPIC + "='" + (key + "']"))))
  {
    hide SERVICE_TASK, TOPIC;
    assert TopicText(key) == "//" + (SERVICE_TASK + "[" + ("@" + TOPIC + "='" + (key + "']")));
  }

  lemma CompletedBars(t: string)
    requires '|' !in t
    ensures '|' !in Completed(t)
  {
  }

  lemma CutNames(k: string)
    requires Plain(k)
    ensures var y := SERVICE_TASK + "[" + ("@" + TOPIC + "='" + k);
            '/' !in y && '|' !in "//" + y && y != "" && y[|y| - 1] != '/'
  {
    hide SERVICE_TASK, TOPIC;
    ServiceTaskPlain();
    TopicPlain();
    assert forall i :: 0 <= i < |k| ==> k[i] in k;
  }

  lemma {:induction false} FirstSeparator(key: string) returns (d: nat)
    requires !Plain(key)
    ensures d < |key| && Separator(key[d]) && Plain(key[..d])
  {
    assert key == [key[0]] + key[1..];
    if Separator(key[0]) {
      d := 0;
    } else {
      var i := FirstSeparator(key[1..]);
      d := i + 1;
      assert key[..d] == [key[0]] + key[1..][..i];
    }
  }

  /** For a key without quotes there are only two outcomes: the path that was meant, or none. */
  lemma QuotelessKey(key: string)
    requires '\'' !in key
    ensures Compile(TopicText(key)).Ok? <==> Plain(key)
    ensures Plain(key) ==> Compile(TopicText(key)) == Ok([TopicGroup(key)])
  {
    hide Compile, TopicText, Plain;
    if Plain(key) {
      TopicCompilesIff(key);
    } else if Compile(TopicText(key)).Ok? {
      KeyCompiles(key);
      QuotelessStays(key);
    }
  }

  lemma QuotelessStays(key: string)
    requires '\'' !in key
    ensures !Escapes(key)
  {
    forall d | 2 <= d < |key| ensures !ClosesOnce(key[..d]) {
      assert key[..d][d - 2] in key;
    }
  }
}
