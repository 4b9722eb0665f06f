/** ReplaceTaskTopics of pkg/controller/deployment.go, from the decoder's tokens to the text that is written. */
module Deployment {
  import opened Forest
  import opened Trees
  import opened PathSpec
  import opened PathFacts
  import opened PathGrammar
  import opened PathSpelling
  import opened PathCompiler
  import opened TopicPath
  import opened Renaming
  import opened Topics
  import opened TopicTrees
  import opened ProcessIds
  import opened ProcessTrees
  import opened Reading
  import opened Reader
  import opened Printing
  import opened Writer

  datatype Result = Done(text: string) | Failed(error: string)

  const DEFAULT := WriteSettings(false, false, false)

  /** The element embedded in a document. */
  const DOCUMENT := Element("", "")

  /** What reading the tokens into a new document builds. */
  function DocumentOf(raws: seq<Raw>): Built {
    Build([Frame(DOCUMENT, [], [])], raws)
  }

  /** The error of reading, or "" if there is none. */
  function ReadError(raws: seq<Raw>, ending: Ending): string {
    if DocumentOf(raws).overrun then INVALID else if ending.EndOfFile? then "" else ending.message
  }

  /** A new document, read from the tokens. */
  method ReadDocument(raws: seq<Raw>, ending: Ending) returns (err: string, doc: Token, ghost u: set<Token>)
    ensures fresh(u) && doc in u && WellFormed(Taken(u)) && UniquelyNamed(Taken(u)) && doc.kind == DOCUMENT
    ensures err == ReadError(raws, ending) && TreeOf(Taken(u), doc) == DocumentOf(raws).doc
  {
    hide Build, TreeOf;
    ghost var none: set<Token> := {};
    assert WellFormed(Taken(none));
    hide WellFormed;
    doc := new Token(DOCUMENT, null, none);
    u := {doc};
    assert none + {doc} == u;
    NewDocumentTree(Taken(u), doc);
    err, u := ReadFrom(doc, raws, ending, u);
  }

  lemma NewDocumentTree(s: Shot, doc: Token)
    requires WellFormed(s) && doc in s && s[doc].child == []
    ensures TreeOf(s, doc).kids == []
  {
    hide WellFormed;
    KidsAre(s, doc);
  }

  /** What the deferred recover makes of the panic that an invalid path causes. */
  function Recovered(r: Outcome): string
    requires !r.Ok?
  {
    "Recovered Error: " + if r.Fail? then "etree: " + r.message else "runtime error: index out of range [-1]"
  }

  /** The same for the panic of a filter by position. */
  const POSITION_PANIC := "Recovered Error: runtime error: index out of range"

  lemma MarkedLinks(s: Shot, found: seq<Token>, v: string)
    requires WellFormed(s)
    ensures SameLinks(s, Marked(s, found, v)) && WellFormed(Marked(s, found, v))
    ensures UniquelyNamed(s) ==> UniquelyNamed(Marked(s, found, v))
  {
    OnlyElementsHold(s);
    hide WellFormed;
    SameWellFormed(s, Marked(s, found, v));
  }

  // ---------------------------------------------------------------- the replacement, for all keys there are

  /** How far the loop over the keys has come: the document, or the error that ended it. */
  datatype Progress = Through(s: Shot) | Broken(error: string)

  ghost predicate Readable(s: Shot, doc: Token) {
    WellFormed(s) && UniquelyNamed(s) && doc in s && s[doc].kind == DOCUMENT
  }

  /** One key: its path is compiled and followed, and every element found gets the key's value as topic. */
  ghost function KeyProgress(s: Shot, doc: Token, m: map<string, string>, k: string): (r: Progress)
    requires Readable(s, doc) && k in m
    ensures r.Through? ==> Readable(r.s, doc)
    ensures r.Broken? ==> r.error != ""
  {
    hide WellFormed, UniquelyNamed, Compile, Found, Panics, Marked;
    var c := Compile(TopicText(k));
    if !c.Ok? then Broken(Recovered(c))
    else if Panics(s, c.path, doc) then Broken(POSITION_PANIC)
    else
      MarkedLinks(s, Found(s, c.path, doc), m[k]);
      Through(Marked(s, Found(s, c.path, doc), m[k]))
  }

  ghost function KeysProgress(s: Shot, doc: Token, m: map<string, string>, keys: seq<string>): (r: Progress)
    requires Readable(s, doc) && forall i :: 0 <= i < |keys| ==> keys[i] in m
    ensures r.Through? ==> Readable(r.s, doc)
    ensures r.Broken? ==> r.error != ""
  {
    hide Readable, KeyProgress;
    if keys == [] then Through(s)
    else
      var n := |keys| - 1;
      var before := KeysProgress(s, doc, m, keys[..n]);
      if before.Broken? then before else KeyProgress(before.s, doc, m, keys[n])
  }

  /** What is written in the end. */
  ghost function Written(p: Progress, doc: Token): Result
    requires p.Through? ==> Readable(p.s, doc)
  {
    match p
    case Through(s) => Done(PrintAll(DEFAULT, TreeOf(s, doc).kids))
    case Broken(error) => Failed(error)
  }

  /** The work on one key: compose and compile its path, find the elements, set their topics. */
  method ReplaceKey(doc: Token, m: map<string, string>, k: string, ghost u: set<Token>) returns (err: string)
    requires doc in u && Readable(Taken(u), doc) && k in m
    modifies u`attr
    ensures doc.kind == DOCUMENT && Readable(Taken(u), doc)
    ensures var r := KeyProgress(old(Taken(u)), doc, m, k);
            if r.Broken? then err == r.error else err == "" && Taken(u) == r.s
  {
    hide WellFormed, UniquelyNamed, Found, Marked, TopicText, Compile, Compiled, Panics;
    ghost var s := Taken(u);
    assert s[doc].kind == doc.kind;
    var c := CompilePath("//bpmn:serviceTask[@camunda:topic='" + k + "']");
    TopicTextIs(k);
    if !c.Ok? {
      return Recovered(c);
    }
    CompiledPaths(TopicText(k));
    MarkedLinks(s, Found(s, c.path, doc), m[k]);
    var ok := ReplaceFound(doc, c.path, m[k], u);
    err := if ok then "" else POSITION_PANIC;
  }

  lemma TopicTextIs(k: string)
    ensures "//bpmn:serviceTask[@camunda:topic='" + k + "']" == TopicText(k)
  {
    var front := "//" + SERVICE_TASK + "[@" + TOPIC + "='";
    assert front == "//bpmn:serviceTask[@camunda:topic='";
    hide SERVICE_TASK, TOPIC;
    assert TopicText(k) == front + k + "']";
  }

  /** The loop over the keys, in the order in which they come. */
  method ReplaceKeys(doc: Token, m: map<string, string>, keys: seq<string>, ghost u: set<Token>) returns (err: string)
    requires doc in u && Readable(Taken(u), doc) && forall i :: 0 <= i < |keys| ==> keys[i] in m
    modifies u`attr
    ensures Readable(Taken(u), doc)
    ensures var r := KeysProgress(old(Taken(u)), doc, m, keys);
            if r.Broken? then err == r.error else err == "" && Taken(u) == r.s
  {
    hide Readable, KeyProgress;
    ghost var s := Taken(u);
    for i := 0 to |keys|
      invariant Readable(Taken(u), doc) && KeysProgress(s, doc, m, keys[..i]) == Through(Taken(u))
    {
      assert keys[..i + 1][..i] == keys[..i] && keys[..i + 1][i] == keys[i];
      err := ReplaceKey(doc, m, keys[i], u);
      if err != "" {
        BrokenStays(s, doc, m, keys, i + 1);
        return;
      }
    }
    assert keys[..|keys|] == keys;
    err := "";
  }

  lemma {:induction false} BrokenStays(s: Shot, doc: Token, m: map<string, string>, keys: seq<string>, i: nat)
    requires Readable(s, doc) && i <= |keys| && forall j :: 0 <= j < |keys| ==> keys[j] in m
    requires KeysProgress(s, doc, m, keys[..i]).Broken?
    ensures KeysProgress(s, doc, m, keys) == KeysProgress(s, doc, m, keys[..i])
    decreases |keys|
  {
    hide Readable, KeyProgress;
    if i == |keys| {
      assert keys[..i] == keys;
    } else {
      var n := |keys| - 1;
      assert keys[..n][..i] == keys[..i];
      BrokenStays(s, doc, m, keys[..n], i);
    }
  }

  // ---------------------------------------------------------------- what that comes to

  /** Whether a key's path is the one that is meant. */
  predicate LegalKeys(keys: seq<string>) {
    forall i :: 0 <= i < |keys| ==> LegalValue(keys[i])
  }

  /** A legal key replaces its topic by its value in all service tasks and changes nothing else. */
  lemma LegalKeyProgress(s: Shot, doc: Token, m: map<string, string>, k: string)
    requires Readable(s, doc) && k in m && LegalValue(k)
    ensures KeyProgress(s, doc, m, k) == Through(Replaced(s, doc, m, [k]))
  {
    hide WellFormed, UniquelyNamed, Found, Marked, Replaced, Compile, LegalValue, PanicsFrom;
    TopicCompilesIff(k);
    KeyReplaced(s, doc, m, k);
    NoOverflowNoPanic(s, TopicGroup(k), [doc]);
  }

  lemma {:induction false} LegalKeysProgress(s: Shot, doc: Token, m: map<string, string>, keys: seq<string>)
    requires Readable(s, doc) && (forall i :: 0 <= i < |keys| ==> keys[i] in m) && LegalKeys(keys)
    ensures KeysProgress(s, doc, m, keys) == Through(Replaced(s, doc, m, keys))
  {
    hide Readable, Replaced, LegalValue, KeyProgress;
    if keys == [] {
      ReplacedNothing(s, doc, m);
    } else {
      var n := |keys| - 1;
      LegalKeysProgress(s, doc, m, keys[..n]);
      LegalKeyProgress(Replaced(s, doc, m, keys[..n]), doc, m, keys[n]);
      ReplacedOnce(s, doc, m, keys[..n], keys[n]);
      assert keys == keys[..n] + [keys[n]];
    }
  }

  lemma ReplacedNothing(s: Shot, doc: Token, m: map<string, string>)
    requires Readable(s, doc)
    ensures Replaced(s, doc, m, []) == s
  {
    hide WellFormed, UniquelyNamed, Replaced;
    ReplacedNone(s, doc, m);
  }

  lemma ReplacedOnce(s: Shot, doc: Token, m: map<string, string>, keys: seq<string>, k: string)
    requires Readable(s, doc) && (forall i :: 0 <= i < |keys| ==> keys[i] in m) && k in m
    ensures Replaced(Replaced(s, doc, m, keys), doc, m, [k]) == Replaced(s, doc, m, keys + [k])
  {
    hide WellFormed, UniquelyNamed, Replaced;
    ReplacedNext(s, doc, m, keys, k);
  }

  /** The first key whose path does not compile, if all before it are legal, is the one whose error comes out. */
  lemma FirstBadKey(s: Shot, doc: Token, m: map<string, string>, keys: seq<string>, i: nat)
    requires Readable(s, doc) && (forall j :: 0 <= j < |keys| ==> keys[j] in m)
    requires i < |keys| && LegalKeys(keys[..i]) && !Compile(TopicText(keys[i])).Ok?
    ensures KeysProgress(s, doc, m, keys) == Broken(Recovered(Compile(TopicText(keys[i]))))
  {
    hide Readable, Compile, LegalKeys, Replaced;
    LegalKeysProgress(s, doc, m, keys[..i]);
    assert keys[..i + 1][..i] == keys[..i] && keys[..i + 1][i] == keys[i];
    BrokenStays(s, doc, m, keys, i + 1);
  }

  /** A key that is not legal and does not close the filter itself makes the loop fail. */
  lemma {:induction false} BadKeyBreaks(s: Shot, doc: Token, m: map<string, string>, keys: seq<string>, k: string)
    requires Readable(s, doc) && (forall i :: 0 <= i < |keys| ==> keys[i] in m)
    requires k in keys && !LegalValue(k) && !Escapes(k)
    ensures KeysProgress(s, doc, m, keys).Broken?
  {
    hide Readable, Compile, LegalValue, Escapes;
    var n := |keys| - 1;
    assert keys == keys[..n] + [keys[n]];
    if k in keys[..n] {
      BadKeyBreaks(s, doc, m, keys[..n], k);
    } else if Compile(TopicText(k)).Ok? {
      KeyCompiles(k);
    }
  }

  /**
   * ReplaceTaskTopics, for one order of iterating over the map. In any case the text written, or the error, is
   * that of the loop over the keys on the document read. If all keys are free of delimiters and quotes, that is
   * the document with the topics of its service tasks replaced key by key and nothing else changed; any other
   * key makes it fail, unless it closes the filter itself and goes on with a delimiter.
   */
  method ReplaceTaskTopics(raws: seq<Raw>, ending: Ending, m: map<string, string>, keys: seq<string>)
    returns (r: Result)
    requires Orders(keys, m)
    ensures forall i :: 0 <= i < |keys| ==> keys[i] in m
    ensures ReadError(raws, ending) != "" ==> r == Failed(ReadError(raws, ending))
    ensures ReadError(raws, ending) == "" ==>
              exists s, doc :: Readable(s, doc) && TreeOf(s, doc) == DocumentOf(raws).doc &&
                               r == Written(KeysProgress(s, doc, m, keys), doc)
    ensures ReadError(raws, ending) == "" && LegalKeys(keys) ==>
              r == Done(PrintAll(DEFAULT, RetopicedTrees(DocumentOf(raws).doc.kids, m, keys)))
    ensures ReadError(raws, ending) == "" && LegalKeys(keys) && Settled(m) ==>
              r == Done(PrintAll(DEFAULT, TranslatedAll(DocumentOf(raws).doc.kids, m)))
    ensures (exists k :: k in keys && !LegalValue(k) && !Escapes(k)) ==> r.Failed?
  {
    hide WellFormed, UniquelyNamed, Replaced, TreeOf, ReadError, PrintAll, DocumentOf, RetopicedTrees, TranslatedAll;
    hide Settled, Plain, LegalKeys, Escapes, KeysProgress, LegalValue;
    var err, doc;
    ghost var u;
    err, doc, u := ReadDocument(raws, ending);
    if err != "" {
      return Failed(err);
    }
    ghost var s := Taken(u);
    Outcomes(s, doc, m, keys, raws);
    err := ReplaceKeys(doc, m, keys, u);
    if err != "" {
      return Failed(err);
    }
    var text := WriteToString(doc, DEFAULT, u);
    r := Done(text);
  }

  lemma Outcomes(s: Shot, doc: Token, m: map<string, string>, keys: seq<string>, raws: seq<Raw>)
    requires Readable(s, doc) && TreeOf(s, doc) == DocumentOf(raws).doc && forall i :: 0 <= i < |keys| ==> keys[i] in m
    ensures LegalKeys(keys) ==>
              Written(KeysProgress(s, doc, m, keys), doc) ==
              Done(PrintAll(DEFAULT, RetopicedTrees(DocumentOf(raws).doc.kids, m, keys)))
    ensures LegalKeys(keys) && Settled(m) && Orders(keys, m) ==>
              Written(KeysProgress(s, doc, m, keys), doc) ==
              Done(PrintAll(DEFAULT, TranslatedAll(DocumentOf(raws).doc.kids, m)))
    ensures (exists k :: k in keys && !LegalValue(k) && !Escapes(k)) ==> KeysProgress(s, doc, m, keys).Broken?
  {
    hide WellFormed, UniquelyNamed, Replaced, TreeOf, PrintAll, DocumentOf, RetopicedTrees, TranslatedAll, Settled;
    hide LegalKeys, Escapes, KeysProgress, LegalValue, Orders;
    if LegalKeys(keys) {
      LegalKeysProgress(s, doc, m, keys);
      ReplacedDocument(s, doc, m, keys);
      if Settled(m) && Orders(keys, m) {
        RetopicedAreTranslated(DocumentOf(raws).doc.kids, m, keys);
      }
    }
    if k :| k in keys && !LegalValue(k) && !Escapes(k) {
      BadKeyBreaks(s, doc, m, keys, k);
    }
  }

  /**
   * SetProcessId: the text written is that of the document read with its processes numbered level by level,
   * and nothing else changed.
   */
  method SetProcessId(raws: seq<Raw>, ending: Ending, id: string) returns (r: Result)
    ensures r == if ReadError(raws, ending) != "" then Failed(ReadError(raws, ending))
                 else Done(PrintAll(DEFAULT, NumberedTrees(DocumentOf(raws).doc.kids, 0, id)))
  {
    hide WellFormed, UniquelyNamed, TreeOf, ReadError, PrintAll, DocumentOf, Processes, Numbered, NumberedTrees;
    var err, doc;
    ghost var u;
    err, doc, u := ReadDocument(raws, ending);
    if err != "" {
      return Failed(err);
    }
    DocumentNumbered(Taken(u), doc, id);
    NumberProcesses(doc, id, u);
    var text := WriteToString(doc, DEFAULT, u);
    r := Done(text);
  }
}
