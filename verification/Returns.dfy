/**
 * Carriage returns and illegal characters are what keeps printable trees from coming back from their text. Everything
 * that is written for a tree without them is free of them, and so is everything that is read from a text without them.
 */
module Returns {
  import opened Options
  import opened Names
  import opened Texts
  import opened Attrs
  import opened Forest
  import opened Trees
  import opened Reading
  import opened TokenTrip
  import opened P = Printing
  import opened Lexing
  import opened TextTrip

  /** Characters that XML 1.0 allows, and no carriage return among them. */
  predicate Clean(s: string) {
    forall i :: 0 <= i < |s| ==> XmlChar(s[i]) && s[i] != '\r'
  }

  predicate CleanAttrs(attrs: seq<Attr>) {
    forall i :: 0 <= i < |attrs| ==> Clean(attrs[i].value)
  }

  predicate CleanKind(k: Kind) {
    match k
    case Element(_, _) => true
    case CharData(data, _) => Clean(data)
    case Comment(text) => Clean(text)
    case Directive(text) => Clean(text)
    case ProcInst(_, inst) => Clean(inst)
    case CData(data) => Clean(data)
  }

  predicate CleanTree(t: Tree)
    decreases t, 1
  {
    CleanKind(t.kind) && CleanAttrs(t.attr) && CleanTrees(t.kids)
  }

  predicate CleanTrees(ts: seq<Tree>)
    decreases ts, 0
  {
    ts == [] || (CleanTree(ts[0]) && CleanTrees(ts[1..]))
  }

  predicate CleanRaw(raw: Raw) {
    match raw
    case Start(_, _, attrs) => CleanAttrs(attrs)
    case End(_, _) => true
    case Chars(data) => Clean(data)
    case Remark(text) => Clean(text)
    case Declaration(text) => Clean(text)
    case Instruction(_, inst) => Clean(inst)
  }

  predicate CleanRaws(raws: seq<Raw>) {
    forall i :: 0 <= i < |raws| ==> CleanRaw(raws[i])
  }

  // ---------------------------------------------------------------- printing clean trees

  lemma {:induction false} LineEndsClean(s: string)
    requires XmlText(s)
    ensures Clean(LineEnds(s)) && (Clean(s) ==> LineEnds(s) == s)
  {
    if s != "" {
      LineEndsClean(s[1..]);
      assert s == [s[0]] + s[1..];
    }
  }

  lemma {:induction false} EscapedClean(table: Table, s: string)
    requires Clean(s)
    ensures Clean(Escaped(table, s))
  {
    if s != "" {
      EscapedClean(table, s[1..]);
      EscapeClean(table, s[0]);
      hide Escape;
    }
  }

  lemma EscapeClean(table: Table, c: char)
    requires XmlChar(c) && c != '\r'
    ensures Clean(Escape(table, c))
  {
  }

  lemma NameClean(space: string, tag: string)
    requires WellNamed(space, tag)
    ensures Clean(Qualified(space, tag))
  {
  }

  lemma {:induction false} AttrsClean(w: WriteSettings, attrs: seq<Attr>)
    requires WritableAttrs(attrs) && CleanAttrs(attrs)
    ensures Clean(PrintAttrs(w, attrs))
  {
    hide Escaped, WellNamed, Qualified;
    if attrs != [] {
      NameClean(attrs[0].space, attrs[0].key);
      EscapedClean(AttrTable(w), attrs[0].value);
      AttrsClean(w, attrs[1..]);
    }
  }

  lemma {:induction false} LeafClean(w: WriteSettings, k: Kind)
    requires !k.Element? && Writable(k) && CleanKind(k)
    ensures Clean(PrintLeaf(w, k))
  {
    hide Escaped, WellNamed;
    if k.CharData? {
      EscapedClean(TextTable(w), k.data);
    } else if k.ProcInst? {
      NameClean("", k.target);
      assert Qualified("", k.target) == k.target;
    }
  }

  lemma {:induction false} PrintClean(w: WriteSettings, t: Tree)
    requires Printable(t) && CleanTree(t)
    ensures Clean(Print(w, t))
    decreases t, 1
  {
    hide PrintAttrs, PrintLeaf, Qualified, WritableAttrs, CleanAttrs, WellNamed;
    if t.kind.Element? {
      NameClean(t.kind.space, t.kind.tag);
      AttrsClean(w, t.attr);
      PrintAllClean(w, t.kids);
    } else {
      LeafClean(w, t.kind);
    }
  }

  lemma {:induction false} PrintAllClean(w: WriteSettings, ts: seq<Tree>)
    requires PrintableAll(ts) && CleanTrees(ts)
    ensures Clean(PrintAll(w, ts))
    decreases ts, 0
  {
    hide Print, Printable, CleanTree;
    if ts != [] {
      PrintClean(w, ts[0]);
      PrintAllClean(w, ts[1..]);
    }
  }

  // ---------------------------------------------------------------- reading clean texts

  lemma {:induction false} TrimmedClean(s: string)
    requires Clean(s)
    ensures Clean(Trimmed(s))
  {
    if s != "" && IsSpace(s[0]) {
      TrimmedClean(s[1..]);
    }
  }

  lemma EntityClean(name: string)
    ensures Entity(name).Some? ==> XmlChar(Entity(name).value) && Entity(name).value != '\r'
  {
  }

  lemma {:induction false} UnescapedClean(s: string)
    requires Clean(s) && Unescaped(s).Some?
    ensures Clean(Unescaped(s).value)
    decreases |s|
  {
    hide Entity;
    if s != "" {
      if s[0] != '&' {
        UnescapedClean(s[1..]);
      } else {
        var i := Index(s, ';');
        EntityClean(s[1..i]);
        UnescapedClean(s[i + 1..]);
      }
    }
  }

  lemma UntilClean(s: string, close: string)
    requires Clean(s) && close != "" && LexUntil(s, close).Got?
    ensures Clean(LexUntil(s, close).value) && Clean(LexUntil(s, close).rest)
  {
  }

  lemma NameRestClean(s: string)
    requires Clean(s) && LexName(s).Got?
    ensures Clean(LexName(s).rest)
  {
  }

  lemma AttrClean(s: string)
    requires Clean(s) && LexAttr(s).Got?
    ensures Clean(LexAttr(s).value.value) && Clean(LexAttr(s).rest)
  {
    hide Trimmed, Unescaped, LexName, SpaceDecompose;
    var n := LexName(s);
    NameRestClean(s);
    TrimmedClean(n.rest);
    var eq := Trimmed(n.rest);
    TrimmedClean(eq[1..]);
    var q := Trimmed(eq[1..]);
    var i := Index(q[1..], q[0]);
    UnescapedClean(q[1..][..i]);
  }

  lemma {:induction false} LexAttrsClean(s: string, done: seq<Attr>)
    requires Clean(s) && CleanAttrs(done) && LexAttrs(s, done).Got?
    ensures CleanAttrs(LexAttrs(s, done).value) && Clean(LexAttrs(s, done).rest)
    decreases |s|
  {
    hide LexAttr, Trimmed;
    TrimmedClean(s);
    var t := Trimmed(s);
    if t[0] != '>' && t[0] != '/' {
      AttrClean(t);
      LexAttrsClean(LexAttr(t).rest, done + [LexAttr(t).value]);
    }
  }

  lemma StartClean(s: string)
    requires Clean(s) && LexStart(s).Got?
    ensures CleanRaws(LexStart(s).value) && Clean(LexStart(s).rest)
  {
    hide LexName, LexAttrs, SpaceDecompose;
    NameRestClean(s);
    LexAttrsClean(LexName(s).rest, []);
  }

  lemma EndClean(s: string)
    requires Clean(s) && LexEnd(s).Got?
    ensures CleanRaws(LexEnd(s).value) && Clean(LexEnd(s).rest)
  {
    hide LexName, Trimmed, SpaceDecompose;
    NameRestClean(s);
    TrimmedClean(LexName(s).rest);
  }

  lemma CommentClean(s: string)
    requires Clean(s) && LexComment(s).Got?
    ensures CleanRaws(LexComment(s).value) && Clean(LexComment(s).rest)
  {
    hide LexUntil;
    UntilClean(s, "--");
  }

  lemma {:induction false} DirectiveClean(s: string, i: Inside)
    requires Clean(s) && LexDirective(s, i).Got?
    ensures Clean(LexDirective(s, i).value) && Clean(LexDirective(s, i).rest)
  {
    hide CommentHere, Onward, EndsHere;
    if !EndsHere(i, s[0]) {
      DirectiveClean(s[1..], Onward(i, s[0]));
    }
  }

  lemma InstructionClean(s: string)
    requires Clean(s) && LexInstruction(s).Got?
    ensures CleanRaws(LexInstruction(s).value) && Clean(LexInstruction(s).rest)
  {
    hide LexName, Trimmed, LexUntil;
    NameRestClean(s);
    TrimmedClean(LexName(s).rest);
    UntilClean(Trimmed(LexName(s).rest), "?>");
  }

  lemma CharsClean(s: string)
    requires s != "" && s[0] != '<' && Clean(s) && LexChars(s).Got?
    ensures CleanRaws(LexChars(s).value) && Clean(LexChars(s).rest)
  {
    hide Unescaped, Find;
    UnescapedClean(s[..Index(s, '<')]);
  }

  lemma OneClean(s: string)
    requires s != "" && Clean(s) && LexOne(s).Got?
    ensures CleanRaws(LexOne(s).value) && Clean(LexOne(s).rest)
  {
    hide LexChars, LexUntil, LexComment, LexDirective, LexInstruction, LexEnd, LexStart, HasPrefix;
    if s[0] != '<' { CharsClean(s); }
    else if HasPrefix(s, "<!--") { CommentClean(PastPrefix(s, "<!--")); }
    else if HasPrefix(s, "<![CDATA[") { UntilClean(PastPrefix(s, "<![CDATA["), "]]>"); }
    else if HasPrefix(s, "<!") {
      var _ := PastPrefix(s, "<!");
      DirectiveClean(s[3..], Inside(None, 0));
    }
    else if HasPrefix(s, "<?") { InstructionClean(PastPrefix(s, "<?")); }
    else if HasPrefix(s, "</") { EndClean(PastPrefix(s, "</")); }
    else { StartClean(s[1..]); }
  }

  function PastPrefix(s: string, p: string): (r: string)
    requires HasPrefix(s, p) && Clean(s)
    ensures Clean(r) && |p| <= |s|
  {
    s[|p|..]
  }

  /** No token that is read from clean text holds anything else. */
  lemma {:induction false} LexClean(s: string)
    requires Clean(s) && Lex(s).Some?
    ensures CleanRaws(Lex(s).value)
    decreases |s|
  {
    hide LexOne, CleanRaw;
    if s != "" {
      OneClean(s);
      LexClean(LexOne(s).rest);
    }
  }

  // ---------------------------------------------------------------- the exact condition

  lemma {:induction false} FlattenedClean(t: Tree)
    requires Sound(t) && CleanRaws(Flattened(t))
    ensures CleanTree(t)
    decreases t, 1
  {
    var raws := Flattened(t);
    assert CleanRaw(raws[0]);
    if t.kind.Element? {
      var inner := FlattenedAll(t.kids);
      assert forall i :: 0 <= i < |inner| ==> raws[i + 1] == inner[i];
      assert CleanRaws(inner);
      hide Flattened, FlattenedAll;
      FlattenedAllClean(t.kids);
    }
  }

  lemma {:induction false} FlattenedAllClean(ts: seq<Tree>)
    requires SoundAll(ts) && CleanRaws(FlattenedAll(ts))
    ensures CleanTrees(ts)
    decreases ts, 0
  {
    hide Flattened, Sound, CleanTree, CleanRaw;
    if ts != [] {
      var a, b := Flattened(ts[0]), FlattenedAll(ts[1..]);
      assert forall i :: 0 <= i < |a| ==> (a + b)[i] == a[i];
      assert forall i :: 0 <= i < |b| ==> (a + b)[|a| + i] == b[i];
      FlattenedClean(ts[0]);
      FlattenedAllClean(ts[1..]);
    }
  }

  /**
   * The tokeniser gives the tokens that a document was printed from exactly when the document holds no carriage
   * return and only characters that XML allows.
   */
  lemma TokensReadBack(w: WriteSettings, kids: seq<Tree>)
    requires SoundAll(kids) && PrintableAll(kids)
    ensures Tokens(PrintAll(w, kids)) == Some(FlattenedAll(kids)) <==> CleanTrees(kids)
  {
    hide PrintAll, FlattenedAll, Lex, LineEnds, SoundAll, PrintableAll, CleanTrees;
    var s := PrintAll(w, kids);
    if CleanTrees(kids) {
      PrintAllClean(w, kids);
      LineEndsClean(s);
      PlainTrip(w, kids);
    } else if Tokens(s) == Some(FlattenedAll(kids)) {
      LineEndsClean(s);
      LexClean(LineEnds(s));
      FlattenedAllClean(kids);
    }
  }

  lemma PlainTrip(w: WriteSettings, kids: seq<Tree>)
    requires SoundAll(kids) && PrintableAll(kids)
    ensures Lex(PrintAll(w, kids)) == Some(FlattenedAll(kids))
  {
    hide PrintAll, FlattenedAll, SoundAll, PrintableAll, LexOne;
    TreesRead(w, kids, "");
    assert PrintAll(w, kids) + "" == PrintAll(w, kids);
    assert FlattenedAll(kids) + [] == FlattenedAll(kids);
  }

  /** Print and parse: a clean document comes back, normalised. */
  lemma DocumentTrip(w: WriteSettings, doc: Tree)
    requires SoundAll(doc.kids) && PrintableAll(doc.kids)
    ensures CleanTrees(doc.kids) ==>
              Tokens(PrintAll(w, doc.kids)).Some? &&
              Build([Frame(doc.kind, doc.attr, [])], Tokens(PrintAll(w, doc.kids)).value) ==
              Built(Tree(doc.kind, doc.attr, NormalAll(doc.kids)), false)
  {
    hide PrintAll, FlattenedAll, Lex, LineEnds, SoundAll, PrintableAll, CleanTrees, Build, NormalAll;
    TokensReadBack(w, doc.kids);
    DocumentReadBack(doc);
  }
}
