/**
 * Printed text is tokenised back into the tokens it was printed from: one lemma for each kind of token, and the
 * last for whole trees.
 */
module TextTrip {
  import opened Options
  import opened Names
  import opened Texts
  import opened Attrs
  import opened Forest
  import opened Trees
  import opened Reading
  import opened TokenTrip
  import opened P = Printing
  import opened Lexing

  // ---------------------------------------------------------------- which trees can be written

  /** A namespace prefix and a local part that XML names allow. */
  predicate WellNamed(space: string, tag: string) {
    && tag != "" && NameStart(Qualified(space, tag)[0])
    && (forall i :: 0 <= i < |space| ==> NameChar(space[i])) && (forall i :: 0 <= i < |tag| ==> NameChar(tag[i]))
  }

  /** Text that is scanned to its end without the directive ending, and leaves nothing open. */
  predicate Balanced(s: string, i: Inside) {
    if s == "" then i == Inside(None, 0)
    else !EndsHere(i, s[0]) && !CommentHere(i, s + ">") && Balanced(s[1..], Onward(i, s[0]))
  }

  /** The token can be written so that it is read back. */
  predicate Writable(k: Kind) {
    match k
    case Element(space, tag) => WellNamed(space, tag)
    case CharData(data, _) => data != ""
    case Comment(text) => Find(text + "--", "--") == |text|
    case Directive(text) => text != "" && text[0] != '-' && text[0] != '[' && Balanced(text[1..], Inside(None, 0))
    case ProcInst(target, inst) =>
      && WellNamed("", target) && (inst != "" ==> !IsSpace(inst[0]))
      && Find(inst + "?>", "?>") == |inst|
    case CData(data) => Find(data + "]]>", "]]>") == |data|
  }

  predicate WritableAttrs(attrs: seq<Attr>) {
    forall i :: 0 <= i < |attrs| ==> WellNamed(attrs[i].space, attrs[i].key)
  }

  predicate Printable(t: Tree)
    decreases t, 1
  {
    Writable(t.kind) && WritableAttrs(t.attr) && PrintableAll(t.kids)
  }

  /** Pieces of character data are not adjacent: they would be read back as one. */
  predicate PrintableAll(ts: seq<Tree>)
    decreases ts, 0
  {
    ts == [] || (Printable(ts[0]) && PrintableAll(ts[1..]) &&
                 (|ts| > 1 && ts[0].kind.CharData? ==> !ts[1].kind.CharData?))
  }

  // ---------------------------------------------------------------- names

  /** No name goes on into the rest. */
  predicate NameEnds(rest: string) {
    rest == "" || (!NameChar(rest[0]) && rest[0] != ':')
  }

  lemma {:induction false} NameLengthExact(q: string, rest: string)
    requires (forall i :: 0 <= i < |q| ==> NameChar(q[i]) || q[i] == ':') && NameEnds(rest)
    ensures NameLength(q + rest) == |q|
  {
    if q == "" {
      assert q + rest == rest;
    } else {
      assert (q + rest)[1..] == q[1..] + rest;
      NameLengthExact(q[1..], rest);
    }
  }

  lemma NameLexed(space: string, tag: string, rest: string)
    requires WellNamed(space, tag) && NameEnds(rest)
    ensures LexName(Qualified(space, tag) + rest) == Got(Qualified(space, tag), rest)
    ensures SpaceDecompose(Qualified(space, tag)) == (space, tag)
  {
    var q := Qualified(space, tag);
    NameLengthExact(q, rest);
    assert (q + rest)[..|q|] == q && (q + rest)[|q|..] == rest;
    assert ':' !in space && ':' !in tag;
    DecomposeQualified(space, tag);
  }

  // ---------------------------------------------------------------- escaped text

  lemma EscapeRead(table: Table, c: char, rest: string)
    ensures Unescaped(Escape(table, c) + rest) ==
            (var r := Unescaped(rest); if r.None? then None else Some([c] + r.value))
  {
    var e := Escape(table, c);
    var s := e + rest;
    if |e| == 1 {
      assert s[1..] == rest;
    } else {
      assert s[..|e|] == e;
      IndexFirst(s, ';', |e| - 1);
      assert s[|e|..] == rest;
      assert s[1..|e| - 1] == e[1..|e| - 1];
      EntityRead(table, c);
    }
  }

  lemma EntityRead(table: Table, c: char)
    requires |Escape(table, c)| > 1
    ensures Entity(Escape(table, c)[1..|Escape(table, c)| - 1]) == Some(c)
  {
    var name := if c == '&' then "amp" else if c == '<' then "lt" else if c == '>' then "gt"
                else if c == '\'' then "apos" else "quot";
    assert Escape(table, c) == "&" + name + ";";
    InsideEntity(name);
  }

  lemma InsideEntity(name: string)
    ensures ("&" + name + ";")[1..|"&" + name + ";"| - 1] == name
  {
  }

  /** Every escape table is undone by reading entities. */
  lemma {:induction false} EscapedRead(table: Table, s: string)
    ensures Unescaped(Escaped(table, s)) == Some(s)
  {
    hide Escape, Unescaped;
    if s == "" {
      NothingUnescaped();
    } else {
      EscapedRead(table, s[1..]);
      EscapeRead(table, s[0], Escaped(table, s[1..]));
      assert [s[0]] + s[1..] == s;
    }
  }

  lemma NothingUnescaped()
    ensures Unescaped("") == Some("")
  {
  }

  /** What escaped text is free of. */
  lemma {:induction false} EscapedFree(table: Table, s: string)
    ensures '<' !in Escaped(table, s)
    ensures !table.CanonicalAttrVal? ==> '>' !in Escaped(table, s)
    ensures !table.CanonicalText? ==> '"' !in Escaped(table, s)
    ensures s != "" ==> Escaped(table, s) != ""
  {
    if s != "" {
      EscapedFree(table, s[1..]);
      EscapeFree(table, s[0]);
      hide Escape;
    }
  }

  lemma EscapeFree(table: Table, c: char)
    ensures '<' !in Escape(table, c)
    ensures !table.CanonicalAttrVal? ==> '>' !in Escape(table, c)
    ensures !table.CanonicalText? ==> '"' !in Escape(table, c)
    ensures Escape(table, c) != ""
  {
  }

  // ---------------------------------------------------------------- closing texts

  lemma {:induction false} FindExtends(s: string, p: string, rest: string)
    requires p != "" && Find(s, p) + |p| <= |s|
    ensures Find(s + rest, p) == Find(s, p)
  {
    if HasPrefix(s, p) {
      assert (s + rest)[..|p|] == s[..|p|];
    } else {
      assert s != "";
      assert !HasPrefix(s + rest, p) by {
        assert (s + rest)[..|p|] == s[..|p|];
      }
      assert (s + rest)[1..] == s[1..] + rest;
      FindExtends(s[1..], p, rest);
    }
  }

  lemma UntilClose(text: string, close: string, rest: string)
    requires close != "" && Find(text + close, close) == |text|
    ensures LexUntil(text + close + rest, close) == Got(text, rest)
  {
    hide Find;
    var s := text + close + rest;
    FindExtends(text + close, close, rest);
    assert s[..|text|] == text && s[|text| + |close|..] == rest;
  }

  // ---------------------------------------------------------------- one token at a time

  /** The text ends here, or goes on with a tag. */
  predicate TagNext(rest: string) {
    rest == "" || rest[0] == '<'
  }

  lemma CharsRead(table: Table, data: string, rest: string)
    requires data != "" && TagNext(rest) && !table.CanonicalAttrVal?
    ensures var s := Escaped(table, data) + rest; s != "" && LexOne(s) == Got([Chars(data)], rest)
  {
    hide Escaped, Unescaped, Escape;
    var e := Escaped(table, data);
    var s := e + rest;
    EscapedFree(table, data);
    EscapedRead(table, data);
    assert s[0] == e[0] && e[0] in e;
    assert s[..|e|] == e && s[|e|..] == rest;
    IndexFirst(s, '<', |e|);
    NoGreaterNoEnd(e);
  }

  lemma {:induction false} NoGreaterNoEnd(e: string)
    requires '>' !in e
    ensures Find(e, "]]>") + 3 > |e|
  {
    assert |e| >= 3 ==> e[..3][2] == e[2] && e[2] in e;
    if e != "" && !HasPrefix(e, "]]>") {
      NoGreaterNoEnd(e[1..]);
    }
  }

  lemma CDataOne(tail: string)
    ensures LexOne("<![CDATA[" + tail) ==
            (var t := LexUntil(tail, "]]>"); if t.Bad? then Bad else Got([Chars(t.value)], t.rest))
  {
    hide LexChars, LexUntil, LexComment, LexDirective, LexInstruction, LexEnd, LexStart;
    var s := "<![CDATA[" + tail;
    assert s[..4][2] == '[' && s[..9] == "<![CDATA[" && s[9..] == tail;
  }

  lemma ConcatConcat(a: string, b: string, c: string, d: string)
    ensures a + b + c + d == a + (b + c + d)
  {
    assert a + b + c == a + (b + c);
  }

  lemma CDataRead(data: string, rest: string)
    requires Find(data + "]]>", "]]>") == |data|
    ensures var s := "<![CDATA[" + data + "]]>" + rest; LexOne(s) == Got([Chars(data)], rest)
  {
    hide Find, LexOne, LexUntil;
    CDataOne(data + "]]>" + rest);
    UntilClose(data, "]]>", rest);
    ConcatConcat("<![CDATA[", data, "]]>", rest);
  }

  lemma CommentOne(tail: string)
    ensures LexOne("<!--" + tail) == LexComment(tail)
  {
    hide LexChars, LexUntil, LexComment, LexDirective, LexInstruction, LexEnd, LexStart;
    var s := "<!--" + tail;
    assert s[..4] == "<!--" && s[4..] == tail;
  }

  lemma CommentText(text: string, rest: string)
    ensures "<!--" + (text + "--" + (">" + rest)) == "<!--" + text + "-->" + rest
  {
  }

  lemma CommentRead(text: string, rest: string)
    requires Find(text + "--", "--") == |text|
    ensures var s := "<!--" + text + "-->" + rest; LexOne(s) == Got([Remark(text)], rest)
  {
    hide Find, LexOne, LexUntil;
    var tail := text + "--" + (">" + rest);
    CommentOne(tail);
    UntilClose(text, "--", ">" + rest);
    assert (">" + rest)[1..] == rest;
    CommentText(text, rest);
  }

  lemma CommentHereSame(i: Inside, s: string, rest: string)
    ensures CommentHere(i, s + ">" + rest) == CommentHere(i, s + ">")
  {
    var a, b := s + ">", s + ">" + rest;
    assert |a| >= 4 ==> a[..4] == b[..4];
    assert |a| < 4 ==> b[|s|] == '>';
    assert |a| < 4 && |b| >= 4 ==> b[..4][|s|] == '>';
  }

  lemma {:induction false} DirectiveRead(text: string, i: Inside, rest: string)
    requires Balanced(text, i)
    ensures LexDirective(text + ">" + rest, i) == Got(text, rest)
  {
    hide Onward, CommentHere;
    var s := text + ">" + rest;
    CommentHereSame(i, text, rest);
    if text == "" {
      assert s[1..] == rest;
      NoComment(i, s);
    } else {
      assert s[1..] == text[1..] + ">" + rest;
      DirectiveRead(text[1..], Onward(i, text[0]), rest);
      assert [text[0]] + text[1..] == text;
    }
  }

  lemma NoComment(i: Inside, s: string)
    requires s != "" && s[0] != '<'
    ensures !CommentHere(i, s)
  {
    assert |s| >= 4 ==> s[..4][0] == s[0];
  }

  lemma DeclarationRead(text: string, rest: string)
    requires Writable(Directive(text))
    ensures var s := "<!" + text + ">" + rest; LexOne(s) == Got([Declaration(text)], rest)
  {
    hide Balanced, LexDirective;
    var s := "<!" + text + ">" + rest;
    assert s[2] == text[0];
    assert |s| >= 4 ==> s[..4][2] == s[2];
    assert |s| >= 9 ==> s[..9][2] == s[2];
    assert s[..2] == "<!";
    assert s[3..] == text[1..] + ">" + rest;
    DirectiveRead(text[1..], Inside(None, 0), rest);
    assert [text[0]] + text[1..] == text;
  }

  lemma {:induction false} TrimmedSame(s: string)
    requires s == "" || !IsSpace(s[0])
    ensures Trimmed(s) == s && Trimmed(" " + s) == s
  {
    assert (" " + s)[1..] == s;
  }

  lemma InstructionRead(target: string, inst: string, rest: string)
    requires Writable(ProcInst(target, inst))
    ensures LexInstruction(target + (if inst == "" then "" else " " + inst) + "?>" + rest) ==
            Got([Instruction(target, inst)], rest)
  {
    hide Find, Trimmed, LexName, NameStart, NameChar;
    var body := inst + "?>" + rest;
    TrimmedSame(body);
    UntilClose(inst, "?>", rest);
    InstructionName(target, (if inst == "" then "" else " ") + body);
    assert inst == "" ==> "" + body == body;
    assert target + (if inst == "" then "" else " " + inst) + "?>" + rest ==
           target + ((if inst == "" then "" else " ") + body);
  }

  lemma InstructionName(target: string, rest: string)
    requires WellNamed("", target) && rest != "" && (rest[0] == ' ' || rest[0] == '?')
    ensures LexName(target + rest) == Got(target, rest)
  {
    NameLexed("", target, rest);
  }

  // ---------------------------------------------------------------- tags

  lemma NameOpens(space: string, tag: string, rest: string)
    requires WellNamed(space, tag)
    ensures var s := Qualified(space, tag) + rest;
            s != "" && NameStart(s[0]) && !IsSpace(s[0]) && s[0] !in "<>/!?='\"&;[-"
  {
    assert (Qualified(space, tag) + rest)[0] == Qualified(space, tag)[0];
  }

  lemma ValueRead(w: WriteSettings, v: string, rest: string)
    ensures var e := Escaped(AttrTable(w), v);
            Index(e + "\"" + rest, '"') == |e| && '<' !in e && Unescaped(e) == Some(v)
  {
    hide Escaped, Unescaped;
    var e := Escaped(AttrTable(w), v);
    EscapedFree(AttrTable(w), v);
    EscapedRead(AttrTable(w), v);
    assert (e + "\"" + rest)[..|e|] == e;
    IndexFirst(e + "\"" + rest, '"', |e|);
  }

  lemma AttrRead(w: WriteSettings, a: Attr, rest: string)
    requires WellNamed(a.space, a.key)
    ensures LexAttr(PrintAttr(w, a) + rest) == Got(a, rest)
  {
    hide Escaped, Unescaped, Qualified, SpaceDecompose, Index, Trimmed, LexName, WellNamed;
    var q, e := Qualified(a.space, a.key), Escaped(AttrTable(w), a.value);
    var quoted := "\"" + (e + "\"" + rest);
    assert PrintAttr(w, a) + rest == q + ("=" + quoted);
    NameLexed(a.space, a.key, "=" + quoted);
    TrimmedSame("=" + quoted);
    assert ("=" + quoted)[1..] == quoted;
    TrimmedSame(quoted);
    assert quoted[1..] == e + "\"" + rest;
    ValueRead(w, a.value, rest);
    assert quoted[1..][..|e|] == e && quoted[1..][|e| + 1..] == rest;
  }

  /** Where the attributes of a tag end. */
  predicate TagEnds(rest: string) {
    rest != "" && (rest[0] == '>' || rest[0] == '/')
  }

  lemma {:induction false} AttrsRead(w: WriteSettings, attrs: seq<Attr>, done: seq<Attr>, rest: string)
    requires WritableAttrs(attrs) && TagEnds(rest)
    ensures LexAttrs(PrintAttrs(w, attrs) + rest, done) == Got(done + attrs, rest)
    decreases |attrs|
  {
    hide LexAttr, PrintAttr, Trimmed, WellNamed;
    if attrs == [] {
      assert PrintAttrs(w, attrs) + rest == rest;
      TrimmedSame(rest);
      assert done + [] == done;
    } else {
      var a := attrs[0];
      var more := PrintAttrs(w, attrs[1..]) + rest;
      var t := PrintAttr(w, a) + more;
      assert PrintAttrs(w, attrs) + rest == " " + t;
      AttrOpens(w, a, more);
      TrimmedSame(t);
      AttrRead(w, a, more);
      AttrsRead(w, attrs[1..], done + [a], rest);
      assert (done + [a]) + attrs[1..] == done + attrs;
    }
  }

  lemma AttrOpens(w: WriteSettings, a: Attr, rest: string)
    requires WellNamed(a.space, a.key)
    ensures var t := PrintAttr(w, a) + rest; t != "" && !IsSpace(t[0]) && t[0] != '>' && t[0] != '/'
  {
    NameOpens(a.space, a.key, "=\"" + Escaped(AttrTable(w), a.value) + "\"" + rest);
    hide Escaped;
    assert PrintAttr(w, a) + rest == Qualified(a.space, a.key) + ("=\"" + Escaped(AttrTable(w), a.value) + "\"" + rest);
  }

  /** Attributes start with a space, so the name before them ends. */
  lemma AttrsNameEnd(w: WriteSettings, attrs: seq<Attr>, rest: string)
    requires TagEnds(rest)
    ensures NameEnds(PrintAttrs(w, attrs) + rest)
  {
    hide PrintAttr;
    if attrs == [] {
      assert PrintAttrs(w, attrs) + rest == rest;
    }
  }

  lemma StartOne(tail: string)
    requires tail != "" && NameStart(tail[0])
    ensures LexOne("<" + tail) == LexStart(tail)
  {
    hide LexChars, LexUntil, LexComment, LexDirective, LexInstruction, LexEnd, LexStart;
    var s := "<" + tail;
    assert s[1..] == tail && s[1] == tail[0];
    assert s[..2][1] == s[1];
    assert |s| >= 4 ==> s[..4][1] == s[1];
    assert |s| >= 9 ==> s[..9][1] == s[1];
  }

  lemma EndOne(tail: string)
    ensures LexOne("</" + tail) == LexEnd(tail)
  {
    hide LexChars, LexUntil, LexComment, LexDirective, LexInstruction, LexEnd, LexStart;
    var s := "</" + tail;
    assert s[2..] == tail && s[..2] == "</";
    assert |s| >= 4 ==> s[..4][1] == '/';
    assert |s| >= 9 ==> s[..9][1] == '/';
  }

  lemma InstructionOne(tail: string)
    ensures LexOne("<?" + tail) == LexInstruction(tail)
  {
    hide LexChars, LexUntil, LexComment, LexDirective, LexInstruction, LexEnd, LexStart;
    var s := "<?" + tail;
    assert s[2..] == tail && s[..2] == "<?";
    assert |s| >= 4 ==> s[..4][1] == '?';
    assert |s| >= 9 ==> s[..9][1] == '?';
  }

  /** The start tag of an element, closed by ">" or, without content, by "/>". */
  lemma OpenRead(w: WriteSettings, k: Kind, attrs: seq<Attr>, rest: string)
    requires k.Element? && WellNamed(k.space, k.tag) && WritableAttrs(attrs)
    ensures LexOne(PrintOpen(w, k, attrs) + ">" + rest) == Got([Start(k.space, k.tag, attrs)], rest)
    ensures LexOne(PrintOpen(w, k, attrs) + "/>" + rest) ==
            Got([Start(k.space, k.tag, attrs), End(k.space, k.tag)], rest)
  {
    hide LexOne, LexStart, PrintAttrs;
    var q := Qualified(k.space, k.tag);
    OpenTail(w, k, attrs, ">" + rest);
    OpenTail(w, k, attrs, "/>" + rest);
    assert (">" + rest)[1..] == rest && ("/>" + rest)[2..] == rest;
    assert PrintOpen(w, k, attrs) + ">" + rest == "<" + (q + (PrintAttrs(w, attrs) + (">" + rest)));
    assert PrintOpen(w, k, attrs) + "/>" + rest == "<" + (q + (PrintAttrs(w, attrs) + ("/>" + rest)));
  }

  lemma OpenTail(w: WriteSettings, k: Kind, attrs: seq<Attr>, rest: string)
    requires k.Element? && WellNamed(k.space, k.tag) && WritableAttrs(attrs) && TagEnds(rest)
    requires rest[0] == '/' ==> |rest| > 1 && rest[1] == '>'
    ensures LexOne("<" + (Qualified(k.space, k.tag) + (PrintAttrs(w, attrs) + rest))) ==
            if rest[0] == '>' then Got([Start(k.space, k.tag, attrs)], rest[1..])
            else Got([Start(k.space, k.tag, attrs), End(k.space, k.tag)], rest[2..])
  {
    hide LexOne, PrintAttrs, LexName, LexAttrs, SpaceDecompose, Qualified, WellNamed;
    var tail := PrintAttrs(w, attrs) + rest;
    NameOpens(k.space, k.tag, tail);
    StartOne(Qualified(k.space, k.tag) + tail);
    AttrsNameEnd(w, attrs, rest);
    NameLexed(k.space, k.tag, tail);
    AttrsRead(w, attrs, [], rest);
    assert [] + attrs == attrs;
  }

  lemma CloseRead(k: Kind, rest: string)
    requires k.Element? && WellNamed(k.space, k.tag)
    ensures LexOne(PrintClose(k) + rest) == Got([End(k.space, k.tag)], rest)
  {
    hide LexOne, LexName, SpaceDecompose, Qualified, WellNamed, Trimmed;
    var tail := ">" + rest;
    NameLexed(k.space, k.tag, tail);
    EndOne(Qualified(k.space, k.tag) + tail);
    TrimmedSame(tail);
    assert tail[1..] == rest;
    assert PrintClose(k) + rest == "</" + (Qualified(k.space, k.tag) + tail);
  }

  lemma InstructionLeafRead(w: WriteSettings, target: string, inst: string, rest: string)
    requires Writable(ProcInst(target, inst))
    ensures var s := PrintLeaf(w, ProcInst(target, inst)) + rest;
            s != "" && LexOne(s) == Got([Instruction(target, inst)], rest)
  {
    hide LexOne, LexInstruction, Find, WellNamed;
    InstructionRead(target, inst, rest);
    var tail := target + (if inst == "" then "" else " " + inst) + "?>" + rest;
    InstructionOne(tail);
    assert PrintLeaf(w, ProcInst(target, inst)) + rest == "<?" + tail;
  }

  lemma LeafRead(w: WriteSettings, k: Kind, rest: string)
    requires !k.Element? && Writable(k) && (k.CharData? ==> TagNext(rest))
    ensures var s := PrintLeaf(w, k) + rest;
            s != "" && LexOne(s) == Got(Flattened(Tree(k, [], [])), rest)
  {
    hide LexOne, Escaped, Find, Balanced, WellNamed;
    match k
    case CharData(data, _) => CharsRead(TextTable(w), data, rest);
    case Comment(text) => CommentRead(text, rest);
    case Directive(text) => DeclarationRead(text, rest);
    case CData(data) => CDataRead(data, rest);
    case ProcInst(target, inst) => InstructionLeafRead(w, target, inst, rest);
  }

  // ---------------------------------------------------------------- trees

  lemma PrefixedTwice(a: seq<Raw>, b: seq<Raw>, more: Option<seq<Raw>>)
    ensures Prefixed(a, Prefixed(b, more)) == Prefixed(a + b, more)
  {
    if more.Some? {
      assert a + (b + more.value) == (a + b) + more.value;
    }
  }

  /** Everything but character data starts a tag. */
  lemma TagFirst(w: WriteSettings, t: Tree, rest: string)
    requires !t.kind.CharData?
    ensures TagNext(Print(w, t) + rest)
  {
    hide PrintAll, PrintAttrs;
  }

  lemma {:induction false} TreeRead(w: WriteSettings, t: Tree, rest: string)
    requires Sound(t) && Printable(t) && (t.kind.CharData? ==> TagNext(rest))
    ensures Lex(Print(w, t) + rest) == Prefixed(Flattened(t), Lex(rest))
    decreases t, 1
  {
    if t.kind.Element? {
      ElementRead(w, t, rest);
    } else {
      assert t == Tree(t.kind, [], []);
      LeafRead(w, t.kind, rest);
      hide LexOne, Flattened, PrintLeaf;
      assert Lex(PrintLeaf(w, t.kind) + rest) == Prefixed(Flattened(t), Lex(rest));
    }
  }

  lemma {:induction false} ElementRead(w: WriteSettings, t: Tree, rest: string)
    requires t.kind.Element? && Sound(t) && Printable(t)
    ensures Lex(Print(w, t) + rest) == Prefixed(Flattened(t), Lex(rest))
    decreases t, 0
  {
    hide LexOne, PrintOpen, PrintClose, PrintAll, FlattenedAll, Prefixed, WritableAttrs, WellNamed;
    var open, close := Start(t.kind.space, t.kind.tag, t.attr), End(t.kind.space, t.kind.tag);
    var front, back := PrintOpen(w, t.kind, t.attr), PrintClose(t.kind);
    OpenOpens(w, t.kind, t.attr);
    if t.kids == [] && !w.canonicalEndTags {
      OpenRead(w, t.kind, t.attr, rest);
      assert Print(w, t) + rest == front + "/>" + rest;
      NoKids();
      assert Flattened(t) == [open, close];
    } else {
      var inner := PrintAll(w, t.kids) + (back + rest);
      NoKids();
      assert Print(w, t) + rest == front + ">" + inner by {
        assert t.kids == [] ==> PrintAll(w, t.kids) + back == back;
      }
      OpenRead(w, t.kind, t.attr, inner);
      CloseRead(t.kind, rest);
      TreesRead(w, t.kids, back + rest);
      PrefixedTwice(FlattenedAll(t.kids), [close], Lex(rest));
      PrefixedTwice([open], FlattenedAll(t.kids) + [close], Lex(rest));
      assert [open] + (FlattenedAll(t.kids) + [close]) == Flattened(t);
    }
  }

  lemma NoKids()
    ensures FlattenedAll([]) == [] && forall w :: PrintAll(w, []) == ""
  {
  }

  lemma OpenOpens(w: WriteSettings, k: Kind, attrs: seq<Attr>)
    requires k.Element?
    ensures PrintOpen(w, k, attrs) != "" && PrintClose(k) != "" && PrintClose(k)[0] == '<'
  {
    hide PrintAttrs;
  }

  lemma {:induction false} TreesRead(w: WriteSettings, ts: seq<Tree>, rest: string)
    requires SoundAll(ts) && PrintableAll(ts) && TagNext(rest)
    ensures Lex(PrintAll(w, ts) + rest) == Prefixed(FlattenedAll(ts), Lex(rest))
    decreases ts, 0
  {
    hide Lex, Print, Flattened, Sound, Printable;
    if ts == [] {
      assert PrintAll(w, ts) + rest == rest;
      assert Lex(rest).Some? ==> [] + Lex(rest).value == Lex(rest).value;
    } else {
      var more := PrintAll(w, ts[1..]) + rest;
      assert PrintAll(w, ts) + rest == Print(w, ts[0]) + more;
      if ts[1..] == [] {
        assert more == rest;
      } else if !ts[1].kind.CharData? {
        TagFirst(w, ts[1], PrintAll(w, ts[1..][1..]) + rest);
        assert more == Print(w, ts[1]) + (PrintAll(w, ts[1..][1..]) + rest);
      }
      TreeRead(w, ts[0], more);
      TreesRead(w, ts[1..], rest);
      PrefixedTwice(Flattened(ts[0]), FlattenedAll(ts[1..]), Lex(rest));
    }
  }
}
