/** writeTo of pkg/controller/etree/etree.go and cdata.go: a recursive walk that appends to a writer. */
module Writer {
  import opened Names
  import opened Attrs
  import opened Forest
  import opened Trees
  import opened Printing

  class Output {
    var text: string

    constructor ()
      ensures text == ""
    {
      text := "";
    }

    method WriteString(s: string)
      modifies this
      ensures text == old(text) + s
    {
      text := text + s;
    }

    method WriteName(space: string, tag: string)
      modifies this
      ensures text == old(text) + Qualified(space, tag)
    {
      if space != "" {
        WriteString(space);
        WriteString(":");
      }
      WriteString(tag);
    }
  }

  method WriteAttr(a: Attr, out: Output, w: WriteSettings)
    modifies out
    ensures out.text == old(out.text) + PrintAttr(w, a)
  {
    hide Escaped, Qualified;
    out.WriteName(a.space, a.key);
    out.WriteString("=\"");
    out.WriteString(Escaped(AttrTable(w), a.value));
    out.WriteString("\"");
  }

  lemma {:induction false} PrintAttrsNext(w: WriteSettings, attrs: seq<Attr>, i: nat)
    requires i < |attrs|
    ensures PrintAttrs(w, attrs[..i + 1]) == PrintAttrs(w, attrs[..i]) + " " + PrintAttr(w, attrs[i])
  {
    hide PrintAttr;
    if i > 0 {
      PrintAttrsNext(w, attrs[1..], i - 1);
      assert attrs[..i + 1][1..] == attrs[1..][..i] && attrs[..i][1..] == attrs[1..][..i - 1];
    } else {
      assert attrs[..1][1..] == [];
    }
  }

  lemma {:induction false} PrintAllNext(w: WriteSettings, ts: seq<Tree>, i: nat)
    requires i < |ts|
    ensures PrintAll(w, ts[..i + 1]) == PrintAll(w, ts[..i]) + Print(w, ts[i])
  {
    hide Print;
    if i > 0 {
      PrintAllNext(w, ts[1..], i - 1);
      assert ts[..i + 1][1..] == ts[1..][..i] && ts[..i][1..] == ts[1..][..i - 1];
    } else {
      assert ts[..1][1..] == [];
    }
  }

  method WriteOpen(kind: Kind, attrs: seq<Attr>, out: Output, w: WriteSettings)
    requires kind.Element?
    modifies out
    ensures out.text == old(out.text) + PrintOpen(w, kind, attrs)
  {
    hide PrintAttr, Qualified;
    ghost var q, was := Qualified(kind.space, kind.tag), out.text;
    out.WriteString("<");
    out.WriteName(kind.space, kind.tag);
    for i := 0 to |attrs|
      invariant out.text == was + ("<" + q + PrintAttrs(w, attrs[..i]))
    {
      out.WriteString(" ");
      WriteAttr(attrs[i], out, w);
      PrintAttrsNext(w, attrs, i);
      assert was + ("<" + q + PrintAttrs(w, attrs[..i])) + " " + PrintAttr(w, attrs[i]) ==
             was + ("<" + q + (PrintAttrs(w, attrs[..i]) + " " + PrintAttr(w, attrs[i])));
    }
    assert attrs[..|attrs|] == attrs;
  }

  method WriteClose(kind: Kind, out: Output)
    requires kind.Element?
    modifies out
    ensures out.text == old(out.text) + PrintClose(kind)
  {
    hide Qualified;
    out.WriteString("</");
    out.WriteName(kind.space, kind.tag);
    out.WriteString(">");
  }

  method WriteWrapped(open: string, body: string, close: string, out: Output)
    modifies out
    ensures out.text == old(out.text) + (open + body + close)
  {
    out.WriteString(open);
    out.WriteString(body);
    out.WriteString(close);
  }

  method WriteLeaf(kind: Kind, out: Output, w: WriteSettings)
    requires !kind.Element?
    modifies out
    ensures out.text == old(out.text) + PrintLeaf(w, kind)
  {
    hide Escaped;
    match kind
    case CharData(data, _) => out.WriteString(Escaped(TextTable(w), data));
    case Comment(text) => WriteWrapped("<!--", text, "-->", out);
    case Directive(text) => WriteWrapped("<!", text, ">", out);
    case ProcInst(target, inst) =>
      if inst != "" {
        WriteWrapped("<?" + target, " " + inst, "?>", out);
      } else {
        WriteWrapped("<?" + target, "", "?>", out);
      }
    case CData(data) => WriteWrapped("<![CDATA[", data, "]]>", out);
  }

  method WriteTo(t: Token, out: Output, w: WriteSettings, ghost u: set<Token>)
    requires t in u && WellFormed(Taken(u))
    modifies out
    ensures Taken(u) == old(Taken(u)) && out.text == old(out.text) + Print(w, TreeOf(Taken(u), t))
    decreases Subtree(Taken(u), t), 1
  {
    hide WellFormed, TreeOf, PrintOpen, PrintClose, PrintLeaf, PrintAll;
    ghost var s := Taken(u);
    TreeParts(s, t);
    KidsAre(s, t);
    if !t.kind.Element? {
      WriteLeaf(t.kind, out, w);
      return;
    }
    WriteOpen(t.kind, t.attr, out, w);
    if |t.child| > 0 {
      out.WriteString(">");
      WriteChildren(t, out, w, u);
      WriteClose(t.kind, out);
    } else if w.canonicalEndTags {
      out.WriteString(">");
      WriteClose(t.kind, out);
    } else {
      out.WriteString("/>");
    }
  }

  method WriteChildren(t: Token, out: Output, w: WriteSettings, ghost u: set<Token>)
    requires t in u && WellFormed(Taken(u))
    modifies out
    ensures Taken(u) == old(Taken(u)) && out.text == old(out.text) + PrintAll(w, TreeOf(Taken(u), t).kids)
    decreases Subtree(Taken(u), t), 0
  {
    hide WellFormed, TreeOf, Print;
    ghost var s, was := Taken(u), out.text;
    KidsAre(s, t);
    ghost var kids := TreeOf(s, t).kids;
    for i := 0 to |t.child|
      invariant Taken(u) == s && out.text == was + PrintAll(w, kids[..i])
    {
      ChildBelow(s, t, i);
      WriteTo(t.child[i], out, w, u);
      PrintAllNext(w, kids, i);
      assert was + PrintAll(w, kids[..i]) + Print(w, kids[i]) == was + (PrintAll(w, kids[..i]) + Print(w, kids[i]));
    }
    assert kids[..|kids|] == kids;
  }

  /** Document.WriteToString: the children of the document's element, one after another. */
  method WriteToString(doc: Token, w: WriteSettings, ghost u: set<Token>) returns (text: string)
    requires doc in u && WellFormed(Taken(u))
    ensures text == PrintAll(w, TreeOf(Taken(u), doc).kids)
  {
    hide WellFormed, TreeOf, PrintAll;
    var out := new Output();
    WriteChildren(doc, out, w, u);
    text := out.text;
    assert "" + text == text;
  }
}
