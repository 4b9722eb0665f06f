/** The text that writeTo of pkg/controller/etree/etree.go and cdata.go produces for a tree. */
module Printing {
  import opened Names
  import opened Attrs
  import opened Forest
  import opened Trees

  datatype WriteSettings = WriteSettings(canonicalEndTags: bool, canonicalText: bool, canonicalAttrVal: bool)

  /** The three replacement tables. */
  datatype Table = AllFive | CanonicalText | CanonicalAttrVal

  function Escape(table: Table, c: char): string {
    if c == '&' then "&amp;"
    else if c == '<' then "&lt;"
    else if c == '>' && !table.CanonicalAttrVal? then "&gt;"
    else if c == '\'' && table.AllFive? then "&apos;"
    else if c == '"' && !table.CanonicalText? then "&quot;"
    else [c]
  }

  function Escaped(table: Table, s: string): string {
    if s == "" then "" else Escape(table, s[0]) + Escaped(table, s[1..])
  }

  function TextTable(w: WriteSettings): Table {
    if w.canonicalText then CanonicalText else AllFive
  }

  function AttrTable(w: WriteSettings): Table {
    if w.canonicalAttrVal then CanonicalAttrVal else AllFive
  }

  function PrintAttr(w: WriteSettings, a: Attr): string {
    Qualified(a.space, a.key) + "=\"" + Escaped(AttrTable(w), a.value) + "\""
  }

  function PrintAttrs(w: WriteSettings, attrs: seq<Attr>): string {
    if attrs == [] then "" else " " + PrintAttr(w, attrs[0]) + PrintAttrs(w, attrs[1..])
  }

  function PrintOpen(w: WriteSettings, kind: Kind, attrs: seq<Attr>): string
    requires kind.Element?
  {
    "<" + Qualified(kind.space, kind.tag) + PrintAttrs(w, attrs)
  }

  function PrintClose(kind: Kind): string
    requires kind.Element?
  {
    "</" + Qualified(kind.space, kind.tag) + ">"
  }

  /** The text of a token that is not an element. */
  function PrintLeaf(w: WriteSettings, kind: Kind): string
    requires !kind.Element?
  {
    match kind
    case CharData(data, _) => Escaped(TextTable(w), data)
    case Comment(text) => "<!--" + text + "-->"
    case Directive(text) => "<!" + text + ">"
    case ProcInst(target, inst) => "<?" + target + (if inst == "" then "" else " " + inst) + "?>"
    case CData(data) => "<![CDATA[" + data + "]]>"
  }

  function Print(w: WriteSettings, t: Tree): string
    decreases t, 1
  {
    if !t.kind.Element? then PrintLeaf(w, t.kind)
    else
      PrintOpen(w, t.kind, t.attr) +
      (if t.kids != [] then ">" + PrintAll(w, t.kids) + PrintClose(t.kind)
       else if w.canonicalEndTags then ">" + PrintClose(t.kind)
       else "/>")
  }

  function PrintAll(w: WriteSettings, ts: seq<Tree>): string
    decreases ts, 0
  {
    if ts == [] then "" else Print(w, ts[0]) + PrintAll(w, ts[1..])
  }
}
