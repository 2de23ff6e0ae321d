/**
 * XML elements as built by `x(name, attrs, ...children)` and written out by
 * `Element.toString()`: `<name k="v"...>children</name>`, or `<name k="v"/>`
 * when there are no children. Text is escaped so that it cannot close or open
 * markup; attribute values are also escaped against both quote characters.
 */
module Xml {
  import opened Wrappers

  datatype Node =
    | Element(name: string, attrs: seq<(string, string)>, children: seq<Node>)
    | Text(text: string)

  /** Escapes `&`, `<` and `>` in character data. */
  function EscapeText(s: string): (r: string)
    decreases |s|
  {
    if s == [] then ""
    else
      (match s[0]
       case '&' => "&amp;"
       case '<' => "&lt;"
       case '>' => "&gt;"
       case _ => [s[0]])
      + EscapeText(s[1..])
  }

  /** Escapes `&`, `<`, `>`, `"` and `'` in an attribute value. */
  function EscapeAttr(s: string): (r: string)
    decreases |s|
  {
    if s == [] then ""
    else
      (match s[0]
       case '&' => "&amp;"
       case '<' => "&lt;"
       case '>' => "&gt;"
       case '"' => "&quot;"
       case '\'' => "&apos;"
       case _ => [s[0]])
      + EscapeAttr(s[1..])
  }

  function SerialiseAttrs(attrs: seq<(string, string)>): string
    decreases |attrs|
  {
    if attrs == [] then ""
    else " " + attrs[0].0 + "=\"" + EscapeAttr(attrs[0].1) + "\"" + SerialiseAttrs(attrs[1..])
  }

  function StartTag(name: string, attrs: seq<(string, string)>): string {
    "<" + name + SerialiseAttrs(attrs) + ">"
  }

  function EndTag(name: string): string {
    "</" + name + ">"
  }

  function EmptyTag(name: string, attrs: seq<(string, string)>): string {
    "<" + name + SerialiseAttrs(attrs) + "/>"
  }

  /** `node.toString()`. */
  function Serialise(n: Node): string
    decreases n, 1
  {
    match n
    case Text(t) => EscapeText(t)
    case Element(name, attrs, children) =>
      if children == [] then EmptyTag(name, attrs)
      else StartTag(name, attrs) + SerialiseAll(children) + EndTag(name)
  }

  /** The children of an element, written one after another. */
  function SerialiseAll(ns: seq<Node>): string
    decreases ns, 0
  {
    if ns == [] then "" else Serialise(ns[0]) + SerialiseAll(ns[1..])
  }

  /** Escaped character data contains no `<`, so it can never open or close an element. */
  lemma {:induction false} EscapedTextHasNoMarkup(s: string)
    ensures '<' !in EscapeText(s)
    decreases |s|
  {
    if s != [] {
      EscapedTextHasNoMarkup(s[1..]);
    }
  }

  /** An escaped attribute value contains no `<` and no `"`, so it cannot end the value early. */
  lemma {:induction false} EscapedAttrHasNoMarkup(s: string)
    ensures '<' !in EscapeAttr(s) && '"' !in EscapeAttr(s)
    decreases |s|
  {
    if s != [] {
      EscapedAttrHasNoMarkup(s[1..]);
    }
  }

  /** Text without `&`, `<` and `>` is written as it is. */
  lemma {:induction false} EscapeTextPlain(s: string)
    requires forall k :: 0 <= k < |s| ==> s[k] != '&' && s[k] != '<' && s[k] != '>'
    ensures EscapeText(s) == s
    decreases |s|
  {
    if s != [] {
      EscapeTextPlain(s[1..]);
      assert s == [s[0]] + s[1..];
    }
  }

  /** A written element ends with `>`. */
  lemma ElementEndsWithGt(n: Node)
    requires n.Element?
    ensures |Serialise(n)| > 0 && Serialise(n)[|Serialise(n)| - 1] == '>'
  {
    var t := Serialise(n);
    if n.children == [] {
      var e := EmptyTag(n.name, n.attrs);
      assert e == ("<" + n.name + SerialiseAttrs(n.attrs) + "/") + ">";
    } else {
      var e := EndTag(n.name);
      assert e == ("</" + n.name) + ">";
      assert t == (StartTag(n.name, n.attrs) + SerialiseAll(n.children)) + e;
    }
  }

  /** Three siblings are written one after another. */
  lemma SerialiseThree(a: Node, b: Node, c: Node)
    ensures SerialiseAll([a, b, c]) == Serialise(a) + Serialise(b) + Serialise(c)
  {
    assert SerialiseAll([c]) == Serialise(c) by {
      assert [c][1..] == [];
    }
    assert SerialiseAll([b, c]) == Serialise(b) + Serialise(c) by {
      assert [b, c][1..] == [c];
    }
    assert [a, b, c][1..] == [b, c];
  }

  /** An element with three children, written as: start tag and first child, second child, third child and end tag. */
  lemma SerialiseElementOfThree(name: string, attrs: seq<(string, string)>, a: Node, b: Node, c: Node)
    ensures Serialise(Element(name, attrs, [a, b, c])) ==
      (StartTag(name, attrs) + Serialise(a)) + Serialise(b) + (Serialise(c) + EndTag(name))
  {
    SerialiseThree(a, b, c);
    var st, sa, sb, sc, et := StartTag(name, attrs), Serialise(a), Serialise(b), Serialise(c), EndTag(name);
    assert st + (sa + sb + sc) + et == (st + sa) + sb + (sc + et);
  }
}
