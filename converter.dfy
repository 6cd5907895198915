/**
  The kramdown element-tree to plain-text converter
  (Library/Homebrew/extend/converter.rb).

  `convert` dispatches on the element's type to a `convert_<type>` method;
  only the types listed in ElementHandlers have one.
 */
module Converter {
  import opened Strings

  /** A kramdown element: its type, its value and its children, in order. */
  datatype Element = Element(kind: Symbol, value: string, children: seq<Element>)

  /** A parsed kramdown document; its tree hangs off `root`. */
  datatype Document = Document(root: Element)

  /** What `convert` can be handed: a document or an element. */
  datatype Node = DocumentNode(doc: Document) | ElementNode(el: Element)

  /** `type`: the patched Kramdown::Document#type, and Element#type. */
  function TypeOf(n: Node): (t: Symbol)
    ensures n.DocumentNode? ==> t == "document"
    ensures n.ElementNode? ==> t == n.el.kind
  {
    match n
    case DocumentNode(_) => "document"
    case ElementNode(el) => el.kind
  }

  /**
    The element types with a `convert_<type>` method. `convert_document`
    exists too, but it asks for `root`, which only a document has.
   */
  const ElementHandlers: set<Symbol> := {"root", "p", "text", "codespan", "html_element", "blank", "codeblock"}

  /** The handlers that convert the element's children through `inner`. */
  predicate CallsInner(kind: Symbol)
  {
    kind == "root" || kind == "p" || kind == "html_element" || kind == "codeblock"
  }

  /** Converting `el` reaches a handler for every element it visits. */
  predicate Convertible(el: Element)
    decreases el, 1
  {
    el.kind in ElementHandlers && (CallsInner(el.kind) ==> ChildrenConvertible(el))
  }

  predicate ChildrenConvertible(el: Element)
    decreases el, 0
  {
    forall i :: 0 <= i < |el.children| ==> Convertible(el.children[i])
  }

  /** A node `convert` can handle: a document whose root's children convert, or a convertible element. */
  predicate NodeConvertible(n: Node)
  {
    match n
    case DocumentNode(doc) => ChildrenConvertible(doc.root)
    case ElementNode(el) => Convertible(el)
  }

  /** `convert(el)`: `send("convert_#{el.type}", el)`. */
  function ConvertNode(n: Node): string
    requires NodeConvertible(n)
  {
    match n
    case DocumentNode(doc) => ConvertDocument(doc)
    case ElementNode(el) => Convert(el)
  }

  /** `convert(el)` for an element. */
  function Convert(el: Element): string
    requires Convertible(el)
    decreases el, 3, 0
  {
    if el.kind == "root" then ConvertRoot(el)
    else if el.kind == "p" then ConvertP(el)
    else if el.kind == "text" then ConvertText(el)
    else if el.kind == "codespan" then ConvertCodespan(el)
    else if el.kind == "html_element" then ConvertHtmlElement(el)
    else if el.kind == "blank" then ConvertBlank(el)
    else ConvertCodeblock(el)
  }

  /** `convert_document`: convert the document's root. */
  function ConvertDocument(doc: Document): string
    requires ChildrenConvertible(doc.root)
  {
    ConvertRoot(doc.root)
  }

  function ConvertRoot(root: Element): string
    requires ChildrenConvertible(root)
    decreases root, 2, 0
  {
    InnerText(root)
  }

  function ConvertP(p: Element): string
    requires ChildrenConvertible(p)
    decreases p, 2, 0
  {
    InnerText(p) + "\n"
  }

  function ConvertText(t: Element): string
  {
    t.value
  }

  function ConvertCodespan(c: Element): string
  {
    c.value
  }

  function ConvertHtmlElement(el: Element): string
    requires ChildrenConvertible(el)
    decreases el, 2, 0
  {
    el.value + InnerText(el)
  }

  function ConvertBlank(b: Element): string
  {
    b.value
  }

  function ConvertCodeblock(c: Element): string
    requires ChildrenConvertible(c)
    decreases c, 2, 0
  {
    IndentCodeblock(c.value + InnerText(c))
  }

  /** The result of `inner(el)`: the converted children, concatenated in order. */
  function InnerText(el: Element): string
    requires ChildrenConvertible(el)
    decreases el, 1, 0
  {
    ConvertPrefix(el, |el.children|)
  }

  /** The converted first `n` children of `el`, concatenated in order. */
  function ConvertPrefix(el: Element, n: nat): string
    requires n <= |el.children| && ChildrenConvertible(el)
    decreases el, 0, n
  {
    if n == 0 then "" else ConvertPrefix(el, n - 1) + Convert(el.children[n - 1])
  }

  /** `inner`: append the conversion of each child to a buffer. */
  method Inner(el: Element) returns (result: string)
    requires ChildrenConvertible(el)
    ensures result == InnerText(el)
    ensures el.children == [] ==> result == ""
  {
    result := "";
    for i := 0 to |el.children|
      invariant result == ConvertPrefix(el, i)
    {
      result := result + Convert(el.children[i]);
    }
  }

  /**
    The conversion of a list of children is the conversion of its first
    part followed by that of the rest.
   */
  lemma {:induction false} InnerTextAppend(kind: Symbol, value: string, xs: seq<Element>, ys: seq<Element>)
    requires ChildrenConvertible(Element(kind, value, xs)) && ChildrenConvertible(Element(kind, value, ys))
    ensures ChildrenConvertible(Element(kind, value, xs + ys))
    ensures InnerText(Element(kind, value, xs + ys)) == InnerText(Element(kind, value, xs)) + InnerText(Element(kind, value, ys))
  {
    var whole := Element(kind, value, xs + ys);
    forall i | 0 <= i < |xs + ys| ensures Convertible((xs + ys)[i]) {
      if i < |xs| {
        assert (xs + ys)[i] == xs[i];
      } else {
        assert (xs + ys)[i] == ys[i - |xs|];
      }
    }
    PrefixAppend(kind, value, xs, ys, |ys|);
  }

  lemma {:induction false} PrefixAppend(kind: Symbol, value: string, xs: seq<Element>, ys: seq<Element>, n: nat)
    requires ChildrenConvertible(Element(kind, value, xs + ys))
    requires ChildrenConvertible(Element(kind, value, xs)) && ChildrenConvertible(Element(kind, value, ys))
    requires n <= |ys|
    ensures ConvertPrefix(Element(kind, value, xs + ys), |xs| + n)
      == ConvertPrefix(Element(kind, value, xs), |xs|) + ConvertPrefix(Element(kind, value, ys), n)
    decreases n
  {
    if n == 0 {
      PrefixOfPrefix(kind, value, xs, ys, |xs|);
    } else {
      PrefixAppend(kind, value, xs, ys, n - 1);
      var whole := Element(kind, value, xs + ys);
      assert whole.children[|xs| + n - 1] == ys[n - 1];
    }
  }

  lemma {:induction false} PrefixOfPrefix(kind: Symbol, value: string, xs: seq<Element>, ys: seq<Element>, n: nat)
    requires ChildrenConvertible(Element(kind, value, xs + ys)) && ChildrenConvertible(Element(kind, value, xs))
    requires n <= |xs|
    ensures ConvertPrefix(Element(kind, value, xs + ys), n) == ConvertPrefix(Element(kind, value, xs), n)
    decreases n
  {
    if n > 0 {
      PrefixOfPrefix(kind, value, xs, ys, n - 1);
      assert (xs + ys)[n - 1] == xs[n - 1];
    }
  }

  /** Converting a document is `inner` of its root. */
  lemma DocumentIsInnerOfRoot(doc: Document)
    requires ChildrenConvertible(doc.root)
    ensures TypeOf(DocumentNode(doc)) == "document"
    ensures ConvertNode(DocumentNode(doc)) == InnerText(doc.root)
  {
  }

  /**
    What each handler makes of an element: a paragraph ends with exactly
    one added "\n", text-like elements give their value, an html element
    its value followed by its converted children, a code block the indented
    code of its value followed by its converted children.
   */
  lemma ConvertCases(el: Element)
    requires Convertible(el)
    ensures el.kind == "root" ==> Convert(el) == InnerText(el)
    ensures el.kind == "p" ==> Convert(el) == InnerText(el) + "\n"
    ensures el.kind in {"text", "codespan", "blank"} ==> Convert(el) == el.value
    ensures el.kind == "html_element" ==> Convert(el) == el.value + InnerText(el)
    ensures el.kind == "codeblock" ==> Convert(el) == IndentCodeblock(el.value + InnerText(el))
  {
  }

  /** A converted paragraph ends with "\n"; a converted code block does not (or is empty). */
  lemma ConvertedEnds(el: Element)
    requires Convertible(el)
    ensures el.kind == "p" ==> |Convert(el)| > 0 && Convert(el)[|Convert(el)| - 1] == '\n'
    ensures el.kind == "codeblock" ==> Convert(el) == "" || Convert(el)[|Convert(el)| - 1] != '\n'
  {
    if el.kind == "codeblock" {
      IndentCodeblockNoTrailingNewline(el.value + InnerText(el));
    }
  }

  // ---------------------------------------------------------------------
  // indent_codeblock: content.split("\n").map { |l| "    " + l }.join("\n")
  // ---------------------------------------------------------------------

  /** The pieces of `s` between its "\n"s, empty pieces and the last one included. */
  function Fields(s: string): (fs: seq<string>)
    ensures |fs| >= 1
  {
    if s == [] then [""]
    else
      var r := Fields(s[1..]);
      if s[0] == '\n' then [""] + r else [[s[0]] + r[0]] + r[1..]
  }

  /** `fs` without its trailing empty pieces. */
  function DropTrailingEmpty(fs: seq<string>): (r: seq<string>)
    ensures r <= fs
    ensures r == [] || r[|r| - 1] != ""
  {
    if fs != [] && fs[|fs| - 1] == "" then DropTrailingEmpty(fs[..|fs| - 1]) else fs
  }

  /** Ruby's `split("\n")`: the fields, with trailing empty fields removed. */
  function Split(s: string): seq<string>
  {
    DropTrailingEmpty(Fields(s))
  }

  /** `Array#join(sep)`. */
  function Join(ls: seq<string>, sep: string): string
  {
    if ls == [] then "" else if |ls| == 1 then ls[0] else ls[0] + sep + Join(ls[1..], sep)
  }

  /** Four spaces in front of every piece. */
  function IndentEach(ls: seq<string>): (r: seq<string>)
    ensures |r| == |ls|
    ensures forall i :: 0 <= i < |ls| ==> r[i] == "    " + ls[i]
  {
    if ls == [] then [] else ["    " + ls[0]] + IndentEach(ls[1..])
  }

  function IndentCodeblock(content: string): string
  {
    Join(IndentEach(Split(content)), "\n")
  }

  /** `s` without its trailing "\n"s. */
  function TrimTrailingNewlines(s: string): string
  {
    if s != [] && s[|s| - 1] == '\n' then TrimTrailingNewlines(s[..|s| - 1]) else s
  }

  /** No field holds a "\n". */
  lemma {:induction false} FieldsHaveNoNewline(s: string)
    ensures forall i :: 0 <= i < |Fields(s)| ==> NoNewline(Fields(s)[i])
  {
    if s != [] {
      FieldsHaveNoNewline(s[1..]);
      var r := Fields(s[1..]);
      if s[0] != '\n' {
        var first := [s[0]] + r[0];
        assert NoNewline(first) by {
          forall j | 0 <= j < |first| ensures first[j] != '\n' {
            if j > 0 { assert first[j] == r[0][j - 1]; }
          }
        }
        assert Fields(s) == [first] + r[1..];
        forall i | 1 <= i < |Fields(s)| ensures NoNewline(Fields(s)[i]) {
          assert Fields(s)[i] == r[i];
        }
      }
    }
  }

  /** Joining the fields with "\n" gives the string back. */
  lemma {:induction false} FieldsJoin(s: string)
    ensures Join(Fields(s), "\n") == s
  {
    if s != [] {
      FieldsJoin(s[1..]);
      var r := Fields(s[1..]);
      if s[0] == '\n' {
        JoinCons("", r, "\n");
      } else {
        JoinGrowFirst([s[0]], r, "\n");
      }
      assert s == [s[0]] + s[1..];
    }
  }

  lemma JoinCons(x: string, rest: seq<string>, sep: string)
    requires rest != []
    ensures Join([x] + rest, sep) == x + sep + Join(rest, sep)
  {
    assert ([x] + rest)[1..] == rest;
  }

  /** Putting `a` in front of the first piece puts it in front of the join. */
  lemma JoinGrowFirst(a: string, ls: seq<string>, sep: string)
    requires ls != []
    ensures Join([a + ls[0]] + ls[1..], sep) == a + Join(ls, sep)
  {
    if |ls| > 1 {
      JoinCons(a + ls[0], ls[1..], sep);
      JoinCons(ls[0], ls[1..], sep);
      assert [ls[0]] + ls[1..] == ls;
    }
  }

  /** The fields of `a + t`, for an `a` without "\n": `a` joins the first field of `t`. */
  lemma {:induction false} FieldsPrepend(a: string, t: string)
    requires NoNewline(a)
    ensures Fields(a + t) == [a + Fields(t)[0]] + Fields(t)[1..]
  {
    var ft := Fields(t);
    if a == [] {
      assert a + t == t && a + ft[0] == ft[0];
      assert [ft[0]] + ft[1..] == ft;
    } else {
      assert (a + t)[1..] == a[1..] + t;
      FieldsPrepend(a[1..], t);
      var r := Fields(a[1..] + t);
      assert r[0] == a[1..] + ft[0] && r[1..] == ft[1..];
      assert (a + t)[0] == a[0];
      assert [a[0]] + (a[1..] + ft[0]) == a + ft[0];
    }
  }

  /** Cutting a "\n"-join of pieces without "\n" gives the pieces back. */
  lemma {:induction false} JoinFields(ps: seq<string>)
    requires |ps| >= 1
    requires forall i :: 0 <= i < |ps| ==> NoNewline(ps[i])
    ensures Fields(Join(ps, "\n")) == ps
  {
    if |ps| == 1 {
      FieldsPrepend(ps[0], "");
      assert ps[0] + "" == ps[0];
    } else {
      JoinFields(ps[1..]);
      var rest := Join(ps[1..], "\n");
      JoinCons(ps[0], ps[1..], "\n");
      assert [ps[0]] + ps[1..] == ps;
      assert ps[0] + "\n" + rest == ps[0] + ("\n" + rest);
      FieldsPrepend(ps[0], "\n" + rest);
      assert ("\n" + rest)[1..] == rest;
      assert Fields("\n" + rest) == [""] + ps[1..];
      assert ps[0] + "" == ps[0];
    }
  }

  /** Adding a "\n" at the end adds one empty field. */
  lemma {:induction false} FieldsSnocNewline(s: string)
    ensures Fields(s + "\n") == Fields(s) + [""]
  {
    if s == [] {
      assert s + "\n" == "\n";
      assert Fields("\n") == [""] + Fields("");
    } else {
      assert (s + "\n")[1..] == s[1..] + "\n";
      FieldsSnocNewline(s[1..]);
      var r := Fields(s[1..]);
      assert (r + [""])[0] == r[0];
      assert (r + [""])[1..] == r[1..] + [""];
    }
  }

  /** A non-empty string that does not end in "\n" has a non-empty last field. */
  lemma {:induction false} LastFieldNonEmpty(s: string)
    requires s != [] && s[|s| - 1] != '\n'
    ensures Fields(s)[|Fields(s)| - 1] != ""
  {
    var r := Fields(s[1..]);
    if |s| == 1 {
      assert s[1..] == [];
    } else {
      assert s[1..][|s[1..]| - 1] == s[|s| - 1];
      LastFieldNonEmpty(s[1..]);
      if s[0] == '\n' || |r| > 1 {
        assert Fields(s)[|Fields(s)| - 1] == r[|r| - 1];
      } else {
        assert |Fields(s)| == 1 && |Fields(s)[0]| == 1 + |r[0]|;
      }
    }
  }

  /** Joining `split("\n")` with "\n" gives the string without its trailing "\n"s. */
  lemma {:induction false} SplitJoin(s: string)
    ensures Join(Split(s), "\n") == TrimTrailingNewlines(s)
    decreases |s|
  {
    if s == [] {
      assert Fields(s) == [""];
    } else if s[|s| - 1] == '\n' {
      var t := s[..|s| - 1];
      assert s == t + "\n";
      FieldsSnocNewline(t);
      var ft := Fields(t);
      assert (ft + [""])[..|ft|] == ft;
      assert Split(s) == Split(t);
      assert TrimTrailingNewlines(s) == TrimTrailingNewlines(t);
      SplitJoin(t);
    } else {
      LastFieldNonEmpty(s);
      assert Split(s) == Fields(s);
      FieldsJoin(s);
    }
  }

  /** Every piece of `split("\n")` is free of "\n", and the last piece is not empty. */
  lemma SplitHasNoNewline(s: string)
    ensures forall i :: 0 <= i < |Split(s)| ==> NoNewline(Split(s)[i])
    ensures Split(s) == [] || Split(s)[|Split(s)| - 1] != ""
  {
    SplitPiecesHaveNoNewline(s);
  }

  lemma SplitPiecesHaveNoNewline(s: string)
    ensures forall i :: 0 <= i < |Split(s)| ==> NoNewline(Split(s)[i])
  {
    FieldsHaveNoNewline(s);
  }

  /**
    indent_codeblock: the output's lines (its "\n"-separated fields) are the
    pieces of `split("\n")`, each behind four spaces; empty (or all-newline)
    content gives the empty string.
   */
  lemma IndentCodeblockLines(content: string)
    ensures Split(content) == [] <==> IndentCodeblock(content) == ""
    ensures Split(content) != [] ==> Fields(IndentCodeblock(content)) == IndentEach(Split(content))
    ensures Split(content) != [] ==> forall i :: 0 <= i < |Fields(IndentCodeblock(content))| ==>
      "    " <= Fields(IndentCodeblock(content))[i] && Fields(IndentCodeblock(content))[i][4..] == Split(content)[i]
  {
    var ps := IndentEach(Split(content));
    SplitPiecesHaveNoNewline(content);
    if Split(content) != [] {
      assert forall i :: 0 <= i < |ps| ==> NoNewline(ps[i]) by {
        forall i | 0 <= i < |ps| ensures NoNewline(ps[i]) {
          assert ps[i] == "    " + Split(content)[i];
        }
      }
      JoinFields(ps);
      assert ps[0] == "    " + Split(content)[0];
      JoinStartsWithFirst(ps, "\n");
    }
  }

  lemma {:induction false} JoinStartsWithFirst(ls: seq<string>, sep: string)
    requires ls != []
    ensures ls[0] <= Join(ls, sep)
  {
  }

  /** The output of indent_codeblock never ends with "\n". */
  lemma IndentCodeblockNoTrailingNewline(content: string)
    ensures IndentCodeblock(content) == "" || IndentCodeblock(content)[|IndentCodeblock(content)| - 1] != '\n'
  {
    var ps := IndentEach(Split(content));
    if ps != [] {
      JoinEndsWithLast(ps, "\n");
      var last := ps[|ps| - 1];
      var r := Split(content);
      assert last == "    " + r[|r| - 1];
      assert r[|r| - 1] != "";
      SplitHasNoNewline(content);
      assert r[|r| - 1][|r[|r| - 1]| - 1] != '\n';
    }
  }

  lemma {:induction false} JoinEndsWithLast(ls: seq<string>, sep: string)
    requires ls != []
    ensures |Join(ls, sep)| >= |ls[|ls| - 1]|
    ensures Join(ls, sep)[|Join(ls, sep)| - |ls[|ls| - 1]|..] == ls[|ls| - 1]
  {
    if |ls| > 1 {
      JoinEndsWithLast(ls[1..], sep);
      var rest := Join(ls[1..], sep);
      assert Join(ls, sep) == ls[0] + sep + rest;
      assert ls[1..][|ls| - 2] == ls[|ls| - 1];
    }
  }

  /** Four spaces off every output line, joined with "\n": the content without trailing "\n"s. */
  lemma IndentCodeblockRoundTrip(content: string)
    ensures IndentCodeblock(content) == "" ==> TrimTrailingNewlines(content) == ""
    ensures IndentCodeblock(content) != "" ==>
      Join(Unindent(Fields(IndentCodeblock(content))), "\n") == TrimTrailingNewlines(content)
  {
    IndentCodeblockLines(content);
    SplitJoin(content);
    if IndentCodeblock(content) != "" {
      UnindentIndentEach(Split(content));
    }
  }

  /** Each line with its first four characters removed. */
  function Unindent(ls: seq<string>): (r: seq<string>)
    ensures |r| == |ls|
  {
    if ls == [] then [] else [if |ls[0]| >= 4 then ls[0][4..] else ls[0]] + Unindent(ls[1..])
  }

  lemma {:induction false} UnindentIndentEach(ls: seq<string>)
    ensures Unindent(IndentEach(ls)) == ls
  {
    if ls != [] {
      UnindentIndentEach(ls[1..]);
      assert IndentEach(ls)[1..] == IndentEach(ls[1..]);
    }
  }
}
