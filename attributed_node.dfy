/**
 * The template tree of the attributed flavour (`AttributedMustacheNode`):
 * text and tag keys are attributed strings, section keys and partial names
 * plain strings. It serializes both to a plain `{{…}}` string and to an
 * attributed one, and reflects on its keys like the plain tree.
 */
module AttributedMustacheNode {
  import opened AttributedText
  import P = MustacheNode

  /** One node of a parsed attributed template. */
  datatype Node =
    | Empty
    | Global(nodes: seq<Node>)
    | Text(text: AttrString)
    | Section(key: string, nodes: seq<Node>)
    | InvertedSection(key: string, nodes: seq<Node>)
    | Tag(tagKey: AttrString)
    | UnescapedTag(tagKey: AttrString)
    | Partial(name: string)

  /** The plain tree with the same shape: every attributed string replaced by its `.string`. */
  function Plain(n: Node): (r: P.Node)
    ensures n.Text? <==> r.Text?
    ensures n.Tag? <==> r.Tag?
    ensures n.UnescapedTag? <==> r.UnescapedTag?
    decreases n
  {
    match n
    case Empty => P.Empty
    case Global(ns) => P.Global(PlainAll(ns))
    case Text(t) => P.Text(Chars(t))
    case Section(k, ns) => P.Section(k, PlainAll(ns))
    case InvertedSection(k, ns) => P.InvertedSection(k, PlainAll(ns))
    case Tag(k) => P.Tag(Chars(k))
    case UnescapedTag(k) => P.UnescapedTag(Chars(k))
    case Partial(k) => P.Partial(k)
  }

  /** `Plain` on every element. */
  function PlainAll(ns: seq<Node>): (r: seq<P.Node>)
    ensures |r| == |ns|
    decreases ns
  {
    if ns == [] then [] else PlainAll(ns[..|ns| - 1]) + [Plain(ns[|ns| - 1])]
  }

  /** `PlainAll` maps element by element. */
  lemma {:induction false} PlainAllAt(ns: seq<Node>, i: nat)
    requires i < |ns|
    ensures PlainAll(ns)[i] == Plain(ns[i])
    decreases |ns|
  {
    if i < |ns| - 1 {
      PlainAllAt(ns[..|ns| - 1], i);
    }
  }

  // ---------------------------------------------------------------------
  // Serialization to a plain string: `append(toString:)`

  /** The `{{…}}` source `append(toString:)` writes for one node. */
  function StringSerialized(n: Node): string
    decreases n
  {
    match n
    case Empty => ""
    case Text(t) => Chars(t)
    case Global(ns) => StringSerializedAll(ns)
    case Section(k, ns) => P.Open('#', k) + StringSerializedAll(ns) + P.Close(k)
    case InvertedSection(k, ns) => P.Open('^', k) + StringSerializedAll(ns) + P.Close(k)
    case Tag(k) => "{{" + Chars(k) + "}}"
    case UnescapedTag(k) => "{{{" + Chars(k) + "}}}"
    case Partial(k) => "{{> " + k + "}}"
  }

  /** The string source of a node sequence: the elements' sources in order. */
  function StringSerializedAll(ns: seq<Node>): string
    decreases ns
  {
    if ns == [] then "" else StringSerializedAll(ns[..|ns| - 1]) + StringSerialized(ns[|ns| - 1])
  }

  /**
   * The string serializer spells every node exactly as the plain serializer
   * spells the node's plain counterpart: same delimiters, attributes dropped.
   */
  lemma {:induction false} StringSerializedIsPlain(n: Node)
    ensures StringSerialized(n) == P.Serialized(Plain(n))
    decreases n, 1
  {
    match n {
      case Global(ns) => StringSerializedAllIsPlain(ns);
      case Section(k, ns) => StringSerializedAllIsPlain(ns);
      case InvertedSection(k, ns) => StringSerializedAllIsPlain(ns);
      case _ =>
    }
  }

  /** The same for sequences. */
  lemma {:induction false} StringSerializedAllIsPlain(ns: seq<Node>)
    ensures StringSerializedAll(ns) == P.SerializedAll(PlainAll(ns))
    decreases ns, 0
  {
    if ns != [] {
      var front := ns[..|ns| - 1];
      StringSerializedAllIsPlain(front);
      StringSerializedIsPlain(ns[|ns| - 1]);
      var ps := PlainAll(ns);
      assert ps[..|ps| - 1] == PlainAll(front);
      assert ps[|ps| - 1] == Plain(ns[|ns| - 1]);
    }
  }

  /** `append(toString:)`: appends the node's string source to `s`. */
  method AppendToString(n: Node, s: string) returns (r: string)
    ensures r == s + StringSerialized(n)
    decreases n
  {
    match n {
      case Empty =>
        r := s;
      case Text(t) =>
        r := s + Chars(t);
      case Global(ns) =>
        r := AppendAllToString(ns, s);
      case Section(k, ns) =>
        var open := s + P.Open('#', k);
        var body := AppendAllToString(ns, open);
        r := body + P.Close(k);
        assert r == s + (P.Open('#', k) + StringSerializedAll(ns) + P.Close(k));
      case InvertedSection(k, ns) =>
        var open := s + P.Open('^', k);
        var body := AppendAllToString(ns, open);
        r := body + P.Close(k);
        assert r == s + (P.Open('^', k) + StringSerializedAll(ns) + P.Close(k));
      case Tag(k) =>
        r := s + ("{{" + Chars(k) + "}}");
      case UnescapedTag(k) =>
        r := s + ("{{{" + Chars(k) + "}}}");
      case Partial(k) =>
        r := s + ("{{> " + k + "}}");
    }
  }

  /** `nodes.forEach { $0.append(toString: &s) }`. */
  method AppendAllToString(ns: seq<Node>, s: string) returns (r: string)
    ensures r == s + StringSerializedAll(ns)
    decreases ns
  {
    r := s;
    for i := 0 to |ns|
      invariant r == s + StringSerializedAll(ns[..i])
    {
      assert ns[..i + 1][..i] == ns[..i];
      r := AppendToString(ns[i], r);
    }
    assert ns[..|ns|] == ns;
  }

  /** The node's `asMustacheString`: the plain serializer's text for the plain counterpart. */
  method AsMustacheString(n: Node) returns (r: string)
    ensures r == StringSerialized(n)
    ensures r == P.Serialized(Plain(n))
  {
    r := AppendToString(n, "");
    StringSerializedIsPlain(n);
  }

  /** The Sequence extension's `asMustacheString`. */
  method SequenceAsMustacheString(ns: seq<Node>) returns (r: string)
    ensures r == StringSerializedAll(ns)
    ensures r == P.SerializedAll(PlainAll(ns))
  {
    r := AppendAllToString(ns, "");
    StringSerializedAllIsPlain(ns);
  }

  // ---------------------------------------------------------------------
  // Serialization to an attributed string: `append(toAttributedString:)`

  /** `m` between two unattributed strings. */
  function Framed(open: string, m: AttrString, close: string): AttrString {
    Unattributed(open) + m + Unattributed(close)
  }

  /** The `.string` of a framed attributed string. */
  lemma FramedChars(open: string, m: AttrString, close: string)
    ensures Chars(Framed(open, m, close)) == open + Chars(m) + close
  {
    CharsAppend(Unattributed(open), m);
    CharsAppend(Unattributed(open) + m, Unattributed(close));
    CharsWithAttributes(open, NoAttributes);
    CharsWithAttributes(close, NoAttributes);
  }

  /** A framed string's characters beyond `m` carry no attributes. */
  lemma FramedAttributes(open: string, m: AttrString, close: string, from: set<Attributes>)
    requires AttributedFrom(m, from)
    ensures AttributedFrom(Framed(open, m, close), from)
  {
    var r := Framed(open, m, close);
    forall i | 0 <= i < |r|
      ensures r[i].attrs == NoAttributes || r[i].attrs in from
    {
      if |open| <= i < |open| + |m| {
        assert r[i] == m[i - |open|];
      }
    }
  }

  /**
   * The attributed source of one node: texts and tag keys keep their
   * attributes; delimiters, section keys and partial names carry none.
   */
  function AttrSerialized(n: Node): AttrString
    decreases n
  {
    match n
    case Empty => []
    case Text(t) => t
    case Global(ns) => AttrSerializedAll(ns)
    case Section(k, ns) => Framed(P.Open('#', k), AttrSerializedAll(ns), P.Close(k))
    case InvertedSection(k, ns) => Framed(P.Open('^', k), AttrSerializedAll(ns), P.Close(k))
    case Tag(k) => Framed("{{", k, "}}")
    case UnescapedTag(k) => Framed("{{{", k, "}}}")
    case Partial(k) => Unattributed("{{> " + k + "}}")
  }

  /** The attributed source of a node sequence: the elements' sources in order. */
  function AttrSerializedAll(ns: seq<Node>): AttrString
    decreases ns
  {
    if ns == [] then [] else AttrSerializedAll(ns[..|ns| - 1]) + AttrSerialized(ns[|ns| - 1])
  }

  /** The `.string` of `asMustacheAttributedString` is `asMustacheString`. */
  lemma {:induction false} AttrSerializedChars(n: Node)
    ensures Chars(AttrSerialized(n)) == StringSerialized(n)
    decreases n, 1
  {
    match n {
      case Global(ns) => AttrSerializedAllChars(ns);
      case Section(k, ns) =>
        AttrSerializedAllChars(ns);
        FramedChars(P.Open('#', k), AttrSerializedAll(ns), P.Close(k));
      case InvertedSection(k, ns) =>
        AttrSerializedAllChars(ns);
        FramedChars(P.Open('^', k), AttrSerializedAll(ns), P.Close(k));
      case Tag(k) => FramedChars("{{", k, "}}");
      case UnescapedTag(k) => FramedChars("{{{", k, "}}}");
      case Partial(k) => CharsWithAttributes("{{> " + k + "}}", NoAttributes);
      case _ =>
    }
  }

  /** The same for sequences. */
  lemma {:induction false} AttrSerializedAllChars(ns: seq<Node>)
    ensures Chars(AttrSerializedAll(ns)) == StringSerializedAll(ns)
    decreases ns, 0
  {
    if ns != [] {
      AttrSerializedAllChars(ns[..|ns| - 1]);
      AttrSerializedChars(ns[|ns| - 1]);
      CharsAppend(AttrSerializedAll(ns[..|ns| - 1]), AttrSerialized(ns[|ns| - 1]));
    }
  }

  /** Every attribute dictionary found on the characters of a text or a tag key in the tree. */
  function ContentAttributes(n: Node): set<Attributes>
    decreases n
  {
    match n
    case Text(t) => set i | 0 <= i < |t| :: t[i].attrs
    case Tag(k) => set i | 0 <= i < |k| :: k[i].attrs
    case UnescapedTag(k) => set i | 0 <= i < |k| :: k[i].attrs
    case Global(ns) => ContentAttributesAll(ns)
    case Section(_, ns) => ContentAttributesAll(ns)
    case InvertedSection(_, ns) => ContentAttributesAll(ns)
    case _ => {}
  }

  /** `ContentAttributes` of a sequence: the union over the elements. */
  function ContentAttributesAll(ns: seq<Node>): set<Attributes>
    decreases ns
  {
    if ns == [] then {} else ContentAttributesAll(ns[..|ns| - 1]) + ContentAttributes(ns[|ns| - 1])
  }

  /** Every character of `s` has no attributes or attributes from `from`. */
  predicate AttributedFrom(s: AttrString, from: set<Attributes>) {
    forall i :: 0 <= i < |s| ==> s[i].attrs == NoAttributes || s[i].attrs in from
  }

  /**
   * The attributed serializer adds no attributes of its own: each character
   * of its output is unattributed or carries attributes copied from a text
   * or tag key of the tree.
   */
  lemma {:induction false} AttrSerializedAttributes(n: Node)
    ensures AttributedFrom(AttrSerialized(n), ContentAttributes(n))
    decreases n, 1
  {
    match n {
      case Global(ns) => AttrSerializedAllAttributes(ns);
      case Section(k, ns) =>
        AttrSerializedAllAttributes(ns);
        FramedAttributes(P.Open('#', k), AttrSerializedAll(ns), P.Close(k), ContentAttributes(n));
      case InvertedSection(k, ns) =>
        AttrSerializedAllAttributes(ns);
        FramedAttributes(P.Open('^', k), AttrSerializedAll(ns), P.Close(k), ContentAttributes(n));
      case Text(t) =>
        forall i | 0 <= i < |t|
          ensures t[i].attrs in ContentAttributes(n)
        {
        }
      case Tag(k) =>
        assert AttributedFrom(k, ContentAttributes(n));
        FramedAttributes("{{", k, "}}", ContentAttributes(n));
      case UnescapedTag(k) =>
        assert AttributedFrom(k, ContentAttributes(n));
        FramedAttributes("{{{", k, "}}}", ContentAttributes(n));
      case _ =>
    }
  }

  /** The same for sequences. */
  lemma {:induction false} AttrSerializedAllAttributes(ns: seq<Node>)
    ensures AttributedFrom(AttrSerializedAll(ns), ContentAttributesAll(ns))
    decreases ns, 0
  {
    if ns != [] {
      var front, last := ns[..|ns| - 1], ns[|ns| - 1];
      AttrSerializedAllAttributes(front);
      AttrSerializedAttributes(last);
      var a: AttrString, b: AttrString := AttrSerializedAll(front), AttrSerialized(last);
      var ab: AttrString := a + b;
      forall i | 0 <= i < |ab|
        ensures ab[i].attrs == NoAttributes || ab[i].attrs in ContentAttributesAll(ns)
      {
        if i >= |a| {
          assert ab[i] == b[i - |a|];
        }
      }
    }
  }

  /** `append(toAttributedString:)`: appends the node's attributed source to `s` in place. */
  method AppendToAttributedString(n: Node, s: MutableAttrString)
    modifies s
    ensures s.contents == old(s.contents) + AttrSerialized(n)
    decreases n, 0
  {
    match n {
      case Empty =>
      case Text(t) =>
        s.Append(t);
      case Global(ns) =>
        AppendAllToAttributedString(ns, s);
      case Section(k, ns) =>
        AppendSectionToAttributedString(P.Open('#', k), ns, P.Close(k), s);
      case InvertedSection(k, ns) =>
        AppendSectionToAttributedString(P.Open('^', k), ns, P.Close(k), s);
      case Tag(k) =>
        AppendFramedToAttributedString("{{", k, "}}", s);
      case UnescapedTag(k) =>
        AppendFramedToAttributedString("{{{", k, "}}}", s);
      case Partial(k) =>
        s.Append(Unattributed("{{> " + k + "}}"));
    }
  }

  /** Appends a section's opening tag, its children and its closing tag. */
  method AppendSectionToAttributedString(open: string, ns: seq<Node>, close: string, s: MutableAttrString)
    modifies s
    ensures s.contents == old(s.contents) + Framed(open, AttrSerializedAll(ns), close)
    decreases ns, 2
  {
    s.Append(Unattributed(open));
    AppendAllToAttributedString(ns, s);
    s.Append(Unattributed(close));
  }

  /** Appends a tag key between its unattributed delimiters. */
  method AppendFramedToAttributedString(open: string, k: AttrString, close: string, s: MutableAttrString)
    modifies s
    ensures s.contents == old(s.contents) + Framed(open, k, close)
  {
    s.Append(Unattributed(open));
    s.Append(k);
    s.Append(Unattributed(close));
  }

  /** `nodes.forEach { $0.append(toAttributedString: s) }`. */
  method AppendAllToAttributedString(ns: seq<Node>, s: MutableAttrString)
    modifies s
    ensures s.contents == old(s.contents) + AttrSerializedAll(ns)
    decreases ns, 1
  {
    ghost var s0 := s.contents;
    for i := 0 to |ns|
      invariant s.contents == s0 + AttrSerializedAll(ns[..i])
    {
      assert ns[..i + 1][..i] == ns[..i];
      AppendToAttributedString(ns[i], s);
    }
    assert ns[..|ns|] == ns;
  }

  /**
   * The node's `asMustacheAttributedString`: a fresh buffer filled by
   * `append(toAttributedString:)`; its `.string` is `asMustacheString`.
   */
  method AsMustacheAttributedString(n: Node) returns (r: AttrString)
    ensures r == AttrSerialized(n)
    ensures Chars(r) == StringSerialized(n)
  {
    var s := new MutableAttrString();
    AppendToAttributedString(n, s);
    r := s.contents;
    AttrSerializedChars(n);
  }

  /** The Sequence extension's `asMustacheAttributedString`. */
  method SequenceAsMustacheAttributedString(ns: seq<Node>) returns (r: AttrString)
    ensures r == AttrSerializedAll(ns)
    ensures Chars(r) == StringSerializedAll(ns)
  {
    var s := new MutableAttrString();
    AppendAllToAttributedString(ns, s);
    r := s.contents;
    AttrSerializedAllChars(ns);
  }

  // ---------------------------------------------------------------------
  // Reflection

  /** `hasKeys`, by the same rules as the plain tree. */
  function HasKeys(n: Node): bool {
    match n
    case Empty => false
    case Text(_) => false
    case Section(_, _) => true
    case InvertedSection(_, _) => true
    case Tag(_) => true
    case UnescapedTag(_) => true
    case Global(ns) => exists i :: 0 <= i < |ns| && HasKeys(ns[i])
    case Partial(_) => true
  }

  /** The keys `addKeys` collects: section keys and the `.string` of tag keys, recursively. */
  function Keys(n: Node): set<string>
    decreases n
  {
    match n
    case Empty => {}
    case Text(_) => {}
    case Global(ns) => KeysAll(ns)
    case Section(k, ns) => {k} + KeysAll(ns)
    case InvertedSection(k, ns) => {k} + KeysAll(ns)
    case Tag(k) => {Chars(k)}
    case UnescapedTag(k) => {Chars(k)}
    case Partial(_) => {}
  }

  /** The keys of a node sequence: the union of the elements' keys. */
  function KeysAll(ns: seq<Node>): set<string>
    decreases ns
  {
    if ns == [] then {} else KeysAll(ns[..|ns| - 1]) + Keys(ns[|ns| - 1])
  }

  /** `hasKeys` agrees with the plain tree's on the plain counterpart. */
  lemma HasKeysIsPlain(n: Node)
    ensures HasKeys(n) == P.HasKeys(Plain(n))
  {
    if n.Global? {
      var ns := n.nodes;
      forall i | 0 <= i < |ns|
        ensures HasKeys(ns[i]) == P.HasKeys(PlainAll(ns)[i])
      {
        PlainAllAt(ns, i);
        assert HasKeys(ns[i]) == P.HasKeys(Plain(ns[i])) by {
          match ns[i] {
            case Global(_) => HasKeysIsPlain(ns[i]);
            case _ =>
          }
        }
      }
    }
  }

  /** `keys` is the plain tree's `keys` of the plain counterpart. */
  lemma {:induction false} KeysIsPlain(n: Node)
    ensures Keys(n) == P.Keys(Plain(n))
    decreases n, 1
  {
    match n {
      case Global(ns) => KeysAllIsPlain(ns);
      case Section(_, ns) => KeysAllIsPlain(ns);
      case InvertedSection(_, ns) => KeysAllIsPlain(ns);
      case _ =>
    }
  }

  /** The same for sequences. */
  lemma {:induction false} KeysAllIsPlain(ns: seq<Node>)
    ensures KeysAll(ns) == P.KeysAll(PlainAll(ns))
    decreases ns, 0
  {
    if ns != [] {
      var front := ns[..|ns| - 1];
      KeysAllIsPlain(front);
      KeysIsPlain(ns[|ns| - 1]);
      var ps := PlainAll(ns);
      assert ps[..|ps| - 1] == PlainAll(front);
      assert ps[|ps| - 1] == Plain(ns[|ns| - 1]);
    }
  }

  /** `addKeys(to:)`: inserts the node's keys into `acc`. */
  method AddKeys(n: Node, acc: set<string>) returns (r: set<string>)
    ensures r == acc + Keys(n)
    decreases n
  {
    match n {
      case Empty =>
        r := acc;
      case Text(_) =>
        r := acc;
      case Global(ns) =>
        r := AddAllKeys(ns, acc);
      case Section(k, ns) =>
        r := acc + {k};
        r := AddAllKeys(ns, r);
      case InvertedSection(k, ns) =>
        r := acc + {k};
        r := AddAllKeys(ns, r);
      case Tag(k) =>
        r := acc + {Chars(k)};
      case UnescapedTag(k) =>
        r := acc + {Chars(k)};
      case Partial(_) =>
        r := acc;
    }
  }

  /** `nodes.forEach { $0.addKeys(to: &set) }`. */
  method AddAllKeys(ns: seq<Node>, acc: set<string>) returns (r: set<string>)
    ensures r == acc + KeysAll(ns)
    decreases ns
  {
    r := acc;
    for i := 0 to |ns|
      invariant r == acc + KeysAll(ns[..i])
    {
      assert ns[..i + 1][..i] == ns[..i];
      r := AddKeys(ns[i], r);
    }
    assert ns[..|ns|] == ns;
  }

  /** The node's `keys`: exactly the plain tree's keys of the plain counterpart. */
  method NodeKeys(n: Node) returns (r: set<string>)
    ensures r == Keys(n)
    ensures r == P.Keys(Plain(n))
  {
    r := AddKeys(n, {});
    KeysIsPlain(n);
  }

  /** The Sequence and Collection extensions' `keys`. */
  method SequenceKeys(ns: seq<Node>) returns (r: set<string>)
    ensures r == KeysAll(ns)
    ensures r == P.KeysAll(PlainAll(ns))
  {
    r := AddAllKeys(ns, {});
    KeysAllIsPlain(ns);
  }
}
