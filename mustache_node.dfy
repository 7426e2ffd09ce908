/**
 * The template tree of the plain flavour (`MustacheNode`), its serializer
 * back to `{{…}}` source, and key reflection (`hasKeys`, `keys`).
 */
module MustacheNode {

  /** One node of a parsed template. */
  datatype Node =
    | Empty
    | Global(nodes: seq<Node>)
    | Text(text: string)
    | Section(key: string, nodes: seq<Node>)
    | InvertedSection(key: string, nodes: seq<Node>)
    | Tag(key: string)
    | UnescapedTag(key: string)
    | Partial(name: string)

  // ---------------------------------------------------------------------
  // Serialization: the source text a node stands for, always written with
  // the default delimiters.

  /** The `{{…}}` source of one node. */
  function Serialized(n: Node): string
    decreases n
  {
    match n
    case Empty => ""
    case Text(t) => t
    case Global(ns) => SerializedAll(ns)
    case Section(k, ns) => Open('#', k) + SerializedAll(ns) + Close(k)
    case InvertedSection(k, ns) => Open('^', k) + SerializedAll(ns) + Close(k)
    case Tag(k) => "{{" + k + "}}"
    case UnescapedTag(k) => "{{{" + k + "}}}"
    case Partial(k) => "{{> " + k + "}}"
  }

  /** The opening tag of a (inverted) section, `{{#key}}` or `{{^key}}`. */
  function Open(sigil: char, k: string): string {
    "{{" + [sigil] + k + "}}"
  }

  /** The closing tag of a section, `{{/key}}`. */
  function Close(k: string): string {
    "{{/" + k + "}}"
  }

  /** The source of a node sequence: the nodes' sources in order. */
  function SerializedAll(ns: seq<Node>): string
    decreases ns
  {
    if ns == [] then "" else SerializedAll(ns[..|ns| - 1]) + Serialized(ns[|ns| - 1])
  }

  /** Serializing a concatenation concatenates the serializations. */
  lemma {:induction false} SerializedAllAppend(a: seq<Node>, b: seq<Node>)
    ensures SerializedAll(a + b) == SerializedAll(a) + SerializedAll(b)
    decreases |b|
  {
    if b == [] {
      assert a + b == a;
    } else {
      var b' := b[..|b| - 1];
      assert (a + b)[..|a + b| - 1] == a + b';
      assert (a + b)[|a + b| - 1] == b[|b| - 1];
      SerializedAllAppend(a, b');
    }
  }

  /** The source of a sequence starting with `n` is `n`'s source followed by the rest's. */
  lemma SerializedAllCons(n: Node, rest: seq<Node>)
    ensures SerializedAll([n] + rest) == Serialized(n) + SerializedAll(rest)
  {
    SerializedAllAppend([n], rest);
    assert [n][..0] == [];
  }

  /** `append(toString:)`: appends the node's source to `s` and touches nothing of `s` already there. */
  method AppendToString(n: Node, s: string) returns (r: string)
    ensures r == s + Serialized(n)
    decreases n
  {
    match n {
      case Empty =>
        r := s;
      case Text(t) =>
        r := s + t;
      case Global(ns) =>
        r := AppendAllToString(ns, s);
      case Section(k, ns) =>
        var open := s + Open('#', k);
        var body := AppendAllToString(ns, open);
        r := body + Close(k);
        assert r == s + (Open('#', k) + SerializedAll(ns) + Close(k));
      case InvertedSection(k, ns) =>
        var open := s + Open('^', k);
        var body := AppendAllToString(ns, open);
        r := body + Close(k);
        assert r == s + (Open('^', k) + SerializedAll(ns) + Close(k));
      case Tag(k) =>
        r := s + "{{" + k + "}}";
      case UnescapedTag(k) =>
        r := s + "{{{" + k + "}}}";
      case Partial(k) =>
        r := s + "{{> " + k + "}}";
    }
  }

  /** `nodes.forEach { $0.append(toString: &s) }`. */
  method AppendAllToString(ns: seq<Node>, s: string) returns (r: string)
    ensures r == s + SerializedAll(ns)
    decreases ns
  {
    r := s;
    for i := 0 to |ns|
      invariant r == s + SerializedAll(ns[..i])
    {
      assert ns[..i + 1][..i] == ns[..i];
      r := AppendToString(ns[i], r);
    }
    assert ns[..|ns|] == ns;
  }

  /** The node's `asMustacheString`. */
  method AsMustacheString(n: Node) returns (r: string)
    ensures r == Serialized(n)
  {
    r := AppendToString(n, "");
  }

  /** The Sequence extension's `asMustacheString`: the elements' sources concatenated in order. */
  method SequenceAsMustacheString(ns: seq<Node>) returns (r: string)
    ensures r == SerializedAll(ns)
    ensures forall i :: 0 <= i <= |ns| ==> SerializedAll(ns[..i]) <= r
  {
    r := AppendAllToString(ns, "");
    forall i | 0 <= i <= |ns|
      ensures SerializedAll(ns[..i]) <= r
    {
      SerializedAllAppend(ns[..i], ns[i..]);
      assert ns[..i] + ns[i..] == ns;
    }
  }

  // ---------------------------------------------------------------------
  // Reflection

  /** `hasKeys`: does not look into sections, only into a global node's children. */
  function HasKeys(n: Node): bool {
    match n
    case Empty => false
    case Text(_) => false
    case Section(_, _) => true
    case InvertedSection(_, _) => true
    case Tag(_) => true
    case UnescapedTag(_) => true
    case Global(ns) => exists i :: 0 <= i < |ns| && HasKeys(ns[i])
    case Partial(_) => true
  }

  /** The keys `addKeys` collects from one node: section, inverted-section and tag keys, recursively. */
  function Keys(n: Node): set<string>
    decreases n
  {
    match n
    case Empty => {}
    case Text(_) => {}
    case Global(ns) => KeysAll(ns)
    case Section(k, ns) => {k} + KeysAll(ns)
    case InvertedSection(k, ns) => {k} + KeysAll(ns)
    case Tag(k) => {k}
    case UnescapedTag(k) => {k}
    case Partial(_) => {}
  }

  /** The keys of a node sequence: the union of the elements' keys. */
  function KeysAll(ns: seq<Node>): set<string>
    decreases ns
  {
    if ns == [] then {} else KeysAll(ns[..|ns| - 1]) + Keys(ns[|ns| - 1])
  }

  /** `addKeys(to:)`: inserts the node's keys into `acc`. */
  method AddKeys(n: Node, acc: set<string>) returns (r: set<string>)
    ensures r == acc + Keys(n)
    decreases n
  {
    match n {
      case Empty =>
        r := acc;
      case Text(_) =>
        r := acc;
      case Global(ns) =>
        r := AddAllKeys(ns, acc);
      case Section(k, ns) =>
        r := acc + {k};
        r := AddAllKeys(ns, r);
      case InvertedSection(k, ns) =>
        r := acc + {k};
        r := AddAllKeys(ns, r);
      case Tag(k) =>
        r := acc + {k};
      case UnescapedTag(k) =>
        r := acc + {k};
      case Partial(_) =>
        r := acc;
    }
  }

  /** `nodes.forEach { $0.addKeys(to: &set) }`. */
  method AddAllKeys(ns: seq<Node>, acc: set<string>) returns (r: set<string>)
    ensures r == acc + KeysAll(ns)
    decreases ns
  {
    r := acc;
    for i := 0 to |ns|
      invariant r == acc + KeysAll(ns[..i])
    {
      assert ns[..i + 1][..i] == ns[..i];
      r := AddKeys(ns[i], r);
    }
    assert ns[..|ns|] == ns;
  }

  /** The node's `keys`. */
  method NodeKeys(n: Node) returns (r: set<string>)
    ensures r == Keys(n)
  {
    r := AddKeys(n, {});
  }

  /** The Sequence and Collection extensions' `keys`. */
  method SequenceKeys(ns: seq<Node>) returns (r: set<string>)
    ensures r == KeysAll(ns)
    ensures forall i :: 0 <= i < |ns| ==> Keys(ns[i]) <= r
  {
    r := AddAllKeys(ns, {});
    KeysAllMembers(ns);
  }

  // ---------------------------------------------------------------------
  // Properties of the reflection

  /** A key is collected from a sequence exactly when some element yields it. */
  lemma {:induction false} KeysAllMembers(ns: seq<Node>)
    ensures forall k :: k in KeysAll(ns) <==> exists i :: 0 <= i < |ns| && k in Keys(ns[i])
    decreases |ns|
  {
    if ns != [] {
      var front := ns[..|ns| - 1];
      KeysAllMembers(front);
      forall k | k in KeysAll(ns)
        ensures exists i :: 0 <= i < |ns| && k in Keys(ns[i])
      {
        if k in KeysAll(front) {
          var i :| 0 <= i < |front| && k in Keys(front[i]);
          assert ns[i] == front[i];
        } else {
          assert k in Keys(ns[|ns| - 1]);
        }
      }
      forall k, i | 0 <= i < |ns| && k in Keys(ns[i])
        ensures k in KeysAll(ns)
      {
        if i < |ns| - 1 {
          assert ns[i] == front[i];
        }
      }
    }
  }

  /** The keys of a concatenation are the union of the parts' keys. */
  lemma {:induction false} KeysAllAppend(a: seq<Node>, b: seq<Node>)
    ensures KeysAll(a + b) == KeysAll(a) + KeysAll(b)
    decreases |b|
  {
    if b == [] {
      assert a + b == a;
    } else {
      var b' := b[..|b| - 1];
      assert (a + b)[..|a + b| - 1] == a + b';
      assert (a + b)[|a + b| - 1] == b[|b| - 1];
      KeysAllAppend(a, b');
    }
  }

  /** A partial reports keys but contributes none, so `hasKeys` and `keys` disagree on it. */
  lemma PartialHasKeysButNoKeys(name: string)
    ensures HasKeys(Partial(name)) && Keys(Partial(name)) == {}
    ensures name !in Keys(Global([Partial(name)]))
  {
    var ns := [Partial(name)];
    assert ns[..|ns| - 1] == [];
    assert KeysAll(ns) == KeysAll([]) + Keys(Partial(name));
  }

  /** A node mentions a partial where `hasKeys` would see it: itself, or through global nodes. */
  predicate PartialVisible(n: Node) {
    match n
    case Partial(_) => true
    case Global(ns) => exists i :: 0 <= i < |ns| && PartialVisible(ns[i])
    case _ => false
  }

  /**
   * `hasKeys` is `keys` being non-empty, except for partials: a node has keys
   * exactly when it collects some key or shows a partial at its top level.
   */
  lemma {:induction false} HasKeysIffKeysOrPartial(n: Node)
    ensures HasKeys(n) <==> Keys(n) != {} || PartialVisible(n)
    decreases n
  {
    match n {
      case Global(ns) =>
        KeysAllMembers(ns);
        forall i | 0 <= i < |ns| {
          HasKeysIffKeysOrPartial(ns[i]);
        }
        if Keys(n) != {} {
          var k :| k in KeysAll(ns);
          var i :| 0 <= i < |ns| && k in Keys(ns[i]);
          assert HasKeys(ns[i]);
        }
      case Section(k, _) =>
        assert k in Keys(n);
      case InvertedSection(k, _) =>
        assert k in Keys(n);
      case Tag(k) =>
        assert k in Keys(n);
      case UnescapedTag(k) =>
        assert k in Keys(n);
      case _ =>
    }
  }

  /** `m` occurs in `n`: it is `n` or occurs in one of its children, sections included. */
  predicate Occurs(m: Node, n: Node)
    decreases n
  {
    m == n || (match n
      case Global(ns) => exists i :: 0 <= i < |ns| && Occurs(m, ns[i])
      case Section(_, ns) => exists i :: 0 <= i < |ns| && Occurs(m, ns[i])
      case InvertedSection(_, ns) => exists i :: 0 <= i < |ns| && Occurs(m, ns[i])
      case _ => false)
  }

  /** The key a node itself contributes, if it is a section, inverted section or (unescaped) tag. */
  predicate ContributesKey(m: Node, k: string) {
    match m
    case Section(key, _) => key == k
    case InvertedSection(key, _) => key == k
    case Tag(key) => key == k
    case UnescapedTag(key) => key == k
    case _ => false
  }

  /**
   * `keys` is exactly the set of section, inverted-section, tag and
   * unescaped-tag keys found anywhere in the tree; nothing else (partial
   * names, text) enters it.
   */
  lemma {:induction false} KeysAreExactlyContributedKeys(n: Node, k: string)
    ensures k in Keys(n) <==> exists m :: Occurs(m, n) && ContributesKey(m, k)
    decreases n
  {
    match n {
      case Global(ns) =>
        ChildrenKeys(n, ns, k);
      case Section(key, ns) =>
        ChildrenKeys(n, ns, k);
        if key == k {
          assert Occurs(n, n) && ContributesKey(n, k);
        }
      case InvertedSection(key, ns) =>
        ChildrenKeys(n, ns, k);
        if key == k {
          assert Occurs(n, n) && ContributesKey(n, k);
        }
      case Tag(key) =>
        if key == k {
          assert Occurs(n, n) && ContributesKey(n, k);
        }
      case UnescapedTag(key) =>
        if key == k {
          assert Occurs(n, n) && ContributesKey(n, k);
        }
      case _ =>
    }
  }

  /** The children case of `KeysAreExactlyContributedKeys`. */
  lemma {:induction false} ChildrenKeys(n: Node, ns: seq<Node>, k: string)
    requires n.Global? || n.Section? || n.InvertedSection?
    requires ns == n.nodes
    ensures k in KeysAll(ns) <==> exists m :: m != n && Occurs(m, n) && ContributesKey(m, k)
    decreases n, 0
  {
    KeysAllMembers(ns);
    if k in KeysAll(ns) {
      var i :| 0 <= i < |ns| && k in Keys(ns[i]);
      KeysAreExactlyContributedKeys(ns[i], k);
      var m :| Occurs(m, ns[i]) && ContributesKey(m, k);
      OccursSmaller(m, ns[i]);
      assert m != n;
      assert Occurs(m, n);
    }
    if exists m :: m != n && Occurs(m, n) && ContributesKey(m, k) {
      var m :| m != n && Occurs(m, n) && ContributesKey(m, k);
      var i :| 0 <= i < |ns| && Occurs(m, ns[i]);
      KeysAreExactlyContributedKeys(ns[i], k);
      assert k in Keys(ns[i]);
    }
  }

  /** What occurs in a node is no larger than it. */
  lemma OccursSmaller(m: Node, n: Node)
    requires Occurs(m, n)
    ensures m == n || m < n
    decreases n
  {
    if m != n {
      match n {
        case Global(ns) =>
          var i :| 0 <= i < |ns| && Occurs(m, ns[i]);
          OccursSmaller(m, ns[i]);
        case Section(_, ns) =>
          var i :| 0 <= i < |ns| && Occurs(m, ns[i]);
          OccursSmaller(m, ns[i]);
        case InvertedSection(_, ns) =>
          var i :| 0 <= i < |ns| && Occurs(m, ns[i]);
          OccursSmaller(m, ns[i]);
      }
    }
  }
}
