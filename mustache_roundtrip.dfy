/**
 * Parsing what the serializer writes gives the tree back: for every
 * well-formed node list `ns`, the default parser turns
 * `SerializedAll(ns)` into `Global(ns)` (or `Empty` for no nodes).
 *
 * Well-formed rules out what the serializer cannot write unambiguously:
 * `Empty` and nested `Global` nodes (they leave no trace), two texts in a
 * row (they merge), texts containing `{{` or ending in `{`, keys
 * containing `}` or NUL, tag keys that read as a sigil, and partial names
 * starting with a space (the parser skips those spaces).
 */
module MustacheRoundTrip {
  import opened Wrappers
  import opened MustacheNode
  import opened MustacheParser

  // ---------------------------------------------------------------------
  // Well-formed trees

  predicate NoNul(s: string) {
    forall i :: 0 <= i < |s| ==> s[i] != NUL
  }

  /** A key that cannot close its tag early or end the input. */
  predicate PlainKey(k: string) {
    forall i :: 0 <= i < |k| ==> k[i] != '}' && k[i] != NUL
  }

  /** A text that the text scan reads in one piece and that cannot open a tag with what follows. */
  predicate WFText(t: string) {
    && |t| > 0
    && NoNul(t)
    && (forall i :: 0 <= i < |t| && t[i] == '{' ==> i + 1 < |t|)
    && (forall i, j :: 0 <= i < |t| && j == i + 1 && j < |t| && t[i] == '{' ==> t[j] != '{')
  }

  /** A key of `{{key}}` that the lexer does not read as `{{{`, a sigil or `& `. */
  predicate TagKey(k: string) {
    && PlainKey(k)
    && (|k| > 0 ==> k[0] != '{' && k[0] != '#' && k[0] != '^' && k[0] != '/' && k[0] != '>')
    && (|k| > 1 && k[0] == '&' ==> k[1] != Space)
  }

  /** A partial name the space skip after `>` leaves whole. */
  predicate PartialName(k: string) {
    PlainKey(k) && (|k| > 0 ==> k[0] != Space)
  }

  predicate WFNode(n: Node)
    decreases n
  {
    match n
    case Empty => false
    case Global(_) => false
    case Text(t) => WFText(t)
    case Tag(k) => TagKey(k)
    case UnescapedTag(k) => PlainKey(k)
    case Partial(k) => PartialName(k)
    case Section(k, ns) => PlainKey(k) && WFList(ns)
    case InvertedSection(k, ns) => PlainKey(k) && WFList(ns)
  }

  predicate WFList(ns: seq<Node>)
    decreases ns
  {
    && (forall i :: 0 <= i < |ns| ==> WFNode(ns[i]))
    && (forall i, j :: 0 <= i < |ns| && j == i + 1 && j < |ns| && ns[i].Text? ==> !ns[j].Text?)
  }

  // ---------------------------------------------------------------------
  // Buffers

  /** The buffer holds `w` from position `p` on. */
  predicate Spells(buf: seq<char>, p: nat, w: string) {
    p + |w| <= |buf| && forall i :: 0 <= i < |w| ==> buf[p + i] == w[i]
  }

  lemma SpellsAt(buf: seq<char>, p: nat, w: string)
    requires Spells(buf, p, w)
    ensures forall i :: p <= i < p + |w| ==> At(buf, i) == w[i - p]
    ensures buf[p..p + |w|] == w
  {
    forall i | p <= i < p + |w|
      ensures At(buf, i) == w[i - p]
    {
      assert buf[p + (i - p)] == w[i - p];
    }
  }

  lemma SpellsSplit(buf: seq<char>, p: nat, a: string, b: string)
    requires Spells(buf, p, a + b)
    ensures Spells(buf, p, a) && Spells(buf, p + |a|, b)
  {
    forall i | 0 <= i < |a|
      ensures buf[p + i] == a[i]
    {
      assert (a + b)[i] == a[i];
    }
    forall i | 0 <= i < |b|
      ensures buf[p + |a| + i] == b[i]
    {
      assert (a + b)[|a| + i] == b[i];
    }
  }

  /** No unit of a plain key spelled from `m` is NUL or `}`. */
  lemma ScanKey(buf: seq<char>, m: nat, k: string)
    requires Spells(buf, m, k) && PlainKey(k)
    ensures forall j :: m <= j < m + |k| ==> At(buf, j) != NUL && At(buf, j) != '}'
  {
    SpellsAt(buf, m, k);
  }

  /** The tag loop runs over units that are neither NUL nor the close delimiter. */
  lemma {:induction false} FindCloseAt(buf: seq<char>, i: nat, e: nat, close: char, unescaped: bool)
    requires i <= e <= |buf|
    requires forall j :: i <= j < e ==> At(buf, j) != NUL && At(buf, j) != close
    requires At(buf, e) != NUL && CloseAt(buf, e, close, unescaped)
    ensures FindClose(buf, i, close, unescaped) == e
    decreases e - i
  {
    if i < e {
      FindCloseAt(buf, i + 1, e, close, unescaped);
    }
  }

  /** The text scan runs over units that are neither NUL nor a tag start. */
  lemma {:induction false} TextEndAt(buf: seq<char>, i: nat, e: nat, open: char)
    requires i <= e <= |buf|
    requires forall j :: i <= j < e ==> At(buf, j) != NUL && !TagStart(buf, j, open)
    requires At(buf, e) == NUL || TagStart(buf, e, open)
    ensures TextEnd(buf, i, open) == e
    decreases e - i
  {
    if i < e {
      TextEndAt(buf, i + 1, e, open);
    }
  }

  // ---------------------------------------------------------------------
  // Lexing what the serializer writes

  /** A well-formed text is one text token, when what follows ends the scan. */
  lemma LexText(buf: seq<char>, p: nat, t: string)
    requires WFText(t) && Spells(buf, p, t)
    requires p + |t| == |buf| || TagStart(buf, p + |t|, '{')
    ensures NextToken(buf, p, '{', '}') == (Some(TText(t)), p + |t|)
  {
    SpellsAt(buf, p, t);
    forall j | p <= j < p + |t|
      ensures At(buf, j) != NUL && !TagStart(buf, j, '{')
    {
      assert t[j - p] != NUL;
      if t[j - p] == '{' {
        assert At(buf, j + 1) == t[j + 1 - p];
        assert t[j + 1 - p] != '{';
      }
    }
    TextEndAt(buf, p, p + |t|, '{');
    assert !TagStart(buf, p, '{');
  }

  /** `{{key}}` is one tag token. */
  lemma LexTagKey(buf: seq<char>, p: nat, k: string)
    requires TagKey(k) && Spells(buf, p, "{{" + k + "}}")
    ensures NextToken(buf, p, '{', '}') == (Some(TTag(k)), p + |k| + 4)
  {
    SpellsSplit(buf, p, "{{" + k, "}}");
    SpellsSplit(buf, p, "{{", k);
    SpellsAt(buf, p, "{{");
    SpellsAt(buf, p + 2 + |k|, "}}");
    SpellsAt(buf, p + 2, k);
    ScanKey(buf, p + 2, k);
    var m := p + 2;
    var c := m + |k|;
    assert La2(buf, p) != '{';
    FindCloseAt(buf, m, c, '}', false);
    assert buf[m..c] == k;
  }

  /** `{{{key}}}` is one unescaped-tag token. */
  lemma LexUnescaped(buf: seq<char>, p: nat, k: string)
    requires PlainKey(k) && Spells(buf, p, "{{{" + k + "}}}")
    ensures NextToken(buf, p, '{', '}') == (Some(TUnescapedTag(k)), p + |k| + 6)
  {
    SpellsSplit(buf, p, "{{{" + k, "}}}");
    SpellsSplit(buf, p, "{{{", k);
    SpellsAt(buf, p, "{{{");
    SpellsAt(buf, p + 3 + |k|, "}}}");
    ScanKey(buf, p + 3, k);
    var m := p + 3;
    var c := m + |k|;
    FindCloseAt(buf, m, c, '}', true);
    assert buf[m..c] == k;
  }

  /** `{{> name}}` is one partial token. */
  lemma LexPartial(buf: seq<char>, p: nat, k: string)
    requires PartialName(k) && Spells(buf, p, "{{> " + k + "}}")
    ensures NextToken(buf, p, '{', '}') == (Some(TPartial(k)), p + |k| + 6)
  {
    SpellsSplit(buf, p, "{{> " + k, "}}");
    SpellsSplit(buf, p, "{{> ", k);
    SpellsAt(buf, p, "{{> ");
    SpellsAt(buf, p + 4 + |k|, "}}");
    SpellsAt(buf, p + 4, k);
    ScanKey(buf, p + 4, k);
    var m := p + 2;
    var c := p + 4 + |k|;
    FindCloseAt(buf, m, c, '}', false);
    assert SkipSpaces(buf, m + 2) == m + 2;
    assert buf[m + 2..c] == k;
  }

  /** `{{#key}}`, `{{^key}}` and `{{/key}}`: one token carrying the key. */
  lemma LexSigil(buf: seq<char>, p: nat, sigil: char, k: string)
    requires sigil == '#' || sigil == '^' || sigil == '/'
    requires PlainKey(k) && Spells(buf, p, "{{" + [sigil] + k + "}}")
    ensures NextToken(buf, p, '{', '}').1 == p + |k| + 5
    ensures sigil == '#' ==> NextToken(buf, p, '{', '}').0 == Some(TSectionStart(k))
    ensures sigil == '^' ==> NextToken(buf, p, '{', '}').0 == Some(TInvertedSectionStart(k))
    ensures sigil == '/' ==> NextToken(buf, p, '{', '}').0 == Some(TSectionEnd(k))
  {
    SpellsSplit(buf, p, "{{" + [sigil] + k, "}}");
    SpellsSplit(buf, p, "{{" + [sigil], k);
    SpellsAt(buf, p, "{{" + [sigil]);
    SpellsAt(buf, p + 3 + |k|, "}}");
    ScanKey(buf, p + 3, k);
    var m := p + 2;
    var c := p + 3 + |k|;
    assert At(buf, m) == sigil;
    FindCloseAt(buf, m, c, '}', false);
    assert buf[m + 1..c] == k;
  }

  lemma NodeListSkipsEmpty(buf: seq<char>, p: nat, q: nat)
    requires p <= |buf| && NodeF(buf, p, '{', '}') == (Some(Empty), q)
    ensures NodeListF(buf, p, '{', '}') == NodeListF(buf, q, '{', '}')
  {
  }

  // ---------------------------------------------------------------------
  // Parsing what the serializer writes

  // The recursive descent, one step at a time

  lemma NodeListStop(buf: seq<char>, p: nat)
    requires p <= |buf| && NodeF(buf, p, '{', '}').0.None?
    ensures NodeListF(buf, p, '{', '}') == ([], NodeF(buf, p, '{', '}').1)
  {
  }

  lemma NodeListStep(buf: seq<char>, p: nat, n: Node, q: nat, tail: seq<Node>, e: nat)
    requires p <= |buf| && NodeF(buf, p, '{', '}') == (Some(n), q) && n != Empty
    requires q <= |buf| && NodeListF(buf, q, '{', '}') == (tail, e)
    ensures NodeListF(buf, p, '{', '}') == ([n] + tail, e)
  {
  }

  lemma ConsAppend<T>(ns: seq<T>, tail: seq<T>)
    requires ns != []
    ensures [ns[0]] + (ns[1..] + tail) == ns + tail
  {
  }

  lemma NodeOfSectionEnd(buf: seq<char>, p: nat, k: string, q: nat)
    requires p <= |buf| && NextToken(buf, p, '{', '}') == (Some(TSectionEnd(k)), q)
    ensures NodeF(buf, p, '{', '}') == (None, q)
  {
  }

  lemma NodeOfSection(buf: seq<char>, p: nat, sigil: char, k: string, q: nat, ns: seq<Node>, e: nat)
    requires p <= |buf|
    requires NextToken(buf, p, '{', '}') == (Some(if sigil == '^' then TInvertedSectionStart(k) else TSectionStart(k)), q)
    requires q <= |buf| && At(buf, q) != NUL && NodeListF(buf, q, '{', '}') == (ns, e)
    ensures NodeF(buf, p, '{', '}') == (Some(if sigil == '^' then InvertedSection(k, ns) else Section(k, ns)), e)
  {
  }

  lemma ParseOfList(buf: seq<char>, ns: seq<Node>)
    requires At(buf, 0) != NUL && NodeListF(buf, 0, '{', '}').0 == ns
    ensures ParseF(buf, '{', '}') == Global(ns)
  {
  }

  /** A well-formed node's source is non-empty, and it opens a tag unless the node is a text. */
  lemma SerializedShape(n: Node)
    requires WFNode(n)
    ensures |Serialized(n)| >= 1 && Serialized(n)[0] != NUL
    ensures !n.Text? ==> |Serialized(n)| >= 2 && Serialized(n)[0] == '{' && Serialized(n)[1] == '{'
  {
    match n {
      case Section(k, ns) => assert Serialized(n) == Open('#', k) + SerializedAll(ns) + Close(k);
      case InvertedSection(k, ns) => assert Serialized(n) == Open('^', k) + SerializedAll(ns) + Close(k);
      case _ =>
    }
  }

  /** What may follow a node list: the end of input or a tag start; either ends a text scan. */
  predicate Follows(buf: seq<char>, e: nat) {
    e == |buf| || TagStart(buf, e, '{')
  }

  /** One well-formed node parses back to itself and consumes exactly its source. */
  lemma {:induction false} NodeRoundTrip(buf: seq<char>, p: nat, n: Node)
    requires WFNode(n) && Spells(buf, p, Serialized(n))
    requires n.Text? ==> Follows(buf, p + |Serialized(n)|)
    ensures NodeF(buf, p, '{', '}') == (Some(n), p + |Serialized(n)|)
    decreases n, 1
  {
    match n {
      case Text(t) => LexText(buf, p, t);
      case Tag(k) => LexTagKey(buf, p, k);
      case UnescapedTag(k) => LexUnescaped(buf, p, k);
      case Partial(k) => LexPartial(buf, p, k);
      case Section(_, _) => SectionNodeRoundTrip(buf, p, n);
      case InvertedSection(_, _) => SectionNodeRoundTrip(buf, p, n);
    }
  }

  /** The section case of `NodeRoundTrip`. */
  lemma {:induction false} SectionNodeRoundTrip(buf: seq<char>, p: nat, n: Node)
    requires (n.Section? || n.InvertedSection?) && WFNode(n) && Spells(buf, p, Serialized(n))
    ensures NodeF(buf, p, '{', '}') == (Some(n), p + |Serialized(n)|)
    decreases n, 0
  {
    var sigil := if n.Section? then '#' else '^';
    assert Serialized(n) == Open(sigil, n.key) + SerializedAll(n.nodes) + Close(n.key);
    SectionRoundTrip(buf, p, sigil, n.key, n.nodes, n.key);
  }

  /**
   * A section start, well-formed children and a section end parse to one
   * section node, whatever key the end tag carries.
   */
  lemma {:induction false} SectionRoundTrip(buf: seq<char>, p: nat, sigil: char, k: string, ns: seq<Node>, endKey: string)
    requires sigil == '#' || sigil == '^'
    requires PlainKey(k) && WFList(ns) && PlainKey(endKey)
    requires Spells(buf, p, Open(sigil, k) + SerializedAll(ns) + Close(endKey))
    ensures NodeF(buf, p, '{', '}') ==
      (Some(if sigil == '^' then InvertedSection(k, ns) else Section(k, ns)),
       p + |Open(sigil, k) + SerializedAll(ns) + Close(endKey)|)
    decreases ns, 3
  {
    var q := SectionSplit(buf, p, sigil, k, ns, endKey);
    SectionBody(buf, q, ns, endKey);
    NodeOfSection(buf, p, sigil, k, q, ns, q + |SerializedAll(ns)| + |endKey| + 5);
  }

  /** A section's children and its end tag parse to the children, consuming the end tag. */
  lemma {:induction false} SectionBody(buf: seq<char>, q: nat, ns: seq<Node>, endKey: string)
    requires WFList(ns) && PlainKey(endKey) && Spells(buf, q, SerializedAll(ns))
    requires Spells(buf, q + |SerializedAll(ns)|, Close(endKey))
    requires Follows(buf, q + |SerializedAll(ns)|)
    ensures NodeListF(buf, q, '{', '}') == (ns, q + |SerializedAll(ns)| + |endKey| + 5)
    decreases ns, 2
  {
    var e := q + |SerializedAll(ns)|;
    ListEnd(buf, e, endKey);
    ListRoundTrip(buf, q, ns, [], e + |endKey| + 5);
    assert ns + [] == ns;
  }

  /** A section's source: its start tag lexes to one token, then come the children and the end tag. */
  lemma SectionSplit(buf: seq<char>, p: nat, sigil: char, k: string, ns: seq<Node>, endKey: string) returns (q: nat)
    requires sigil == '#' || sigil == '^'
    requires PlainKey(k) && WFList(ns) && PlainKey(endKey)
    requires Spells(buf, p, Open(sigil, k) + SerializedAll(ns) + Close(endKey))
    ensures q <= |buf| && At(buf, q) != NUL
    ensures NextToken(buf, p, '{', '}') ==
      (Some(if sigil == '^' then TInvertedSectionStart(k) else TSectionStart(k)), q)
    ensures Spells(buf, q, SerializedAll(ns))
    ensures Spells(buf, q + |SerializedAll(ns)|, Close(endKey))
    ensures Follows(buf, q + |SerializedAll(ns)|)
    ensures p + |Open(sigil, k) + SerializedAll(ns) + Close(endKey)| == q + |SerializedAll(ns)| + |endKey| + 5
  {
    var body := SerializedAll(ns);
    SpellsSplit(buf, p, Open(sigil, k) + body, Close(endKey));
    SpellsSplit(buf, p, Open(sigil, k), body);
    LexSigil(buf, p, sigil, k);
    q := p + |Open(sigil, k)|;
    SpellsAt(buf, q + |body|, Close(endKey));
    FirstUnit(buf, q, ns, endKey);
  }

  /** The first unit after a section's start tag is not NUL: it starts a child or the end tag. */
  lemma FirstUnit(buf: seq<char>, q: nat, ns: seq<Node>, k: string)
    requires WFList(ns) && Spells(buf, q, SerializedAll(ns))
    requires Spells(buf, q + |SerializedAll(ns)|, Close(k))
    ensures At(buf, q) != NUL
  {
    if ns == [] {
      SpellsAt(buf, q, Close(k));
    } else {
      SerializedAllCons(ns[0], ns[1..]);
      assert [ns[0]] + ns[1..] == ns;
      SerializedShape(ns[0]);
      SpellsAt(buf, q, SerializedAll(ns));
    }
  }

  /** What follows a text in a well-formed list ends the text scan. */
  lemma TextFollower(buf: seq<char>, q: nat, rest: seq<Node>)
    requires WFList(rest) && Spells(buf, q, SerializedAll(rest))
    requires rest != [] ==> !rest[0].Text?
    requires Follows(buf, q + |SerializedAll(rest)|)
    ensures Follows(buf, q)
  {
    if rest != [] {
      SerializedAllCons(rest[0], rest[1..]);
      assert [rest[0]] + rest[1..] == rest;
      SerializedShape(rest[0]);
      SpellsAt(buf, q, SerializedAll(rest));
    }
  }

  /** The tail of a well-formed list is well formed. */
  lemma WFTail(ns: seq<Node>)
    requires WFList(ns) && ns != []
    ensures WFNode(ns[0]) && WFList(ns[1..])
    ensures |ns| > 1 && ns[0].Text? ==> !ns[1].Text?
  {
    var rest := ns[1..];
    forall i, j | 0 <= i && j == i + 1 && j < |rest| && rest[i].Text?
      ensures !rest[j].Text?
    {
      assert rest[i] == ns[i + 1] && rest[j] == ns[j + 1];
    }
  }

  /**
   * A well-formed node list parses back to itself: the parsed list is `ns`
   * followed by whatever the rest of the buffer parses to.
   */
  lemma {:induction false} ListRoundTrip(buf: seq<char>, p: nat, ns: seq<Node>, tail: seq<Node>, e: nat)
    requires WFList(ns) && Spells(buf, p, SerializedAll(ns))
    requires Follows(buf, p + |SerializedAll(ns)|)
    requires NodeListF(buf, p + |SerializedAll(ns)|, '{', '}') == (tail, e)
    ensures NodeListF(buf, p, '{', '}') == (ns + tail, e)
    decreases ns, 1
  {
    if ns == [] {
      assert ns + tail == tail;
    } else {
      var q := HeadRoundTrip(buf, p, ns);
      ListRoundTrip(buf, q, ns[1..], tail, e);
      ListCons(buf, p, ns, q, tail, e);
    }
  }

  /** The head of a non-empty well-formed list parses back to itself; the tail is left for `ListRoundTrip`. */
  lemma {:induction false} HeadRoundTrip(buf: seq<char>, p: nat, ns: seq<Node>) returns (q: nat)
    requires ns != [] && WFList(ns) && Spells(buf, p, SerializedAll(ns))
    requires Follows(buf, p + |SerializedAll(ns)|)
    ensures q <= |buf| && ns[0] != Empty && NodeF(buf, p, '{', '}') == (Some(ns[0]), q)
    ensures WFList(ns[1..]) && Spells(buf, q, SerializedAll(ns[1..]))
    ensures q + |SerializedAll(ns[1..])| == p + |SerializedAll(ns)|
    decreases ns, 0
  {
    q := ConsSplit(buf, p, ns);
    NodeRoundTrip(buf, p, ns[0]);
  }

  /** The facts `ListRoundTrip` needs about the head and the tail of a non-empty list. */
  lemma ConsSplit(buf: seq<char>, p: nat, ns: seq<Node>) returns (q: nat)
    requires ns != [] && WFList(ns) && Spells(buf, p, SerializedAll(ns))
    requires Follows(buf, p + |SerializedAll(ns)|)
    ensures q == p + |Serialized(ns[0])|
    ensures WFNode(ns[0]) && Spells(buf, p, Serialized(ns[0]))
    ensures ns[0].Text? ==> Follows(buf, q)
    ensures WFList(ns[1..]) && Spells(buf, q, SerializedAll(ns[1..]))
    ensures q + |SerializedAll(ns[1..])| == p + |SerializedAll(ns)|
  {
    var n, rest := ns[0], ns[1..];
    assert [n] + rest == ns;
    SerializedAllCons(n, rest);
    SpellsSplit(buf, p, Serialized(n), SerializedAll(rest));
    q := p + |Serialized(n)|;
    WFTail(ns);
    if n.Text? {
      TextFollower(buf, q, rest);
    }
  }

  /** A section end tag ends a node list and is consumed. */
  lemma ListEnd(buf: seq<char>, p: nat, k: string)
    requires PlainKey(k) && Spells(buf, p, Close(k))
    ensures NodeListF(buf, p, '{', '}') == ([], p + |k| + 5)
  {
    assert Close(k) == "{{" + ['/'] + k + "}}";
    LexSigil(buf, p, '/', k);
    NodeOfSectionEnd(buf, p, k, p + |k| + 5);
    NodeListStop(buf, p);
  }

  /** A node list that parses to its head and then the rest of the list. */
  lemma ListCons(buf: seq<char>, p: nat, ns: seq<Node>, q: nat, tail: seq<Node>, e: nat)
    requires p <= |buf| && ns != [] && ns[0] != Empty
    requires NodeF(buf, p, '{', '}') == (Some(ns[0]), q)
    requires q <= |buf| && NodeListF(buf, q, '{', '}') == (ns[1..] + tail, e)
    ensures NodeListF(buf, p, '{', '}') == (ns + tail, e)
  {
    NodeListStep(buf, p, ns[0], q, ns[1..] + tail, e);
    ConsAppend(ns, tail);
  }

  /** The buffer `a + b` holds `a` at the start and `b` after it. */
  lemma SpellsConcat(a: string, b: string)
    ensures Spells(a + b, 0, a) && Spells(a + b, |a|, b)
  {
    assert forall i :: 0 <= i < |a| ==> (a + b)[0 + i] == a[i];
    assert forall i :: 0 <= i < |b| ==> (a + b)[|a| + i] == b[i];
  }

  /** A well-formed list at the start of a buffer, followed by what ends a node list with no nodes. */
  lemma {:induction false} ParseListAt(buf: seq<char>, ns: seq<Node>, e: nat)
    requires WFList(ns) && Spells(buf, 0, SerializedAll(ns))
    requires At(buf, 0) != NUL && Follows(buf, |SerializedAll(ns)|)
    requires NodeListF(buf, |SerializedAll(ns)|, '{', '}') == ([], e)
    ensures ParseF(buf, '{', '}') == Global(ns)
  {
    ListRoundTrip(buf, 0, ns, [], e);
    assert ns + [] == ns;
    ParseOfList(buf, ns);
  }

  /** The source of a non-empty well-formed list does not start with NUL. */
  lemma SerializedStart(buf: seq<char>, ns: seq<Node>)
    requires ns != [] && WFList(ns) && Spells(buf, 0, SerializedAll(ns))
    ensures At(buf, 0) != NUL
  {
    SerializedAllCons(ns[0], ns[1..]);
    assert [ns[0]] + ns[1..] == ns;
    SerializedShape(ns[0]);
    SpellsAt(buf, 0, SerializedAll(ns));
  }

  /** The round trip: parsing the source of a well-formed node list gives the list back. */
  lemma ParseSerialized(ns: seq<Node>)
    requires WFList(ns)
    ensures ParseF(SerializedAll(ns), '{', '}') == (if ns == [] then Empty else Global(ns))
  {
    var buf := SerializedAll(ns);
    if ns != [] {
      SpellsConcat(buf, []);
      assert buf + [] == buf;
      SerializedStart(buf, ns);
      NodeListStop(buf, |buf|);
      ParseListAt(buf, ns, |buf|);
    }
  }

  /** The same for one well-formed node, which parses back wrapped in a global node. */
  lemma ParseSerializedNode(n: Node)
    requires WFNode(n)
    ensures ParseF(Serialized(n), '{', '}') == Global([n])
  {
    assert [n][..0] == [];
    assert SerializedAll([n]) == Serialized(n);
    ParseSerialized([n]);
  }

  lemma TopLevelEndAt(buf: seq<char>, ns: seq<Node>, k: string)
    requires WFList(ns) && PlainKey(k)
    requires Spells(buf, 0, SerializedAll(ns)) && Spells(buf, |SerializedAll(ns)|, Close(k))
    ensures ParseF(buf, '{', '}') == Global(ns)
  {
    var m := |SerializedAll(ns)|;
    SpellsAt(buf, m, Close(k));
    if ns != [] {
      SerializedStart(buf, ns);
    }
    ListEnd(buf, m, k);
    ParseListAt(buf, ns, m + |k| + 5);
  }

  /** A section end at top level ends the whole parse: the rest of the input is dropped. */
  lemma TopLevelEndDropsRest(ns: seq<Node>, k: string, rest: string)
    requires WFList(ns) && PlainKey(k)
    ensures ParseF(SerializedAll(ns) + Close(k) + rest, '{', '}') == Global(ns)
  {
    var src := SerializedAll(ns);
    var buf := src + Close(k) + rest;
    SpellsConcat(src + Close(k), rest);
    SpellsSplit(buf, 0, src, Close(k));
    TopLevelEndAt(buf, ns, k);
  }

  lemma DanglingSectionAt(buf: seq<char>, ns: seq<Node>, sigil: char, k: string)
    requires sigil == '#' || sigil == '^'
    requires WFList(ns) && PlainKey(k)
    requires Spells(buf, 0, SerializedAll(ns)) && Spells(buf, |SerializedAll(ns)|, Open(sigil, k))
    requires |buf| == |SerializedAll(ns)| + |Open(sigil, k)|
    ensures ParseF(buf, '{', '}') == Global(ns)
  {
    var m := |SerializedAll(ns)|;
    SpellsAt(buf, m, Open(sigil, k));
    if ns != [] {
      SerializedStart(buf, ns);
    }
    LexSigil(buf, m, sigil, k);
    NodeListStop(buf, |buf|);
    NodeListSkipsEmpty(buf, m, |buf|);
    ParseListAt(buf, ns, |buf|);
  }

  /** A section start that ends the input yields `Empty`, which the node list drops. */
  lemma DanglingSectionDropped(ns: seq<Node>, sigil: char, k: string)
    requires sigil == '#' || sigil == '^'
    requires WFList(ns) && PlainKey(k)
    ensures ParseF(SerializedAll(ns) + Open(sigil, k), '{', '}') == Global(ns)
  {
    SpellsConcat(SerializedAll(ns), Open(sigil, k));
    DanglingSectionAt(SerializedAll(ns) + Open(sigil, k), ns, sigil, k);
  }

  lemma MismatchedEndAt(buf: seq<char>, sigil: char, k: string, ns: seq<Node>, endKey: string)
    requires sigil == '#' || sigil == '^'
    requires PlainKey(k) && WFList(ns) && PlainKey(endKey)
    requires Spells(buf, 0, buf) && buf == Open(sigil, k) + SerializedAll(ns) + Close(endKey)
    ensures ParseF(buf, '{', '}') == Global([if sigil == '^' then InvertedSection(k, ns) else Section(k, ns)])
  {
    SectionRoundTrip(buf, 0, sigil, k, ns, endKey);
    SpellsAt(buf, 0, buf);
    var n := if sigil == '^' then InvertedSection(k, ns) else Section(k, ns);
    NodeListStop(buf, |buf|);
    assert [n][1..] + [] == [];
    ListCons(buf, 0, [n], |buf|, [], |buf|);
    ParseOfList(buf, [n]);
  }

  /** A closed section whose end tag names another key still closes it. */
  lemma MismatchedEndCloses(sigil: char, k: string, ns: seq<Node>, endKey: string)
    requires sigil == '#' || sigil == '^'
    requires PlainKey(k) && WFList(ns) && PlainKey(endKey)
    ensures ParseF(Open(sigil, k) + SerializedAll(ns) + Close(endKey), '{', '}') ==
      Global([if sigil == '^' then InvertedSection(k, ns) else Section(k, ns)])
  {
    var buf := Open(sigil, k) + SerializedAll(ns) + Close(endKey);
    SpellsConcat(buf, []);
    assert buf + [] == buf;
    MismatchedEndAt(buf, sigil, k, ns, endKey);
  }
}
