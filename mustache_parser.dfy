/**
 * The plain `MustacheParser`: a cursor over a NUL-terminated buffer of code
 * units that lexes `{{…}}` tags and text and builds the `Node` tree.
 *
 * A buffer is a `seq<char>`; reading at or past its end yields NUL, as the
 * C string the source walks is terminated there, and the first NUL in the
 * buffer ends the input just as it ends the C string.
 */
module MustacheParser {
  import opened Wrappers
  import opened MustacheNode

  const NUL: char := 0 as char
  const Space: char := ' '

  /** The code unit at `i`; NUL at and past the end of the buffer. */
  function At(buf: seq<char>, i: nat): (r: char)
    ensures i >= |buf| ==> r == NUL
    ensures r != NUL ==> i < |buf|
  {
    if i < |buf| then buf[i] else NUL
  }

  /** `la1`: the unit after the cursor, or NUL when the cursor is on NUL. */
  function La1(buf: seq<char>, i: nat): char {
    if At(buf, i) != NUL then At(buf, i + 1) else NUL
  }

  /** `la2`: the unit two after the cursor, or NUL when `la1` is NUL. */
  function La2(buf: seq<char>, i: nat): char {
    if La1(buf, i) != NUL then At(buf, i + 2) else NUL
  }

  /**
   * Close delimiters the lexer can work with: with any of these the length
   * computed for a `#`, `^`, `/`, `>` or `& ` tag can become negative, and
   * the copy that follows overruns the buffer.
   */
  predicate ValidClose(close: char) {
    close != '#' && close != '^' && close != '/' && close != '>' && close != Space
  }

  /** The lexer's tokens. */
  datatype Token =
    | TText(s: string)
    | TTag(s: string)
    | TUnescapedTag(s: string)
    | TSectionStart(s: string)
    | TInvertedSectionStart(s: string)
    | TSectionEnd(s: string)
    | TPartial(s: string)

  // ---------------------------------------------------------------------
  // Specification of the scanning loops

  /** Cursor is on two open delimiters. */
  predicate TagStart(buf: seq<char>, i: nat, open: char) {
    At(buf, i) == open && La1(buf, i) == open
  }

  /** Where `parseText`'s scan from `i` stops: the first NUL or tag start. */
  function TextEnd(buf: seq<char>, i: nat, open: char): (r: nat)
    requires i <= |buf|
    ensures i <= r <= |buf|
    ensures At(buf, r) == NUL || TagStart(buf, r, open)
    decreases |buf| - i
  {
    if At(buf, i) == NUL || TagStart(buf, i, open) then i else TextEnd(buf, i + 1, open)
  }

  /** The text scan passes no NUL and no tag start. */
  lemma {:induction false} TextEndFirst(buf: seq<char>, i: nat, open: char, j: nat)
    requires i <= |buf| && i <= j < TextEnd(buf, i, open)
    ensures At(buf, j) != NUL && !TagStart(buf, j, open)
    decreases |buf| - i
  {
    if i < j {
      TextEndFirst(buf, i + 1, open, j);
    }
  }

  /** `String(cString:)`: the first NUL at or after `i`. */
  function CStringEnd(buf: seq<char>, i: nat): (r: nat)
    requires i <= |buf|
    ensures i <= r <= |buf| && At(buf, r) == NUL
    ensures forall j :: i <= j < r ==> At(buf, j) != NUL
    decreases |buf| - i
  {
    if At(buf, i) == NUL then i else CStringEnd(buf, i + 1)
  }

  /** The close test of the tag loop: two close delimiters, three for a `{{{` tag. */
  predicate CloseAt(buf: seq<char>, i: nat, close: char, unescaped: bool) {
    At(buf, i) == close && La1(buf, i) == close && (!unescaped || La2(buf, i) == close)
  }

  /** Where the tag loop from `i` stops: the first NUL or closing delimiters. */
  function FindClose(buf: seq<char>, i: nat, close: char, unescaped: bool): (r: nat)
    requires i <= |buf|
    ensures i <= r <= |buf|
    ensures At(buf, r) == NUL || CloseAt(buf, r, close, unescaped)
    ensures forall j :: i <= j < r ==> At(buf, j) != NUL
    decreases |buf| - i
  {
    if At(buf, i) == NUL || CloseAt(buf, i, close, unescaped) then i
    else FindClose(buf, i + 1, close, unescaped)
  }

  /** The partial tag's skip over spaces after `>`. */
  function SkipSpaces(buf: seq<char>, i: nat): (r: nat)
    requires i <= |buf|
    ensures i <= r <= |buf| && At(buf, r) != Space
    ensures forall j :: i <= j < r ==> At(buf, j) == Space
    decreases |buf| - i
  {
    if At(buf, i) == Space then SkipSpaces(buf, i + 1) else i
  }

  /** The spaces skipped never pass a unit that is not a space. */
  lemma {:induction false} SkipSpacesBound(buf: seq<char>, i: nat, c: nat)
    requires i <= c <= |buf| && At(buf, c) != Space
    ensures SkipSpaces(buf, i) <= c
    decreases c - i
  {
    if At(buf, i) == Space {
      SkipSpacesBound(buf, i + 1, c);
    }
  }

  /**
   * `parseTag`, from a cursor on two open delimiters that are not NUL: the
   * token and the cursor after it. An unterminated tag is text running to
   * the end of the input.
   */
  function LexTag(buf: seq<char>, p: nat, open: char, close: char): (r: (Token, nat))
    requires p <= |buf| && ValidClose(close)
    requires At(buf, p) != NUL && TagStart(buf, p, open)
    ensures p < r.1 <= |buf|
  {
    var unescaped := La2(buf, p) == open;
    var m := p + (if unescaped then 3 else 2);
    var c := FindClose(buf, m, close, unescaped);
    if At(buf, c) == NUL then
      (TText(buf[p..CStringEnd(buf, p)]), c)
    else
      ClosedTag(buf, m, c, close, unescaped)
  }

  /**
   * The token of a tag whose content starts at `m` and whose closing
   * delimiters start at `c`, classified by the unit at `m`.
   */
  function ClosedTag(buf: seq<char>, m: nat, c: nat, close: char, unescaped: bool): (r: (Token, nat))
    requires m <= c <= |buf| && ValidClose(close)
    requires At(buf, c) != NUL && CloseAt(buf, c, close, unescaped)
    ensures c < r.1 <= |buf|
  {
    if unescaped then
      (TUnescapedTag(buf[m..c]), c + 3)
    else
      var typec := At(buf, m);
      if typec == '#' then (TSectionStart(buf[m + 1..c]), c + 2)
      else if typec == '^' then (TInvertedSectionStart(buf[m + 1..c]), c + 2)
      else if typec == '/' then (TSectionEnd(buf[m + 1..c]), c + 2)
      else if typec == '>' then
        SkipSpacesBound(buf, m + 1, c);
        var n := SkipSpaces(buf, m + 1);
        (TPartial(buf[n..c]), c + 2)
      else if typec == '&' && At(buf, m + 1) == Space then
        (TUnescapedTag(buf[m + 2..c]), c + 2)
      else
        (TTag(buf[m..c]), c + 2)
  }

  /** `parseTagOrText`: `None` at the end of the input. */
  function NextToken(buf: seq<char>, p: nat, open: char, close: char): (r: (Option<Token>, nat))
    requires p <= |buf| && ValidClose(close)
    ensures r.0.None? <==> At(buf, p) == NUL
    ensures r.0.None? ==> r.1 == p
    ensures r.0.Some? ==> p < r.1 <= |buf|
  {
    if At(buf, p) == NUL then (None, p)
    else if TagStart(buf, p, open) then
      var (t, q) := LexTag(buf, p, open, close);
      (Some(t), q)
    else
      var e := TextEnd(buf, p, open);
      (Some(TText(buf[p..e])), e)
  }

  // ---------------------------------------------------------------------
  // Properties of the lexer

  /**
   * A text token is the non-empty run of input up to the next tag start or
   * the end of input; it holds no NUL and no two adjacent open delimiters.
   */
  lemma TextToken(buf: seq<char>, p: nat, open: char, close: char)
    requires p <= |buf| && ValidClose(close)
    requires At(buf, p) != NUL && !TagStart(buf, p, open)
    ensures NextToken(buf, p, open, close).0 == Some(TText(buf[p..NextToken(buf, p, open, close).1]))
    ensures var (t, q) := NextToken(buf, p, open, close);
      p < q && (At(buf, q) == NUL || TagStart(buf, q, open)) &&
      (forall i :: 0 <= i < |t.value.s| ==> t.value.s[i] != NUL) &&
      (forall i, j :: 0 <= i < |t.value.s| && j == i + 1 && j < |t.value.s| ==>
         !(t.value.s[i] == open && t.value.s[j] == open))
  {
    var q := TextEnd(buf, p, open);
    var s := buf[p..q];
    forall i | 0 <= i < |s|
      ensures s[i] != NUL
    {
      TextEndFirst(buf, p, open, p + i);
    }
    forall i, j | 0 <= i < |s| && j == i + 1 && j < |s|
      ensures !(s[i] == open && s[j] == open)
    {
      TextEndFirst(buf, p, open, p + i);
    }
  }

  /** `FindClose` stops at the first NUL or closing delimiters. */
  lemma {:induction false} FindCloseFirst(buf: seq<char>, i: nat, close: char, unescaped: bool, c: nat)
    requires i <= c <= |buf|
    requires At(buf, c) == NUL || CloseAt(buf, c, close, unescaped)
    requires forall j :: i <= j < c ==> At(buf, j) != NUL && !CloseAt(buf, j, close, unescaped)
    ensures FindClose(buf, i, close, unescaped) == c
    decreases c - i
  {
    if i < c {
      FindCloseFirst(buf, i + 1, close, unescaped, c);
    }
  }

  /** `String(cString:)` on a buffer without NUL runs to its end. */
  lemma {:induction false} CStringEndNoNul(buf: seq<char>, i: nat)
    requires i <= |buf|
    requires forall j :: i <= j < |buf| ==> buf[j] != NUL
    ensures CStringEnd(buf, i) == |buf|
    decreases |buf| - i
  {
    if i < |buf| {
      CStringEndNoNul(buf, i + 1);
    }
  }

  /**
   * A tag start with no close delimiter anywhere after it, in an input with
   * no NUL, is a text token holding everything to the end of the input.
   */
  lemma UnterminatedTag(buf: seq<char>, p: nat, open: char, close: char)
    requires p < |buf| && ValidClose(close) && TagStart(buf, p, open) && open != NUL
    requires forall j :: p <= j < |buf| ==> buf[j] != NUL && buf[j] != close
    ensures NextToken(buf, p, open, close) == (Some(TText(buf[p..])), |buf|)
  {
    var unescaped := La2(buf, p) == open;
    var m := p + (if unescaped then 3 else 2);
    assert At(buf, p + 1) == open;
    FindCloseFirst(buf, m, close, unescaped, |buf|);
    CStringEndNoNul(buf, p);
    assert FindClose(buf, m, close, unescaped) == |buf|;
    assert At(buf, |buf|) == NUL;
    assert LexTag(buf, p, open, close) == (TText(buf[p..CStringEnd(buf, p)]), |buf|);
    assert buf[p..CStringEnd(buf, p)] == buf[p..];
  }

  /**
   * A tag start followed by closing delimiters at `c` with none and no NUL
   * before them: the tag's content runs from after the `{{` (or `{{{`) to
   * `c`, and the token is the one its first unit selects.
   */
  lemma ClosedTagToken(buf: seq<char>, p: nat, open: char, close: char, c: nat)
    requires p <= |buf| && ValidClose(close) && At(buf, p) != NUL && TagStart(buf, p, open)
    requires var m := p + (if La2(buf, p) == open then 3 else 2);
      m <= c <= |buf| && At(buf, c) != NUL && CloseAt(buf, c, close, La2(buf, p) == open) &&
      forall j :: m <= j < c ==> At(buf, j) != NUL && !CloseAt(buf, j, close, La2(buf, p) == open)
    ensures var m := p + (if La2(buf, p) == open then 3 else 2);
      NextToken(buf, p, open, close) ==
        (Some(ClosedTag(buf, m, c, close, La2(buf, p) == open).0), ClosedTag(buf, m, c, close, La2(buf, p) == open).1)
  {
    FindCloseFirst(buf, p + (if La2(buf, p) == open then 3 else 2), close, La2(buf, p) == open, c);
  }

  /**
   * Three open delimiters make a tag unescaped: its whole content is the
   * key, and it takes three close delimiters to end it.
   */
  lemma UnescapedContent(buf: seq<char>, m: nat, c: nat, close: char)
    requires m <= c <= |buf| && ValidClose(close)
    requires At(buf, c) != NUL && CloseAt(buf, c, close, true)
    ensures ClosedTag(buf, m, c, close, true) == (TUnescapedTag(buf[m..c]), c + 3)
    ensures At(buf, c + 2) == close
  {
  }

  /**
   * The sigils `#`, `^` and `/` are stripped from the name: the content is
   * the sigil followed by the name, and two close delimiters end the tag.
   */
  lemma SigilContent(buf: seq<char>, m: nat, c: nat, close: char)
    requires m <= c <= |buf| && ValidClose(close)
    requires At(buf, c) != NUL && CloseAt(buf, c, close, false)
    requires At(buf, m) == '#' || At(buf, m) == '^' || At(buf, m) == '/'
    ensures var (t, q) := ClosedTag(buf, m, c, close, false);
      q == c + 2 && buf[m..c] == [At(buf, m)] + t.s &&
      (t.TSectionStart? <==> At(buf, m) == '#') &&
      (t.TInvertedSectionStart? <==> At(buf, m) == '^') &&
      (t.TSectionEnd? <==> At(buf, m) == '/')
  {
    assert buf[m..c] == [buf[m]] + buf[m + 1..c];
  }

  /**
   * A partial's name follows the `>` and every space after it: the content
   * is `>`, a run of spaces and the name, which does not start with a space.
   */
  lemma PartialContent(buf: seq<char>, m: nat, c: nat, close: char)
    requires m <= c <= |buf| && ValidClose(close)
    requires At(buf, c) != NUL && CloseAt(buf, c, close, false) && At(buf, m) == '>'
    ensures var (t, q) := ClosedTag(buf, m, c, close, false);
      t.TPartial? && q == c + 2 && m + 1 + |t.s| <= c && t.s == buf[c - |t.s|..c] &&
      (forall j :: m + 1 <= j < c - |t.s| ==> buf[j] == Space) &&
      (t.s == [] || t.s[0] != Space)
  {
    SkipSpacesBound(buf, m + 1, c);
    var n := SkipSpaces(buf, m + 1);
    forall j | m + 1 <= j < n
      ensures buf[j] == Space
    {
      assert At(buf, j) == Space;
    }
  }

  /**
   * `&` followed by a space makes the tag unescaped, its name starting two
   * units after the `&`; an `&` followed by anything else is a plain tag
   * whose name keeps the `&`.
   */
  lemma AmpersandContent(buf: seq<char>, m: nat, c: nat, close: char)
    requires m <= c <= |buf| && ValidClose(close)
    requires At(buf, c) != NUL && CloseAt(buf, c, close, false) && At(buf, m) == '&'
    ensures At(buf, m + 1) == Space ==>
      ClosedTag(buf, m, c, close, false) == (TUnescapedTag(buf[m + 2..c]), c + 2) &&
      buf[m..c] == ['&', Space] + buf[m + 2..c]
    ensures At(buf, m + 1) != Space ==>
      ClosedTag(buf, m, c, close, false) == (TTag(buf[m..c]), c + 2)
  {
    if At(buf, m + 1) == Space {
      assert buf[m..c] == [buf[m], buf[m + 1]] + buf[m + 2..c];
    }
  }

  /** Any other first unit makes a plain tag whose name is the whole content. */
  lemma PlainTagContent(buf: seq<char>, m: nat, c: nat, close: char)
    requires m <= c <= |buf| && ValidClose(close)
    requires At(buf, c) != NUL && CloseAt(buf, c, close, false)
    requires At(buf, m) !in {'#', '^', '/', '>', '&'}
    ensures ClosedTag(buf, m, c, close, false) == (TTag(buf[m..c]), c + 2)
  {
  }

  // ---------------------------------------------------------------------
  // Specification of the recursive descent

  /** No node of the list is `Empty` or `Global`, at any depth. */
  predicate Shaped(ns: seq<Node>)
    decreases ns
  {
    forall i :: 0 <= i < |ns| ==> ShapedNode(ns[i])
  }

  /** The node is neither `Empty` nor `Global`, and neither is any node below it. */
  predicate ShapedNode(n: Node)
    decreases n
  {
    match n
    case Empty => false
    case Global(_) => false
    case Section(_, ns) => Shaped(ns)
    case InvertedSection(_, ns) => Shaped(ns)
    case _ => true
  }

  /** `parseNodes`: `None` when the cursor is at the end of the input. */
  function ParseNodesF(buf: seq<char>, p: nat, open: char, close: char): (r: (Option<seq<Node>>, nat))
    requires p <= |buf| && ValidClose(close)
    ensures r.0.None? <==> At(buf, p) == NUL
    ensures p <= r.1 <= |buf|
    ensures r.0.Some? ==> Shaped(r.0.value)
    decreases |buf| - p, 2
  {
    if At(buf, p) == NUL then (None, p)
    else
      var (ns, q) := NodeListF(buf, p, open, close);
      (Some(ns), q)
  }

  /** The `while let node = parseNode()` loop: the nodes up to the end of input or a section end. */
  function NodeListF(buf: seq<char>, p: nat, open: char, close: char): (r: (seq<Node>, nat))
    requires p <= |buf| && ValidClose(close)
    ensures p <= r.1 <= |buf|
    ensures Shaped(r.0)
    decreases |buf| - p, 1
  {
    var (n, q) := NodeF(buf, p, open, close);
    match n
    case None => ([], q)
    case Some(Empty) => NodeListF(buf, q, open, close)
    case Some(node) =>
      var (rest, e) := NodeListF(buf, q, open, close);
      ([node] + rest, e)
  }

  /**
   * `parseNode`: `None` at the end of input or on a section end (which is
   * consumed whatever its key); `Empty` for a section whose start tag ends
   * the input.
   */
  function NodeF(buf: seq<char>, p: nat, open: char, close: char): (r: (Option<Node>, nat))
    requires p <= |buf| && ValidClose(close)
    ensures p <= r.1 <= |buf|
    ensures r.0.Some? ==> p < r.1
    ensures r.0.Some? && r.0.value != Empty ==> ShapedNode(r.0.value)
    decreases |buf| - p, 0
  {
    var (t, q) := NextToken(buf, p, open, close);
    match t
    case None => (None, q)
    case Some(TText(s)) => (Some(Text(s)), q)
    case Some(TTag(s)) => (Some(Tag(s)), q)
    case Some(TUnescapedTag(s)) => (Some(UnescapedTag(s)), q)
    case Some(TPartial(s)) => (Some(Partial(s)), q)
    case Some(TSectionStart(s)) =>
      var (children, e) := ParseNodesF(buf, q, open, close);
      if children.None? then (Some(Empty), e) else (Some(Section(s, children.value)), e)
    case Some(TInvertedSectionStart(s)) =>
      var (children, e) := ParseNodesF(buf, q, open, close);
      if children.None? then (Some(Empty), e) else (Some(InvertedSection(s, children.value)), e)
    case Some(TSectionEnd(_)) => (None, q)
  }

  /** `parse(cstr:)`: `Empty` for an input starting with NUL, otherwise a global node. */
  function ParseF(buf: seq<char>, open: char, close: char): (r: Node)
    requires ValidClose(close)
    ensures r == Empty <==> At(buf, 0) == NUL
    ensures r != Empty ==> r.Global? && Shaped(r.nodes)
  {
    if At(buf, 0) == NUL then Empty
    else
      var (ns, _) := ParseNodesF(buf, 0, open, close);
      Global(ns.value)
  }

  // ---------------------------------------------------------------------
  // The parser object

  /** `MustacheParser`: the buffer, the cursor into it and the two delimiters. */
  class Parser {
    var buf: seq<char>
    var p: nat
    var cStart: char
    var cEnd: char

    /** A parser with the default `{` and `}` delimiters. */
    constructor ()
      ensures cStart == '{' && cEnd == '}'
      ensures buf == [] && p == 0
    {
      buf := [];
      p := 0;
      cStart := '{';
      cEnd := '}';
    }

    /** The `openCharacter` getter. */
    function OpenCharacter(): (r: char)
      reads this
      ensures r == cStart
    {
      cStart
    }

    /** The `closeCharacter` getter. */
    function CloseCharacter(): (r: char)
      reads this
      ensures r == cEnd
    {
      cEnd
    }

    /** The `openCharacter` setter; a scalar above 127 does not fit a `CChar` and traps. */
    method SetOpenCharacter(c: char)
      requires c as int < 128
      modifies this`cStart
      ensures cStart == c
    {
      cStart := c;
    }

    /** The `closeCharacter` setter; a scalar above 127 does not fit a `CChar` and traps. */
    method SetCloseCharacter(c: char)
      requires c as int < 128
      modifies this`cEnd
      ensures cEnd == c
    {
      cEnd := c;
    }

    /** `parse(string:)` / `parse(cstr:)`: the buffer and cursor are only set for non-empty input. */
    method Parse(s: seq<char>) returns (r: Node)
      requires ValidClose(cEnd)
      modifies this`buf, this`p
      ensures r == ParseF(s, cStart, cEnd)
      ensures At(s, 0) == NUL ==> buf == old(buf) && p == old(p)
      ensures At(s, 0) != NUL ==> buf == s && p == ParseNodesF(s, 0, cStart, cEnd).1
    {
      if At(s, 0) == NUL {
        return Empty;
      }
      buf := s;
      p := 0;
      var nodes := ParseNodes();
      // the first unit is not NUL, so the node list is never missing here
      return Global(nodes.value);
    }

    /** `parseNodes(section:)`: the node list from the cursor, dropping `Empty` nodes; `None` at the end of input. */
    method ParseNodes() returns (r: Option<seq<Node>>)
      requires p <= |buf| && ValidClose(cEnd)
      modifies this`p
      ensures (r, p) == ParseNodesF(buf, old(p), cStart, cEnd)
      decreases |buf| - p, 2
    {
      if At(buf, p) == NUL {
        return None;
      }
      var p0 := p;
      var nodes: seq<Node> := [];
      assert nodes + NodeListF(buf, p, cStart, cEnd).0 == NodeListF(buf, p, cStart, cEnd).0;
      while true
        invariant p0 <= p <= |buf|
        invariant NodeListF(buf, p0, cStart, cEnd) ==
          (nodes + NodeListF(buf, p, cStart, cEnd).0, NodeListF(buf, p, cStart, cEnd).1)
        decreases |buf| - p
      {
        ghost var before := p;
        var node := ParseNode();
        if node.None? {
          assert NodeListF(buf, before, cStart, cEnd) == ([], p);
          assert nodes + [] == nodes;
          break;
        }
        if node.value != Empty {
          ghost var rest := NodeListF(buf, p, cStart, cEnd).0;
          assert NodeListF(buf, before, cStart, cEnd).0 == [node.value] + rest;
          assert nodes + ([node.value] + rest) == (nodes + [node.value]) + rest;
          nodes := nodes + [node.value];
        }
      }
      return Some(nodes);
    }

    /** `parseNode(sectionEnd:)`: one node; `None` at the end of input or for a section end of any name. */
    method ParseNode() returns (r: Option<Node>)
      requires p <= |buf| && ValidClose(cEnd)
      modifies this`p
      ensures (r, p) == NodeF(buf, old(p), cStart, cEnd)
      decreases |buf| - p, 0
    {
      var token := ParseTagOrText();
      if token.None? {
        return None;
      }
      match token.value {
        case TText(s) => return Some(Text(s));
        case TTag(s) => return Some(Tag(s));
        case TUnescapedTag(s) => return Some(UnescapedTag(s));
        case TPartial(s) => return Some(Partial(s));
        case TSectionStart(s) =>
          var children := ParseNodes();
          if children.None? {
            return Some(Empty);
          }
          return Some(Section(s, children.value));
        case TInvertedSectionStart(s) =>
          var children := ParseNodes();
          if children.None? {
            return Some(Empty);
          }
          return Some(InvertedSection(s, children.value));
        case TSectionEnd(_) =>
          return None;
      }
    }

    /** `parseTagOrText()`: a tag on two open delimiters, otherwise a text run; `None` on NUL. */
    method ParseTagOrText() returns (t: Option<Token>)
      requires p <= |buf| && ValidClose(cEnd)
      modifies this`p
      ensures (t, p) == NextToken(buf, old(p), cStart, cEnd)
    {
      if At(buf, p) == NUL {
        return None;
      }
      if At(buf, p) == cStart && La1(buf, p) == cStart {
        var tag := ParseTag();
        return Some(tag);
      } else {
        var text := ParseText();
        return Some(TText(text));
      }
    }

    /** `parseTag()`: scans to the closing delimiters; an unterminated tag is text up to the end of input. */
    method ParseTag() returns (t: Token)
      requires p <= |buf| && ValidClose(cEnd)
      requires At(buf, p) != NUL && TagStart(buf, p, cStart)
      modifies this`p
      ensures (t, p) == LexTag(buf, old(p), cStart, cEnd)
    {
      var unescaped := La2(buf, p) == cStart;
      var start := p;
      p := p + (if unescaped then 3 else 2);
      var marker := p;
      ghost var c := FindClose(buf, marker, cEnd, unescaped);
      while At(buf, p) != NUL
        invariant marker <= p <= c
        invariant FindClose(buf, p, cEnd, unescaped) == c
        decreases |buf| - p
      {
        if At(buf, p) == cEnd && La1(buf, p) == cEnd && (!unescaped || La2(buf, p) == cEnd) {
          // found end
          assert p == c;
          t := TakeClosedTag(marker, unescaped);
          return;
        }
        p := p + 1;
      }
      var e := CStringEnd(buf, start);
      assert e == c;
      return TText(buf[start..e]);
    }

    /** The found-end branch of `parseTag`: the cursor is on the closing delimiters of a tag whose content starts at `marker`. */
    method TakeClosedTag(marker: nat, unescaped: bool) returns (t: Token)
      requires marker <= p <= |buf| && ValidClose(cEnd)
      requires At(buf, p) != NUL && CloseAt(buf, p, cEnd, unescaped)
      modifies this`p
      ensures (t, p) == ClosedTag(buf, marker, old(p), cEnd, unescaped)
    {
      var len := p - marker;
      if unescaped {
        p := p + 3; // skip }}}
        return TUnescapedTag(buf[marker..marker + len]);
      }
      ghost var c := p;
      p := p + 2; // skip }}
      var typec := At(buf, marker);
      if typec == '#' {
        return TSectionStart(buf[marker + 1..marker + len]);
      } else if typec == '^' {
        return TInvertedSectionStart(buf[marker + 1..marker + len]);
      } else if typec == '/' {
        return TSectionEnd(buf[marker + 1..marker + len]);
      } else if typec == '>' {
        var n := marker + 1;
        SkipSpacesBound(buf, n, c);
        while At(buf, n) == Space
          invariant marker + 1 <= n <= SkipSpaces(buf, marker + 1)
          invariant SkipSpaces(buf, n) == SkipSpaces(buf, marker + 1)
          decreases |buf| - n
        {
          n := n + 1;
        }
        var len2 := p - n - 2;
        return TPartial(buf[n..n + len2]);
      } else if typec == '&' && At(buf, marker + 1) == Space {
        return TUnescapedTag(buf[marker + 2..marker + len]);
      }
      return TTag(buf[marker..marker + len]);
    }

    /** `parseText()`: the units up to the next tag start or the end of input. */
    method ParseText() returns (s: string)
      requires p <= |buf|
      modifies this`p
      ensures (s, p) == (buf[old(p)..TextEnd(buf, old(p), cStart)], TextEnd(buf, old(p), cStart))
    {
      var start := p;
      while At(buf, p) != NUL
        invariant start <= p <= TextEnd(buf, start, cStart)
        invariant TextEnd(buf, p, cStart) == TextEnd(buf, start, cStart)
        decreases |buf| - p
      {
        if At(buf, p) == cStart && La1(buf, p) == cStart {
          return buf[start..p];
        }
        p := p + 1;
      }
      return buf[start..p];
    }
  }
}
