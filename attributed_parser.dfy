/**
 * `AttributedMustacheParser`, modelled as it is written.
 *
 * The parser keeps the attributed input, its UTF-16 code units and a
 * cursor in fields, and lexes with the same structure as the plain parser.
 * It differs from the plain parser in several places, and the model keeps
 * every one of them:
 *  - `hitEOF` is true while the cursor is still inside the input, so the
 *    guards that should stop at the end of the input stop at its start;
 *  - `la(p)` returns the code unit at `p`, not at `cursor + p`;
 *  - the text loop only continues while neither of the next two units is
 *    an open delimiter;
 *  - the tag content range is computed after the closing delimiters have
 *    been skipped, and the type character is read after them.
 * The consequence, proved by `Parser.Parse`, is that every input parses to
 * `Empty`.
 *
 * Loops that as written need not terminate take a `fuel` bound; a result
 * is `Done`, `OutOfFuel` (the bound ran out), or `Traps` (a Swift runtime
 * trap: an index or range outside the input, or a failed `assert`).
 * A model `char` stands for one UTF-16 code unit.
 */
module AttributedMustacheParser {
  import opened Wrappers
  import opened AttributedText
  import opened AttributedMustacheNode

  const NUL: char := 0 as char

  /** The outcome of running a bounded piece of the parser. */
  datatype Run<+T> = Done(value: T) | OutOfFuel | Traps

  /** The lexer's tokens: text and tag keys keep their attributes, names do not. */
  datatype Token =
    | TText(text: AttrString)
    | TTag(tag: AttrString)
    | TUnescapedTag(tag: AttrString)
    | TSectionStart(name: string)
    | TInvertedSectionStart(name: string)
    | TSectionEnd(name: string)
    | TPartial(name: string)

  /** Which token a lexed range becomes. */
  datatype Kind = KText | KTag | KUnescapedTag | KSectionStart | KInvertedSectionStart | KSectionEnd | KPartial

  /**
   * `attributedSubstring(from: NSRange(location:length:))`: the characters
   * of the range, attributes included; a range outside the string raises.
   */
  function Substring(s: AttrString, location: int, length: int): (r: Run<AttrString>)
    ensures !r.OutOfFuel?
    ensures r.Done? <==> 0 <= location && 0 <= length && location + length <= |s|
    ensures r.Done? ==> |r.value| == length && forall i :: 0 <= i < length ==> r.value[i] == s[location + i]
  {
    if 0 <= location && 0 <= length && location + length <= |s| then Done(s[location..location + length])
    else Traps
  }

  /** The token a substring becomes; names of sections and partials drop their attributes. */
  function MakeToken(kind: Kind, sub: Run<AttrString>): (r: Run<Token>)
    ensures r.Done? <==> sub.Done?
    ensures r.Traps? <==> sub.Traps?
    ensures r.Done? && kind == KText ==> r.value == TText(sub.value)
    ensures r.Done? && kind == KTag ==> r.value == TTag(sub.value)
    ensures r.Done? && kind == KUnescapedTag ==> r.value == TUnescapedTag(sub.value)
    ensures r.Done? && kind == KSectionStart ==> r.value == TSectionStart(Chars(sub.value))
    ensures r.Done? && kind == KInvertedSectionStart ==> r.value == TInvertedSectionStart(Chars(sub.value))
    ensures r.Done? && kind == KSectionEnd ==> r.value == TSectionEnd(Chars(sub.value))
    ensures r.Done? && kind == KPartial ==> r.value == TPartial(Chars(sub.value))
  {
    match sub
    case Done(s) =>
      Done(match kind
        case KText => TText(s)
        case KTag => TTag(s)
        case KUnescapedTag => TUnescapedTag(s)
        case KSectionStart => TSectionStart(Chars(s))
        case KInvertedSectionStart => TInvertedSectionStart(Chars(s))
        case KSectionEnd => TSectionEnd(Chars(s))
        case KPartial => TPartial(Chars(s)))
    case OutOfFuel => OutOfFuel
    case Traps => Traps
  }

  /**
   * The text token for a tag that is never closed: everything from the
   * tag's first open delimiter to the end of the input.
   */
  function UnterminatedText(s: AttrString, startCursor: int): (r: Run<Token>)
    ensures 0 <= startCursor <= |s| ==> r == Done(TText(s[startCursor..]))
    ensures startCursor > |s| ==> r == Traps
  {
    var sub := Substring(s, startCursor, |s| - startCursor);
    assert 0 <= startCursor <= |s| ==> s[startCursor..startCursor + (|s| - startCursor)] == s[startCursor..];
    MakeToken(KText, sub)
  }

  /** A token wrapped as the optional token `parseTagOrText` returns. */
  function SomeToken(t: Run<Token>): (r: Run<Option<Token>>)
    ensures r.Done? <==> t.Done?
    ensures r.Done? ==> r.value == Some(t.value)
    ensures r.Traps? <==> t.Traps?
  {
    match t
    case Done(tok) => Done(Some(tok))
    case OutOfFuel => OutOfFuel
    case Traps => Traps
  }

  /** `AttributedMustacheParser`: delimiters, the input being parsed, its code units and a cursor. */
  class Parser {
    var cStart: char
    var cEnd: char
    var attributedString: Option<AttrString>
    var characters: seq<char>
    var cursor: nat

    /** `init()`: the default `{` and `}` delimiters and no input. */
    constructor ()
      ensures cStart == '{' && cEnd == '}'
      ensures attributedString == None && characters == [] && cursor == 0
    {
      cStart := '{';
      cEnd := '}';
      attributedString := None;
      characters := [];
      cursor := 0;
    }

    /** The `openCharacter` getter. */
    function OpenCharacter(): (r: char)
      reads this
      ensures r == cStart
    {
      cStart
    }

    /** The `closeCharacter` getter. */
    function CloseCharacter(): (r: char)
      reads this
      ensures r == cEnd
    {
      cEnd
    }

    /** The `openCharacter` setter: the first code unit of the character. */
    method SetOpenCharacter(c: char)
      modifies this`cStart
      ensures cStart == c
    {
      cStart := c;
    }

    /** The `closeCharacter` setter: the first code unit of the character. */
    method SetCloseCharacter(c: char)
      modifies this`cEnd
      ensures cEnd == c
    {
      cEnd := c;
    }

    /** The state `parse` sets up: an input and its code units. */
    predicate Loaded()
      reads this
    {
      attributedString.Some? && characters == Chars(attributedString.value)
    }

    /**
     * `hitEOF`, as written: true without an input, and otherwise while the
     * cursor is still before the end of the input.
     */
    function HitEOF(): (r: bool)
      reads this
      ensures attributedString.None? ==> r
      ensures attributedString.Some? ==> (r <==> cursor < |attributedString.value|)
    {
      match attributedString
      case None => true
      case Some(s) => cursor < |s|
    }

    /**
     * `la(p)`: nothing once `cursor + p` is past the code units, and
     * otherwise the unit at `p` itself, wherever the cursor is.
     */
    function La(p: nat): (r: Option<char>)
      reads this
      ensures r.None? <==> cursor + p >= |characters|
      ensures r.Some? ==> p < |characters| && r.value == characters[p]
    {
      if cursor + p < |characters| then Some(characters[p]) else None
    }

    /** `la0`: `la(0)`, with 0 for nothing. */
    function La0(): (r: char)
      reads this
      ensures r == (if cursor < |characters| then characters[0] else NUL)
    {
      match La(0)
      case Some(c) => c
      case None => NUL
    }

    /** `la1`: `la(1)`, with 0 for nothing. */
    function La1(): (r: char)
      reads this
      ensures r == (if cursor + 1 < |characters| then characters[1] else NUL)
    {
      match La(1)
      case Some(c) => c
      case None => NUL
    }

    /** `la2`: `la(2)`, with 0 for nothing. */
    function La2(): (r: char)
      reads this
      ensures r == (if cursor + 2 < |characters| then characters[2] else NUL)
    {
      match La(2)
      case Some(c) => c
      case None => NUL
    }

    /**
     * `parseText`. When `hitEOF` holds it returns an empty string at once.
     * Otherwise the cursor is at or past the end, so it never returns a
     * text: on a loaded input the loop runs on for ever unless the open
     * delimiter is NUL, and then the range check traps.
     */
    method ParseText(fuel: nat) returns (r: Run<AttrString>)
      modifies this`cursor
      ensures old(HitEOF()) ==> r == Done([]) && cursor == old(cursor)
      ensures !old(HitEOF()) ==> !r.Done?
      ensures !old(HitEOF()) && Loaded() ==> r == (if cStart == NUL then Traps else OutOfFuel)
    {
      if HitEOF() || attributedString.None? {
        return Done([]);
      }
      var s := attributedString.value;
      var startCursor := cursor;
      var steps := fuel;
      while steps > 0 && !HitEOF() && La0() != cStart && La1() != cStart
        invariant |s| <= startCursor <= cursor
        invariant attributedString == Some(s)
        invariant Loaded() && cStart != NUL ==> cursor == startCursor + (fuel - steps)
        decreases steps
      {
        cursor := cursor + 1;
        steps := steps - 1;
      }
      if !HitEOF() && La0() != cStart && La1() != cStart {
        return OutOfFuel;
      }
      var location := startCursor;
      var length := cursor - startCursor;
      // the two `assert`s on the range
      if !(location < |s|) || !(location + length <= |s|) {
        return Traps;
      }
      r := Substring(s, location, length);
    }

    /**
     * `parseTag`. When its guard fails it returns an empty text at once.
     * When the guard holds the cursor is at or past the end of the input,
     * and no call returns a token.
     */
    method ParseTag(fuel: nat) returns (r: Run<Token>)
      modifies this`cursor
      ensures old(HitEOF() || La0() != cStart || La1() != cStart) ==>
        r == Done(TText([])) && cursor == old(cursor)
      ensures !old(HitEOF() || La0() != cStart || La1() != cStart) ==> !r.Done?
    {
      if HitEOF() || !(La0() == cStart && La1() == cStart) || attributedString.None? {
        return Done(TText([]));
      }
      var s := attributedString.value;
      var isUnescaped := La2() == cStart;
      var startCursor := cursor;
      cursor := cursor + (if isUnescaped then 3 else 2);
      var contentStart := cursor;
      var steps := fuel;
      while steps > 0 && !HitEOF()
        invariant |s| <= startCursor < contentStart <= cursor
        invariant attributedString == Some(s)
        decreases steps
      {
        if La0() == cEnd && La1() == cEnd && (!isUnescaped || La2() == cEnd) {
          r := ParseClosedTag(s, isUnescaped, contentStart);
          return;
        }
        cursor := cursor + 1;
        steps := steps - 1;
      }
      if !HitEOF() {
        return OutOfFuel;
      }
      r := UnterminatedText(s, startCursor);
    }

    /**
     * The branch of `parseTag` that has found the closing delimiters at the
     * cursor. It skips them first, and then computes the content range up
     * to the new cursor and reads the type character through `la0`.
     */
    method ParseClosedTag(s: AttrString, isUnescaped: bool, contentStart: nat) returns (r: Run<Token>)
      modifies this`cursor
      ensures cursor == old(cursor) + (if isUnescaped then 3 else 2)
      ensures !r.OutOfFuel?
      ensures contentStart > |s| ==> !r.Done?
      ensures isUnescaped ==> r == MakeToken(KUnescapedTag, Substring(s, contentStart, cursor - contentStart))
      ensures !isUnescaped && La0() == '#' ==>
        r == MakeToken(KSectionStart, Substring(s, contentStart + 1, cursor - (contentStart + 1)))
      ensures !isUnescaped && La0() == '^' ==>
        r == MakeToken(KInvertedSectionStart, Substring(s, contentStart + 1, cursor - (contentStart + 1)))
      ensures !isUnescaped && La0() == '/' ==>
        r == MakeToken(KSectionEnd, Substring(s, contentStart + 1, cursor - (contentStart + 1)))
      ensures !isUnescaped && La0() == '>' ==>
        r == match PartialNameStart(contentStart + 1)
             case None => Traps
             case Some(n) => MakeToken(KPartial, Substring(s, n, cursor - n))
      ensures !isUnescaped && La0() == '&' && AmpersandLa1(contentStart) == ' ' ==>
        r == MakeToken(KUnescapedTag, Substring(s, contentStart + 2, cursor - contentStart - 2))
      ensures !isUnescaped && La0() == '&' && AmpersandLa1(contentStart) != ' ' ==>
        r == MakeToken(KTag, Substring(s, contentStart, cursor - contentStart))
      ensures !isUnescaped && La0() !in "#^/>&" ==>
        r == MakeToken(KTag, Substring(s, contentStart, cursor - contentStart))
    {
      if isUnescaped {
        cursor := cursor + 3;
        return MakeToken(KUnescapedTag, Substring(s, contentStart, cursor - contentStart));
      }
      cursor := cursor + 2;
      var typec := La0();
      if typec == '#' {
        return MakeToken(KSectionStart, Substring(s, contentStart + 1, cursor - (contentStart + 1)));
      } else if typec == '^' {
        return MakeToken(KInvertedSectionStart, Substring(s, contentStart + 1, cursor - (contentStart + 1)));
      } else if typec == '/' {
        return MakeToken(KSectionEnd, Substring(s, contentStart + 1, cursor - (contentStart + 1)));
      } else if typec == '>' {
        var nameStart := SkipPartialSpaces(contentStart + 1);
        match nameStart {
          case None => return Traps;
          case Some(n) => return MakeToken(KPartial, Substring(s, n, cursor - n));
        }
      } else if typec == '&' && AmpersandLa1(contentStart) == ' ' {
        return MakeToken(KUnescapedTag, Substring(s, contentStart + 2, cursor - contentStart - 2));
      }
      return MakeToken(KTag, Substring(s, contentStart, cursor - contentStart));
    }

    /** The unit after the `&`, read directly from the code units, or 0 past them. */
    function AmpersandLa1(contentStart: nat): (r: char)
      reads this
      ensures r != NUL ==> contentStart + 1 < |characters| && r == characters[contentStart + 1]
    {
      if |characters| > contentStart + 1 then characters[contentStart + 1] else NUL
    }

    /**
     * Where the name of a partial starts: from `start`, past the spaces
     * before the cursor. It never moves past the cursor, and it is `None`
     * (a trap) when the skip reads past the code units.
     */
    function PartialNameStart(start: nat): (r: Option<nat>)
      reads this
      ensures r.Some? ==> start <= r.value && (start <= cursor ==> r.value <= cursor)
      ensures r.Some? && start >= cursor ==> r.value == start
      ensures r.Some? && start < r.value ==> r.value <= |characters|
      ensures r.Some? ==> forall i :: start <= i < r.value && i < |characters| ==> characters[i] == ' '
      ensures r.Some? ==> r.value >= cursor || (r.value < |characters| && characters[r.value] != ' ')
      ensures r.None? ==> |characters| < cursor
      ensures r.None? ==> forall i :: start <= i < |characters| ==> characters[i] == ' '
      decreases cursor - start
    {
      if start >= cursor then Some(start)
      else if start >= |characters| then None
      else if characters[start] != ' ' then Some(start)
      else PartialNameStart(start + 1)
    }

    /** The space skip of a partial name, as the loop of `parseTag` runs it. */
    method SkipPartialSpaces(start: nat) returns (r: Option<nat>)
      ensures r == PartialNameStart(start)
    {
      var cs := start;
      while cs < cursor
        invariant start <= cs
        invariant PartialNameStart(cs) == PartialNameStart(start)
        decreases cursor - cs
      {
        if cs >= |characters| {
          return None;
        }
        if characters[cs] != ' ' {
          break;
        }
        cs := cs + 1;
      }
      return Some(cs);
    }

    /** `parseTagOrText`: nothing when `hitEOF` holds, otherwise a tag or a text. */
    method ParseTagOrText(fuel: nat) returns (r: Run<Option<Token>>)
      modifies this`cursor
      ensures old(HitEOF()) ==> r == Done(None) && cursor == old(cursor)
    {
      if HitEOF() {
        return Done(None);
      }
      if La0() == cStart && La1() == cStart {
        var t := ParseTag(fuel);
        r := SomeToken(t);
      } else {
        var t := ParseText(fuel);
        r := SomeToken(MakeToken(KText, t));
      }
    }

    /**
     * `parseNode(sectionEnd:)`: a node for a token; a section start parses
     * its children, and a section end of any name ends the list.
     */
    method ParseNode(fuel: nat, se: Option<string>) returns (r: Run<Option<Node>>)
      modifies this`cursor
      ensures old(HitEOF()) ==> r == Done(None) && cursor == old(cursor)
      decreases fuel, 0
    {
      var t := ParseTagOrText(fuel);
      match t {
        case OutOfFuel => return OutOfFuel;
        case Traps => return Traps;
        case Done(None) => return Done(None);
        case Done(Some(tok)) =>
          match tok {
            case TText(s) => return Done(Some(Text(s)));
            case TTag(s) => return Done(Some(Tag(s)));
            case TUnescapedTag(s) => return Done(Some(UnescapedTag(s)));
            case TPartial(s) => return Done(Some(Partial(s)));
            case TSectionStart(s) =>
              if fuel == 0 {
                return OutOfFuel;
              }
              var children := ParseNodes(fuel - 1, Some(s));
              match children {
                case Done(None) => return Done(Some(Empty));
                case Done(Some(c)) => return Done(Some(Section(s, c)));
                case OutOfFuel => return OutOfFuel;
                case Traps => return Traps;
              }
            case TInvertedSectionStart(s) =>
              if fuel == 0 {
                return OutOfFuel;
              }
              var children := ParseNodes(fuel - 1, Some(s));
              match children {
                case Done(None) => return Done(Some(Empty));
                case Done(Some(c)) => return Done(Some(InvertedSection(s, c)));
                case OutOfFuel => return OutOfFuel;
                case Traps => return Traps;
              }
            case TSectionEnd(_) => return Done(None);
          }
      }
    }

    /**
     * `parseNodes(section:)`: nothing when `hitEOF` holds, otherwise the
     * nodes up to the end of the list, empty nodes left out.
     */
    method ParseNodes(fuel: nat, se: Option<string>) returns (r: Run<Option<seq<Node>>>)
      modifies this`cursor
      ensures old(HitEOF()) ==> r == Done(None) && cursor == old(cursor)
      decreases fuel, 1
    {
      if HitEOF() {
        return Done(None);
      }
      var nodes: seq<Node> := [];
      var steps := fuel;
      while steps > 0
        decreases steps
      {
        var node := ParseNode(fuel, se);
        match node {
          case Done(None) => return Done(Some(nodes));
          case Done(Some(n)) =>
            if n != Empty {
              nodes := nodes + [n];
            }
          case OutOfFuel => return OutOfFuel;
          case Traps => return Traps;
        }
        steps := steps - 1;
      }
      return OutOfFuel;
    }

    /**
     * `parse(attributedString:)`. An input whose string is empty returns
     * `Empty` and leaves the parser alone. Any other input is loaded with
     * the cursor at 0, where `hitEOF` holds, so `parseNodes` returns
     * nothing and the result is `Empty` too; the deferred reset then
     * clears the input, the code units and the cursor. The result is
     * `Empty` for every input and every bound.
     */
    method Parse(s: AttrString, fuel: nat) returns (r: Run<Node>)
      modifies this`attributedString, this`characters, this`cursor
      ensures r == Done(Empty)
      ensures Chars(s) == [] ==>
        attributedString == old(attributedString) && characters == old(characters) && cursor == old(cursor)
      ensures Chars(s) != [] ==> attributedString == None && characters == [] && cursor == 0
    {
      if Chars(s) == [] {
        return Done(Empty);
      }
      attributedString := Some(s);
      characters := Chars(s);
      cursor := 0;
      var nodes := ParseNodes(fuel, None);
      attributedString, cursor, characters := None, 0, [];
      match nodes {
        case Done(None) => r := Done(Empty);
        case Done(Some(ns)) => r := Done(Global(ns));
        case OutOfFuel => r := OutOfFuel;
        case Traps => r := Traps;
      }
    }
  }
}
