/**
 * Attributed strings (Foundation's `NSAttributedString`) as sequences of
 * characters, each carrying its own attribute dictionary. The attribute
 * values themselves are opaque strings; only their identity matters.
 */
module AttributedText {

  /** An attribute dictionary, `[NSAttributedString.Key : Any]`. */
  type Attributes = map<string, string>

  /** The attributes of a string built with `NSAttributedString(string:)`. */
  const NoAttributes: Attributes := map[]

  datatype AttrChar = AttrChar(c: char, attrs: Attributes)

  type AttrString = seq<AttrChar>

  /** The `.string` of an attributed string: its characters, attributes dropped. */
  function Chars(s: AttrString): (r: string)
    ensures |r| == |s|
    ensures forall i :: 0 <= i < |s| ==> r[i] == s[i].c
  {
    if s == [] then [] else Chars(s[..|s| - 1]) + [s[|s| - 1].c]
  }

  /** `NSAttributedString(string: s, attributes: a)`: every character gets `a`. */
  function WithAttributes(s: string, a: Attributes): (r: AttrString)
    ensures |r| == |s|
    ensures forall i :: 0 <= i < |s| ==> r[i] == AttrChar(s[i], a)
  {
    if s == [] then [] else WithAttributes(s[..|s| - 1], a) + [AttrChar(s[|s| - 1], a)]
  }

  /** `NSAttributedString(string: s)`. */
  function Unattributed(s: string): (r: AttrString)
    ensures |r| == |s|
    ensures forall i :: 0 <= i < |s| ==> r[i] == AttrChar(s[i], NoAttributes)
  {
    WithAttributes(s, NoAttributes)
  }

  /** `.string` distributes over `append`. */
  lemma CharsAppend(a: AttrString, b: AttrString)
    ensures Chars(a + b) == Chars(a) + Chars(b)
  {
  }

  /** The `.string` of a freshly attributed string is the string it was built from. */
  lemma CharsWithAttributes(s: string, a: Attributes)
    ensures Chars(WithAttributes(s, a)) == s
  {
  }

  /** `NSMutableAttributedString`: an attributed string that grows in place. */
  class MutableAttrString {
    var contents: AttrString

    /** `NSMutableAttributedString()`: empty. */
    constructor ()
      ensures contents == []
    {
      contents := [];
    }

    /** `append(_:)`: adds `s`, attributes included, at the end. */
    method Append(s: AttrString)
      modifies this
      ensures contents == old(contents) + s
    {
      contents := contents + s;
    }
  }
}
