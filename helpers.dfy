/**
 * The values a template is rendered against, and `Mustache.isMustacheTrue`
 * and `Mustache.isFoundationBaseType` over them.
 *
 * The source works on `Any?` and classifies a value by dynamic casts and by
 * the display style and children of its `Mirror`. Here the values form a
 * closed datatype whose constructors are the cases those casts tell apart;
 * a `Reflected` value carries the display style and the children its
 * mirror would report.
 */
module Helpers {
  import opened Wrappers
  import opened AttributedText

  /** `Mirror.DisplayStyle`. */
  datatype DisplayStyle =
    | CollectionStyle
    | DictionaryStyle
    | SetStyle
    | ClassStyle
    | StructStyle
    | EnumStyle
    | TupleStyle
    | OptionalStyle

  /**
   * The body of a lambda: a small expression over the section text it is
   * given. `Render(e)` calls the re-render callback of a full lambda on the
   * value of `e`.
   */
  datatype LambdaExpr<S> =
    | Lit(s: S)
    | Input
    | Cat(left: LambdaExpr<S>, right: LambdaExpr<S>)
    | Render(arg: LambdaExpr<S>)

  /**
   * The four closure types a section value can have: with or without the
   * re-render callback, over `String` or over `NSAttributedString`.
   */
  datatype Lambda =
    | PlainFull(body: LambdaExpr<string>)
    | PlainSimple(body: LambdaExpr<string>)
    | AttributedFull(abody: LambdaExpr<AttrString>)
    | AttributedSimple(abody: LambdaExpr<AttrString>)

  /**
   * A value of the render context: `nil`, the Swift scalars the truthiness
   * test casts to, an `NSNumber` (by identity and its `boolValue`), an
   * `NSAttributedString`, a reflected value (struct, class, dictionary,
   * collection, ...) with its display style, its children and whether it
   * is an `NSString` or `NSValue`, a value whose mirror has no display
   * style, and a closure.
   */
  datatype Value =
    | Nil
    | Bool(b: bool)
    | Int(i: int)
    | Str(s: string)
    | Number(id: nat, boolValue: bool)
    | AttrStr(a: AttrString)
    | Reflected(id: nat, style: DisplayStyle, children: seq<Value>, baseType: bool)
    | Opaque(id: nat)
    | Func(f: Lambda)

  /**
   * The display style of the value's mirror. Swift scalars, strings and
   * closures report none; `NSNumber` and `NSAttributedString` are classes.
   */
  function DisplayStyleOf(v: Value): (r: Option<DisplayStyle>)
    ensures r.Some? <==> v.Number? || v.AttrStr? || v.Reflected?
    ensures v.Number? || v.AttrStr? ==> r == Some(ClassStyle)
    ensures v.Reflected? ==> r == Some(v.style)
  {
    match v
    case Number(_, _) => Some(ClassStyle)
    case AttrStr(_) => Some(ClassStyle)
    case Reflected(_, style, _, _) => Some(style)
    case _ => None
  }

  /**
   * `isFoundationBaseType`: an `NSNumber`, or an `NSString` or `NSValue`
   * object. All of them are classes.
   */
  function IsFoundationBaseType(v: Value): (r: bool)
    ensures r ==> DisplayStyleOf(v) == Some(ClassStyle)
    ensures v.AttrStr? || v.Func? || v.Opaque? ==> !r
  {
    v.Number? || (v.Reflected? && v.style == ClassStyle && v.baseType)
  }

  /**
   * `isMustacheTrue`: whether a section shows its contents for the value.
   * After the casts, a value without display style is false, one with a
   * display style other than collection is true, and a collection is true
   * when it has children.
   */
  function IsMustacheTrue(v: Value): (r: bool)
    ensures v.Nil? ==> !r
    ensures v.Bool? ==> r == v.b
    ensures v.Int? ==> (r <==> v.i != 0)
    ensures v.Str? ==> (r <==> v.s != [])
    ensures v.Number? ==> r == v.boolValue
    ensures v.Func? || v.Opaque? ==> !r
    ensures v.Reflected? && v.style != CollectionStyle ==> r
    ensures v.Reflected? && v.style == CollectionStyle ==> (r <==> |v.children| > 0)
  {
    match v
    case Nil => false
    case Bool(b) => b
    case Int(i) => i != 0
    case Str(s) => s != []
    case Number(_, b) => b
    case AttrStr(_) => true
    case Reflected(_, style, children, _) => style != CollectionStyle || |children| > 0
    case Opaque(_) => false
    case Func(_) => false
  }

  /**
   * The values a section hides: exactly `nil`, `false`, `0`, `""`, a false
   * `NSNumber`, a value without display style (closures among them) and an
   * empty collection.
   */
  lemma FalsyValues(v: Value)
    ensures !IsMustacheTrue(v) <==>
      v == Nil || v == Bool(false) || v == Int(0) || v == Str([]) ||
      (v.Number? && !v.boolValue) || v.Opaque? || v.Func? ||
      (v.Reflected? && v.style == CollectionStyle && v.children == [])
  {
  }

  /** A dictionary, struct or object is true whatever it holds, even when it is empty. */
  lemma EmptyDictionaryIsTrue(id: nat, base: bool)
    ensures IsMustacheTrue(Reflected(id, DictionaryStyle, [], base))
    ensures !IsMustacheTrue(Reflected(id, CollectionStyle, [], base))
  {
  }
}
