/**
 * Rendering an `AttributedMustacheNode` tree against a value, into an
 * attributed rendering context (the extension methods `render(...)` of the
 * attributed module).
 *
 * The attributed renderer differs from the plain one in four ways: tags are
 * never escaped, a tag's value takes the attributes of the first character
 * of the tag's key (an attributed string value keeps its own), a section
 * value can be any of four kinds of lambda, and a lambda's re-render
 * callback renders in a default context, which has no partials.
 *
 * As in the plain renderer, `Rendered` and its companions specify the
 * output as a function of the scope stack, and every partial and every
 * re-render callback consumes one unit of `fuel`.
 */
module AttributedMustacheRendering {
  import opened Wrappers
  import opened Helpers
  import opened AttributedText
  import opened AttributedMustacheNode
  import opened AttributedRenderingContext
  import AP = AttributedMustacheParser

  /**
   * What an attributed context provides besides its output and stack: the
   * key-value coding lookup, the description of a value (`String(describing:)`)
   * and `retrievePartial(name:)`.
   */
  datatype Env = Env(
    kvc: KeyValueCoding,
    describe: Value -> string,
    partials: string -> Option<Node>)

  /** The environment of a context. */
  function EnvOf(ctx: DefaultContext, describe: Value -> string): Env {
    Env(ctx.kvc, describe, ctx.partials)
  }

  /** The environment of a lambda context: a default context resolves no partial. */
  function LambdaEnv(env: Env): Env {
    Env(env.kvc, env.describe, NoPartial)
  }

  // ---------------------------------------------------------------------
  // Specification of the output

  /**
   * `tag.attributes(at: 0, ...)`: the attributes of the key's first
   * character (the source traps on an empty key; see the README).
   */
  function KeyAttributes(k: AttrString): Attributes {
    if k == [] then NoAttributes else k[0].attrs
  }

  /** The text a tag shows for a value: a string itself, anything else its description. */
  function TagText(env: Env, v: Value): (r: string)
    ensures v.Str? ==> r == v.s
    ensures !v.Str? ==> r == env.describe(v)
  {
    if v.Str? then v.s else env.describe(v)
  }

  /**
   * The attributed string a tag shows for a value that is not `nil`: an
   * attributed string value as it is, and any other value's text, unescaped,
   * with every character carrying the attributes of the tag's key.
   */
  function TagContent(env: Env, v: Value, k: AttrString): (r: AttrString)
    ensures v.AttrStr? ==> r == v.a
    ensures !v.AttrStr? ==> Chars(r) == TagText(env, v)
    ensures !v.AttrStr? ==> forall i :: 0 <= i < |r| ==> r[i].attrs == KeyAttributes(k)
  {
    if v.AttrStr? then v.a
    else
      CharsWithAttributes(TagText(env, v), KeyAttributes(k));
      WithAttributes(TagText(env, v), KeyAttributes(k))
  }

  /** What a tag (escaped or not) appends: nothing for `nil`, else `TagContent`. */
  function TagOutput(env: Env, stack: seq<Value>, k: AttrString): AttrString {
    var v := Lookup(env.kvc, stack, Chars(k));
    if v == Nil then [] else TagContent(env, v, k)
  }

  /** What `n.render(inContext:)` appends for the scope stack `stack`. */
  function Rendered(env: Env, fuel: nat, stack: seq<Value>, n: Node): AttrString
    decreases fuel, n, 0
  {
    match n
    case Empty => []
    case Global(ns) => RenderedAll(env, fuel, stack, ns)
    case Text(t) => t
    case Section(k, ns) => SectionOutput(env, fuel, stack, k, ns)
    case InvertedSection(k, ns) =>
      if IsMustacheTrue(Lookup(env.kvc, stack, k)) then [] else RenderedAll(env, fuel, stack, ns)
    case Tag(k) => TagOutput(env, stack, k)
    case UnescapedTag(k) => TagOutput(env, stack, k)
    case Partial(name) =>
      match env.partials(name)
      case None => []
      case Some(p) => if fuel == 0 then [] else Rendered(env, fuel - 1, stack, p)
  }

  /** What `render(nodes:inContext:)` appends: the nodes' outputs, in order. */
  function RenderedAll(env: Env, fuel: nat, stack: seq<Value>, ns: seq<Node>): AttrString
    decreases fuel, ns, 1
  {
    if ns == [] then []
    else RenderedAll(env, fuel, stack, ns[..|ns| - 1]) + Rendered(env, fuel, stack, ns[|ns| - 1])
  }

  /**
   * What `render(section:nodes:inContext:)` appends: nothing for `nil`; the
   * result of a full lambda (attributed or plain) alone; the result of a
   * simple lambda followed by nothing, as a function value is false; nothing
   * for a false value; and otherwise the children as `ValueBody` renders them.
   * A plain lambda's result is appended without attributes.
   */
  function SectionOutput(env: Env, fuel: nat, stack: seq<Value>, k: string, ns: seq<Node>): AttrString
    decreases fuel, ns, 4
  {
    var v := Lookup(env.kvc, stack, k);
    if v == Nil then []
    else if v.Func? && v.f.AttributedFull? then AttrLambdaOutput(env, fuel, stack, ns, v.f.abody, true)
    else if v.Func? && v.f.PlainFull? then Unattributed(PlainLambdaOutput(env, fuel, stack, ns, v.f.body, true))
    else
      var pre :=
        if v.Func? && v.f.AttributedSimple? then AttrLambdaOutput(env, fuel, stack, ns, v.f.abody, false)
        else if v.Func? && v.f.PlainSimple? then Unattributed(PlainLambdaOutput(env, fuel, stack, ns, v.f.body, false))
        else [];
      pre + (if !IsMustacheTrue(v) then [] else ValueBody(env, fuel, stack, ns, v))
  }

  /**
   * The children of a section with a true value, by the value's display
   * style: once per element of a collection with the element entered, once
   * with a class or dictionary entered unless it is a Foundation base type,
   * and otherwise once in the current scope.
   */
  function ValueBody(env: Env, fuel: nat, stack: seq<Value>, ns: seq<Node>, v: Value): AttrString
    decreases fuel, ns, 3
  {
    match DisplayStyleOf(v)
    case None => RenderedAll(env, fuel, stack, ns)
    case Some(CollectionStyle) => Iterations(env, fuel, stack, ns, v.children)
    case Some(ClassStyle) =>
      if IsFoundationBaseType(v) then RenderedAll(env, fuel, stack, ns) else RenderedAll(env, fuel, stack + [v], ns)
    case Some(DictionaryStyle) =>
      if IsFoundationBaseType(v) then RenderedAll(env, fuel, stack, ns) else RenderedAll(env, fuel, stack + [v], ns)
    case Some(_) => RenderedAll(env, fuel, stack, ns)
  }

  /** The children once per item, each time with the item as the innermost scope. */
  function Iterations(env: Env, fuel: nat, stack: seq<Value>, ns: seq<Node>, items: seq<Value>): AttrString
    decreases fuel, ns, 2, items
  {
    if items == [] then []
    else Iterations(env, fuel, stack, ns, items[..|items| - 1]) + RenderedAll(env, fuel, stack + [items[|items| - 1]], ns)
  }

  /**
   * The result of an attributed lambda's body given the children serialized
   * with `asMustacheAttributedString`. A simple lambda's `Render(e)` is `e`.
   */
  function AttrLambdaOutput(env: Env, fuel: nat, stack: seq<Value>, ns: seq<Node>,
                            e: LambdaExpr<AttrString>, full: bool): AttrString
    decreases fuel, ns, 1, e
  {
    match e
    case Lit(s) => s
    case Input => AttrSerializedAll(ns)
    case Cat(a, b) => AttrLambdaOutput(env, fuel, stack, ns, a, full) + AttrLambdaOutput(env, fuel, stack, ns, b, full)
    case Render(a) =>
      var m2 := AttrLambdaOutput(env, fuel, stack, ns, a, full);
      if full then AttrCallbackOutput(env, fuel, stack, ns, m2) else m2
  }

  /**
   * The attributed re-render callback: the children, rendered in a lambda
   * context, when it is given their own source; otherwise the original
   * source parsed again, which the attributed parser turns into the empty
   * node, so that nothing is rendered.
   */
  function AttrCallbackOutput(env: Env, fuel: nat, stack: seq<Value>, ns: seq<Node>,
                              mustacheToRender: AttrString): AttrString
    decreases fuel, ns, 0
  {
    if fuel == 0 then []
    else
      var tree := if AttrSerializedAll(ns) == mustacheToRender then Global(ns) else Empty;
      Rendered(LambdaEnv(env), fuel - 1, stack, tree)
  }

  /** The result of a plain lambda's body given the children serialized with `asMustacheString`. */
  function PlainLambdaOutput(env: Env, fuel: nat, stack: seq<Value>, ns: seq<Node>,
                             e: LambdaExpr<string>, full: bool): string
    decreases fuel, ns, 1, e
  {
    match e
    case Lit(s) => s
    case Input => StringSerializedAll(ns)
    case Cat(a, b) => PlainLambdaOutput(env, fuel, stack, ns, a, full) + PlainLambdaOutput(env, fuel, stack, ns, b, full)
    case Render(a) =>
      var m2 := PlainLambdaOutput(env, fuel, stack, ns, a, full);
      if full then PlainCallbackOutput(env, fuel, stack, ns, m2) else m2
  }

  /** The plain re-render callback: as the attributed one, returning the output's `.string`. */
  function PlainCallbackOutput(env: Env, fuel: nat, stack: seq<Value>, ns: seq<Node>,
                               mustacheToRender: string): string
    decreases fuel, ns, 0
  {
    if fuel == 0 then ""
    else
      var tree := if StringSerializedAll(ns) == mustacheToRender then Global(ns) else Empty;
      Chars(Rendered(LambdaEnv(env), fuel - 1, stack, tree))
  }

  // ---------------------------------------------------------------------
  // The renderer

  /** `render(inContext:)`. */
  method RenderNode(n: Node, ctx: DefaultContext, describe: Value -> string, fuel: nat)
    modifies ctx
    ensures ctx.output == old(ctx.output) + Rendered(EnvOf(ctx, describe), fuel, old(ctx.stack), n)
    ensures ctx.stack == old(ctx.stack)
    decreases fuel, n, 0
  {
    match n {
      case Empty =>
      case Global(ns) =>
        RenderNodes(ns, ctx, describe, fuel);
      case Text(t) =>
        ctx.Append(t);
      case Section(k, ns) =>
        RenderSection(k, ns, ctx, describe, fuel);
      case InvertedSection(k, ns) =>
        var v := ctx.ValueForTag(k);
        if !IsMustacheTrue(v) {
          RenderNodes(ns, ctx, describe, fuel);
        }
      case Tag(k) =>
        RenderTag(k, ctx, describe);
      case UnescapedTag(k) =>
        RenderTag(k, ctx, describe);
      case Partial(name) =>
        var partial := ctx.RetrievePartial(name);
        if partial.Some? && fuel > 0 {
          RenderNode(partial.value, ctx, describe, fuel - 1);
        }
    }
  }

  /** The shared case of `.tag` and `.unescapedTag`: no escaping. */
  method RenderTag(k: AttrString, ctx: DefaultContext, describe: Value -> string)
    modifies ctx`output
    ensures ctx.output == old(ctx.output) + TagOutput(EnvOf(ctx, describe), ctx.stack, k)
  {
    var v := ctx.ValueForTag(Chars(k));
    if v == Nil {
      return;
    }
    var attributes := KeyAttributes(k);
    var content: AttrString;
    if v.AttrStr? {
      content := v.a;
    } else if v.Str? {
      content := WithAttributes(v.s, attributes);
    } else {
      content := WithAttributes(describe(v), attributes);
    }
    ctx.Append(content);
  }

  /** `render(nodes:inContext:)`: each node in turn, into the same context. */
  method RenderNodes(ns: seq<Node>, ctx: DefaultContext, describe: Value -> string, fuel: nat)
    modifies ctx
    ensures ctx.output == old(ctx.output) + RenderedAll(EnvOf(ctx, describe), fuel, old(ctx.stack), ns)
    ensures ctx.stack == old(ctx.stack)
    decreases fuel, ns, 1
  {
    ghost var out0 := ctx.output;
    for i := 0 to |ns|
      invariant ctx.output == out0 + RenderedAll(EnvOf(ctx, describe), fuel, ctx.stack, ns[..i])
      invariant ctx.stack == old(ctx.stack)
    {
      assert ns[..i + 1][..i] == ns[..i];
      RenderNode(ns[i], ctx, describe, fuel);
    }
    assert ns[..|ns|] == ns;
  }

  /** `render(section:nodes:inContext:)`: the four lambda kinds in the source's order, then the value. */
  method RenderSection(k: string, ns: seq<Node>, ctx: DefaultContext, describe: Value -> string, fuel: nat)
    modifies ctx
    ensures ctx.output == old(ctx.output) + SectionOutput(EnvOf(ctx, describe), fuel, old(ctx.stack), k, ns)
    ensures ctx.stack == old(ctx.stack)
    decreases fuel, ns, 4
  {
    var v := ctx.ValueForTag(k);
    if v == Nil {
      return;
    }
    if v.Func? && v.f.AttributedFull? {
      RenderAttrLambda(v.f.abody, true, ns, ctx, describe, fuel);
      return;
    } else if v.Func? && v.f.AttributedSimple? {
      RenderAttrLambda(v.f.abody, false, ns, ctx, describe, fuel);
    } else if v.Func? && v.f.PlainFull? {
      RenderPlainLambda(v.f.body, true, ns, ctx, describe, fuel);
      return;
    } else if v.Func? && v.f.PlainSimple? {
      RenderPlainLambda(v.f.body, false, ns, ctx, describe, fuel);
    }
    if !IsMustacheTrue(v) {
      return;
    }
    RenderValueBody(ns, ctx, describe, v, fuel);
  }

  /** The display-style dispatch at the end of `render(section:nodes:inContext:)`. */
  method RenderValueBody(ns: seq<Node>, ctx: DefaultContext, describe: Value -> string, v: Value, fuel: nat)
    modifies ctx
    ensures ctx.output == old(ctx.output) + ValueBody(EnvOf(ctx, describe), fuel, old(ctx.stack), ns, v)
    ensures ctx.stack == old(ctx.stack)
    decreases fuel, ns, 3
  {
    var ds := DisplayStyleOf(v);
    if ds.None? {
      RenderNodes(ns, ctx, describe, fuel);
      return;
    }
    match ds.value {
      case CollectionStyle =>
        RenderItems(ns, ctx, describe, v.children, fuel);
      case ClassStyle =>
        RenderRecord(ns, ctx, describe, v, fuel);
      case DictionaryStyle =>
        RenderRecord(ns, ctx, describe, v, fuel);
      case SetStyle =>
        RenderNodes(ns, ctx, describe, fuel);
      case StructStyle =>
        RenderNodes(ns, ctx, describe, fuel);
      case EnumStyle =>
        RenderNodes(ns, ctx, describe, fuel);
      case TupleStyle =>
        RenderNodes(ns, ctx, describe, fuel);
      case OptionalStyle =>
        RenderNodes(ns, ctx, describe, fuel);
    }
  }

  /** A class or dictionary value: entered as the scope unless it is a Foundation base type. */
  method RenderRecord(ns: seq<Node>, ctx: DefaultContext, describe: Value -> string, v: Value, fuel: nat)
    modifies ctx
    ensures ctx.output == old(ctx.output) +
      (if IsFoundationBaseType(v) then RenderedAll(EnvOf(ctx, describe), fuel, old(ctx.stack), ns)
       else RenderedAll(EnvOf(ctx, describe), fuel, old(ctx.stack) + [v], ns))
    ensures ctx.stack == old(ctx.stack)
    decreases fuel, ns, 2
  {
    if IsFoundationBaseType(v) {
      RenderNodes(ns, ctx, describe, fuel);
    } else {
      ctx.Enter(v);
      RenderNodes(ns, ctx, describe, fuel);
      ctx.Leave();
    }
  }

  /** The collection loop: enter each element, render the children, leave. */
  method RenderItems(ns: seq<Node>, ctx: DefaultContext, describe: Value -> string, items: seq<Value>, fuel: nat)
    modifies ctx
    ensures ctx.output == old(ctx.output) + Iterations(EnvOf(ctx, describe), fuel, old(ctx.stack), ns, items)
    ensures ctx.stack == old(ctx.stack)
    decreases fuel, ns, 2
  {
    ghost var out0 := ctx.output;
    for i := 0 to |items|
      invariant ctx.output == out0 + Iterations(EnvOf(ctx, describe), fuel, ctx.stack, ns, items[..i])
      invariant ctx.stack == old(ctx.stack)
    {
      assert items[..i + 1][..i] == items[..i];
      ctx.Enter(items[i]);
      RenderNodes(ns, ctx, describe, fuel);
      ctx.Leave();
    }
    assert items[..|items| ] == items;
  }

  /** `render(lambda:nodes:inContext:)` for an attributed lambda: its result, appended once. */
  method RenderAttrLambda(body: LambdaExpr<AttrString>, full: bool, ns: seq<Node>,
                          ctx: DefaultContext, describe: Value -> string, fuel: nat)
    modifies ctx
    ensures ctx.output == old(ctx.output) + AttrLambdaOutput(EnvOf(ctx, describe), fuel, old(ctx.stack), ns, body, full)
    ensures ctx.stack == old(ctx.stack)
    decreases fuel, ns, 2
  {
    var mustache := SequenceAsMustacheAttributedString(ns);
    var result := RunAttrLambda(body, full, mustache, ns, ctx, describe, fuel);
    ctx.Append(result);
  }

  /** Runs an attributed lambda body; its callback renders into contexts of its own. */
  method RunAttrLambda(e: LambdaExpr<AttrString>, full: bool, mustache: AttrString, ns: seq<Node>,
                       ctx: DefaultContext, describe: Value -> string, fuel: nat)
    returns (r: AttrString)
    requires mustache == AttrSerializedAll(ns)
    ensures r == AttrLambdaOutput(EnvOf(ctx, describe), fuel, ctx.stack, ns, e, full)
    decreases fuel, ns, 1, e
  {
    match e {
      case Lit(s) =>
        r := s;
      case Input =>
        r := mustache;
      case Cat(a, b) =>
        var x := RunAttrLambda(a, full, mustache, ns, ctx, describe, fuel);
        var y := RunAttrLambda(b, full, mustache, ns, ctx, describe, fuel);
        r := x + y;
      case Render(a) =>
        var m2 := RunAttrLambda(a, full, mustache, ns, ctx, describe, fuel);
        if full {
          r := AttrCallback(m2, mustache, ns, ctx, describe, fuel);
        } else {
          r := m2;
        }
    }
  }

  /** The re-render callback an attributed full lambda is given. */
  method AttrCallback(mustacheToRender: AttrString, mustache: AttrString, ns: seq<Node>,
                      ctx: DefaultContext, describe: Value -> string, fuel: nat)
    returns (r: AttrString)
    requires mustache == AttrSerializedAll(ns)
    ensures r == AttrCallbackOutput(EnvOf(ctx, describe), fuel, ctx.stack, ns, mustacheToRender)
    decreases fuel, ns, 0
  {
    if fuel == 0 {
      return [];
    }
    var tree: Node;
    if mustache == mustacheToRender {
      tree := Global(ns);
    } else {
      var parser := new AP.Parser();
      var parsed := parser.Parse(mustache, fuel);
      tree := parsed.value;
    }
    var lambdaCtx := ctx.NewLambdaContext();
    RenderNode(tree, lambdaCtx, describe, fuel - 1);
    r := lambdaCtx.output;
  }

  /** `render(lambda:nodes:inContext:)` for a plain lambda: its result, without attributes. */
  method RenderPlainLambda(body: LambdaExpr<string>, full: bool, ns: seq<Node>,
                           ctx: DefaultContext, describe: Value -> string, fuel: nat)
    modifies ctx
    ensures ctx.output == old(ctx.output) + Unattributed(PlainLambdaOutput(EnvOf(ctx, describe), fuel, old(ctx.stack), ns, body, full))
    ensures ctx.stack == old(ctx.stack)
    decreases fuel, ns, 2
  {
    var mustache := SequenceAsMustacheString(ns);
    var result := RunPlainLambda(body, full, mustache, ns, ctx, describe, fuel);
    ctx.Append(Unattributed(result));
  }

  /** Runs a plain lambda body. */
  method RunPlainLambda(e: LambdaExpr<string>, full: bool, mustache: string, ns: seq<Node>,
                        ctx: DefaultContext, describe: Value -> string, fuel: nat)
    returns (r: string)
    requires mustache == StringSerializedAll(ns)
    ensures r == PlainLambdaOutput(EnvOf(ctx, describe), fuel, ctx.stack, ns, e, full)
    decreases fuel, ns, 1, e
  {
    match e {
      case Lit(s) =>
        r := s;
      case Input =>
        r := mustache;
      case Cat(a, b) =>
        var x := RunPlainLambda(a, full, mustache, ns, ctx, describe, fuel);
        var y := RunPlainLambda(b, full, mustache, ns, ctx, describe, fuel);
        r := x + y;
      case Render(a) =>
        var m2 := RunPlainLambda(a, full, mustache, ns, ctx, describe, fuel);
        if full {
          r := PlainCallback(m2, mustache, ns, ctx, describe, fuel);
        } else {
          r := m2;
        }
    }
  }

  /** The re-render callback a plain full lambda is given. */
  method PlainCallback(mustacheToRender: string, mustache: string, ns: seq<Node>,
                       ctx: DefaultContext, describe: Value -> string, fuel: nat)
    returns (r: string)
    requires mustache == StringSerializedAll(ns)
    ensures r == PlainCallbackOutput(EnvOf(ctx, describe), fuel, ctx.stack, ns, mustacheToRender)
    decreases fuel, ns, 0
  {
    if fuel == 0 {
      return "";
    }
    var tree: Node;
    if mustache == mustacheToRender {
      tree := Global(ns);
    } else {
      var parser := new AP.Parser();
      var parsed := parser.Parse(Unattributed(mustache), fuel);
      tree := parsed.value;
    }
    var lambdaCtx := ctx.NewLambdaContext();
    RenderNode(tree, lambdaCtx, describe, fuel - 1);
    r := Chars(lambdaCtx.output);
  }

  /** `render(object:)`: renders into a new default context and returns its output. */
  method RenderObject(n: Node, root: Value, kvc: KeyValueCoding, describe: Value -> string, fuel: nat)
    returns (r: AttrString)
    ensures r == Rendered(Env(kvc, describe, NoPartial), fuel, if root == Nil then [] else [root], n)
  {
    var ctx := new DefaultContext(root, kvc);
    RenderNode(n, ctx, describe, fuel);
    r := ctx.output;
  }

  /**
   * What the attributed tests do with a template: parse it with an
   * `AttributedMustacheParser` and render the tree with `render(object:)`.
   * As the parser is written, every template renders as nothing.
   */
  method ParseAndRender(template: AttrString, root: Value, kvc: KeyValueCoding, describe: Value -> string,
                        fuel: nat, parseFuel: nat)
    returns (r: AttrString)
    ensures r == []
  {
    var parser := new AP.Parser();
    var tree := parser.Parse(template, parseFuel);
    assert tree == AP.Done(Empty);
    r := RenderObject(tree.value, root, kvc, describe, fuel);
  }

  // ---------------------------------------------------------------------
  // Properties

  /** The attributed renderer does not escape: a tag and a triple tag render the same. */
  lemma TagsRenderIdentically(env: Env, fuel: nat, stack: seq<Value>, k: AttrString)
    ensures Rendered(env, fuel, stack, Tag(k)) == Rendered(env, fuel, stack, UnescapedTag(k))
  {
  }

  /**
   * A string value is shown verbatim (markup such as `Ch<r>is` is not
   * escaped), in the attributes of the tag's key.
   */
  lemma StringTagVerbatim(env: Env, fuel: nat, stack: seq<Value>, k: AttrString, s: string)
    requires Lookup(env.kvc, stack, Chars(k)) == Str(s)
    ensures Chars(Rendered(env, fuel, stack, Tag(k))) == s
    ensures Rendered(env, fuel, stack, Tag(k)) == WithAttributes(s, KeyAttributes(k))
  {
  }

  /** A node list renders as its parts, left to right. */
  lemma {:induction false} RenderedAllAppend(env: Env, fuel: nat, stack: seq<Value>, a: seq<Node>, b: seq<Node>)
    ensures RenderedAll(env, fuel, stack, a + b) == RenderedAll(env, fuel, stack, a) + RenderedAll(env, fuel, stack, b)
    decreases |b|
  {
    if b == [] {
      assert a + b == a;
    } else {
      var b' := b[..|b| - 1];
      assert (a + b)[..|a + b| - 1] == a + b';
      assert (a + b)[|a + b| - 1] == b[|b| - 1];
      RenderedAllAppend(env, fuel, stack, a, b');
    }
  }

  /** The iterations over a list of items are the iterations over its parts. */
  lemma {:induction false} IterationsAppend(env: Env, fuel: nat, stack: seq<Value>, ns: seq<Node>, a: seq<Value>, b: seq<Value>)
    ensures Iterations(env, fuel, stack, ns, a + b) == Iterations(env, fuel, stack, ns, a) + Iterations(env, fuel, stack, ns, b)
    decreases |b|
  {
    if b == [] {
      assert a + b == a;
    } else {
      var b' := b[..|b| - 1];
      assert (a + b)[..|a + b| - 1] == a + b';
      assert (a + b)[|a + b| - 1] == b[|b| - 1];
      IterationsAppend(env, fuel, stack, ns, a, b');
    }
  }

  /**
   * For a value that is not a function, exactly one of a section and the
   * inverted section with the same key shows its children.
   */
  lemma SectionsComplement(env: Env, fuel: nat, stack: seq<Value>, k: string, ns: seq<Node>)
    requires !Lookup(env.kvc, stack, k).Func?
    ensures IsMustacheTrue(Lookup(env.kvc, stack, k)) ==>
      && Rendered(env, fuel, stack, InvertedSection(k, ns)) == []
      && Rendered(env, fuel, stack, Section(k, ns)) == ValueBody(env, fuel, stack, ns, Lookup(env.kvc, stack, k))
    ensures !IsMustacheTrue(Lookup(env.kvc, stack, k)) ==>
      && Rendered(env, fuel, stack, Section(k, ns)) == []
      && Rendered(env, fuel, stack, InvertedSection(k, ns)) == RenderedAll(env, fuel, stack, ns)
  {
  }

  /** A plain lambda's result carries no attributes, whatever the template's. */
  lemma PlainLambdaDropsAttributes(env: Env, fuel: nat, stack: seq<Value>, k: string, ns: seq<Node>)
    requires Lookup(env.kvc, stack, k).Func?
    requires Lookup(env.kvc, stack, k).f.PlainFull? || Lookup(env.kvc, stack, k).f.PlainSimple?
    ensures forall i :: 0 <= i < |SectionOutput(env, fuel, stack, k, ns)| ==>
      SectionOutput(env, fuel, stack, k, ns)[i].attrs == NoAttributes
  {
    var v := Lookup(env.kvc, stack, k);
    if v.f.PlainSimple? {
      var pre := Unattributed(PlainLambdaOutput(env, fuel, stack, ns, v.f.body, false));
      assert SectionOutput(env, fuel, stack, k, ns) == pre + [];
    }
  }

  /**
   * Given any text other than the children's own source, the attributed
   * callback re-parses that source, and the attributed parser yields the
   * empty node: nothing is rendered.
   */
  lemma AttrCallbackOtherText(env: Env, fuel: nat, stack: seq<Value>, ns: seq<Node>, mustacheToRender: AttrString)
    requires mustacheToRender != AttrSerializedAll(ns)
    ensures AttrCallbackOutput(env, fuel, stack, ns, mustacheToRender) == []
  {
  }

  /**
   * Given the children's own source, the callback renders the children in
   * a lambda context: same scopes, no partials.
   */
  lemma AttrCallbackOwnText(env: Env, fuel: nat, stack: seq<Value>, ns: seq<Node>)
    requires fuel > 0
    ensures AttrCallbackOutput(env, fuel, stack, ns, AttrSerializedAll(ns)) ==
      RenderedAll(LambdaEnv(env), fuel - 1, stack, ns)
  {
  }

  /** A partial inside a lambda's re-rendered children renders nothing. */
  lemma LambdaContextHasNoPartials(env: Env, fuel: nat, stack: seq<Value>, name: string)
    ensures AttrCallbackOutput(env, fuel, stack, [Partial(name)], AttrSerializedAll([Partial(name)])) == []
  {
    if fuel > 0 {
      assert RenderedAll(LambdaEnv(env), fuel - 1, stack, [Partial(name)]) ==
        [] + Rendered(LambdaEnv(env), fuel - 1, stack, Partial(name));
    }
  }

  /** A section whose value is a full plain lambda shows the lambda's result alone, unattributed. */
  lemma PlainFullSection(env: Env, fuel: nat, stack: seq<Value>, k: string, ns: seq<Node>, body: LambdaExpr<string>)
    requires Lookup(env.kvc, stack, k) == Func(PlainFull(body))
    ensures SectionOutput(env, fuel, stack, k, ns) == Unattributed(PlainLambdaOutput(env, fuel, stack, ns, body, true))
  {
  }

  /**
   * A section whose value is a simple plain lambda shows the lambda's
   * result, unattributed, and nothing more, as a function value is false.
   */
  lemma PlainSimpleSection(env: Env, fuel: nat, stack: seq<Value>, k: string, ns: seq<Node>, body: LambdaExpr<string>)
    requires Lookup(env.kvc, stack, k) == Func(PlainSimple(body))
    ensures SectionOutput(env, fuel, stack, k, ns) == Unattributed(PlainLambdaOutput(env, fuel, stack, ns, body, false))
  {
    var pre := Unattributed(PlainLambdaOutput(env, fuel, stack, ns, body, false));
    assert pre + [] == pre;
  }

  /** The plain callback, given the children's own source, shows their text rendered in a lambda context. */
  lemma PlainCallbackOwnText(env: Env, fuel: nat, stack: seq<Value>, ns: seq<Node>)
    requires fuel > 0
    ensures PlainCallbackOutput(env, fuel, stack, ns, StringSerializedAll(ns)) ==
      Chars(RenderedAll(LambdaEnv(env), fuel - 1, stack, ns))
  {
  }

  /** A true collection value renders the children once per element, that element innermost. */
  lemma CollectionSection(env: Env, fuel: nat, stack: seq<Value>, k: string, ns: seq<Node>)
    requires Lookup(env.kvc, stack, k).Reflected?
    requires Lookup(env.kvc, stack, k).style == CollectionStyle
    ensures SectionOutput(env, fuel, stack, k, ns) == Iterations(env, fuel, stack, ns, Lookup(env.kvc, stack, k).children)
  {
    var v := Lookup(env.kvc, stack, k);
    assert DisplayStyleOf(v) == Some(CollectionStyle);
    if v.children == [] {
      assert Iterations(env, fuel, stack, ns, v.children) == [];
    } else {
      assert SectionOutput(env, fuel, stack, k, ns) == [] + ValueBody(env, fuel, stack, ns, v);
    }
  }

  // ---------------------------------------------------------------------
  // The lambda and partial templates of the attributed tests

  /** One more node renders after the others. */
  lemma RenderedAllSnoc(env: Env, fuel: nat, stack: seq<Value>, ns: seq<Node>, n: Node)
    ensures RenderedAll(env, fuel, stack, ns + [n]) == RenderedAll(env, fuel, stack, ns) + Rendered(env, fuel, stack, n)
  {
    assert (ns + [n])[..|ns|] == ns;
  }

  /** One more item renders the children once more, after the others. */
  lemma IterationsSnoc(env: Env, fuel: nat, stack: seq<Value>, ns: seq<Node>, items: seq<Value>, item: Value)
    ensures Iterations(env, fuel, stack, ns, items + [item]) ==
      Iterations(env, fuel, stack, ns, items) + RenderedAll(env, fuel, stack + [item], ns)
  {
    assert (items + [item])[..|items|] == items;
  }

  /** Three nodes render one after another. */
  lemma RenderedAllThreeNodes(env: Env, fuel: nat, stack: seq<Value>, a: Node, b: Node, c: Node)
    ensures RenderedAll(env, fuel, stack, [a, b, c]) ==
      Rendered(env, fuel, stack, a) + Rendered(env, fuel, stack, b) + Rendered(env, fuel, stack, c)
  {
    assert [a, b] + [c] == [a, b, c];
    RenderedAllSnoc(env, fuel, stack, [a, b], c);
    RenderedAllTwoNodes(env, fuel, stack, a, b);
  }

  /** The text of three attributed strings in a row. */
  lemma CharsThree(a: AttrString, b: AttrString, c: AttrString)
    ensures Chars(a + b + c) == Chars(a) + Chars(b) + Chars(c)
  {
    CharsAppend(a, b);
    CharsAppend(a + b, c);
  }

  /** The text of three nodes rendered in a row. */
  lemma RenderedAllThree(env: Env, fuel: nat, stack: seq<Value>, a: Node, b: Node, c: Node,
                         sa: string, sb: string, sc: string)
    requires Chars(Rendered(env, fuel, stack, a)) == sa
    requires Chars(Rendered(env, fuel, stack, b)) == sb
    requires Chars(Rendered(env, fuel, stack, c)) == sc
    ensures Chars(RenderedAll(env, fuel, stack, [a, b, c])) == sa + sb + sc
  {
    RenderedAllThreeNodes(env, fuel, stack, a, b, c);
    CharsThree(Rendered(env, fuel, stack, a), Rendered(env, fuel, stack, b), Rendered(env, fuel, stack, c));
  }

  /** Two nodes render one after the other. */
  lemma RenderedAllTwoNodes(env: Env, fuel: nat, stack: seq<Value>, a: Node, b: Node)
    ensures RenderedAll(env, fuel, stack, [a, b]) == Rendered(env, fuel, stack, a) + Rendered(env, fuel, stack, b)
  {
    assert [a, b][..1] == [a];
    assert [a][..0] == [];
    var ra := Rendered(env, fuel, stack, a);
    assert RenderedAll(env, fuel, stack, [a]) == [] + ra;
    assert [] + ra == ra;
  }

  /** The text of two nodes rendered in a row. */
  lemma RenderedAllTwo(env: Env, fuel: nat, stack: seq<Value>, a: Node, b: Node, sa: string, sb: string)
    requires Chars(Rendered(env, fuel, stack, a)) == sa
    requires Chars(Rendered(env, fuel, stack, b)) == sb
    ensures Chars(RenderedAll(env, fuel, stack, [a, b])) == sa + sb
  {
    RenderedAllTwoNodes(env, fuel, stack, a, b);
    CharsAppend(Rendered(env, fuel, stack, a), Rendered(env, fuel, stack, b));
  }

  /** The children rendered for three items in a row. */
  lemma IterationsThreeItems(env: Env, fuel: nat, stack: seq<Value>, ns: seq<Node>, u1: Value, u2: Value, u3: Value)
    ensures Iterations(env, fuel, stack, ns, [u1, u2, u3]) ==
      RenderedAll(env, fuel, stack + [u1], ns) + RenderedAll(env, fuel, stack + [u2], ns) + RenderedAll(env, fuel, stack + [u3], ns)
  {
    IterationsSnoc(env, fuel, stack, ns, [], u1);
    assert [] + [u1] == [u1];
    IterationsSnoc(env, fuel, stack, ns, [u1], u2);
    assert [u1] + [u2] == [u1, u2];
    IterationsSnoc(env, fuel, stack, ns, [u1, u2], u3);
    assert [u1, u2] + [u3] == [u1, u2, u3];
  }

  /** The text of the children rendered for three items in a row. */
  lemma IterationsThree(env: Env, fuel: nat, stack: seq<Value>, ns: seq<Node>, u1: Value, u2: Value, u3: Value,
                        s1: string, s2: string, s3: string)
    requires Chars(RenderedAll(env, fuel, stack + [u1], ns)) == s1
    requires Chars(RenderedAll(env, fuel, stack + [u2], ns)) == s2
    requires Chars(RenderedAll(env, fuel, stack + [u3], ns)) == s3
    ensures Chars(Iterations(env, fuel, stack, ns, [u1, u2, u3])) == s1 + s2 + s3
  {
    IterationsThreeItems(env, fuel, stack, ns, u1, u2, u3);
    CharsThree(RenderedAll(env, fuel, stack + [u1], ns), RenderedAll(env, fuel, stack + [u2], ns),
               RenderedAll(env, fuel, stack + [u3], ns));
  }

  /** A partial the context resolves renders as its tree, with one unit of fuel less. */
  lemma PartialRenders(env: Env, fuel: nat, stack: seq<Value>, name: string, p: Node)
    requires fuel > 0 && env.partials(name) == Some(p)
    ensures Rendered(env, fuel, stack, Partial(name)) == Rendered(env, fuel - 1, stack, p)
  {
  }

  /** A text node renders as its text. */
  lemma TextRenders(env: Env, fuel: nat, stack: seq<Value>, t: string)
    ensures Chars(Rendered(env, fuel, stack, Text(Unattributed(t)))) == t
  {
    CharsWithAttributes(t, NoAttributes);
  }

  /** The children of `{{#wrapped}}{{name}} is awesome.{{/wrapped}}`. */
  function WrappedChildren(): seq<Node> {
    [Tag(Unattributed("name")), Text(Unattributed(" is awesome."))]
  }

  /** The template `{{#wrapped}}{{name}} is awesome.{{/wrapped}}`. */
  function WrappedTemplate(): Node {
    Global([Section("wrapped", WrappedChildren())])
  }

  /** The template renders as its one section. */
  lemma WrappedTemplateIsSection(env: Env, fuel: nat, stack: seq<Value>)
    ensures Rendered(env, fuel, stack, WrappedTemplate()) == SectionOutput(env, fuel, stack, "wrapped", WrappedChildren())
  {
    var s := Section("wrapped", WrappedChildren());
    RenderedAllSnoc(env, fuel, stack, [], s);
    assert [] + [s] == [s];
  }

  /** The children of the wrapped section, rendered for the name `Willy`. */
  lemma WrappedChildrenRender(env: Env, fuel: nat, stack: seq<Value>)
    requires Lookup(env.kvc, stack, "name") == Str("Willy")
    ensures Chars(RenderedAll(env, fuel, stack, WrappedChildren())) == "Willy" + " is awesome."
  {
    var k := Unattributed("name");
    CharsWithAttributes("name", NoAttributes);
    StringTagVerbatim(env, fuel, stack, k, "Willy");
    TextRenders(env, fuel, stack, " is awesome.");
    RenderedAllTwo(env, fuel, stack, Tag(k), Text(Unattributed(" is awesome.")), "Willy", " is awesome.");
  }

  /** The children's `asMustacheString`. */
  lemma WrappedChildrenSource()
    ensures StringSerializedAll(WrappedChildren()) == "{{name}} is awesome."
  {
    var ns := WrappedChildren();
    CharsWithAttributes("name", NoAttributes);
    CharsWithAttributes(" is awesome.", NoAttributes);
    assert ns[..1] == [ns[0]];
    assert [ns[0]][..0] == [];
    assert StringSerializedAll(ns) == ("" + ("{{" + "name" + "}}")) + " is awesome.";
  }

  /**
   * The expected results of the lambda tests, piece by piece: a separate
   * step, so that the literal arithmetic stays out of the larger proofs.
   */
  lemma WrappedLiterals()
    ensures "<b>" + ("Willy" + " is awesome." + "</b>") == "<b>Willy is awesome.</b>"
    ensures "<b>" + ("{{name}} is awesome." + "</b>") == "<b>{{name}} is awesome.</b>"
  {
  }

  /** A lambda body that wraps an expression's value between two literals. */
  lemma WrapBody(env: Env, fuel: nat, stack: seq<Value>, ns: seq<Node>, e: LambdaExpr<string>,
                 pre: string, post: string, full: bool)
    ensures PlainLambdaOutput(env, fuel, stack, ns, Cat(Lit(pre), Cat(e, Lit(post))), full) ==
      pre + (PlainLambdaOutput(env, fuel, stack, ns, e, full) + post)
  {
    assert PlainLambdaOutput(env, fuel, stack, ns, Lit(pre), full) == pre;
    assert PlainLambdaOutput(env, fuel, stack, ns, Lit(post), full) == post;
  }

  /** `render(text)` on the section's own source renders the children in a lambda context. */
  lemma RenderInputRendersChildren(env: Env, fuel: nat, stack: seq<Value>, ns: seq<Node>)
    requires fuel > 0
    ensures PlainLambdaOutput(env, fuel, stack, ns, Render(Input), true) ==
      Chars(RenderedAll(LambdaEnv(env), fuel - 1, stack, ns))
  {
    PlainCallbackOwnText(env, fuel, stack, ns);
    assert PlainLambdaOutput(env, fuel, stack, ns, Input, true) == StringSerializedAll(ns);
  }

  /**
   * A full lambda `pre + render(text) + post` shows the section's own
   * children, rendered in a lambda context, between `pre` and `post`.
   */
  lemma FullWrapLambda(env: Env, fuel: nat, stack: seq<Value>, k: string, ns: seq<Node>, pre: string, post: string)
    requires fuel > 0
    requires Lookup(env.kvc, stack, k) == Func(PlainFull(Cat(Lit(pre), Cat(Render(Input), Lit(post)))))
    ensures Chars(SectionOutput(env, fuel, stack, k, ns)) ==
      pre + (Chars(RenderedAll(LambdaEnv(env), fuel - 1, stack, ns)) + post)
  {
    var body := Cat(Lit(pre), Cat(Render(Input), Lit(post)));
    RenderInputRendersChildren(env, fuel, stack, ns);
    WrapBody(env, fuel, stack, ns, Render(Input), pre, post, true);
    PlainFullSection(env, fuel, stack, k, ns, body);
    CharsWithAttributes(PlainLambdaOutput(env, fuel, stack, ns, body, true), NoAttributes);
  }

  /**
   * A simple lambda `pre + text + post` shows the children's source between
   * `pre` and `post`, not rendered again.
   */
  lemma SimpleWrapLambda(env: Env, fuel: nat, stack: seq<Value>, k: string, ns: seq<Node>, pre: string, post: string)
    requires Lookup(env.kvc, stack, k) == Func(PlainSimple(Cat(Lit(pre), Cat(Input, Lit(post)))))
    ensures Chars(SectionOutput(env, fuel, stack, k, ns)) == pre + (StringSerializedAll(ns) + post)
  {
    var body := Cat(Lit(pre), Cat(Input, Lit(post)));
    assert PlainLambdaOutput(env, fuel, stack, ns, Input, false) == StringSerializedAll(ns);
    WrapBody(env, fuel, stack, ns, Input, pre, post, false);
    PlainSimpleSection(env, fuel, stack, k, ns, body);
    CharsWithAttributes(PlainLambdaOutput(env, fuel, stack, ns, body, false), NoAttributes);
  }

  /**
   * The full lambda test: `"<b>" + render(text) + "</b>"` renders the
   * section's own children between the markup.
   */
  lemma FullLambdaWrapsRenderedChildren(env: Env, fuel: nat, stack: seq<Value>)
    requires fuel > 0
    requires Lookup(env.kvc, stack, "wrapped") == Func(PlainFull(Cat(Lit("<b>"), Cat(Render(Input), Lit("</b>")))))
    requires Lookup(env.kvc, stack, "name") == Str("Willy")
    ensures Chars(Rendered(env, fuel, stack, WrappedTemplate())) == "<b>Willy is awesome.</b>"
  {
    WrappedChildrenRender(LambdaEnv(env), fuel - 1, stack);
    FullWrapLambda(env, fuel, stack, "wrapped", WrappedChildren(), "<b>", "</b>");
    WrappedTemplateIsSection(env, fuel, stack);
    WrappedLiterals();
  }

  /**
   * The simple lambda test: `"<b>" + text + "</b>"` gets the children's
   * source and its result is not rendered again.
   */
  lemma SimpleLambdaWrapsSource(env: Env, fuel: nat, stack: seq<Value>)
    requires Lookup(env.kvc, stack, "wrapped") == Func(PlainSimple(Cat(Lit("<b>"), Cat(Input, Lit("</b>")))))
    ensures Chars(Rendered(env, fuel, stack, WrappedTemplate())) == "<b>{{name}} is awesome.</b>"
  {
    WrappedChildrenSource();
    SimpleWrapLambda(env, fuel, stack, "wrapped", WrappedChildren(), "<b>", "</b>");
    WrappedTemplateIsSection(env, fuel, stack);
    WrappedLiterals();
  }

  /** The template `<strong>{{lastname}}</strong>`. */
  function UserTemplate(): Node {
    Global([Text(Unattributed("<strong>")), Tag(Unattributed("lastname")), Text(Unattributed("</strong>"))])
  }

  /** The children of `{{#names}}  {{> user}}\n{{/names}}`. */
  function NameLine(): seq<Node> {
    [Text(Unattributed("  ")), Partial("user"), Text(Unattributed("\n"))]
  }

  /** The template `<h2>Names</h2>\n{{#names}}  {{> user}}\n{{/names}}`. */
  function BaseTemplate(): Node {
    Global([Text(Unattributed("<h2>Names</h2>\n")), Section("names", NameLine())])
  }

  /** The user partial, rendered with a user innermost. */
  lemma UserRenders(env: Env, fuel: nat, stack: seq<Value>, user: Value, last: string)
    requires env.kvc(user, "lastname") == Str(last)
    ensures Chars(Rendered(env, fuel, stack + [user], UserTemplate())) == "<strong>" + last + "</strong>"
  {
    var k := Unattributed("lastname");
    var s := stack + [user];
    CharsWithAttributes("lastname", NoAttributes);
    LookupPushed(env.kvc, stack, user, "lastname");
    StringTagVerbatim(env, fuel, s, k, last);
    TextRenders(env, fuel, s, "<strong>");
    TextRenders(env, fuel, s, "</strong>");
    RenderedAllThree(env, fuel, s, Text(Unattributed("<strong>")), Tag(k), Text(Unattributed("</strong>")),
                     "<strong>", last, "</strong>");
  }

  /** The line the names section shows for a user. */
  function UserLine(last: string): string {
    "  " + ("<strong>" + last + "</strong>") + "\n"
  }

  /** The user partial as the names section reaches it: one unit of fuel less. */
  lemma UserPartialRenders(env: Env, fuel: nat, stack: seq<Value>, user: Value, last: string)
    requires fuel > 0
    requires env.partials("user") == Some(UserTemplate())
    requires env.kvc(user, "lastname") == Str(last)
    ensures Chars(Rendered(env, fuel, stack + [user], Partial("user"))) == "<strong>" + last + "</strong>"
  {
    UserRenders(env, fuel - 1, stack, user, last);
    PartialRenders(env, fuel, stack + [user], "user", UserTemplate());
  }

  /** One iteration of the names section: the partial between the indentation and the newline. */
  lemma NameLineRenders(env: Env, fuel: nat, stack: seq<Value>, user: Value, last: string)
    requires fuel > 0
    requires env.partials("user") == Some(UserTemplate())
    requires env.kvc(user, "lastname") == Str(last)
    ensures Chars(RenderedAll(env, fuel, stack + [user], NameLine())) == UserLine(last)
  {
    var s := stack + [user];
    UserPartialRenders(env, fuel, stack, user, last);
    TextRenders(env, fuel, s, "  ");
    TextRenders(env, fuel, s, "\n");
    RenderedAllThree(env, fuel, s, Text(Unattributed("  ")), Partial("user"), Text(Unattributed("\n")),
                     "  ", "<strong>" + last + "</strong>", "\n");
  }

  /** A collection section over three items: the children once per item, item innermost. */
  lemma ThreeItemSection(env: Env, fuel: nat, stack: seq<Value>, k: string, ns: seq<Node>,
                         v: Value, u1: Value, u2: Value, u3: Value, s1: string, s2: string, s3: string)
    requires Lookup(env.kvc, stack, k) == v
    requires v.Reflected? && v.style == CollectionStyle && v.children == [u1, u2, u3]
    requires Chars(RenderedAll(env, fuel, stack + [u1], ns)) == s1
    requires Chars(RenderedAll(env, fuel, stack + [u2], ns)) == s2
    requires Chars(RenderedAll(env, fuel, stack + [u3], ns)) == s3
    ensures Chars(Rendered(env, fuel, stack, Section(k, ns))) == s1 + s2 + s3
  {
    IterationsThree(env, fuel, stack, ns, u1, u2, u3, s1, s2, s3);
    CollectionSection(env, fuel, stack, k, ns);
  }

  /** The names section over three users: the user partial once per user. */
  lemma NamesSection(env: Env, fuel: nat, root: Value, names: Value, u1: Value, u2: Value, u3: Value,
                     l1: string, l2: string, l3: string)
    requires fuel > 0
    requires env.partials("user") == Some(UserTemplate())
    requires env.kvc(root, "names") == names
    requires names.Reflected? && names.style == CollectionStyle && names.children == [u1, u2, u3]
    requires env.kvc(u1, "lastname") == Str(l1)
    requires env.kvc(u2, "lastname") == Str(l2)
    requires env.kvc(u3, "lastname") == Str(l3)
    ensures Chars(Rendered(env, fuel, [root], Section("names", NameLine()))) == UserLine(l1) + UserLine(l2) + UserLine(l3)
  {
    NameLineRenders(env, fuel, [root], u1, l1);
    NameLineRenders(env, fuel, [root], u2, l2);
    NameLineRenders(env, fuel, [root], u3, l3);
    assert Lookup(env.kvc, [root], "names") == names;
    ThreeItemSection(env, fuel, [root], "names", NameLine(), names, u1, u2, u3, UserLine(l1), UserLine(l2), UserLine(l3));
  }

  /**
   * A `names` collection of three users renders the `user` partial once
   * per user, each time with that user innermost, after the heading.
   */
  lemma PartialPerUser(env: Env, fuel: nat, root: Value, names: Value, u1: Value, u2: Value, u3: Value,
                       l1: string, l2: string, l3: string)
    requires fuel > 0
    requires env.partials("user") == Some(UserTemplate())
    requires env.kvc(root, "names") == names
    requires names.Reflected? && names.style == CollectionStyle && names.children == [u1, u2, u3]
    requires env.kvc(u1, "lastname") == Str(l1)
    requires env.kvc(u2, "lastname") == Str(l2)
    requires env.kvc(u3, "lastname") == Str(l3)
    ensures Chars(Rendered(env, fuel, [root], BaseTemplate())) ==
      "<h2>Names</h2>\n" + (UserLine(l1) + UserLine(l2) + UserLine(l3))
  {
    NamesSection(env, fuel, root, names, u1, u2, u3, l1, l2, l3);
    TextRenders(env, fuel, [root], "<h2>Names</h2>\n");
    RenderedAllTwo(env, fuel, [root], Text(Unattributed("<h2>Names</h2>\n")), Section("names", NameLine()),
                   "<h2>Names</h2>\n", UserLine(l1) + UserLine(l2) + UserLine(l3));
  }

  /**
   * The lines of the three users of the partial test: a separate step, so
   * that the literal arithmetic stays out of `PartialTest`.
   */
  lemma DuckAndMouseLines()
    ensures UserLine("Duck") == "  <strong>Duck</strong>\n"
    ensures UserLine("Mouse") == "  <strong>Mouse</strong>\n"
  {
  }

  /** The partial test: Donald and Dagobert Duck, then Mickey Mouse. */
  lemma PartialTest(env: Env, fuel: nat, root: Value, names: Value, u1: Value, u2: Value, u3: Value)
    requires fuel > 0
    requires env.partials("user") == Some(UserTemplate())
    requires env.kvc(root, "names") == names
    requires names.Reflected? && names.style == CollectionStyle && names.children == [u1, u2, u3]
    requires env.kvc(u1, "lastname") == Str("Duck")
    requires env.kvc(u2, "lastname") == Str("Duck")
    requires env.kvc(u3, "lastname") == Str("Mouse")
    ensures Chars(Rendered(env, fuel, [root], BaseTemplate())) ==
      "<h2>Names</h2>\n" + "  <strong>Duck</strong>\n" + "  <strong>Duck</strong>\n" + "  <strong>Mouse</strong>\n"
  {
    PartialPerUser(env, fuel, root, names, u1, u2, u3, "Duck", "Duck", "Mouse");
    DuckAndMouseLines();
    var h, d, m := "<h2>Names</h2>\n", UserLine("Duck"), UserLine("Mouse");
    assert h + (d + d + m) == h + d + d + m;
  }
}
