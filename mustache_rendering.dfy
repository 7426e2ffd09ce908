/**
 * Rendering a plain `MustacheNode` tree against a value (the extension
 * methods `render(...)`), into a rendering context.
 *
 * The renderer appends to the context's output and pushes and pops the
 * context's scope stack while it walks the tree. `Rendered` and its
 * companions specify the output of every walk as a function of the scope
 * stack; the methods are proved to append exactly that and to leave the
 * stack as they found it.
 *
 * Partials and lambda re-rendering can recurse without bound; every
 * function and method takes a `fuel` bound that each of those two steps
 * consumes, and a step without fuel renders nothing.
 */
module MustacheRendering {
  import opened Wrappers
  import opened Helpers
  import opened MustacheNode
  import opened MustacheParser
  import opened MustacheRoundTrip
  import opened AttributedRenderingContext

  /**
   * What a plain rendering context provides besides its output and stack:
   * the key-value coding lookup, `escape(string:)`, the description of a
   * value (`"\(v)"`) and `retrievePartial(name:)`.
   */
  datatype Env = Env(
    kvc: KeyValueCoding,
    escape: string -> string,
    describe: Value -> string,
    partials: string -> Option<Node>)

  // ---------------------------------------------------------------------
  // Specification of the output

  /** The text a tag shows for a value: a string itself, anything else its description. */
  function TagText(env: Env, v: Value): (r: string)
    ensures v.Str? ==> r == v.s
    ensures !v.Str? ==> r == env.describe(v)
  {
    if v.Str? then v.s else env.describe(v)
  }

  /** What `n.render(inContext:)` appends for the scope stack `stack`. */
  function Rendered(env: Env, fuel: nat, stack: seq<Value>, n: Node): string
    decreases fuel, n, 0
  {
    match n
    case Empty => ""
    case Global(ns) => RenderedAll(env, fuel, stack, ns)
    case Text(t) => t
    case Section(k, ns) => SectionOutput(env, fuel, stack, k, ns)
    case InvertedSection(k, ns) =>
      if IsMustacheTrue(Lookup(env.kvc, stack, k)) then "" else RenderedAll(env, fuel, stack, ns)
    case Tag(k) =>
      var v := Lookup(env.kvc, stack, k);
      if v == Nil then "" else env.escape(TagText(env, v))
    case UnescapedTag(k) =>
      var v := Lookup(env.kvc, stack, k);
      if v == Nil then "" else TagText(env, v)
    case Partial(name) =>
      match env.partials(name)
      case None => ""
      case Some(p) => if fuel == 0 then "" else Rendered(env, fuel - 1, stack, p)
  }

  /** What `render(nodes:inContext:)` appends: the nodes' outputs, in order. */
  function RenderedAll(env: Env, fuel: nat, stack: seq<Value>, ns: seq<Node>): string
    decreases fuel, ns, 1
  {
    if ns == [] then ""
    else RenderedAll(env, fuel, stack, ns[..|ns| - 1]) + Rendered(env, fuel, stack, ns[|ns| - 1])
  }

  /**
   * What `render(section:nodes:inContext:)` appends: nothing for `nil`; a
   * full lambda's result alone; a simple lambda's result followed by
   * nothing, as a function value is false; nothing for a false value; and
   * otherwise the children as `ValueBody` renders them.
   */
  function SectionOutput(env: Env, fuel: nat, stack: seq<Value>, k: string, ns: seq<Node>): string
    decreases fuel, ns, 4
  {
    var v := Lookup(env.kvc, stack, k);
    if v == Nil then ""
    else if v.Func? && v.f.PlainFull? then LambdaOutput(env, fuel, stack, ns, v.f.body, true)
    else
      var pre := if v.Func? && v.f.PlainSimple? then LambdaOutput(env, fuel, stack, ns, v.f.body, false) else "";
      pre + (if !IsMustacheTrue(v) then "" else ValueBody(env, fuel, stack, ns, v))
  }

  /**
   * The children of a section with a true value, by the value's display
   * style: once per element of a collection with the element entered, once
   * with a class or dictionary entered unless it is a Foundation base type,
   * and otherwise once in the current scope.
   */
  function ValueBody(env: Env, fuel: nat, stack: seq<Value>, ns: seq<Node>, v: Value): string
    decreases fuel, ns, 3
  {
    match DisplayStyleOf(v)
    case None => RenderedAll(env, fuel, stack, ns)
    case Some(CollectionStyle) => Iterations(env, fuel, stack, ns, v.children)
    case Some(ClassStyle) =>
      if IsFoundationBaseType(v) then RenderedAll(env, fuel, stack, ns) else RenderedAll(env, fuel, stack + [v], ns)
    case Some(DictionaryStyle) =>
      if IsFoundationBaseType(v) then RenderedAll(env, fuel, stack, ns) else RenderedAll(env, fuel, stack + [v], ns)
    case Some(_) => RenderedAll(env, fuel, stack, ns)
  }

  /** The children once per item, each time with the item as the innermost scope. */
  function Iterations(env: Env, fuel: nat, stack: seq<Value>, ns: seq<Node>, items: seq<Value>): string
    decreases fuel, ns, 2, items
  {
    if items == [] then ""
    else Iterations(env, fuel, stack, ns, items[..|items| - 1]) + RenderedAll(env, fuel, stack + [items[|items| - 1]], ns)
  }

  /**
   * The result of a lambda's body given the children serialized with
   * `asMustacheString`. Only a full lambda has a re-render callback; a
   * simple lambda's `Render(e)` is just `e`.
   */
  function LambdaOutput(env: Env, fuel: nat, stack: seq<Value>, ns: seq<Node>, e: LambdaExpr<string>, full: bool): string
    decreases fuel, ns, 1, e
  {
    match e
    case Lit(s) => s
    case Input => SerializedAll(ns)
    case Cat(a, b) => LambdaOutput(env, fuel, stack, ns, a, full) + LambdaOutput(env, fuel, stack, ns, b, full)
    case Render(a) =>
      var m2 := LambdaOutput(env, fuel, stack, ns, a, full);
      if full then CallbackOutput(env, fuel, stack, ns, m2) else m2
  }

  /**
   * The re-render callback: the children themselves when it is given their
   * own source, and otherwise the original source parsed again (not the
   * text it was given), rendered on the same stack into a fresh output.
   */
  function CallbackOutput(env: Env, fuel: nat, stack: seq<Value>, ns: seq<Node>, mustacheToRender: string): string
    decreases fuel, ns, 0
  {
    if fuel == 0 then ""
    else
      var mustache := SerializedAll(ns);
      var tree := if mustache == mustacheToRender then Global(ns) else ParseF(mustache, '{', '}');
      Rendered(env, fuel - 1, stack, tree)
  }

  // ---------------------------------------------------------------------
  // The rendering context

  /**
   * A plain rendering context: output, scope stack, and the environment.
   * `MustacheRenderingContext` is not part of this model; this class has
   * the attributed default context's stack discipline and innermost-first
   * lookup, and its lambda contexts keep the whole environment.
   */
  class Context {
    var output: string
    var stack: seq<Value>
    const env: Env

    /** A context for a root value: the root is the only scope unless it is `nil`. */
    constructor (root: Value, env: Env)
      ensures stack == (if root == Nil then [] else [root])
      ensures output == [] && this.env == env
    {
      output := [];
      stack := if root == Nil then [] else [root];
      this.env := env;
    }

    /** A context on a copy of another's stack, with an empty output. */
    constructor Copy(context: Context)
      ensures stack == context.stack && output == [] && env == context.env
    {
      output := [];
      stack := context.stack;
      env := context.env;
    }

    /** `append(string:)`. */
    method Append(s: string)
      modifies this`output
      ensures output == old(output) + s
    {
      output := output + s;
    }

    /** `enter(scope:)`. */
    method Enter(scope: Value)
      modifies this`stack
      ensures stack == old(stack) + [scope]
    {
      stack := stack + [scope];
    }

    /** `leave()`. */
    method Leave()
      requires stack != []
      modifies this`stack
      ensures stack == old(stack)[..|old(stack)| - 1]
    {
      stack := stack[..|stack| - 1];
    }

    /** `value(forTag:)`: the innermost scope's value first. */
    method ValueForTag(tag: string) returns (r: Value)
      ensures r == Lookup(env.kvc, stack, tag)
    {
      var scopes, kvc := stack, env.kvc;
      var i := |scopes|;
      assert scopes[..i] == scopes;
      while i > 0
        invariant 0 <= i <= |scopes|
        invariant Lookup(kvc, scopes, tag) == Lookup(kvc, scopes[..i], tag)
        decreases i
      {
        var v := kvc(scopes[i - 1], tag);
        LookupPrefix(kvc, scopes, i, tag);
        if v != Nil {
          return v;
        }
        i := i - 1;
      }
      return Nil;
    }

    /** `newLambdaContext()`: the same stack and environment, a fresh output. */
    method NewLambdaContext() returns (c: Context)
      ensures fresh(c)
      ensures c.stack == stack && c.output == [] && c.env == env
    {
      c := new Context.Copy(this);
    }
  }

  // ---------------------------------------------------------------------
  // The renderer

  /** `render(inContext:)`. */
  method RenderNode(n: Node, ctx: Context, fuel: nat)
    modifies ctx
    ensures ctx.output == old(ctx.output) + Rendered(ctx.env, fuel, old(ctx.stack), n)
    ensures ctx.stack == old(ctx.stack)
    decreases fuel, n, 0
  {
    match n {
      case Empty =>
      case Global(ns) =>
        RenderNodes(ns, ctx, fuel);
      case Text(t) =>
        ctx.Append(t);
      case Section(k, ns) =>
        RenderSection(k, ns, ctx, fuel);
      case InvertedSection(k, ns) =>
        var v := ctx.ValueForTag(k);
        if !IsMustacheTrue(v) {
          RenderNodes(ns, ctx, fuel);
        }
      case Tag(k) =>
        var v := ctx.ValueForTag(k);
        if v != Nil {
          if v.Str? {
            ctx.Append(ctx.env.escape(v.s));
          } else {
            ctx.Append(ctx.env.escape(ctx.env.describe(v)));
          }
        }
      case UnescapedTag(k) =>
        var v := ctx.ValueForTag(k);
        if v != Nil {
          if v.Str? {
            ctx.Append(v.s);
          } else {
            ctx.Append(ctx.env.describe(v));
          }
        }
      case Partial(name) =>
        var partial := ctx.env.partials(name);
        if partial.Some? && fuel > 0 {
          RenderNode(partial.value, ctx, fuel - 1);
        }
    }
  }

  /** `render(nodes:inContext:)`: each node in turn, into the same context. */
  method RenderNodes(ns: seq<Node>, ctx: Context, fuel: nat)
    modifies ctx
    ensures ctx.output == old(ctx.output) + RenderedAll(ctx.env, fuel, old(ctx.stack), ns)
    ensures ctx.stack == old(ctx.stack)
    decreases fuel, ns, 1
  {
    ghost var out0 := ctx.output;
    for i := 0 to |ns|
      invariant ctx.output == out0 + RenderedAll(ctx.env, fuel, ctx.stack, ns[..i])
      invariant ctx.stack == old(ctx.stack)
    {
      assert ns[..i + 1][..i] == ns[..i];
      RenderNode(ns[i], ctx, fuel);
    }
    assert ns[..|ns|] == ns;
  }

  /** `render(section:nodes:inContext:)`. */
  method RenderSection(k: string, ns: seq<Node>, ctx: Context, fuel: nat)
    modifies ctx
    ensures ctx.output == old(ctx.output) + SectionOutput(ctx.env, fuel, old(ctx.stack), k, ns)
    ensures ctx.stack == old(ctx.stack)
    decreases fuel, ns, 4
  {
    var v := ctx.ValueForTag(k);
    if v == Nil {
      return;
    }
    if v.Func? && v.f.PlainFull? {
      RenderLambda(v.f.body, true, ns, ctx, fuel);
      return;
    } else if v.Func? && v.f.PlainSimple? {
      RenderLambda(v.f.body, false, ns, ctx, fuel);
    }
    if !IsMustacheTrue(v) {
      return;
    }
    RenderValueBody(ns, ctx, v, fuel);
  }

  /** The display-style dispatch at the end of `render(section:nodes:inContext:)`. */
  method RenderValueBody(ns: seq<Node>, ctx: Context, v: Value, fuel: nat)
    modifies ctx
    ensures ctx.output == old(ctx.output) + ValueBody(ctx.env, fuel, old(ctx.stack), ns, v)
    ensures ctx.stack == old(ctx.stack)
    decreases fuel, ns, 3
  {
    var ds := DisplayStyleOf(v);
    if ds.None? {
      RenderNodes(ns, ctx, fuel);
      return;
    }
    match ds.value {
      case CollectionStyle =>
        RenderItems(ns, ctx, v.children, fuel);
      case ClassStyle =>
        RenderRecord(ns, ctx, v, fuel);
      case DictionaryStyle =>
        RenderRecord(ns, ctx, v, fuel);
      case SetStyle =>
        RenderNodes(ns, ctx, fuel);
      case StructStyle =>
        RenderNodes(ns, ctx, fuel);
      case EnumStyle =>
        RenderNodes(ns, ctx, fuel);
      case TupleStyle =>
        RenderNodes(ns, ctx, fuel);
      case OptionalStyle =>
        RenderNodes(ns, ctx, fuel);
    }
  }

  /** A class or dictionary value: entered as the scope unless it is a Foundation base type. */
  method RenderRecord(ns: seq<Node>, ctx: Context, v: Value, fuel: nat)
    modifies ctx
    ensures ctx.output == old(ctx.output) +
      (if IsFoundationBaseType(v) then RenderedAll(ctx.env, fuel, old(ctx.stack), ns)
       else RenderedAll(ctx.env, fuel, old(ctx.stack) + [v], ns))
    ensures ctx.stack == old(ctx.stack)
    decreases fuel, ns, 2
  {
    if IsFoundationBaseType(v) {
      RenderNodes(ns, ctx, fuel);
    } else {
      ctx.Enter(v);
      RenderNodes(ns, ctx, fuel);
      ctx.Leave();
    }
  }

  /** The collection loop: enter each element, render the children, leave. */
  method RenderItems(ns: seq<Node>, ctx: Context, items: seq<Value>, fuel: nat)
    modifies ctx
    ensures ctx.output == old(ctx.output) + Iterations(ctx.env, fuel, old(ctx.stack), ns, items)
    ensures ctx.stack == old(ctx.stack)
    decreases fuel, ns, 2
  {
    ghost var out0 := ctx.output;
    for i := 0 to |items|
      invariant ctx.output == out0 + Iterations(ctx.env, fuel, ctx.stack, ns, items[..i])
      invariant ctx.stack == old(ctx.stack)
    {
      assert items[..i + 1][..i] == items[..i];
      ctx.Enter(items[i]);
      RenderNodes(ns, ctx, fuel);
      ctx.Leave();
    }
    assert items[..|items|] == items;
  }

  /** `render(lambda:nodes:inContext:)`: the lambda's result, appended once. */
  method RenderLambda(body: LambdaExpr<string>, full: bool, ns: seq<Node>, ctx: Context, fuel: nat)
    modifies ctx
    ensures ctx.output == old(ctx.output) + LambdaOutput(ctx.env, fuel, old(ctx.stack), ns, body, full)
    ensures ctx.stack == old(ctx.stack)
    decreases fuel, ns, 2
  {
    var mustache := SequenceAsMustacheString(ns);
    var result := RunLambda(body, full, mustache, ns, ctx, fuel);
    ctx.Append(result);
  }

  /** Runs a lambda body; its callback renders into contexts of its own. */
  method RunLambda(e: LambdaExpr<string>, full: bool, mustache: string, ns: seq<Node>, ctx: Context, fuel: nat)
    returns (r: string)
    requires mustache == SerializedAll(ns)
    ensures r == LambdaOutput(ctx.env, fuel, ctx.stack, ns, e, full)
    decreases fuel, ns, 1, e
  {
    match e {
      case Lit(s) =>
        r := s;
      case Input =>
        r := mustache;
      case Cat(a, b) =>
        var x := RunLambda(a, full, mustache, ns, ctx, fuel);
        var y := RunLambda(b, full, mustache, ns, ctx, fuel);
        r := x + y;
      case Render(a) =>
        var m2 := RunLambda(a, full, mustache, ns, ctx, fuel);
        if full {
          r := Callback(m2, mustache, ns, ctx, fuel);
        } else {
          r := m2;
        }
    }
  }

  /** The re-render callback a full lambda is given. */
  method Callback(mustacheToRender: string, mustache: string, ns: seq<Node>, ctx: Context, fuel: nat)
    returns (r: string)
    requires mustache == SerializedAll(ns)
    ensures r == CallbackOutput(ctx.env, fuel, ctx.stack, ns, mustacheToRender)
    decreases fuel, ns, 0
  {
    if fuel == 0 {
      return "";
    }
    var tree: Node;
    if mustache == mustacheToRender {
      tree := Global(ns);
    } else {
      var parser := new Parser();
      tree := parser.Parse(mustache);
    }
    var lambdaCtx := ctx.NewLambdaContext();
    RenderNode(tree, lambdaCtx, fuel - 1);
    r := lambdaCtx.output;
  }

  /** `render(object:)`: renders into a new context for the root value and returns its output. */
  method RenderObject(n: Node, root: Value, env: Env, fuel: nat) returns (r: string)
    ensures r == Rendered(env, fuel, if root == Nil then [] else [root], n)
  {
    var ctx := new Context(root, env);
    RenderNode(n, ctx, fuel);
    r := ctx.output;
  }

  // ---------------------------------------------------------------------
  // Properties

  /** A node list renders as its parts, left to right. */
  lemma {:induction false} RenderedAllAppend(env: Env, fuel: nat, stack: seq<Value>, a: seq<Node>, b: seq<Node>)
    ensures RenderedAll(env, fuel, stack, a + b) == RenderedAll(env, fuel, stack, a) + RenderedAll(env, fuel, stack, b)
    decreases |b|
  {
    if b == [] {
      assert a + b == a;
    } else {
      var b' := b[..|b| - 1];
      assert (a + b)[..|a + b| - 1] == a + b';
      assert (a + b)[|a + b| - 1] == b[|b| - 1];
      RenderedAllAppend(env, fuel, stack, a, b');
    }
  }

  /** A tag shows the escaped form of what the unescaped tag shows, and nothing for `nil`. */
  lemma TagIsEscapedUnescapedTag(env: Env, fuel: nat, stack: seq<Value>, k: string)
    ensures Lookup(env.kvc, stack, k) == Nil ==> Rendered(env, fuel, stack, Tag(k)) == ""
    ensures Lookup(env.kvc, stack, k) != Nil ==>
      Rendered(env, fuel, stack, Tag(k)) == env.escape(Rendered(env, fuel, stack, UnescapedTag(k)))
  {
  }

  /**
   * For a value that is not a function, exactly one of a section and the
   * inverted section with the same key shows its children: the section for
   * a true value, the inverted section (in the current scope) otherwise.
   */
  lemma SectionsComplement(env: Env, fuel: nat, stack: seq<Value>, k: string, ns: seq<Node>)
    requires !Lookup(env.kvc, stack, k).Func?
    ensures IsMustacheTrue(Lookup(env.kvc, stack, k)) ==>
      && Rendered(env, fuel, stack, InvertedSection(k, ns)) == ""
      && Rendered(env, fuel, stack, Section(k, ns)) == ValueBody(env, fuel, stack, ns, Lookup(env.kvc, stack, k))
    ensures !IsMustacheTrue(Lookup(env.kvc, stack, k)) ==>
      && Rendered(env, fuel, stack, Section(k, ns)) == ""
      && Rendered(env, fuel, stack, InvertedSection(k, ns)) == RenderedAll(env, fuel, stack, ns)
  {
  }

  /** The iterations over a list of items are the iterations over its parts. */
  lemma {:induction false} IterationsAppend(env: Env, fuel: nat, stack: seq<Value>, ns: seq<Node>, a: seq<Value>, b: seq<Value>)
    ensures Iterations(env, fuel, stack, ns, a + b) == Iterations(env, fuel, stack, ns, a) + Iterations(env, fuel, stack, ns, b)
    decreases |b|
  {
    if b == [] {
      assert a + b == a;
    } else {
      var b' := b[..|b| - 1];
      assert (a + b)[..|a + b| - 1] == a + b';
      assert (a + b)[|a + b| - 1] == b[|b| - 1];
      IterationsAppend(env, fuel, stack, ns, a, b');
    }
  }

  /** The text of a list of text nodes (a helper of `TextsRender` and `IterationsRepeat`). */
  function TextsOf(ns: seq<Node>): (r: string)
    requires forall i :: 0 <= i < |ns| ==> ns[i].Text?
    ensures ns == [] ==> r == ""
  {
    if ns == [] then "" else TextsOf(ns[..|ns| - 1]) + ns[|ns| - 1].text
  }

  /** `s` repeated `n` times (a helper of `IterationsRepeat`). */
  function Repeat(s: string, n: nat): (r: string)
    ensures |r| == n * |s|
  {
    if n == 0 then "" else Repeat(s, n - 1) + s
  }

  /** Text nodes render as their text, whatever the scope. */
  lemma {:induction false} TextsRender(env: Env, fuel: nat, stack: seq<Value>, ns: seq<Node>)
    requires forall i :: 0 <= i < |ns| ==> ns[i].Text?
    ensures RenderedAll(env, fuel, stack, ns) == TextsOf(ns)
    decreases |ns|
  {
    if ns != [] {
      TextsRender(env, fuel, stack, ns[..|ns| - 1]);
    }
  }

  /** A collection of N items renders its children N times. */
  lemma {:induction false} IterationsRepeat(env: Env, fuel: nat, stack: seq<Value>, ns: seq<Node>, items: seq<Value>)
    requires forall i :: 0 <= i < |ns| ==> ns[i].Text?
    ensures Iterations(env, fuel, stack, ns, items) == Repeat(TextsOf(ns), |items|)
    decreases |items|
  {
    if items != [] {
      IterationsRepeat(env, fuel, stack, ns, items[..|items| - 1]);
      TextsRender(env, fuel, stack + [items[|items| - 1]], ns);
    }
  }

  /**
   * A true collection value renders the children once per element, with
   * that element as the innermost scope.
   */
  lemma CollectionSection(env: Env, fuel: nat, stack: seq<Value>, k: string, ns: seq<Node>)
    requires Lookup(env.kvc, stack, k).Reflected?
    requires Lookup(env.kvc, stack, k).style == CollectionStyle
    ensures Rendered(env, fuel, stack, Section(k, ns)) ==
      Iterations(env, fuel, stack, ns, Lookup(env.kvc, stack, k).children)
  {
    var v := Lookup(env.kvc, stack, k);
    assert DisplayStyleOf(v) == Some(CollectionStyle);
    if v.children == [] {
      assert Iterations(env, fuel, stack, ns, v.children) == "";
    } else {
      assert SectionOutput(env, fuel, stack, k, ns) == "" + ValueBody(env, fuel, stack, ns, v);
    }
  }

  /**
   * Both branches of the callback render the lambda's own children: given
   * any text other than their source, it parses that source again, which
   * gives the children back for a template in round-trip form.
   */
  lemma CallbackIgnoresItsArgument(env: Env, fuel: nat, stack: seq<Value>, ns: seq<Node>, mustacheToRender: string)
    requires WFList(ns)
    ensures CallbackOutput(env, fuel, stack, ns, mustacheToRender) ==
      (if fuel == 0 then "" else RenderedAll(env, fuel - 1, stack, ns))
  {
    ParseSerialized(ns);
  }
}
