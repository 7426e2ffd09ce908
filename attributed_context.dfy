/**
 * `AttributedMustacheDefaultRenderingContext`: the output an attributed
 * template renders into, and the stack of scopes its tags are looked up in.
 *
 * `KeyValueCoding.value(forKeyPath:inObject:)` is not part of this model;
 * it is the parameter `kvc` of a context, with `Nil` for "no value".
 */
module AttributedRenderingContext {
  import opened Wrappers
  import opened Helpers
  import opened AttributedText
  import opened AttributedMustacheNode

  /** A key-value coding lookup of a key path in one scope. */
  type KeyValueCoding = (Value, string) -> Value

  /**
   * The value of `key` in a scope stack: the first value that is not `Nil`,
   * trying the innermost (last) scope first, and `Nil` when no scope has one.
   */
  function Lookup(kvc: KeyValueCoding, stack: seq<Value>, key: string): (r: Value)
    ensures r != Nil ==> exists i :: 0 <= i < |stack| && r == kvc(stack[i], key) &&
                                     (forall j :: i < j < |stack| ==> kvc(stack[j], key) == Nil)
    ensures r == Nil <==> forall i :: 0 <= i < |stack| ==> kvc(stack[i], key) == Nil
    decreases |stack|
  {
    if stack == [] then Nil
    else
      var v := kvc(stack[|stack| - 1], key);
      if v != Nil then v else Lookup(kvc, stack[..|stack| - 1], key)
  }

  /** A scope pushed on top of a stack answers every key it has a value for. */
  lemma LookupPushed(kvc: KeyValueCoding, stack: seq<Value>, top: Value, key: string)
    ensures kvc(top, key) != Nil ==> Lookup(kvc, stack + [top], key) == kvc(top, key)
    ensures kvc(top, key) == Nil ==> Lookup(kvc, stack + [top], key) == Lookup(kvc, stack, key)
  {
    assert (stack + [top])[..|stack|] == stack;
  }

  /** One step of the scan: a prefix of the stack answers from its last scope, or from the rest. */
  lemma LookupPrefix(kvc: KeyValueCoding, stack: seq<Value>, i: nat, key: string)
    requires 0 < i <= |stack|
    ensures Lookup(kvc, stack[..i], key) ==
      (if kvc(stack[i - 1], key) != Nil then kvc(stack[i - 1], key) else Lookup(kvc, stack[..i - 1], key))
  {
    assert stack[..i][..i - 1] == stack[..i - 1];
  }

  /** The default `retrievePartial`: no partial for any name. */
  function NoPartial(name: string): (r: Option<Node>)
    ensures r == None
  {
    None
  }

  /** The default rendering context. */
  class DefaultContext {
    /** `attributedString`: the output so far. */
    var output: AttrString
    /** `stack`: the scopes, outermost first. */
    var stack: seq<Value>
    /** The key-value coding lookup used by `value(forTag:)`. */
    const kvc: KeyValueCoding
    /**
     * `retrievePartial(name:)`. The default class resolves nothing; a
     * subclass that overrides it is a context built with `WithPartials`.
     */
    const partials: string -> Option<Node>

    /** `init(_ root:)`: the root is the only scope unless it is `nil`; no output. */
    constructor (root: Value, kvc: KeyValueCoding)
      ensures stack == (if root == Nil then [] else [root])
      ensures output == []
      ensures this.kvc == kvc
      ensures partials == NoPartial
    {
      output := [];
      stack := if root == Nil then [] else [root];
      this.kvc := kvc;
      partials := NoPartial;
    }

    /** A subclass of the default context whose `retrievePartial` is `partials`. */
    constructor WithPartials(root: Value, kvc: KeyValueCoding, partials: string -> Option<Node>)
      ensures stack == (if root == Nil then [] else [root])
      ensures output == []
      ensures this.kvc == kvc
      ensures this.partials == partials
    {
      output := [];
      stack := if root == Nil then [] else [root];
      this.kvc := kvc;
      this.partials := partials;
    }

    /**
     * `init(context:)`: a default context with a copy of the other's
     * stack, an empty output and, being a default context, no partials.
     */
    constructor Copy(context: DefaultContext)
      ensures stack == context.stack
      ensures output == []
      ensures kvc == context.kvc
      ensures partials == NoPartial
    {
      output := [];
      stack := context.stack;
      kvc := context.kvc;
      partials := NoPartial;
    }

    /** `append(_:)`: adds to the output and changes nothing else. */
    method Append(s: AttrString)
      modifies this`output
      ensures output == old(output) + s
    {
      output := output + s;
    }

    /** `enter(scope:)`: pushes a scope. */
    method Enter(scope: Value)
      modifies this`stack
      ensures stack == old(stack) + [scope]
    {
      stack := stack + [scope];
    }

    /** `leave()`: pops the innermost scope; `removeLast` traps on an empty stack. */
    method Leave()
      requires stack != []
      modifies this`stack
      ensures stack == old(stack)[..|old(stack)| - 1]
    {
      stack := stack[..|stack| - 1];
    }

    /** `cursor`: the innermost scope, `nil` for an empty stack. */
    function Cursor(): (r: Value)
      reads this
      ensures stack == [] ==> r == Nil
      ensures stack != [] ==> r == stack[|stack| - 1]
    {
      if stack == [] then Nil else stack[|stack| - 1]
    }

    /**
     * `value(forTag:)`: scans the stack from the innermost scope outwards
     * and returns the first value found.
     */
    method ValueForTag(tag: string) returns (r: Value)
      ensures r == Lookup(kvc, stack, tag)
    {
      var scopes := stack;
      var i := |scopes|;
      assert scopes[..i] == scopes;
      while i > 0
        invariant 0 <= i <= |scopes|
        invariant Lookup(kvc, scopes, tag) == Lookup(kvc, scopes[..i], tag)
        decreases i
      {
        var v := kvc(scopes[i - 1], tag);
        LookupPrefix(kvc, scopes, i, tag);
        if v != Nil {
          return v;
        }
        i := i - 1;
      }
      return Nil;
    }

    /**
     * `newLambdaContext()`: a new default context on a copy of the stack,
     * with an empty output of its own.
     */
    method NewLambdaContext() returns (c: DefaultContext)
      ensures fresh(c)
      ensures c.stack == stack && c.output == [] && c.kvc == kvc
      ensures c.partials == NoPartial
    {
      c := new DefaultContext.Copy(this);
    }

    /** `retrievePartial(name:)`. */
    function RetrievePartial(name: string): (r: Option<Node>)
      ensures r == partials(name)
    {
      partials(name)
    }
  }
}
