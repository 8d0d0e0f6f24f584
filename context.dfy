/** The variable store (include/cppexprpars/context.hpp) and its default contents
    (`EvaluationContext::default_context`, src/expr_node.cpp). */
module Context {
  import opened Errors

  /** `get_variable` on a store: the bound value, or an unknown-variable failure. */
  function Lookup(vars: map<string, real>, name: string): (r: Result<real>)
    ensures r.Ok? <==> name in vars
    ensures r.Ok? ==> r.value == vars[name]
    ensures r.Err? ==> r.error == UnknownVariable(name)
  {
    if name in vars then Ok(vars[name]) else Err(UnknownVariable(name))
  }

  /** After binding `name` to `value`, looking `name` up gives `value`, whatever it was bound to
      before; every other name keeps its binding. */
  lemma LookupAfterSet(vars: map<string, real>, name: string, value: real, other: string)
    ensures Lookup(vars[name := value], name) == Ok(value)
    ensures other != name ==> Lookup(vars[name := value], other) == Lookup(vars, other)
  {
  }

  class EvaluationContext {
    var variables: map<string, real>

    constructor ()
      ensures variables == map[]
    {
      variables := map[];
    }

    /** `set_variable`: binds `name`, overwriting an earlier binding. */
    method SetVariable(name: string, value: real)
      modifies this
      ensures variables == old(variables)[name := value]
    {
      variables := variables[name := value];
    }

    /** `get_variable`: a lookup that leaves the store as it is. */
    method GetVariable(name: string) returns (r: Result<real>)
      ensures r == Lookup(variables, name)
    {
      if name in variables {
        r := Ok(variables[name]);
      } else {
        r := Err(UnknownVariable(name));
      }
    }
  }

  /** A one-character name that is an ASCII letter. */
  predicate IsLetterName(n: string)
  {
    |n| == 1 && ('a' <= n[0] <= 'z' || 'A' <= n[0] <= 'Z')
  }

  /** The default store binds every single letter to its character code, and nothing else. */
  ghost predicate IsDefaultStore(vars: map<string, real>)
  {
    && (forall n :: n in vars <==> IsLetterName(n))
    && (forall n :: n in vars ==> vars[n] == (n[0] as int) as real)
  }

  /** The only one-character string whose character is `c` is `[c]`. */
  lemma SingleCharName(c: char)
    ensures forall n: string :: |n| == 1 && n[0] == c ==> n == [c]
  {
    forall n: string | |n| == 1 && n[0] == c
      ensures n == [c]
    {
      assert n[0] == [c][0];
    }
  }

  /** `EvaluationContext::default_context`: binds `a`..`z` and then `A`..`Z`. */
  method DefaultContext() returns (ctx: EvaluationContext)
    ensures fresh(ctx)
    ensures IsDefaultStore(ctx.variables)
  {
    ctx := new EvaluationContext();
    var c := 'a';
    while c <= 'z'
      invariant 'a' <= c <= '{'
      invariant forall n :: n in ctx.variables <==> |n| == 1 && 'a' <= n[0] < c
      invariant forall n :: n in ctx.variables ==> ctx.variables[n] == (n[0] as int) as real
      decreases 'z' as int - c as int
    {
      SingleCharName(c);
      ctx.SetVariable([c], (c as int) as real);
      c := (c as int + 1) as char;
    }
    c := 'A';
    while c <= 'Z'
      invariant 'A' <= c <= '['
      invariant forall n :: n in ctx.variables <==> |n| == 1 && ('a' <= n[0] <= 'z' || 'A' <= n[0] < c)
      invariant forall n :: n in ctx.variables ==> ctx.variables[n] == (n[0] as int) as real
      decreases 'Z' as int - c as int
    {
      SingleCharName(c);
      ctx.SetVariable([c], (c as int) as real);
      c := (c as int + 1) as char;
    }
  }
}
