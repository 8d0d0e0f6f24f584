/** The default environment of the expression nodes: `VariableExprNode::default_context_`
    and `FuncExprNode::default_registry_` with their setters (src/expr_node.cpp). Both are
    stored by value, so a setter copies its argument's contents. */
module DefaultEnvironment {
  import opened Errors
  import opened Context
  import opened Functions
  import Ast

  class Defaults {
    var context: map<string, real>
    var registry: map<string, Callable>

    /** The statics as initialised: the default context, and the built-in functions
        (`FunctionRegistry::default_registry`, not part of this model) as given. */
    constructor (builtins: map<string, Callable>)
      ensures IsDefaultStore(context)
      ensures registry == builtins
    {
      var ctx := DefaultContext();
      context := ctx.variables;
      registry := builtins;
    }

    /** `VariableExprNode::set_default_context`: the stored context becomes a copy of `ctx`. */
    method SetDefaultContext(ctx: EvaluationContext)
      modifies this
      ensures context == ctx.variables
      ensures registry == old(registry)
    {
      context := ctx.variables;
    }

    /** `FuncExprNode::set_default_registry`: the stored registry becomes a copy of `reg`. */
    method SetDefaultRegistry(reg: FunctionRegistry)
      modifies this
      ensures registry == reg.functions
      ensures context == old(context)
    {
      registry := reg.functions;
    }

    /** The environment a node built with the defaults evaluates in. */
    function Environment(num: Ast.Numerics): (env: Ast.Env)
      reads this
      ensures forall n :: env.resolve(n) == Lookup(context, n)
      ensures env.functions == registry
    {
      Ast.ContextEnv(context, registry, num)
    }
  }

  /** In the default context a single letter evaluates to its character code (`x` to 120),
      and any other name is unknown. */
  lemma DefaultVariables(vars: map<string, real>, functions: map<string, Callable>, num: Ast.Numerics, name: string)
    requires IsDefaultStore(vars)
    ensures Ast.Eval(Ast.Variable("x"), Ast.ContextEnv(vars, functions, num)) == Ok(120.0)
    ensures Ast.Eval(Ast.Variable("Z"), Ast.ContextEnv(vars, functions, num)) == Ok(90.0)
    ensures IsLetterName(name) ==>
      Ast.Eval(Ast.Variable(name), Ast.ContextEnv(vars, functions, num)) == Ok((name[0] as int) as real)
    ensures !IsLetterName(name) ==>
      Ast.Eval(Ast.Variable(name), Ast.ContextEnv(vars, functions, num)) == Err(UnknownVariable(name))
  {
    assert IsLetterName("x") && IsLetterName("Z");
  }
}
