/** The expression tree and its evaluation (include/cppexprpars/operators.hpp,
    include/cppexprpars/expr_node.hpp, src/expr_node.cpp). The node class hierarchy is a
    closed datatype; `evaluate` is the function `Eval`, which takes its environment
    explicitly instead of through the pointers and resolvers captured in the nodes. */
module Ast {
  import opened Errors
  import opened Context
  import opened Functions

  datatype BinaryOp = Add | Subtract | Multiply | Divide | Modulo | Power

  datatype UnaryOp = Plus | Minus

  /** Constant, Variable, Unary, Binary and Function nodes. */
  datatype Expr =
    | Constant(value: real)
    | Variable(name: string)
    | Unary(uop: UnaryOp, operand: Expr)
    | Binary(bop: BinaryOp, left: Expr, right: Expr)
    | Call(fname: string, args: seq<Expr>)

  /** `charToBinaryOp`: `+ - * / % ^`; any other character is rejected. */
  function CharToBinaryOp(c: char): (r: Option<BinaryOp>)
    ensures r.Some? <==> c in "+-*/%^"
  {
    match c
    case '+' => Some(Add)
    case '-' => Some(Subtract)
    case '*' => Some(Multiply)
    case '/' => Some(Divide)
    case '%' => Some(Modulo)
    case '^' => Some(Power)
    case _ => None
  }

  /** The character that denotes each binary operator. */
  function BinaryOpChar(op: BinaryOp): char
  {
    match op
    case Add => '+'
    case Subtract => '-'
    case Multiply => '*'
    case Divide => '/'
    case Modulo => '%'
    case Power => '^'
  }

  /** `CharToBinaryOp` and `BinaryOpChar` are inverse: each accepted character names exactly one operator. */
  lemma CharToBinaryOpRoundTrip(op: BinaryOp, c: char)
    ensures CharToBinaryOp(BinaryOpChar(op)) == Some(op)
    ensures CharToBinaryOp(c) == Some(op) ==> BinaryOpChar(op) == c
  {
  }

  /** `charToUnaryOp`: `+` and `-`; any other character is rejected. */
  function CharToUnaryOp(c: char): (r: Option<UnaryOp>)
    ensures r.Some? <==> c == '+' || c == '-'
  {
    match c
    case '+' => Some(Plus)
    case '-' => Some(Minus)
    case _ => None
  }

  function UnaryOpChar(op: UnaryOp): char
  {
    match op
    case Plus => '+'
    case Minus => '-'
  }

  lemma CharToUnaryOpRoundTrip(op: UnaryOp, c: char)
    ensures CharToUnaryOp(UnaryOpChar(op)) == Some(op)
    ensures CharToUnaryOp(c) == Some(op) ==> UnaryOpChar(op) == c
  {
  }

  /** The floating-point operations the tree uses but this model does not define:
      `std::pow`, and the remainder of the operands truncated to unsigned 64-bit integers. */
  datatype Numerics = Numerics(pow: (real, real) -> real, truncMod: (real, real) -> real)

  /** What evaluation consults: the resolver of variable nodes, the registry of function
      nodes, and the numeric library. */
  datatype Env = Env(resolve: string -> Result<real>, functions: map<string, Callable>, num: Numerics)

  /** The environment of a parser bound to a context and a registry: variables resolve
      through `get_variable`. */
  function ContextEnv(vars: map<string, real>, functions: map<string, Callable>, num: Numerics): Env
  {
    Env(name => Lookup(vars, name), functions, num)
  }

  /** `UnaryExprNode::evaluate` after its operand: Plus is the identity, Minus negates. */
  function ApplyUnary(op: UnaryOp, v: real): (r: real)
    ensures op == Plus ==> r == v
    ensures op == Minus ==> r + v == 0.0
  {
    match op
    case Plus => v
    case Minus => -v
  }

  /** `BinaryExprNode::evaluate` after both operands. */
  function ApplyBinary(op: BinaryOp, a: real, b: real, num: Numerics): (r: Result<real>)
    ensures r.Err? <==> (op == Divide || op == Modulo) && b == 0.0
    ensures r.Err? ==> r.error == DivisionByZero
    ensures op == Divide && r.Ok? ==> r.value * b == a
  {
    match op
    case Add => Ok(a + b)
    case Subtract => Ok(a - b)
    case Multiply => Ok(a * b)
    case Divide => if b == 0.0 then Err(DivisionByZero) else Ok(a / b)
    case Modulo => if b == 0.0 then Err(DivisionByZero) else Ok(num.truncMod(a, b))
    case Power => Ok(num.pow(a, b))
  }

  /** Add, Subtract and Multiply are the arithmetic operations on the operands. */
  lemma {:induction false} ArithmeticIsExact(a: real, b: real, num: Numerics)
    ensures ApplyBinary(Add, a, b, num) == Ok(a + b)
    ensures ApplyBinary(Subtract, a, b, num) == Ok(a - b)
    ensures ApplyBinary(Multiply, a, b, num) == Ok(a * b)
  {
  }

  /** A size for termination: recursion goes through the argument sequences of calls. */
  function Size(e: Expr): nat
  {
    match e
    case Constant(_) => 1
    case Variable(_) => 1
    case Unary(_, x) => 1 + Size(x)
    case Binary(_, l, r) => 1 + Size(l) + Size(r)
    case Call(_, args) => 1 + SizeOfAll(args)
  }

  function SizeOfAll(args: seq<Expr>): nat
  {
    if args == [] then 0 else Size(args[0]) + SizeOfAll(args[1..])
  }

  /** `evaluate`: operands left to right, each completely before the next; the first
      failure aborts, there is no short-circuit. */
  function Eval(e: Expr, env: Env): Result<real>
    decreases Size(e), 0
  {
    match e
    case Constant(v) => Ok(v)
    case Variable(n) => env.resolve(n)
    case Unary(op, x) =>
      (match Eval(x, env)
       case Err(err) => Err(err)
       case Ok(v) => Ok(ApplyUnary(op, v)))
    case Binary(op, l, r) =>
      (match Eval(l, env)
       case Err(err) => Err(err)
       case Ok(a) =>
         match Eval(r, env)
         case Err(err) => Err(err)
         case Ok(b) => ApplyBinary(op, a, b, env.num))
    case Call(n, args) =>
      match EvalAll(args, env)
      case Err(err) => Err(err)
      case Ok(vs) =>
        match Find(env.functions, n)
        case Err(err) => Err(err)
        case Ok(f) => f(vs)
  }

  /** The arguments of a function node, evaluated in order. */
  function EvalAll(args: seq<Expr>, env: Env): Result<seq<real>>
    decreases SizeOfAll(args), 1
  {
    if args == [] then Ok([])
    else
      match Eval(args[0], env)
      case Err(err) => Err(err)
      case Ok(v) =>
        match EvalAll(args[1..], env)
        case Err(err) => Err(err)
        case Ok(vs) => Ok([v] + vs)
  }

  /** When every argument evaluates, the values come in argument order, one per argument. */
  lemma {:induction false} EvalAllValues(args: seq<Expr>, env: Env)
    requires forall i :: 0 <= i < |args| ==> Eval(args[i], env).Ok?
    ensures EvalAll(args, env).Ok?
    ensures |EvalAll(args, env).value| == |args|
    ensures forall i :: 0 <= i < |args| ==> EvalAll(args, env).value[i] == Eval(args[i], env).value
  {
    if args != [] {
      assert forall i :: 0 <= i < |args| - 1 ==> args[1..][i] == args[i + 1];
      EvalAllValues(args[1..], env);
    }
  }

  /** The first argument that fails decides the failure: the arguments before it succeed,
      the ones after it are not needed. */
  lemma {:induction false} EvalAllFirstFailure(args: seq<Expr>, env: Env, k: nat)
    requires k < |args|
    requires forall i :: 0 <= i < k ==> Eval(args[i], env).Ok?
    requires Eval(args[k], env).Err?
    ensures EvalAll(args, env) == Err(Eval(args[k], env).error)
  {
    if k > 0 {
      assert forall i :: 0 <= i < k - 1 ==> args[1..][i] == args[i + 1];
      EvalAllFirstFailure(args[1..], env, k - 1);
    }
  }

  /** Argument evaluation succeeds exactly when every argument evaluates. */
  lemma {:induction false} EvalAllSucceedsIffEach(args: seq<Expr>, env: Env)
    ensures EvalAll(args, env).Ok? <==> forall i :: 0 <= i < |args| ==> Eval(args[i], env).Ok?
  {
    if args != [] && Eval(args[0], env).Ok? {
      assert forall i :: 0 <= i < |args| - 1 ==> args[1..][i] == args[i + 1];
      EvalAllSucceedsIffEach(args[1..], env);
      assert (forall i :: 0 <= i < |args| ==> Eval(args[i], env).Ok?) <==>
             (forall i :: 0 <= i < |args| - 1 ==> Eval(args[1..][i], env).Ok?) by {
        if forall i :: 0 <= i < |args| - 1 ==> Eval(args[1..][i], env).Ok? {
          forall i | 0 <= i < |args| ensures Eval(args[i], env).Ok? {
            if i > 0 { assert args[i] == args[1..][i - 1]; }
          }
        }
      }
    }
  }

  /** `FuncExprNode::evaluate`: evaluates the arguments one by one into a list, and only
      then looks the name up and applies the function. */
  method EvaluateCall(name: string, args: seq<Expr>, env: Env) returns (r: Result<real>)
    ensures r == Eval(Call(name, args), env)
  {
    var evaluated: seq<real> := [];
    for i := 0 to |args|
      invariant |evaluated| == i
      invariant forall j :: 0 <= j < i ==> Eval(args[j], env).Ok? && evaluated[j] == Eval(args[j], env).value
    {
      var v := Eval(args[i], env);
      if v.Err? {
        EvalAllFirstFailure(args, env, i);
        return Err(v.error);
      }
      evaluated := evaluated + [v.value];
    }
    EvalAllValues(args, env);
    assert evaluated == EvalAll(args, env).value;
    var fn := Find(env.functions, name);
    if fn.Err? {
      return Err(fn.error);
    }
    r := fn.value(evaluated);
  }

  /** A function node fails with an unknown-function error when its name is not registered,
      but only once all its arguments have evaluated; a failing argument is reported instead. */
  lemma CallFailsOnlyAfterArguments(name: string, args: seq<Expr>, env: Env)
    ensures EvalAll(args, env).Err? ==> Eval(Call(name, args), env) == Err(EvalAll(args, env).error)
    ensures EvalAll(args, env).Ok? && name !in env.functions ==>
      Eval(Call(name, args), env) == Err(UnknownFunction(name))
    ensures EvalAll(args, env).Ok? && name in env.functions ==>
      Eval(Call(name, args), env) == env.functions[name](EvalAll(args, env).value)
  {
  }

  /** The left operand is evaluated first: its failure is the node's failure; a failure of
      the right operand comes next, before the operator is looked at. */
  lemma LeftOperandFirst(op: BinaryOp, l: Expr, r: Expr, env: Env)
    ensures Eval(l, env).Err? ==> Eval(Binary(op, l, r), env) == Eval(l, env)
    ensures Eval(l, env).Ok? && Eval(r, env).Err? ==> Eval(Binary(op, l, r), env) == Eval(r, env)
  {
  }

  /** A constant evaluates to its stored value. A unary node evaluates its operand first;
      Plus keeps the value and Minus negates it, and a failing operand is the node's failure. */
  lemma ConstantAndUnary(v: real, op: UnaryOp, x: Expr, env: Env)
    ensures Eval(Constant(v), env) == Ok(v)
    ensures Eval(x, env).Err? ==> Eval(Unary(op, x), env) == Eval(x, env)
    ensures Eval(x, env).Ok? && op == Plus ==> Eval(Unary(op, x), env) == Eval(x, env)
    ensures Eval(x, env).Ok? && op == Minus ==> Eval(Unary(op, x), env) == Ok(-Eval(x, env).value)
  {
  }

  /** A variable node resolves its own name; bound to a context, that is `get_variable`, so an
      unbound name is an unknown-variable failure and never a default value. */
  lemma VariableUsesContext(name: string, vars: map<string, real>, functions: map<string, Callable>, num: Numerics)
    ensures Eval(Variable(name), ContextEnv(vars, functions, num)) == Lookup(vars, name)
    ensures name !in vars ==> Eval(Variable(name), ContextEnv(vars, functions, num)) == Err(UnknownVariable(name))
  {
  }

  /** The variable names a tree refers to. */
  function FreeVars(e: Expr): set<string>
  {
    match e
    case Constant(_) => {}
    case Variable(n) => {n}
    case Unary(_, x) => FreeVars(x)
    case Binary(_, l, r) => FreeVars(l) + FreeVars(r)
    case Call(_, args) => set a, n | a in args && n in FreeVars(a) :: n
  }

  /** The function names a tree calls. */
  function Callees(e: Expr): set<string>
  {
    match e
    case Constant(_) => {}
    case Variable(_) => {}
    case Unary(_, x) => Callees(x)
    case Binary(_, l, r) => Callees(l) + Callees(r)
    case Call(n, args) => {n} + set a, m | a in args && m in Callees(a) :: m
  }

  /** Two environments agree on what a tree refers to. */
  ghost predicate AgreeOn(e: Expr, env1: Env, env2: Env)
  {
    && env1.num == env2.num
    && (forall n :: n in FreeVars(e) ==> env1.resolve(n) == env2.resolve(n))
    && (forall n :: n in Callees(e) ==> Find(env1.functions, n) == Find(env2.functions, n))
  }

  /** Trees hold no state: a tree evaluates the same in any two environments that agree on
      the names it refers to, so the same tree can be re-evaluated and re-bound. */
  lemma {:induction false} EvalDependsOnlyOnNamesUsed(e: Expr, env1: Env, env2: Env)
    requires AgreeOn(e, env1, env2)
    ensures Eval(e, env1) == Eval(e, env2)
    decreases Size(e), 0
  {
    match e
    case Constant(_) =>
    case Variable(_) =>
    case Unary(_, x) =>
      EvalDependsOnlyOnNamesUsed(x, env1, env2);
    case Binary(_, l, r) =>
      EvalDependsOnlyOnNamesUsed(l, env1, env2);
      EvalDependsOnlyOnNamesUsed(r, env1, env2);
    case Call(n, args) =>
      EvalAllDependsOnlyOnNamesUsed(args, env1, env2);
  }

  lemma {:induction false} EvalAllDependsOnlyOnNamesUsed(args: seq<Expr>, env1: Env, env2: Env)
    requires forall a :: a in args ==> AgreeOn(a, env1, env2)
    ensures EvalAll(args, env1) == EvalAll(args, env2)
    decreases SizeOfAll(args), 1
  {
    if args != [] {
      EvalDependsOnlyOnNamesUsed(args[0], env1, env2);
      EvalAllDependsOnlyOnNamesUsed(args[1..], env1, env2);
    }
  }
}
