/** The function registry (include/cppexprpars/function.hpp). */
module Functions {
  import opened Errors

  /** A registered function: it takes the evaluated arguments in order and returns a value,
      or fails (a `std::function` may throw). */
  type Callable = seq<real> -> Result<real>

  /** `get_function` on a registry: the registered function, or an unknown-function failure. */
  function Find(functions: map<string, Callable>, name: string): (r: Result<Callable>)
    ensures r.Ok? <==> name in functions
    ensures r.Ok? ==> r.value == functions[name]
    ensures r.Err? ==> r.error == UnknownFunction(name)
  {
    if name in functions then Ok(functions[name]) else Err(UnknownFunction(name))
  }

  /** After registering `fn` under `name`, finding `name` gives `fn`, replacing an earlier
      registration; every other name keeps its function. */
  lemma FindAfterRegister(functions: map<string, Callable>, name: string, fn: Callable, other: string)
    ensures Find(functions[name := fn], name) == Ok(fn)
    ensures other != name ==> Find(functions[name := fn], other) == Find(functions, other)
  {
  }

  class FunctionRegistry {
    var functions: map<string, Callable>

    constructor ()
      ensures functions == map[]
    {
      functions := map[];
    }

    /** `register_function`: binds `name`, replacing an earlier function of that name. */
    method RegisterFunction(name: string, fn: Callable)
      modifies this
      ensures functions == old(functions)[name := fn]
    {
      functions := functions[name := fn];
    }

    /** `get_function`: a lookup that leaves the registry as it is. */
    method GetFunction(name: string) returns (r: Result<Callable>)
      ensures r == Find(functions, name)
    {
      if name in functions {
        r := Ok(functions[name]);
      } else {
        r := Err(UnknownFunction(name));
      }
    }
  }
}
