/** The two Option combinators of the utility header: `result | func`
    (first-success fallback) and `mbind` (monadic bind). In C++ the callee
    is a callable; here it is a Dafny function value, so "func is not
    invoked" reads as "the result does not depend on func". */
module MBind {
  import opened Wrappers

  /** `result | func`: the engaged `result` is returned as it is, otherwise
      whatever `func()` returns. */
  function OrElse<T>(result: Option<T>, func: () -> Option<T>): (r: Option<T>)
    ensures r.Some? <==> result.Some? || func().Some?
    ensures result.Some? ==> r == result
    ensures result.None? ==> r == func()
  {
    if result.Some? then result else func()
  }

  /** `mbind(opt, f)`: applies `f` to the contained value, or propagates
      the empty optional. Both C++ overloads (by const reference and by
      rvalue) behave identically on values. */
  function Bind<T, U>(opt: Option<T>, f: T -> Option<U>): (r: Option<U>)
    ensures opt.None? ==> r.None?
    ensures r.Some? ==> opt.Some? && r == f(opt.value)
  {
    if opt.Some? then f(opt.value) else None
  }

  /** An engaged result wins; the fallback is never consulted. */
  lemma OrElseKeepsEngaged<T>(result: Option<T>, func: () -> Option<T>, other: () -> Option<T>)
    requires result.Some?
    ensures OrElse(result, func) == result
    ensures OrElse(result, func) == OrElse(result, other)
  {
  }

  /** An empty result yields exactly the fallback's value. */
  lemma OrElseFallsBack<T>(func: () -> Option<T>)
    ensures OrElse(None, func) == func()
  {
  }

  /** A chain `empty | f | g` is the first engaged value among f(), g()
      in that order, and empty when both are. */
  lemma OrElseChainFirstSuccess<T>(f: () -> Option<T>, g: () -> Option<T>)
    ensures f().Some? ==> OrElse(OrElse(None, f), g) == f()
    ensures f().None? ==> OrElse(OrElse(None, f), g) == g()
    ensures OrElse(OrElse(None, f), g).None? <==> f().None? && g().None?
  {
  }

  /** `|` is associative: regrouping a fallback chain does not change it. */
  lemma OrElseAssociative<T>(a: Option<T>, f: () -> Option<T>, g: () -> Option<T>)
    ensures OrElse(OrElse(a, f), g) == OrElse(a, () => OrElse(f(), g))
  {
  }

  /** `mbind` of an empty optional is empty, whatever `f` is. */
  lemma BindNone<T, U>(f: T -> Option<U>, h: T -> Option<U>)
    ensures Bind(None, f) == None
    ensures Bind(None, f) == Bind(None, h)
  {
  }

  /** `mbind(Some x, f) == f(x)`. */
  lemma BindSome<T, U>(x: T, f: T -> Option<U>)
    ensures Bind(Some(x), f) == f(x)
  {
  }

  /** Right identity: binding with the wrapping function changes nothing. */
  lemma BindRightIdentity<T>(opt: Option<T>)
    ensures Bind(opt, x => Some(x)) == opt
  {
  }

  /** Associativity of bind: two successive binds equal one bind of the
      composed continuation. */
  lemma BindAssociative<T, U, V>(opt: Option<T>, f: T -> Option<U>, g: U -> Option<V>)
    ensures Bind(Bind(opt, f), g) == Bind(opt, x => Bind(f(x), g))
  {
  }
}
