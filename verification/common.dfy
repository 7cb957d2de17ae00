/** Option and the outcome of a service call: a value or the source's error code. */
module Common {
  datatype Option<+T> = None | Some(value: T)

  datatype Result<+T, +E> = Ok(value: T) | Err(error: E)

  function Min(x: real, y: real): real { if x <= y then x else y }

  function Max(x: int, y: int): int { if x >= y then x else y }

  function One(b: bool): nat { if b then 1 else 0 }

  // Least integer that is not below x.
  function Ceil(x: real): (n: int)
    ensures n as real >= x
    ensures (n - 1) as real < x
  {
    -((-x).Floor)
  }
}

/** Elements of finite sets, and counting a set of integers by its ends. */
module IntSets {
  lemma SomeElement<T>(x: set<T>) returns (e: T)
    requires x != {}
    ensures e in x
  {
    e :| e in x;
  }

  lemma {:induction false} SpanOf(x: set<int>) returns (lo: int, hi: int)
    requires x != {}
    ensures lo in x && hi in x
    ensures forall i | i in x :: lo <= i <= hi
    decreases |x|
  {
    var e := SomeElement(x);
    var rest := x - {e};
    if rest == {} {
      assert x == {e};
      lo, hi := e, e;
    } else {
      lo, hi := SpanOf(rest);
      assert forall i | i in x :: i == e || i in rest;
      if e < lo { lo := e; } else if e > hi { hi := e; }
    }
  }

  lemma {:induction false} RangeSize(x: set<int>, lo: int, hi: int)
    requires lo <= hi + 1
    requires forall i | i in x :: lo <= i <= hi
    ensures |x| <= hi - lo + 1
    decreases hi - lo + 1
  {
    if lo <= hi {
      RangeSize(x - {hi}, lo, hi - 1);
    } else if x != {} {
      var e := SomeElement(x);
      assert false;
    }
  }
}
