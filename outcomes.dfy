/** Values shared by both runners: what a call returns or raises. */
module Outcomes {

  datatype Option<+T> = None | Some(value: T)

  /** The exceptions the modelled code can raise or propagate. */
  datatype Exception =
    | AppError(code: int)    // raised by user code: an offloaded function or a routine
    | AssertionError         // a failed `assert` inside a runner
    | ValueError             // the thread pool rejecting its `max_workers` argument

  /** The outcome of calling a function: the value it returned, or what it raised.
      An offloaded zero-argument callable is modelled by its outcome. */
  datatype Outcome = Returned(value: int) | Raised(error: Exception)

  /** Either a value or the exception raised instead of producing it. */
  datatype Result<+T> = Ok(value: T) | Err(error: Exception)

  predicate AllReturned(outs: seq<Outcome>)
  {
    forall i :: 0 <= i < |outs| ==> outs[i].Returned?
  }

  /** The values of outcomes that all returned. */
  function Values(outs: seq<Outcome>): (vs: seq<int>)
    requires AllReturned(outs)
    ensures |vs| == |outs|
    ensures forall i :: 0 <= i < |outs| ==> outs[i] == Returned(vs[i])
  {
    seq(|outs|, i requires 0 <= i < |outs| => outs[i].value)
  }

  /** The outcomes of calls that returned the given values, in order. */
  function AsReturned(vs: seq<int>): (outs: seq<Outcome>)
    ensures |outs| == |vs| && AllReturned(outs)
    ensures forall i :: 0 <= i < |vs| ==> outs[i] == Returned(vs[i])
  {
    seq(|vs|, i requires 0 <= i < |vs| => Returned(vs[i]))
  }

  lemma {:induction false} AsReturnedOfValues(outs: seq<Outcome>)
    requires AllReturned(outs)
    ensures AsReturned(Values(outs)) == outs
  {
    var vs := Values(outs);
    assert |AsReturned(vs)| == |outs|;
    forall i | 0 <= i < |outs| ensures AsReturned(vs)[i] == outs[i] { }
  }

  lemma {:induction false} AsReturnedAppend(vs: seq<int>, ws: seq<int>)
    ensures AsReturned(vs + ws) == AsReturned(vs) + AsReturned(ws)
  {
    var l, r := AsReturned(vs + ws), AsReturned(vs) + AsReturned(ws);
    assert |l| == |r|;
    forall i | 0 <= i < |l| ensures l[i] == r[i] {
      if i < |vs| { assert (vs + ws)[i] == vs[i]; } else { assert (vs + ws)[i] == ws[i - |vs|]; }
    }
  }

  /** A multiset of outcomes is made only of returned values when every element returned. */
  lemma {:induction false} ReturnedInMultiset(outs: seq<Outcome>, o: Outcome)
    requires AllReturned(outs) && o in multiset(outs)
    ensures o.Returned?
  {
    assert o in outs;
  }

  function Min(a: int, b: int): (m: int)
    ensures m <= a && m <= b && (m == a || m == b)
  {
    if a <= b then a else b
  }
}
