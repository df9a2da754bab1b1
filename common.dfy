/** Option, Result and the error values the modelled Python code raises. */
module Common {

  /** A configuration key that may be absent (Python's `dict.get` returning nothing). */
  datatype Option<+T> = None | Some(value: T) {
    function GetOr(default: T): T {
      match this
      case Some(v) => v
      case None => default
    }
  }

  /** The exceptions the modelled code can raise, reduced to what callers observe. */
  datatype Error =
    | MissingKey(key: string)      // KeyError from `config[key]`
    | IndexOutOfRange              // IndexError from `xs[i]`
    | NotFound(message: string)    // FileNotFoundError
    | IoFailure(message: string)   // OSError, template lookup failure and the like
    | Failed(message: string)      // a plain `Exception(message)` re-raised by a setup

  /** `str(e)` for each error: a KeyError prints its key in single quotes. */
  function Message(e: Error): string {
    match e
    case MissingKey(k) => "'" + k + "'"
    case IndexOutOfRange => "list index out of range"
    case NotFound(m) => m
    case IoFailure(m) => m
    case Failed(m) => m
  }

  /** A value or the exception that interrupted its computation; usable with `:-`. */
  datatype Result<+T> = Ok(value: T) | Err(error: Error) {
    predicate IsFailure() { Err? }
    function PropagateFailure<U>(): Result<U>
      requires Err?
    {
      Err(error)
    }
    function Extract(): T
      requires Ok?
    {
      value
    }
  }

  /** `config[key]`: the value, or a KeyError naming the key. */
  function Require<T>(o: Option<T>, key: string): (r: Result<T>)
    ensures r.Ok? <==> o.Some?
    ensures r.Ok? ==> r.value == o.value
    ensures r.Err? ==> r.error == MissingKey(key)
  {
    match o
    case Some(v) => Ok(v)
    case None => Err(MissingKey(key))
  }

  /** A list comprehension `[f(x) for x in xs]` whose element expression may raise:
      the first exception, in list order, aborts the whole comprehension. Defined
      from the back, the way a loop appending to a list builds it. */
  function MapAll<A, B>(xs: seq<A>, f: A -> Result<B>): (r: Result<seq<B>>)
    ensures r.Ok? <==> forall i :: 0 <= i < |xs| ==> f(xs[i]).Ok?
    ensures r.Ok? ==> |r.value| == |xs| && forall i :: 0 <= i < |xs| ==> r.value[i] == f(xs[i]).value
    ensures r.Err? ==> exists i :: 0 <= i < |xs| && f(xs[i]) == Err(r.error)
                              && forall j :: 0 <= j < i ==> f(xs[j]).Ok?
    decreases |xs|
  {
    if xs == [] then Ok([])
    else
      var init := xs[..|xs| - 1];
      assert forall i :: 0 <= i < |init| ==> init[i] == xs[i];
      var ys :- MapAll(init, f);
      var y :- f(xs[|xs| - 1]);
      Ok(ys + [y])
  }

  /** One more element that succeeds extends a successful prefix. */
  lemma MapAllExtend<A, B>(xs: seq<A>, i: nat, f: A -> Result<B>, ys: seq<B>, y: B)
    requires i < |xs| && MapAll(xs[..i], f) == Ok(ys) && f(xs[i]) == Ok(y)
    ensures MapAll(xs[..i + 1], f) == Ok(ys + [y])
  {
    PrefixStep(xs, i);
  }

  /** The first element that fails after a successful prefix decides the whole list. */
  lemma MapAllStops<A, B>(xs: seq<A>, i: nat, f: A -> Result<B>)
    requires i < |xs| && MapAll(xs[..i], f).Ok? && f(xs[i]).Err?
    ensures MapAll(xs, f) == Err(f(xs[i]).error)
  {
    PrefixStep(xs, i);
    MapAllFailedPrefix(xs[..i + 1], xs[i + 1..], f);
  }

  /** Once a prefix fails, the whole list fails with the same error. */
  lemma {:induction false} MapAllFailedPrefix<A, B>(xs: seq<A>, ys: seq<A>, f: A -> Result<B>)
    requires MapAll(xs, f).Err?
    ensures MapAll(xs + ys, f) == MapAll(xs, f)
    decreases |ys|
  {
    if ys == [] {
      AppendEmpty(xs);
    } else {
      AppendInit(xs, ys);
      MapAllFailedPrefix(xs, ys[..|ys| - 1], f);
    }
  }

  /** The sequence facts about the prefix `xs[..i + 1]`. */
  lemma PrefixStep<A>(xs: seq<A>, i: nat)
    requires i < |xs|
    ensures xs[..i + 1][..i] == xs[..i] && xs[..i + 1][i] == xs[i]
    ensures xs[..i + 1] + xs[i + 1..] == xs
  {
  }

  lemma AppendEmpty<A>(xs: seq<A>)
    ensures xs + [] == xs
  {
  }

  /** Dropping the last element of `xs + ys` drops the last element of `ys`. */
  lemma AppendInit<A>(xs: seq<A>, ys: seq<A>)
    requires ys != []
    ensures (xs + ys)[..|xs + ys| - 1] == xs + ys[..|ys| - 1]
  {
  }

  /** A loop that tries each item, reports a failure and goes on with the next:
      the items that succeeded, in order. */
  function Succeeded<A, B>(xs: seq<A>, f: A -> Result<B>): seq<A>
    decreases |xs|
  {
    if xs == [] then []
    else
      var last := xs[|xs| - 1];
      Succeeded(xs[..|xs| - 1], f) + (if f(last).Ok? then [last] else [])
  }

  /** An item is among those that succeeded exactly when it was tried and succeeded. */
  lemma {:induction false} SucceededExactly<A, B>(xs: seq<A>, f: A -> Result<B>, x: A)
    ensures x in Succeeded(xs, f) <==> x in xs && f(x).Ok?
    decreases |xs|
  {
    if xs != [] {
      var init := xs[..|xs| - 1];
      SucceededExactly(init, f, x);
      assert xs == init + [xs[|xs| - 1]];
    }
  }

  /** Nothing succeeded exactly when every item failed. */
  lemma SucceededNone<A, B>(xs: seq<A>, f: A -> Result<B>)
    ensures Succeeded(xs, f) == [] <==> forall x :: x in xs ==> !f(x).Ok?
  {
    var ok := Succeeded(xs, f);
    forall x | x in xs
      ensures x in ok <==> f(x).Ok?
    {
      SucceededExactly(xs, f, x);
    }
    if ok != [] {
      SucceededExactly(xs, f, ok[0]);
    }
  }
}
