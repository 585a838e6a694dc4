/** General utilities: a synchronous publish/subscribe channel and 2-vector helpers
    (src/ts/utility.ts). */
module Utility {

  /** Listeners are JavaScript closures; the model identifies each registration by an id. */
  type ListenerId = nat

  /** One invocation `listener(data)` made by `Event.send`. */
  datatype Call<T> = Call(listener: ListenerId, data: T)

  /** The calls that sending `data` to `listeners` makes: one per registration, in order. */
  function Deliveries<T>(listeners: seq<ListenerId>, data: T): seq<Call<T>>
  {
    seq(|listeners|, i requires 0 <= i < |listeners| => Call(listeners[i], data))
  }

  /** `Event<T>`: an ordered list of listeners, appended to by `listen` and walked by `send`. */
  class Event<T> {
    var listeners: seq<ListenerId>

    constructor ()
      ensures listeners == []
    {
      listeners := [];
    }

    /** Appends, keeping every earlier registration; a listener registered twice stays twice. */
    method Listen(listener: ListenerId)
      modifies this
      ensures listeners == old(listeners) + [listener]
    {
      listeners := listeners + [listener];
    }

    /** Calls every registered listener once, in registration order, with the same data.
        The source marks this `async`, but its body runs to completion synchronously. */
    method Send(data: T) returns (calls: seq<Call<T>>)
      ensures calls == Deliveries(listeners, data)
    {
      calls := [];
      for i := 0 to |listeners|
        invariant calls == Deliveries(listeners[..i], data)
      {
        calls := calls + [Call(listeners[i], data)];
      }
      assert listeners[..|listeners|] == listeners;
    }
  }

  /** A listener registered `k` times in a row receives `k` calls from one send. */
  lemma {:induction false} RepeatedListenerCalledEachTime<T>(prefix: seq<ListenerId>, l: ListenerId, data: T)
    ensures var ds := Deliveries(prefix + [l, l], data);
            |ds| == |prefix| + 2 && ds[|prefix|] == ds[|prefix| + 1] == Call(l, data)
  {
  }

  /** Sending to `a + b` makes `a`'s calls and then `b`'s: registration order is call order. */
  lemma {:induction false} DeliveriesAppend<T>(a: seq<ListenerId>, b: seq<ListenerId>, data: T)
    ensures Deliveries(a + b, data) == Deliveries(a, data) + Deliveries(b, data)
  {
  }

  /** `Vector = [number, number]`. */
  datatype Vector = Vector(x: real, y: real)

  /** `vectorDot(a, b)`. */
  function VectorDot(a: Vector, b: Vector): (r: real)
  {
    a.x * b.x + a.y * b.y
  }

  /** `Math.sqrt` is not modelled; a caller supplies it. This is what a true square root satisfies. */
  ghost predicate IsSqrt(sqrt: real -> real)
  {
    forall v :: 0.0 <= v ==> 0.0 <= sqrt(v) && sqrt(v) * sqrt(v) == v
  }

  /** `vectorLength(x) = sqrt(x0*x0 + x1*x1)`. */
  function VectorLength(x: Vector, sqrt: real -> real): real
  {
    sqrt(x.x * x.x + x.y * x.y)
  }

  lemma DotSymmetric(a: Vector, b: Vector)
    ensures VectorDot(a, b) == VectorDot(b, a)
  {
  }

  lemma DotExample()
    ensures VectorDot(Vector(1.0, -1.0), Vector(2.0, -3.0)) == 5.0
  {
  }

  /** The squared length is the self dot product, and it is never negative. */
  lemma LengthSquaredIsSelfDot(x: Vector, sqrt: real -> real)
    requires IsSqrt(sqrt)
    ensures VectorLength(x, sqrt) * VectorLength(x, sqrt) == VectorDot(x, x)
    ensures 0.0 <= VectorLength(x, sqrt)
  {
    assert 0.0 <= x.x * x.x && 0.0 <= x.y * x.y;
  }

  lemma SquareStrictlyMonotone(a: real, b: real)
    ensures 0.0 <= a < b ==> a * a < b * b
  {
    if 0.0 <= a < b {
      assert 0.0 <= (b - a) * a;
      assert 0.0 < (b - a) * b;
    }
  }

  lemma LengthExample(sqrt: real -> real)
    requires IsSqrt(sqrt)
    ensures VectorLength(Vector(3.0, 4.0), sqrt) == 5.0
  {
    var r := VectorLength(Vector(3.0, 4.0), sqrt);
    LengthSquaredIsSelfDot(Vector(3.0, 4.0), sqrt);
    SquareStrictlyMonotone(r, 5.0);
    SquareStrictlyMonotone(5.0, r);
  }
}
