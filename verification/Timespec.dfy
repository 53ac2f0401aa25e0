/** Normalised time values, as `struct timespec` and the protocol's `TimeSpec`
    are used by the log server and its client. */
module Timespecs {

  const BILLION := 1_000_000_000

  datatype Timespec = Timespec(sec: int, nsec: int)

  const ZERO := Timespec(0, 0)

  ghost predicate Normal(t: Timespec) {
    0 <= t.sec && 0 <= t.nsec < BILLION
  }

  function Nanos(t: Timespec): int {
    t.sec * BILLION + t.nsec
  }

  predicate IsSet(t: Timespec) {
    t.sec != 0 || t.nsec != 0
  }

  datatype Relation = Lt | Eq | Ge | Gt

  predicate Holds(op: Relation, a: int, b: int) {
    match op
    case Lt => a < b
    case Eq => a == b
    case Ge => a >= b
    case Gt => a > b
  }

  /** `sudo_timespeccmp`: the nanoseconds decide only when the seconds agree. */
  predicate Cmp(a: Timespec, b: Timespec, op: Relation) {
    if a.sec == b.sec then Holds(op, a.nsec, b.nsec) else Holds(op, a.sec, b.sec)
  }

  /** On normalised values the two-field comparison is the comparison of instants. */
  lemma {:induction false} CmpIsOrderOfInstants(a: Timespec, b: Timespec, op: Relation)
    requires Normal(a) && Normal(b)
    ensures Cmp(a, b, op) == Holds(op, Nanos(a), Nanos(b))
  {
    if a.sec < b.sec {
      assert (a.sec + 1) * BILLION <= b.sec * BILLION;
    } else if b.sec < a.sec {
      assert (b.sec + 1) * BILLION <= a.sec * BILLION;
    }
  }

  /** Equal instants have equal representations once normalised. */
  lemma {:induction false} NanosInjective(a: Timespec, b: Timespec)
    requires Normal(a) && Normal(b) && Nanos(a) == Nanos(b)
    ensures a == b
  {
    CmpIsOrderOfInstants(a, b, Eq);
    CmpIsOrderOfInstants(a, b, Lt);
    CmpIsOrderOfInstants(a, b, Gt);
  }

  /** The sum of two normalised values, as a value. */
  function Plus(a: Timespec, b: Timespec): (c: Timespec)
    ensures Nanos(c) == Nanos(a) + Nanos(b)
    ensures Normal(a) && Normal(b) ==> Normal(c)
  {
    if a.nsec + b.nsec >= BILLION
    then Timespec(a.sec + b.sec + 1, a.nsec + b.nsec - BILLION)
    else Timespec(a.sec + b.sec, a.nsec + b.nsec)
  }

  /** `sudo_timespecadd` and `update_elapsed_time`: carry in a loop. */
  method Add(a: Timespec, b: Timespec) returns (c: Timespec)
    ensures Nanos(c) == Nanos(a) + Nanos(b) && c.nsec < BILLION
    ensures Normal(a) && Normal(b) ==> c == Plus(a, b)
  {
    var sec, nsec := a.sec + b.sec, a.nsec + b.nsec;
    while nsec >= BILLION
      invariant sec * BILLION + nsec == Nanos(a) + Nanos(b)
      invariant 0 <= a.nsec + b.nsec ==> 0 <= nsec
      invariant a.sec + b.sec <= sec
    {
      sec, nsec := sec + 1, nsec - BILLION;
    }
    c := Timespec(sec, nsec);
    if Normal(a) && Normal(b) {
      NanosInjective(c, Plus(a, b));
    }
  }

  /** `sudo_timespecsub`: borrow in a loop.  The result is a valid instant
      exactly when nothing larger was taken away. */
  method Sub(a: Timespec, b: Timespec) returns (c: Timespec)
    ensures Nanos(c) == Nanos(a) - Nanos(b) && 0 <= c.nsec
    ensures Normal(a) && Normal(b) ==> (Normal(c) <==> Nanos(b) <= Nanos(a))
    ensures Normal(a) && Normal(b) ==> Plus(c, b) == a
  {
    var sec, nsec := a.sec - b.sec, a.nsec - b.nsec;
    while nsec < 0
      invariant sec * BILLION + nsec == Nanos(a) - Nanos(b)
      invariant a.nsec - b.nsec < BILLION ==> nsec < BILLION
    {
      sec, nsec := sec - 1, nsec + BILLION;
    }
    c := Timespec(sec, nsec);
    if Normal(a) && Normal(b) {
      assert sec < 0 ==> sec * BILLION <= -BILLION;
      PlusCancels(c, b, a);
    }
  }

  lemma {:induction false} PlusCancels(c: Timespec, b: Timespec, a: Timespec)
    requires 0 <= c.nsec < BILLION && Normal(a) && Normal(b)
    requires Nanos(c) == Nanos(a) - Nanos(b)
    ensures Plus(c, b) == a
  {
    var p := Plus(c, b);
    assert (p.sec - a.sec) * BILLION == a.nsec - p.nsec;
    assert -BILLION < (p.sec - a.sec) * BILLION < BILLION;
  }

  /** Comparing values that are not normalised can order instants wrongly. */
  lemma {:induction false} CmpNeedsNormalisedValues()
    ensures exists a: Timespec, b: Timespec ::
              Cmp(a, b, Lt) && Nanos(a) > Nanos(b)
  {
    var a, b := Timespec(0, 2 * BILLION), Timespec(1, 0);
    assert Cmp(a, b, Lt) && Nanos(a) > Nanos(b);
  }
}
