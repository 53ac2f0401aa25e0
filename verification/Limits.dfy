/** Resource limits: raised while sudo runs, restored for the command, and
    passed to the policy as text. */
module Limits {
  import opened Options
  import opened Decimals

  /** RLIM_INFINITY is the largest value. */
  const INFINITY := ULLONG_MAX
  const HALF_LLONG := 0x3FFF_FFFF_FFFF_FFFF

  datatype Rlimit = Rlimit(cur: nat, max: nat)

  /** A row of `saved_limits` */
  datatype SavedLimit = SavedLimit(
    name: string, override: bool, saved: bool, minlimit: nat, fallback: Option<Rlimit>, newlimit: Rlimit, oldlimit: Rlimit)

  datatype Outcome = Success | Invalid | Failure

  predicate Proper(r: Rlimit) {
    r.cur <= r.max <= INFINITY
  }

  /** A request that takes nothing away. */
  predicate AtLeast(r: Rlimit, was: Rlimit) {
    was.cur <= r.cur <= r.max <= INFINITY && was.max <= r.max
  }

  predicate AllAtLeast(rs: seq<Rlimit>, was: Rlimit) {
    forall k :: 0 <= k < |rs| ==> AtLeast(rs[k], was)
  }

  function Max(a: nat, b: nat): nat {
    if a < b then b else a
  }

  function Raised(r: Rlimit, was: Rlimit): Rlimit {
    Rlimit(Max(r.cur, was.cur), Max(r.max, was.max))
  }

  // ---- what is requested ----

  /** What `unlimit_sudo` tries for one limit, in order. */
  function UnlimitPlan(lim: SavedLimit, was: Rlimit): seq<Rlimit> {
    [Raised(lim.newlimit, was)]
    + (if lim.fallback.Some? then [Raised(lim.fallback.value, was)] else [])
    + [Rlimit(was.max, was.max)]
  }

  function Doubled(r: Rlimit, newlimit: Rlimit): Rlimit {
    var c := if newlimit.cur != INFINITY && 2 * r.cur > newlimit.cur then newlimit.cur else 2 * r.cur;
    Rlimit(c, if r.max != INFINITY && c > r.max then c else r.max)
  }

  /** What `restore_limits` tries for one limit, in order, from turn i. */
  function RestorePlan(r: Rlimit, newlimit: Rlimit, i: nat): seq<Rlimit>
    decreases 10 - i
  {
    if i >= 10 then []
    else if r.cur > HALF_LLONG then [r]
    else [r, Doubled(r, newlimit)] + RestorePlan(Doubled(r, newlimit), newlimit, i + 1)
  }

  /** Trying goes on while setrlimit(2) fails, or only while it says EINVAL. */
  predicate GoesOn(o: Outcome, onlyInvalid: bool) {
    if onlyInvalid then o == Invalid else o != Success
  }

  /** The part of a plan that is tried when `n` calls went before. */
  function Tried(plan: seq<Rlimit>, answer: nat -> Outcome, n: nat, onlyInvalid: bool): (t: seq<Rlimit>)
    ensures t <= plan && (plan != [] ==> t != [])
  {
    if plan == [] then []
    else if !GoesOn(answer(n), onlyInvalid) then [plan[0]]
    else [plan[0]] + Tried(plan[1..], answer, n + 1, onlyInvalid)
  }

  // ---- what the requests mean ----

  /** r asks for what the table wants and for nothing else: each of its limits
      is the wanted one, or the saved one where that is larger. */
  predicate AsksFor(r: Rlimit, want: Rlimit, was: Rlimit) {
    && want.cur <= r.cur && was.cur <= r.cur && r.cur in {want.cur, was.cur}
    && want.max <= r.max && was.max <= r.max && r.max in {want.max, was.max}
  }

  /** These requests, of which the first is the n-th call: for the new limit,
      then for the fallback if there is one, and last for the saved hard limit
      in both, as long as they fail. */
  ghost predicate Requested(rs: seq<Rlimit>, lim: SavedLimit, was: Rlimit, answer: nat -> Outcome, n: nat) {
    && rs != [] && AsksFor(rs[0], lim.newlimit, was)
    && if answer(n) == Success then |rs| == 1
       else if lim.fallback.Some? then
         && 2 <= |rs| && AsksFor(rs[1], lim.fallback.value, was)
         && if answer(n + 1) == Success then |rs| == 2 else |rs| == 3 && rs[2] == Rlimit(was.max, was.max)
       else |rs| == 2 && rs[1] == Rlimit(was.max, was.max)
  }

  lemma {:induction false} PlanRequests(lim: SavedLimit, was: Rlimit, answer: nat -> Outcome, n: nat)
    ensures Requested(Tried(UnlimitPlan(lim, was), answer, n, false), lim, was, answer, n)
  {
    var a, z := Raised(lim.newlimit, was), Rlimit(was.max, was.max);
    TriedLast(z, answer, n + 1);
    if lim.fallback.Some? {
      var b := Raised(lim.fallback.value, was);
      assert UnlimitPlan(lim, was) == [a] + ([b] + [z]);
      TriedLast(z, answer, n + 2);
      hide Tried;
      TriedFirst(a, [b] + [z], answer, n, false);
      TriedFirst(b, [z], answer, n + 1, false);
    } else {
      assert UnlimitPlan(lim, was) == [a] + [z];
      hide Tried;
      TriedFirst(a, [z], answer, n, false);
    }
  }

  lemma {:induction false} TriedLast(r: Rlimit, answer: nat -> Outcome, n: nat)
    ensures Tried([r], answer, n, false) == [r]
  {
    assert [r][1..] == [];
  }

  function Min(a: nat, b: nat): nat {
    if a < b then a else b
  }

  /** The next attempt to restore: twice the soft limit, but no more than the
      limit in force, and a hard limit that is not below it. */
  predicate StepsUp(a: Rlimit, b: Rlimit, newlimit: Rlimit) {
    b.cur == Min(2 * a.cur, newlimit.cur) && b.max == Max(a.max, b.cur)
  }

  /** Requests that restore a limit from turn i on: the limit itself, and while
      the answer is EINVAL one step up, which is also the next turn's limit.  It
      ends at another answer, after ten turns, or past half of the largest
      number. */
  ghost predicate Restored(rs: seq<Rlimit>, i: nat, r: Rlimit, newlimit: Rlimit, answer: nat -> Outcome, n: nat)
    decreases |rs|
  {
    && rs != [] && rs[0] == r
    && if answer(n) != Invalid || r.cur > HALF_LLONG then |rs| == 1
       else
         && 2 <= |rs| && StepsUp(r, rs[1], newlimit)
         && if answer(n + 1) != Invalid || i >= 9 then |rs| == 2
            else Restored(rs[2..], i + 1, rs[1], newlimit, answer, n + 2)
  }

  lemma {:induction false} DoubledSteps(r: Rlimit, newlimit: Rlimit)
    requires r.cur <= HALF_LLONG && r.cur <= r.max <= INFINITY && newlimit.cur <= INFINITY
    ensures var d := Doubled(r, newlimit); StepsUp(r, d, newlimit) && d.cur <= d.max <= INFINITY
  {
  }

  lemma {:induction false} PlanRestores(r: Rlimit, newlimit: Rlimit, i: nat, answer: nat -> Outcome, n: nat)
    requires i < 10 && r.cur <= r.max <= INFINITY && newlimit.cur <= INFINITY
    ensures Restored(Tried(RestorePlan(r, newlimit, i), answer, n, true), i, r, newlimit, answer, n)
    decreases 10 - i
  {
    hide Tried, RestorePlan, Doubled, StepsUp;
    RestoreTurn(r, newlimit, i, answer, n);
    if answer(n) == Invalid && r.cur <= HALF_LLONG {
      var d := Doubled(r, newlimit);
      var rest := Tried(RestorePlan(d, newlimit, i + 1), answer, n + 2, true);
      DoubledSteps(r, newlimit);
      if answer(n + 1) == Invalid {
        assert ([r] + ([d] + rest))[2..] == rest;
        if i + 1 < 10 {
          PlanRestores(d, newlimit, i + 1, answer, n + 2);
        } else {
          NothingLeft(d, newlimit, answer, n + 2);
        }
      }
    }
  }

  predicate GoodRow(lim: SavedLimit) {
    Proper(lim.newlimit) && (lim.fallback.Some? ==> Proper(lim.fallback.value))
  }

  lemma {:induction false} UnlimitPlanRaises(lim: SavedLimit, was: Rlimit, k: nat)
    requires GoodRow(lim) && Proper(was) && k < |UnlimitPlan(lim, was)|
    ensures AtLeast(UnlimitPlan(lim, was)[k], was)
  {
  }

  lemma {:induction false} RestorePlanKeeps(r: Rlimit, newlimit: Rlimit, was: Rlimit, i: nat, k: nat)
    requires AtLeast(r, was) && was.cur <= newlimit.cur && k < |RestorePlan(r, newlimit, i)|
    ensures AtLeast(RestorePlan(r, newlimit, i)[k], was)
    decreases 10 - i
  {
    if r.cur <= HALF_LLONG && k >= 2 {
      RestorePlanKeeps(Doubled(r, newlimit), newlimit, was, i + 1, k - 2);
    }
  }

  lemma {:induction false} TriedFirst(r: Rlimit, rest: seq<Rlimit>, answer: nat -> Outcome, n: nat, onlyInvalid: bool)
    ensures Tried([r] + rest, answer, n, onlyInvalid) ==
            [r] + if GoesOn(answer(n), onlyInvalid) then Tried(rest, answer, n + 1, onlyInvalid) else []
  {
    assert ([r] + rest)[1..] == rest;
  }

  /** One turn of the restoring loop. */
  lemma {:induction false} RestoreTurn(r: Rlimit, newlimit: Rlimit, i: nat, answer: nat -> Outcome, n: nat)
    requires i < 10
    ensures var d := Doubled(r, newlimit); var t := Tried(RestorePlan(r, newlimit, i), answer, n, true);
            if answer(n) != Invalid || r.cur > HALF_LLONG then t == [r]
            else if answer(n + 1) != Invalid then t == [r] + [d]
            else t == [r] + ([d] + Tried(RestorePlan(d, newlimit, i + 1), answer, n + 2, true))
  {
    hide Tried, Doubled;
    var d := Doubled(r, newlimit);
    if r.cur > HALF_LLONG {
      assert [r] + [] == [r];
      TriedFirst(r, [], answer, n, true);
      TriedNone(answer, n + 1);
    } else {
      var rest := RestorePlan(d, newlimit, i + 1);
      assert [r, d] + rest == [r] + ([d] + rest);
      TriedFirst(r, [d] + rest, answer, n, true);
      TriedFirst(d, rest, answer, n + 1, true);
    }
  }

  lemma {:induction false} TriedNone(answer: nat -> Outcome, n: nat)
    ensures Tried([], answer, n, true) == []
  {
  }

  /** The table, and the kernel behind getrlimit(2) and setrlimit(2): `current`
      answers for a row, `answer` for the n-th call that sets a limit. */
  class LimitTable {
    var rows: seq<SavedLimit>
    var calls: nat
    const current: nat -> Option<Rlimit>
    const answer: nat -> Outcome
    ghost var requests: seq<Rlimit>

    constructor (rows: seq<SavedLimit>, current: nat -> Option<Rlimit>, answer: nat -> Outcome)
      ensures this.rows == rows && this.current == current && this.answer == answer && requests == []
    {
      this.rows, this.current, this.answer := rows, current, answer;
      calls, requests := 0, [];
    }

    method SetRlimit(r: Rlimit) returns (o: Outcome)
      modifies this`calls, this`requests
      ensures o == answer(old(calls)) && calls == old(calls) + 1 && requests == old(requests) + [r]
    {
      o := answer(calls);
      calls, requests := calls + 1, requests + [r];
    }

    /** The body of the loop in `unlimit_sudo`, from the first pass on. */
    method Unlimit(lim0: SavedLimit) returns (lim: SavedLimit)
      modifies this`calls, this`requests
      ensures var tried := Tried(UnlimitPlan(lim0, lim0.oldlimit), answer, old(calls), false);
              && requests == old(requests) + tried && calls == old(calls) + |tried|
              && lim == lim0.(newlimit := tried[|tried| - 1])
    {
      lim := lim0;
      var was := lim.oldlimit;
      ghost var plan := UnlimitPlan(lim, was);
      ghost var before := requests;
      var pass := 0;
      var rc := Failure;
      while pass < 2
        invariant pass <= 2 && lim == lim0.(newlimit := lim.newlimit)
        invariant pass == 0 ==> lim == lim0 && requests == before && calls == old(calls)
        invariant pass == 1 ==>
          && lim0.fallback.Some? && lim.newlimit == lim0.fallback.value && requests == before + plan[..1]
          && calls == old(calls) + 1 && answer(old(calls)) != Success
      {
        lim := lim.(newlimit := Raised(lim.newlimit, was));
        rc := SetRlimit(lim.newlimit);
        if rc != Success && pass == 0 && lim.fallback.Some? {
          lim := lim.(newlimit := lim.fallback.value);
          pass := pass + 1;
          continue;
        }
        break;
      }
      if rc != Success {
        lim := lim.(newlimit := Rlimit(was.max, was.max));
        rc := SetRlimit(lim.newlimit);
      }
    }

    /** The body of the loop in `restore_limits`. */
    method Restore(lim: SavedLimit)
      modifies this`calls, this`requests
      ensures requests == old(requests) + Tried(RestorePlan(lim.oldlimit, lim.newlimit, 0), answer, old(calls), true)
      ensures calls == old(calls) + |requests| - |old(requests)|
    {
      hide Tried, RestorePlan, Doubled;
      var rl := lim.oldlimit;
      var i := 0;
      ghost var all := old(requests) + Tried(RestorePlan(rl, lim.newlimit, 0), answer, calls, true);
      while i < 10
        invariant i <= 10 && all == requests + Tried(RestorePlan(rl, lim.newlimit, i), answer, calls, true)
        invariant calls == old(calls) + |requests| - |old(requests)|
      {
        RestoreTurn(rl, lim.newlimit, i, answer, calls);
        ghost var before := requests;
        var rc := SetRlimit(rl);
        if rc != Invalid || rl.cur > HALF_LLONG {
          return;
        }
        var cur := 2 * rl.cur;
        if lim.newlimit.cur != INFINITY && cur > lim.newlimit.cur {
          cur := lim.newlimit.cur;
        }
        ghost var first := rl;
        rl := rl.(cur := cur);
        if rl.max != INFINITY && rl.cur > rl.max {
          rl := rl.(max := rl.cur);
        }
        DoubledIs(first, lim.newlimit, rl);
        rc := SetRlimit(rl);
        Regroup(before, first, rl, Tried(RestorePlan(rl, lim.newlimit, i + 1), answer, calls, true));
        if rc != Invalid {
          return;
        }
        i := i + 1;
      }
      NothingLeft(rl, lim.newlimit, answer, calls);
    }

    /** `unlimit_sudo`: every row whose limit can be read is saved.  Limits that
        are to be overridden, and are below their minimum if they have one, are
        requested as `Requested` says, and no other; no request takes anything
        away. */
    method UnlimitSudo() returns (ghost log: seq<seq<Rlimit>>)
      requires forall i :: 0 <= i < |rows| ==> GoodRow(rows[i]) && !rows[i].saved
      requires forall i: nat :: current(i).Some? ==> Proper(current(i).value)
      modifies this
      ensures |rows| == |old(rows)| == |log| && requests == old(requests) + Concat(log)
      ensures forall i :: 0 <= i < |rows| ==>
                RowDone(old(rows)[i], current(i), rows[i], log[i], answer, old(calls) + |Concat(log[..i])|)
    {
      hide RowDone, Concat, DoneUpTo, GoodRow, Proper;
      log := [];
      ghost var olds, start := rows, calls;
      NothingDone(olds, current, rows, answer, start);
      assert requests + [] == requests;
      for i := 0 to |rows|
        invariant |rows| == |olds| && |log| == i && rows[i..] == olds[i..] && start == old(calls) && olds == old(rows)
        invariant requests == old(requests) + Concat(log) && calls == start + |Concat(log)|
        invariant DoneUpTo(olds, current, rows, log, answer, start, i)
      {
        ghost var before, log0, rows0 := requests, log, rows;
        assert rows[i] == rows[i..][0] == olds[i];
        var lim := UnlimitRow(rows[i], current(i));
        rows := rows[i := lim];
        log := log + [requests[|before|..]];
        OneMore(old(requests), before, log0, requests);
        DoneOneMore(olds, current, rows0, rows, log0, log, answer, start, i);
      }
      forall i | 0 <= i < |rows| ensures RowDone(olds[i], current(i), rows[i], log[i], answer, start + |Concat(log[..i])|) {
        DoneAt(olds, current, rows, log, answer, start, |rows|, i);
      }
    }

    method UnlimitRow(lim0: SavedLimit, now: Option<Rlimit>) returns (lim: SavedLimit)
      requires GoodRow(lim0) && !lim0.saved && (now.Some? ==> Proper(now.value))
      modifies this`calls, this`requests
      ensures old(requests) <= requests && calls == old(calls) + |requests| - |old(requests)|
      ensures RowDone(lim0, now, lim, requests[|old(requests)|..], answer, old(calls))
    {
      lim := lim0;
      if now.None? {
        return;
      }
      lim := lim.(oldlimit := now.value, saved := true);
      if lim.minlimit != INFINITY {
        if lim.oldlimit.cur >= lim.minlimit {
          lim := lim.(override := false);
        }
      }
      if !lim.override {
        return;
      }
      hide UnlimitPlan, AtLeast, Requested;
      ghost var plan := UnlimitPlan(lim, lim.oldlimit);
      forall k: nat | k < |plan| ensures AtLeast(plan[k], lim.oldlimit) {
        UnlimitPlanRaises(lim, lim.oldlimit, k);
      }
      PlanNotEmpty(lim, lim.oldlimit);
      PlanRequests(lim, lim.oldlimit, answer, calls);
      SameRequests(lim, lim0, Tried(plan, answer, calls, false), lim.oldlimit, answer, calls);
      lim := Unlimit(lim);
    }

    /** `restore_limits`: exactly the overridden limits that were saved are
        restored, each as `Restored` says; no request puts the soft limit below
        the saved one or above the hard one. */
    method RestoreLimits() returns (ghost log: seq<seq<Rlimit>>)
      requires forall i :: 0 <= i < |rows| ==> Ready(rows[i])
      modifies this`calls, this`requests
      ensures |log| == |rows| && requests == old(requests) + Concat(log)
      ensures forall i :: 0 <= i < |rows| ==> RowRestored(rows[i], log[i], answer, old(calls) + |Concat(log[..i])|)
    {
      hide RowRestored, Concat, RestoredUpTo, Ready;
      log := [];
      ghost var start := calls;
      NothingRestored(rows, answer, start);
      assert requests + [] == requests;
      for i := 0 to |rows|
        invariant |log| == i && requests == old(requests) + Concat(log) && calls == start + |Concat(log)| && start == old(calls)
        invariant RestoredUpTo(rows, log, answer, start, i)
      {
        ghost var before, log0 := requests, log;
        RestoreRow(rows[i]);
        log := log + [requests[|before|..]];
        OneMore(old(requests), before, log0, requests);
        RestoredOneMore(rows, log0, log, answer, start, i);
      }
      forall i | 0 <= i < |rows| ensures RowRestored(rows[i], log[i], answer, start + |Concat(log[..i])|) {
        RestoredAt(rows, log, answer, start, |rows|, i);
      }
    }

    method RestoreRow(lim: SavedLimit)
      requires Ready(lim)
      modifies this`calls, this`requests
      ensures old(requests) <= requests && calls == old(calls) + |requests| - |old(requests)|
      ensures RowRestored(lim, requests[|old(requests)|..], answer, old(calls))
    {
      if !(lim.override && lim.saved) {
        return;
      }
      hide RestorePlan, AtLeast, Tried, Restored;
      ghost var plan := RestorePlan(lim.oldlimit, lim.newlimit, 0);
      ReadyStarts(lim);
      forall k: nat | k < |plan| ensures AtLeast(plan[k], lim.oldlimit) {
        RestorePlanKeeps(lim.oldlimit, lim.newlimit, lim.oldlimit, 0, k);
      }
      PlanRestores(lim.oldlimit, lim.newlimit, 0, answer, calls);
      Restore(lim);
    }
  }

  function Concat(log: seq<seq<Rlimit>>): seq<Rlimit> {
    if log == [] then [] else Concat(log[..|log| - 1]) + log[|log| - 1]
  }

  lemma {:induction false} ConcatOne(log: seq<seq<Rlimit>>, rs: seq<Rlimit>)
    ensures Concat(log + [rs]) == Concat(log) + rs
  {
    assert (log + [rs])[..|log|] == log;
  }

  lemma {:induction false} SameRequests(a: SavedLimit, b: SavedLimit, rs: seq<Rlimit>, was: Rlimit, answer: nat -> Outcome, n: nat)
    requires Requested(rs, a, was, answer, n) && a.newlimit == b.newlimit && a.fallback == b.fallback
    ensures Requested(rs, b, was, answer, n)
  {
  }

  lemma {:induction false} OneMore(start: seq<Rlimit>, before: seq<Rlimit>, log: seq<seq<Rlimit>>, requests: seq<Rlimit>)
    requires before == start + Concat(log) && before <= requests
    ensures var made := requests[|before|..];
            requests == start + Concat(log + [made]) && |Concat(log + [made])| == |Concat(log)| + |requests| - |before|
  {
    hide Concat;
    ConcatOne(log, requests[|before|..]);
    assert before + requests[|before|..] == requests;
  }

  /** What a row looks like afterwards, and what was requested for it, beginning
      with the n-th call. */
  ghost predicate RowDone(before: SavedLimit, now: Option<Rlimit>, lim: SavedLimit, rs: seq<Rlimit>, answer: nat -> Outcome, n: nat) {
    if now.None? then lim == before && rs == []
    else
      var low := before.minlimit == INFINITY || now.value.cur < before.minlimit;
      && lim == before.(saved := true, oldlimit := now.value, override := before.override && low, newlimit := lim.newlimit)
      && (rs != [] <==> lim.override) && AllAtLeast(rs, now.value)
      && (if rs == [] then lim.newlimit == before.newlimit
          else lim.newlimit == rs[|rs| - 1] && Requested(rs, before, now.value, answer, n))
  }

  /** The first i rows are done. */
  ghost predicate DoneUpTo(olds: seq<SavedLimit>, current: nat -> Option<Rlimit>, rows: seq<SavedLimit>, log: seq<seq<Rlimit>>,
                           answer: nat -> Outcome, n: nat, i: nat)
    requires i <= |olds| && i <= |rows| && i <= |log|
  {
    i == 0 || (&& DoneUpTo(olds, current, rows, log, answer, n, i - 1)
               && RowDone(olds[i - 1], current(i - 1), rows[i - 1], log[i - 1], answer, n + |Concat(log[..i - 1])|))
  }

  lemma {:induction false} NothingDone(olds: seq<SavedLimit>, current: nat -> Option<Rlimit>, rows: seq<SavedLimit>, answer: nat -> Outcome, n: nat)
    ensures DoneUpTo(olds, current, rows, [], answer, n, 0) && Concat([]) == []
  {
  }

  lemma {:induction false} DoneKept(olds: seq<SavedLimit>, current: nat -> Option<Rlimit>, rows: seq<SavedLimit>, rows': seq<SavedLimit>,
                                    log: seq<seq<Rlimit>>, log': seq<seq<Rlimit>>, answer: nat -> Outcome, n: nat, i: nat)
    requires i <= |olds| && i <= |rows| && i <= |rows'| && i <= |log| && i <= |log'|
    requires rows[..i] == rows'[..i] && log[..i] == log'[..i] && DoneUpTo(olds, current, rows, log, answer, n, i)
    ensures DoneUpTo(olds, current, rows', log', answer, n, i)
  {
    hide RowDone, Concat;
    if i > 0 {
      var k := i - 1;
      assert rows[..i][..k] == rows[..k] && rows'[..i][..k] == rows'[..k] && log[..i][..k] == log[..k] && log'[..i][..k] == log'[..k];
      assert rows[k] == rows[..i][k] && rows'[k] == rows'[..i][k] && log[k] == log[..i][k] && log'[k] == log'[..i][k];
      DoneKept(olds, current, rows, rows', log, log', answer, n, k);
    }
  }

  lemma {:induction false} DoneOneMore(olds: seq<SavedLimit>, current: nat -> Option<Rlimit>, rows: seq<SavedLimit>, rows': seq<SavedLimit>,
                                       log: seq<seq<Rlimit>>, log': seq<seq<Rlimit>>, answer: nat -> Outcome, n: nat, i: nat)
    requires i < |olds| == |rows| == |rows'| && |log| == i && |log'| == i + 1
    requires rows[..i] == rows'[..i] && log == log'[..i] && DoneUpTo(olds, current, rows, log, answer, n, i)
    requires RowDone(olds[i], current(i), rows'[i], log'[i], answer, n + |Concat(log)|)
    ensures DoneUpTo(olds, current, rows', log', answer, n, i + 1)
  {
    hide RowDone, Concat;
    assert log[..i] == log;
    DoneKept(olds, current, rows, rows', log, log', answer, n, i);
  }

  lemma {:induction false} DoneAt(olds: seq<SavedLimit>, current: nat -> Option<Rlimit>, rows: seq<SavedLimit>, log: seq<seq<Rlimit>>,
                                  answer: nat -> Outcome, n: nat, i: nat, j: nat)
    requires j < i <= |olds| && i <= |rows| && i <= |log| && DoneUpTo(olds, current, rows, log, answer, n, i)
    ensures RowDone(olds[j], current(j), rows[j], log[j], answer, n + |Concat(log[..j])|)
  {
    hide RowDone, Concat;
    if j < i - 1 {
      DoneAt(olds, current, rows, log, answer, n, i - 1, j);
    }
  }

  /** What is requested to restore a row, beginning with the n-th call. */
  ghost predicate RowRestored(lim: SavedLimit, rs: seq<Rlimit>, answer: nat -> Outcome, n: nat) {
    if lim.override && lim.saved
    then AllAtLeast(rs, lim.oldlimit) && Restored(rs, 0, lim.oldlimit, lim.newlimit, answer, n)
    else rs == []
  }

  ghost predicate RestoredUpTo(rows: seq<SavedLimit>, log: seq<seq<Rlimit>>, answer: nat -> Outcome, n: nat, i: nat)
    requires i <= |rows| && i <= |log|
  {
    i == 0 || (&& RestoredUpTo(rows, log, answer, n, i - 1)
               && RowRestored(rows[i - 1], log[i - 1], answer, n + |Concat(log[..i - 1])|))
  }

  lemma {:induction false} NothingRestored(rows: seq<SavedLimit>, answer: nat -> Outcome, n: nat)
    ensures RestoredUpTo(rows, [], answer, n, 0) && Concat([]) == []
  {
  }

  lemma {:induction false} RestoredKept(rows: seq<SavedLimit>, log: seq<seq<Rlimit>>, log': seq<seq<Rlimit>>, answer: nat -> Outcome, n: nat, i: nat)
    requires i <= |rows| && i <= |log| && i <= |log'| && log[..i] == log'[..i] && RestoredUpTo(rows, log, answer, n, i)
    ensures RestoredUpTo(rows, log', answer, n, i)
  {
    hide RowRestored, Concat;
    if i > 0 {
      var k := i - 1;
      assert log[..i][..k] == log[..k] && log'[..i][..k] == log'[..k] && log[k] == log[..i][k] && log'[k] == log'[..i][k];
      RestoredKept(rows, log, log', answer, n, k);
    }
  }

  lemma {:induction false} RestoredOneMore(rows: seq<SavedLimit>, log: seq<seq<Rlimit>>, log': seq<seq<Rlimit>>, answer: nat -> Outcome, n: nat, i: nat)
    requires i < |rows| && |log| == i && |log'| == i + 1 && log == log'[..i] && RestoredUpTo(rows, log, answer, n, i)
    requires RowRestored(rows[i], log'[i], answer, n + |Concat(log)|)
    ensures RestoredUpTo(rows, log', answer, n, i + 1)
  {
    hide RowRestored, Concat;
    assert log[..i] == log;
    RestoredKept(rows, log, log', answer, n, i);
  }

  lemma {:induction false} RestoredAt(rows: seq<SavedLimit>, log: seq<seq<Rlimit>>, answer: nat -> Outcome, n: nat, i: nat, j: nat)
    requires j < i <= |rows| && i <= |log| && RestoredUpTo(rows, log, answer, n, i)
    ensures RowRestored(rows[j], log[j], answer, n + |Concat(log[..j])|)
  {
    hide RowRestored, Concat;
    if j < i - 1 {
      RestoredAt(rows, log, answer, n, i - 1, j);
    }
  }

  /** A row as `unlimit_sudo` leaves it can be restored. */
  lemma {:induction false} DoneIsReady(before: SavedLimit, now: Option<Rlimit>, lim: SavedLimit, rs: seq<Rlimit>, answer: nat -> Outcome, n: nat)
    requires RowDone(before, now, lim, rs, answer, n) && GoodRow(before) && !before.saved && (now.Some? ==> Proper(now.value))
    ensures Ready(lim)
  {
    if rs != [] {
      assert AtLeast(rs[|rs| - 1], now.value);
    }
  }

  /** A row as `unlimit_sudo` leaves it. */
  predicate Ready(lim: SavedLimit) {
    lim.saved ==> Proper(lim.oldlimit) && (lim.override ==> lim.oldlimit.cur <= lim.newlimit.cur <= INFINITY)
  }

  lemma {:induction false} ReadyStarts(lim: SavedLimit)
    requires Ready(lim) && lim.override && lim.saved
    ensures AtLeast(lim.oldlimit, lim.oldlimit) && lim.oldlimit.cur <= lim.newlimit.cur <= INFINITY
    ensures var plan := RestorePlan(lim.oldlimit, lim.newlimit, 0); plan != [] && plan[0] == lim.oldlimit
  {
  }

  lemma {:induction false} PlanNotEmpty(lim: SavedLimit, was: Rlimit)
    ensures UnlimitPlan(lim, was) != []
  {
  }

  lemma {:induction false} DoubledIs(r: Rlimit, newlimit: Rlimit, d: Rlimit)
    requires var c := if newlimit.cur != INFINITY && 2 * r.cur > newlimit.cur then newlimit.cur else 2 * r.cur;
             d == Rlimit(c, if r.max != INFINITY && c > r.max then c else r.max)
    ensures d == Doubled(r, newlimit)
  {
  }

  lemma {:induction false} Regroup(before: seq<Rlimit>, a: Rlimit, b: Rlimit, rest: seq<Rlimit>)
    ensures before + ([a] + ([b] + rest)) == ((before + [a]) + [b]) + rest
    ensures before + ([a] + [b]) == (before + [a]) + [b]
  {
  }

  lemma {:induction false} NothingLeft(r: Rlimit, newlimit: Rlimit, answer: nat -> Outcome, n: nat)
    ensures Tried(RestorePlan(r, newlimit, 10), answer, n, true) == []
  {
  }

  // ---- limits as text ----

  /** One limit as `serialize_rlimits` prints it, before it is put in a buffer. */
  function Show(v: nat): string {
    if v == INFINITY then "infinity" else Decimal(v)
  }

  /** strlcpy(3) and snprintf(3) into a buffer keep one byte for the NUL. */
  function Cut(s: string, size: nat): string
    requires size > 0
  {
    if |s| < size then s else s[..size - 1]
  }

  /** The value text of `serialize_rlimits` */
  function Serialize(r: Rlimit): string {
    Cut(Show(r.cur), StrlenMaxUnsigned(8) + 1) + "," + Cut(Show(r.max), StrlenMaxUnsigned(8) + 1)
  }

  /** How many digits s begins with. */
  function DigitCount(s: string): (n: nat)
    ensures n <= |s| && (forall i :: 0 <= i < n ==> IsDigit(s[i])) && (n < |s| ==> !IsDigit(s[n]))
  {
    if s == [] || !IsDigit(s[0]) then 0 else 1 + DigitCount(s[1..])
  }

  predicate Ends(rest: string, soft: bool) {
    rest == [] || (soft && rest[0] == ',')
  }

  /** `store_rlimit` */
  function StoreRlimit(s: string, soft: bool): Option<nat> {
    if s != [] && IsDigit(s[0]) then
      var n := DigitCount(s);
      var v := DecimalValue(s[..n]);
      if v <= ULLONG_MAX && Ends(s[n..], soft) then Some(v) else None
    else if "infinity" <= s && Ends(s[8..], soft) then Some(INFINITY)
    else None
  }

  /** strchr(val, ',') */
  function Comma(s: string): (k: nat)
    ensures k <= |s| && (forall i :: 0 <= i < k ==> s[i] != ',') && (k < |s| ==> s[k] == ',')
  {
    if s == [] || s[0] == ',' then 0 else 1 + Comma(s[1..])
  }

  datatype Policy = Default | User | Explicit(limit: Rlimit) | Bad

  /** What `set_policy_rlimit` makes of a value. */
  function PolicyOf(val: string): Policy {
    if val == "default" then Default
    else if val == "user" then User
    else
      var k := Comma(val);
      var soft := StoreRlimit(val, true);
      var hard := StoreRlimit(if k < |val| then val[k + 1..] else val, false);
      if soft.Some? && hard.Some? then Explicit(Rlimit(soft.value, hard.value)) else Bad
  }

  /** No buffer cuts a limit short. */
  lemma {:induction false} NeverCut(v: nat)
    requires v <= INFINITY
    ensures Cut(Show(v), StrlenMaxUnsigned(8) + 1) == Show(v)
  {
    WidthsSuffice(v, 0);
  }

  /** A printed limit is read back, alone or in front of a comma. */
  lemma {:induction false} ShowReadBack(v: nat, rest: string, soft: bool)
    requires v <= INFINITY && Ends(rest, soft)
    ensures StoreRlimit(Show(v) + rest, soft) == Some(v)
    ensures forall i :: 0 <= i < |Show(v)| ==> Show(v)[i] != ','
  {
    var s := Show(v) + rest;
    if v == INFINITY {
      assert s[8..] == rest;
    } else {
      DecimalRoundTrip(v);
      assert s[..|Decimal(v)|] == Decimal(v) && s[|Decimal(v)|..] == rest;
      assert DigitCount(s) == |Decimal(v)|;
    }
  }

  /** A limit is read exactly from decimal digits that stand for a 64-bit number
      or from the word infinity, with nothing behind but, for the soft limit, a
      comma. */
  lemma {:induction false} StoreRlimitIff(s: string, soft: bool, v: nat)
    ensures StoreRlimit(s, soft) == Some(v) <==>
            || (exists n: nat :: 0 < n <= |s| && AllDigits(s[..n]) && DecimalValue(s[..n]) == v <= ULLONG_MAX && Ends(s[n..], soft))
            || ("infinity" <= s && Ends(s[8..], soft) && v == INFINITY)
  {
    var k := DigitCount(s);
    if StoreRlimit(s, soft) == Some(v) && s != [] && IsDigit(s[0]) {
      assert AllDigits(s[..k]);
    }
    if n: nat :| 0 < n <= |s| && AllDigits(s[..n]) && DecimalValue(s[..n]) == v <= ULLONG_MAX && Ends(s[n..], soft) {
      forall i | 0 <= i < n ensures IsDigit(s[i]) {
        assert s[..n][i] == s[i];
      }
      assert n < |s| ==> s[n..][0] == s[n] && !IsDigit(s[n]);
      assert k == n;
    }
  }

  predicate AllDigits(s: string) {
    forall i :: 0 <= i < |s| ==> IsDigit(s[i])
  }

  /** One value sets both limits. */
  lemma {:induction false} OneValueForBoth(v: nat)
    requires v <= INFINITY
    ensures PolicyOf(Show(v)) == Explicit(Rlimit(v, v))
  {
    ShowReadBack(v, "", false);
    ShowReadBack(v, "", true);
    assert Show(v) + "" == Show(v);
    assert Comma(Show(v)) == |Show(v)|;
    if v != INFINITY {
      DecimalRoundTrip(v);
      assert IsDigit(Show(v)[0]) && !IsDigit("default"[0]) && !IsDigit("user"[0]);
    }
  }

  /** Reading what was printed gives the limit back, for every 64-bit value
      and infinity. */
  lemma {:induction false} SerializeRoundTrip(r: Rlimit)
    requires r.cur <= INFINITY && r.max <= INFINITY
    ensures PolicyOf(Serialize(r)) == Explicit(r)
  {
    NeverCut(r.cur);
    NeverCut(r.max);
    var cur, max := Show(r.cur), Show(r.max);
    var val := cur + "," + max;
    ShowReadBack(r.cur, "," + max, true);
    ShowReadBack(r.max, "", false);
    assert cur + ("," + max) == val && max + "" == max;
    assert val[|cur|] == ',' && forall i :: 0 <= i < |cur| ==> val[i] == cur[i];
    assert Comma(val) == |cur| && val[|cur| + 1..] == max;
    assert ',' in val && ',' !in "default" && ',' !in "user";
  }
}
