/** The changed environment as a program sees it: the values of its variables,
    and LD_PRELOAD as a list of objects. */
module PreloadViews {
  import opened Options
  import opened Decimals
  import opened Preload

  const FD_NAME := "SUDO_INTERCEPT_FD"

  /** The values of all entries for a variable, in order. */
  function Values(env: seq<string>, name: string): seq<string> {
    if env == [] then []
    else (if name + "=" <= env[0] then [env[0][|name| + 1..]] else []) + Values(env[1..], name)
  }

  /** Where a character first occurs, or the end. */
  function FirstAt(s: string, c: char): (k: nat)
    ensures k <= |s| && (forall i :: 0 <= i < k ==> s[i] != c) && (k < |s| ==> s[k] == c)
  {
    if s == [] || s[0] == c then 0 else 1 + FirstAt(s[1..], c)
  }

  /** The elements of a list. */
  function Split(s: string, delim: char): (r: seq<string>)
    ensures |r| > 0
  {
    var k := FirstAt(s, delim);
    if k == |s| then [s] else [s[..k]] + Split(s[k + 1..], delim)
  }

  lemma {:induction false} FirstIs(s: string, c: char, k: nat)
    requires k <= |s| && (forall i :: 0 <= i < k ==> s[i] != c) && (k < |s| ==> s[k] == c)
    ensures FirstAt(s, c) == k
  {
  }

  lemma {:induction false} SplitHead(s: string, delim: char)
    ensures var k := FirstAt(s, delim); var r := Split(s, delim);
            && r[0] == s[..k]
            && if k == |s| then r == [s] else r[1..] == Split(s[k + 1..], delim) && s == s[..k] + [delim] + s[k + 1..]
  {
    assert s[..|s|] == s;
  }

  /** A delimiter between two lists makes one list of them. */
  lemma {:induction false} SplitJoin(a: string, b: string, delim: char)
    ensures Split(a + [delim] + b, delim) == Split(a, delim) + Split(b, delim)
  {
    hide Split, FirstAt;
    var s, k := a + [delim] + b, FirstAt(a, delim);
    FirstIs(s, delim, k);
    SplitHead(a, delim);
    SplitHead(s, delim);
    if k == |a| {
      assert s[..k] == a && s[k + 1..] == b;
      assert Split(s, delim) == [a] + Split(b, delim);
    } else {
      var rest := a[k + 1..];
      SplitJoin(rest, b, delim);
      assert s[k + 1..] == rest + [delim] + b && s[..k] == a[..k];
      assert Split(s, delim) == [s[..k]] + (Split(rest, delim) + Split(b, delim));
      assert Split(a, delim) == [a[..k]] + Split(rest, delim);
    }
  }

  lemma {:induction false} BeginsOnly(a: string, s: string, delim: char)
    requires Split(a, delim) <= Split(s, delim)
    ensures a <= s && (|a| == |s| || s[|a|] == delim)
  {
    hide Split, FirstAt;
    var k, n := FirstAt(a, delim), FirstAt(s, delim);
    SplitHead(a, delim);
    SplitHead(s, delim);
    assert Split(a, delim)[0] == Split(s, delim)[0] && |a[..k]| == |s[..n]|;
    if k == |a| {
      assert a == s[..n];
    } else {
      assert |Split(a, delim)[1..]| > 0 && Split(a, delim)[1..] <= Split(s, delim)[1..];
      BeginsOnly(a[k + 1..], s[n + 1..], delim);
      assert a <= s;
    }
  }

  /** A list begins with the elements of another one exactly when it is that
      one, or that one and a delimiter and more. */
  lemma {:induction false} BeginsIff(a: string, s: string, delim: char)
    ensures Split(a, delim) <= Split(s, delim) <==> a <= s && (|a| == |s| || s[|a|] == delim)
  {
    hide Split;
    if Split(a, delim) <= Split(s, delim) {
      BeginsOnly(a, s, delim);
    }
    if a <= s && |a| < |s| && s[|a|] == delim {
      SplitJoin(a, s[|a| + 1..], delim);
      assert s == a + [delim] + s[|a| + 1..];
    }
    assert a <= s && |a| == |s| ==> a == s;
  }

  // ---- the values of variables ----

  predicate Nested(a: string, b: string) {
    a <= b || b <= a
  }

  /** A variable that is neither of the two. */
  predicate Unrelated(u: Setup, name: string) {
    !Nested(name + "=", u.preloadVar + "=") && !(u.fd != -1 && Nested(name + "=", FD_PREFIX))
  }

  /** Which entries are counted for a variable. */
  lemma {:induction false} Selected(u: Setup, e: string, name: string)
    requires GoodSetup(u)
    ensures FD_NAME + "=" == FD_PREFIX
    ensures IsPreload(u, e) <==> u.preloadVar + "=" <= e
    ensures u.fd != -1 ==> (IsFd(u, e) <==> FD_PREFIX <= e)
    ensures Unrelated(u, name) && name + "=" <= e ==> !IsPreload(u, e) && !IsFd(u, e)
  {
    if u.preloadVar + "=" <= e && FD_PREFIX <= e {
      PrefixesNest(u.preloadVar + "=", FD_PREFIX, e);
    }
    if Unrelated(u, name) && name + "=" <= e {
      if IsPreload(u, e) {
        PrefixesNest(name + "=", u.preloadVar + "=", e);
      }
      if IsFd(u, e) {
        PrefixesNest(name + "=", FD_PREFIX, e);
      }
    }
  }

  lemma {:induction false} ValuesFront(e: string, rest: seq<string>, name: string)
    ensures Values([e] + rest, name) == (if name + "=" <= e then [e[|name| + 1..]] else []) + Values(rest, name)
  {
    assert ([e] + rest)[1..] == rest;
  }

  lemma {:induction false} Regroup(a: seq<string>, b: seq<string>, c: seq<string>)
    ensures (a + b) + c == a + (b + c)
  {
  }

  lemma {:induction false} ValuesConcat(a: seq<string>, b: seq<string>, name: string)
    ensures Values(a + b, name) == Values(a, name) + Values(b, name)
  {
    if a == [] {
      assert a + b == b;
    } else {
      hide Values;
      var e, rest := a[0], a[1..];
      ValuesConcat(rest, b, name);
      ValuesFront(e, rest, name);
      ValuesFront(e, rest + b, name);
      assert a == [e] + rest;
      Regroup([e], rest, b);
      Regroup(if name + "=" <= e then [e[|name| + 1..]] else [], Values(rest, name), Values(b, name));
    }
  }

  /** The first value, unless one was seen before. */
  function First(vs: seq<string>, seen: bool): seq<string> {
    if seen || vs == [] then [] else [vs[0]]
  }

  lemma {:induction false} KeptValues(u: Setup, env: seq<string>, seenP: bool, seenF: bool, name: string)
    requires GoodSetup(u)
    ensures var k := Kept(u, env, seenP, seenF);
            && Values(k, u.preloadVar) == First(Values(env, u.preloadVar), seenP)
            && (u.fd != -1 ==> Values(k, FD_NAME) == First(Values(env, FD_NAME), seenF))
            && (Unrelated(u, name) ==> Values(k, name) == Values(env, name))
  {
    if env != [] {
      hide Kept, IsPreload, IsFd, Unrelated, GoodSetup, Values, First;
      var e, rest := env[0], env[1..];
      assert env == [e] + rest;
      var p, f := seenP || IsPreload(u, e), seenF || IsFd(u, e);
      Selected(u, e, name);
      KeptValues(u, rest, p, f, name);
      NotBoth(u, e);
      KeptOne(u, e, rest, seenP, seenF);
      var k := Kept(u, rest, p, f);
      var dropP, dropF := IsPreload(u, e) && seenP, IsFd(u, e) && seenF;
      KeepOne(e, rest, k, u.preloadVar, seenP, IsPreload(u, e), dropF);
      if u.fd != -1 {
        KeepOne(e, rest, k, FD_NAME, seenF, IsFd(u, e), dropP);
      }
      if Unrelated(u, name) {
        KeepEvery(e, rest, k, name, dropP || dropF);
      }
    }
  }

  /** One more entry, when only the first value of a variable is kept; `other`
      says that it is dropped on account of another variable. */
  lemma {:induction false} KeepOne(e: string, rest: seq<string>, k: seq<string>, name: string, seen: bool, own: bool, other: bool)
    requires own == (name + "=" <= e) && !(own && other) && Values(k, name) == First(Values(rest, name), seen || own)
    ensures Values(if (own && seen) || other then k else [e] + k, name) == First(Values([e] + rest, name), seen)
  {
    hide Values;
    ValuesFront(e, k, name);
    ValuesFront(e, rest, name);
  }

  lemma {:induction false} KeepEvery(e: string, rest: seq<string>, k: seq<string>, name: string, dropped: bool)
    requires Values(k, name) == Values(rest, name) && (dropped ==> !(name + "=" <= e))
    ensures Values(if dropped then k else [e] + k, name) == Values([e] + rest, name)
  {
    hide Values;
    ValuesFront(e, k, name);
    ValuesFront(e, rest, name);
  }

  lemma {:induction false} KeptOne(u: Setup, e: string, rest: seq<string>, seenP: bool, seenF: bool)
    ensures var k := Kept(u, rest, seenP || IsPreload(u, e), seenF || IsFd(u, e));
            Kept(u, [e] + rest, seenP, seenF) ==
            if (IsPreload(u, e) && seenP) || (IsFd(u, e) && seenF) then k else [e] + k
  {
    hide IsPreload, IsFd;
    NotBoth(u, e);
    assert ([e] + rest)[1..] == rest;
    assert [] + Kept(u, rest, true, seenF) == Kept(u, rest, true, seenF);
    assert [] + Kept(u, rest, seenP, true) == Kept(u, rest, seenP, true);
  }

  /** The list with the object in front, unless it is there already. */
  function Fronted(u: Setup, v: string): string {
    if Split(u.dso, u.delim) <= Split(v, u.delim) then v else u.dso + [u.delim] + v
  }

  function Numbered(u: Setup, v: string): string {
    if u.number(v) == Some(u.fd) then v else SignedDecimal(u.fd)
  }

  function FrontedAll(u: Setup, vs: seq<string>): (r: seq<string>)
    ensures |r| == |vs| && forall i :: 0 <= i < |vs| ==> r[i] == Fronted(u, vs[i])
  {
    seq(|vs|, i requires 0 <= i < |vs| => Fronted(u, vs[i]))
  }

  function NumberedAll(u: Setup, vs: seq<string>): (r: seq<string>)
    ensures |r| == |vs| && forall i :: 0 <= i < |vs| ==> r[i] == Numbered(u, vs[i])
  {
    seq(|vs|, i requires 0 <= i < |vs| => Numbered(u, vs[i]))
  }

  /** What fixing does to the value of one entry. */
  lemma {:induction false} FixedEntry(u: Setup, e: string, name: string)
    requires GoodSetup(u)
    ensures Values([Fixed(u, e)], u.preloadVar) == FrontedAll(u, Values([e], u.preloadVar))
    ensures u.fd != -1 ==> Values([Fixed(u, e)], FD_NAME) == NumberedAll(u, Values([e], FD_NAME))
    ensures Unrelated(u, name) ==> Values([Fixed(u, e)], name) == Values([e], name)
  {
    hide Values, Unrelated, GoodSetup, Fronted, Numbered, Split, Fixed, DsoFirst, RightFd;
    var g := Fixed(u, e);
    Selected(u, e, name);
    Selected(u, g, name);
    FixedKind(u, e);
    NotBoth(u, e);
    ValuesOne(e, u.preloadVar);
    ValuesOne(e, FD_NAME);
    ValuesOne(e, name);
    ValuesOne(g, u.preloadVar);
    ValuesOne(g, FD_NAME);
    ValuesOne(g, name);
    if IsPreload(u, e) {
      FixedPreloadValue(u, e);
    } else if IsFd(u, e) {
      FixedFdValue(u, e);
    }
  }

  lemma {:induction false} ValuesOne(e: string, name: string)
    ensures Values([e], name) == if name + "=" <= e then [e[|name| + 1..]] else []
  {
    assert [e][1..] == [];
  }

  lemma {:induction false} FixedPreloadValue(u: Setup, e: string)
    requires IsPreload(u, e)
    ensures IsPreload(u, Fixed(u, e)) && PreloadValue(u, Fixed(u, e)) == Fronted(u, PreloadValue(u, e))
  {
    hide Split;
    var v := PreloadValue(u, e);
    BeginsIff(u.dso, v, u.delim);
    if !DsoFirst(u, v) {
      PreloadEntry(u, u.dso + [u.delim] + v);
      assert Fixed(u, e) == u.preloadVar + "=" + (u.dso + [u.delim] + v);
    }
  }

  lemma {:induction false} FixedFdValue(u: Setup, e: string)
    requires IsFd(u, e)
    ensures FD_PREFIX <= Fixed(u, e) && Fixed(u, e)[|FD_PREFIX|..] == Numbered(u, e[|FD_PREFIX|..])
  {
    assert NewFd(u)[|FD_PREFIX|..] == SignedDecimal(u.fd);
  }

  lemma {:induction false} FixedValues(u: Setup, s: seq<string>, name: string)
    requires GoodSetup(u)
    ensures Values(AllFixed(u, s), u.preloadVar) == FrontedAll(u, Values(s, u.preloadVar))
    ensures u.fd != -1 ==> Values(AllFixed(u, s), FD_NAME) == NumberedAll(u, Values(s, FD_NAME))
    ensures Unrelated(u, name) ==> Values(AllFixed(u, s), name) == Values(s, name)
  {
    if s != [] {
      hide Values, Unrelated, GoodSetup, Fixed, FrontedAll, NumberedAll, AllFixed;
      var e, rest := s[0], s[1..];
      FixedEntry(u, e, name);
      FixedValues(u, rest, name);
      FixedFront(u, e, rest);
      assert s == [e] + rest;
      ValuesSplit(u, e, rest, u.preloadVar);
      ValuesSplit(u, e, rest, FD_NAME);
      ValuesSplit(u, e, rest, name);
      FrontedConcat(u, Values([e], u.preloadVar), Values(rest, u.preloadVar));
      NumberedConcat(u, Values([e], FD_NAME), Values(rest, FD_NAME));
    }
  }

  lemma {:induction false} FixedFront(u: Setup, e: string, rest: seq<string>)
    ensures AllFixed(u, [e] + rest) == [Fixed(u, e)] + AllFixed(u, rest)
  {
    hide Fixed;
  }

  lemma {:induction false} ValuesSplit(u: Setup, e: string, rest: seq<string>, name: string)
    ensures Values([e] + rest, name) == Values([e], name) + Values(rest, name)
    ensures Values([Fixed(u, e)] + AllFixed(u, rest), name) == Values([Fixed(u, e)], name) + Values(AllFixed(u, rest), name)
  {
    hide Fixed, AllFixed, Values;
    ValuesConcat([e], rest, name);
    ValuesConcat([Fixed(u, e)], AllFixed(u, rest), name);
  }

  lemma {:induction false} FrontedConcat(u: Setup, a: seq<string>, b: seq<string>)
    ensures FrontedAll(u, a + b) == FrontedAll(u, a) + FrontedAll(u, b)
  {
    hide Fronted, FrontedAll;
  }

  lemma {:induction false} NumberedConcat(u: Setup, a: seq<string>, b: seq<string>)
    ensures NumberedAll(u, a + b) == NumberedAll(u, a) + NumberedAll(u, b)
  {
    hide Numbered, NumberedAll;
  }

  lemma {:induction false} AddedValues(u: Setup, env: seq<string>, name: string)
    requires GoodSetup(u)
    ensures Values(Added(u, env), u.preloadVar) ==
            if CountP(u, env) > 0 then [] else [u.dso + if u.initial.Some? then [u.delim] + u.initial.value else []]
    ensures u.fd != -1 ==> Values(Added(u, env), FD_NAME) == if CountF(u, env) > 0 then [] else [SignedDecimal(u.fd)]
    ensures Unrelated(u, name) ==> Values(Added(u, env), name) == []
  {
    var p: seq<string> := if CountP(u, env) > 0 then [] else [NewPreload(u)];
    var f: seq<string> := if u.fd == -1 || CountF(u, env) > 0 then [] else [NewFd(u)];
    NewValues(u, name);
    hide Values, Unrelated, GoodSetup, NewPreload, NewFd, CountP, CountF;
    ValuesConcat(p, f, u.preloadVar);
    ValuesConcat(p, f, FD_NAME);
    ValuesConcat(p, f, name);
    ValuesNone(u.preloadVar);
    ValuesNone(FD_NAME);
    ValuesNone(name);
  }

  lemma {:induction false} ValuesNone(name: string)
    ensures Values([], name) == []
  {
  }

  lemma {:induction false} NewValues(u: Setup, name: string)
    requires GoodSetup(u)
    ensures Values([NewPreload(u)], u.preloadVar) == [u.dso + if u.initial.Some? then [u.delim] + u.initial.value else []]
    ensures u.fd != -1 ==> Values([NewPreload(u)], FD_NAME) == [] && Values([NewFd(u)], u.preloadVar) == []
                           && Values([NewFd(u)], FD_NAME) == [SignedDecimal(u.fd)]
    ensures Unrelated(u, name) ==> Values([NewPreload(u)], name) == [] && (u.fd != -1 ==> Values([NewFd(u)], name) == [])
  {
    var value := u.dso + if u.initial.Some? then [u.delim] + u.initial.value else [];
    assert NewPreload(u) == u.preloadVar + "=" + value;
    PreloadEntry(u, value);
    Selected(u, NewPreload(u), name);
    Selected(u, NewFd(u), name);
    ValuesOne(NewPreload(u), u.preloadVar);
    ValuesOne(NewPreload(u), FD_NAME);
    ValuesOne(NewPreload(u), name);
    ValuesOne(NewFd(u), u.preloadVar);
    ValuesOne(NewFd(u), FD_NAME);
    ValuesOne(NewFd(u), name);
    if u.fd != -1 {
      FdEntry(u);
      assert NewFd(u)[|FD_PREFIX|..] == SignedDecimal(u.fd);
    }
    hide Values, Unrelated, GoodSetup, NewPreload, NewFd, IsPreload, IsFd;
  }

  lemma {:induction false} CountsAreValues(u: Setup, env: seq<string>)
    requires GoodSetup(u)
    ensures CountP(u, env) == |Values(env, u.preloadVar)| && (u.fd != -1 ==> CountF(u, env) == |Values(env, FD_NAME)|)
  {
    if env != [] {
      Selected(u, env[0], "");
      CountsAreValues(u, env[1..]);
      hide GoodSetup, IsPreload, IsFd;
    }
  }

  /** The values of the two variables afterwards. */
  function PreloadNow(u: Setup, was: seq<string>): string {
    if was != [] then Fronted(u, was[0]) else u.dso + if u.initial.Some? then [u.delim] + u.initial.value else []
  }

  function FdNow(u: Setup, was: seq<string>): string {
    if was != [] then Numbered(u, was[0]) else SignedDecimal(u.fd)
  }

  lemma {:induction false} ResultValues(u: Setup, env: seq<string>, name: string)
    requires GoodSetup(u)
    ensures Values(Result(u, env), u.preloadVar) == [PreloadNow(u, Values(env, u.preloadVar))]
    ensures u.fd != -1 ==> Values(Result(u, env), FD_NAME) == [FdNow(u, Values(env, FD_NAME))]
    ensures Unrelated(u, name) ==> Values(Result(u, env), name) == Values(env, name)
  {
    hide Values, Unrelated, GoodSetup, Kept, AllFixed, Added, CountP, CountF, Fronted, Numbered;
    var k := Kept(u, env, false, false);
    KeptValues(u, env, false, false, name);
    FixedValues(u, k, name);
    AddedValues(u, env, name);
    CountsAreValues(u, env);
    ValuesConcat(AllFixed(u, k), Added(u, env), u.preloadVar);
    ValuesConcat(AllFixed(u, k), Added(u, env), FD_NAME);
    ValuesConcat(AllFixed(u, k), Added(u, env), name);
  }

  lemma {:induction false} PreloadNowSplit(u: Setup, was: seq<string>)
    ensures var dso, now := Split(u.dso, u.delim), Split(PreloadNow(u, was), u.delim);
            && dso <= now
            && now ==
               if was == [] then dso + (if u.initial.Some? then Split(u.initial.value, u.delim) else [])
               else if dso <= Split(was[0], u.delim) then Split(was[0], u.delim) else dso + Split(was[0], u.delim)
  {
    hide Split;
    if was != [] {
      SplitJoin(u.dso, was[0], u.delim);
    } else if u.initial.Some? {
      SplitJoin(u.dso, u.initial.value, u.delim);
      assert u.dso + ([u.delim] + u.initial.value) == u.dso + [u.delim] + u.initial.value;
    } else {
      assert u.dso + [] == u.dso;
    }
  }

  /** Whatever the environment was: afterwards the preload variable has one value
      and the object stands first in it, in front of the first value there was
      or of the default; the descriptor variable has one value, which is read as
      the descriptor; and every other variable has the values it had. */
  lemma {:induction false} ProgramSees(u: Setup, env: seq<string>, name: string)
    requires GoodSetup(u)
    ensures var was, now := Values(env, u.preloadVar), Values(Result(u, env), u.preloadVar);
            var dso := Split(u.dso, u.delim);
            && |now| == 1 && dso <= Split(now[0], u.delim)
            && Split(now[0], u.delim) ==
               if was == [] then dso + (if u.initial.Some? then Split(u.initial.value, u.delim) else [])
               else if dso <= Split(was[0], u.delim) then Split(was[0], u.delim) else dso + Split(was[0], u.delim)
    ensures u.fd != -1 ==> var now := Values(Result(u, env), FD_NAME); |now| == 1 && u.number(now[0]) == Some(u.fd)
    ensures Unrelated(u, name) ==> Values(Result(u, env), name) == Values(env, name)
  {
    hide Values, Unrelated, Result, Split, PreloadNow;
    ResultValues(u, env, name);
    PreloadNowSplit(u, Values(env, u.preloadVar));
  }
}
