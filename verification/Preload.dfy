/** Adding a shared object to LD_PRELOAD in an environment, and the number of
    the intercept socket beside it. */
module Preload {
  import opened Options
  import opened Decimals
  import opened Fmtstr

  const FD_PREFIX := "SUDO_INTERCEPT_FD="

  /** The arguments of `sudo_preload_dso_alloc`; fd -1 means none.  `initial`
      is RTLD_PRELOAD_DEFAULT, `number` what sudo_strtonum(3) reads. */
  datatype Setup = Setup(preloadVar: string, dso: string, delim: char, initial: Option<string>, fd: int, number: string -> Option<int>)

  /** The two variables are different ones, and numbers are read as printed. */
  ghost predicate GoodSetup(u: Setup) {
    && !(u.preloadVar + "=" <= FD_PREFIX) && !(FD_PREFIX <= u.preloadVar + "=")
    && u.fd >= -1 && (u.fd != -1 ==> u.number(SignedDecimal(u.fd)) == Some(u.fd))
  }

  predicate IsPreload(u: Setup, e: string) {
    u.preloadVar + "=" <= e
  }

  predicate IsFd(u: Setup, e: string) {
    u.fd != -1 && !IsPreload(u, e) && FD_PREFIX <= e
  }

  function PreloadValue(u: Setup, e: string): string
    requires IsPreload(u, e)
  {
    e[|u.preloadVar| + 1..]
  }

  /** The object is already first in the list. */
  predicate DsoFirst(u: Setup, value: string) {
    u.dso <= value && (|value| == |u.dso| || value[|u.dso|] == u.delim)
  }

  predicate RightFd(u: Setup, e: string)
    requires FD_PREFIX <= e
  {
    u.number(e[|FD_PREFIX|..]) == Some(u.fd)
  }

  function FixedPreload(u: Setup, e: string): string
    requires IsPreload(u, e)
  {
    if DsoFirst(u, PreloadValue(u, e)) then e
    else u.preloadVar + "=" + u.dso + [u.delim] + PreloadValue(u, e)
  }

  function NewPreload(u: Setup): string {
    u.preloadVar + "=" + u.dso + if u.initial.Some? then [u.delim] + u.initial.value else []
  }

  function NewFd(u: Setup): string {
    FD_PREFIX + SignedDecimal(u.fd)
  }

  function FixedFd(u: Setup, e: string): string
    requires IsFd(u, e)
  {
    if RightFd(u, e) then e else NewFd(u)
  }

  // ---- what the environment becomes ----

  /** Copying drops later entries for a variable that was already copied. */
  function Kept(u: Setup, env: seq<string>, seenP: bool, seenF: bool): seq<string> {
    if env == [] then []
    else if IsPreload(u, env[0]) then (if seenP then [] else [env[0]]) + Kept(u, env[1..], true, seenF)
    else if IsFd(u, env[0]) then (if seenF then [] else [env[0]]) + Kept(u, env[1..], seenP, true)
    else [env[0]] + Kept(u, env[1..], seenP, seenF)
  }

  function Fixed(u: Setup, e: string): string {
    if IsPreload(u, e) then FixedPreload(u, e) else if IsFd(u, e) then FixedFd(u, e) else e
  }

  function AllFixed(u: Setup, env: seq<string>): (r: seq<string>)
    ensures |r| == |env| && forall i :: 0 <= i < |env| ==> r[i] == Fixed(u, env[i])
  {
    seq(|env|, i requires 0 <= i < |env| => Fixed(u, env[i]))
  }

  function CountP(u: Setup, env: seq<string>): nat {
    if env == [] then 0 else (if IsPreload(u, env[0]) then 1 else 0) + CountP(u, env[1..])
  }

  function CountF(u: Setup, env: seq<string>): nat {
    if env == [] then 0 else (if IsFd(u, env[0]) then 1 else 0) + CountF(u, env[1..])
  }

  function Others(u: Setup, env: seq<string>): seq<string> {
    if env == [] then []
    else (if IsPreload(u, env[0]) || IsFd(u, env[0]) then [] else [env[0]]) + Others(u, env[1..])
  }

  function Added(u: Setup, env: seq<string>): seq<string> {
    (if CountP(u, env) > 0 then [] else [NewPreload(u)]) + if u.fd == -1 || CountF(u, env) > 0 then [] else [NewFd(u)]
  }

  /** `sudo_preload_dso_alloc` */
  function Result(u: Setup, env: seq<string>): seq<string> {
    AllFixed(u, Kept(u, env, false, false)) + Added(u, env)
  }

  /** One preload entry that begins with the object, and one entry with the
      right descriptor. */
  ghost predicate Good(u: Setup, env: seq<string>) {
    && CountP(u, env) == 1 && (u.fd != -1 ==> CountF(u, env) == 1)
    && forall i :: 0 <= i < |env| ==> GoodEntry(u, env[i])
  }

  ghost predicate GoodEntry(u: Setup, e: string) {
    && (IsPreload(u, e) ==> DsoFirst(u, PreloadValue(u, e)))
    && (IsFd(u, e) ==> RightFd(u, e))
  }

  lemma {:induction false} KeptFacts(u: Setup, env: seq<string>, seenP: bool, seenF: bool)
    ensures var k := Kept(u, env, seenP, seenF);
            && CountP(u, k) == (if seenP || CountP(u, env) == 0 then 0 else 1)
            && CountF(u, k) == (if seenF || CountF(u, env) == 0 then 0 else 1)
            && Others(u, k) == Others(u, env) && |k| <= |env|
  {
    hide IsPreload, IsFd;
    if env != [] {
      var e, rest := env[0], env[1..];
      var p, f := seenP || IsPreload(u, e), seenF || IsFd(u, e);
      NotBoth(u, e);
      KeptFacts(u, rest, p, f);
      var k := Kept(u, rest, p, f);
      Tail(e, k);
      assert [] + k == k;
    }
  }

  lemma {:induction false} NotBoth(u: Setup, e: string)
    ensures !(IsPreload(u, e) && IsFd(u, e))
  {
  }

  lemma {:induction false} Tail(e: string, s: seq<string>)
    ensures ([e] + s)[0] == e && ([e] + s)[1..] == s
  {
  }

  lemma {:induction false} PreloadEntry(u: Setup, value: string)
    ensures var e := u.preloadVar + "=" + value; IsPreload(u, e) && !IsFd(u, e) && PreloadValue(u, e) == value
  {
    var e := u.preloadVar + "=" + value;
    assert e[..|u.preloadVar| + 1] == u.preloadVar + "=";
    assert e[|u.preloadVar| + 1..] == value;
  }

  lemma {:induction false} FdEntry(u: Setup)
    requires GoodSetup(u) && u.fd != -1
    ensures IsFd(u, NewFd(u)) && !IsPreload(u, NewFd(u)) && RightFd(u, NewFd(u))
  {
    var e, key := NewFd(u), u.preloadVar + "=";
    assert e[..|FD_PREFIX|] == FD_PREFIX && e[|FD_PREFIX|..] == SignedDecimal(u.fd);
    if IsPreload(u, e) {
      PrefixesNest(key, FD_PREFIX, e);
    }
  }

  /** Of two prefixes of one string, the shorter is a prefix of the longer. */
  lemma {:induction false} PrefixesNest(a: string, b: string, e: string)
    requires a <= e && b <= e
    ensures a <= b || b <= a
  {
    assert a == e[..|a|] && b == e[..|b|];
    if |a| <= |b| {
      assert b[..|a|] == a;
    } else {
      assert a[..|b|] == b;
    }
  }

  lemma {:induction false} NewPreloadEntry(u: Setup)
    ensures IsPreload(u, NewPreload(u)) && !IsFd(u, NewPreload(u)) && GoodEntry(u, NewPreload(u))
  {
    var value := u.dso + if u.initial.Some? then [u.delim] + u.initial.value else [];
    assert NewPreload(u) == u.preloadVar + "=" + value;
    PreloadEntry(u, value);
  }

  /** Fixing an entry keeps its kind and makes it good. */
  lemma {:induction false} FixedKind(u: Setup, e: string)
    requires GoodSetup(u)
    ensures IsPreload(u, Fixed(u, e)) == IsPreload(u, e) && IsFd(u, Fixed(u, e)) == IsFd(u, e)
    ensures GoodEntry(u, Fixed(u, e))
    ensures GoodEntry(u, e) || (!IsPreload(u, e) && !IsFd(u, e)) ==> Fixed(u, e) == e
  {
    if IsPreload(u, e) && !DsoFirst(u, PreloadValue(u, e)) {
      var value := u.dso + [u.delim] + PreloadValue(u, e);
      assert Fixed(u, e) == u.preloadVar + "=" + value;
      PreloadEntry(u, value);
    } else if IsFd(u, e) && !RightFd(u, e) {
      FdEntry(u);
    }
  }

  lemma {:induction false} FixedFacts(u: Setup, s: seq<string>)
    requires GoodSetup(u)
    ensures var f := AllFixed(u, s);
            CountP(u, f) == CountP(u, s) && CountF(u, f) == CountF(u, s) && Others(u, f) == Others(u, s)
  {
    if s != [] {
      FixedKind(u, s[0]);
      FixedFacts(u, s[1..]);
      hide Fixed, IsPreload, IsFd, GoodSetup;
      var f := AllFixed(u, s);
      assert f[0] == Fixed(u, s[0]) && f[1..] == AllFixed(u, s[1..]);
    }
  }

  lemma {:induction false} ConcatFacts(u: Setup, a: seq<string>, b: seq<string>)
    ensures CountP(u, a + b) == CountP(u, a) + CountP(u, b) && CountF(u, a + b) == CountF(u, a) + CountF(u, b)
    ensures Others(u, a + b) == Others(u, a) + Others(u, b)
  {
    NoFacts(u);
    hide IsPreload, IsFd, CountP, CountF, Others;
    if a == [] {
      assert a + b == b && [] + Others(u, b) == Others(u, b);
    } else {
      ConcatFacts(u, a[1..], b);
      assert (a + b)[0] == a[0] && (a + b)[1..] == a[1..] + b;
      FrontFacts(u, a);
      FrontFacts(u, a + b);
      var x: seq<string> := if IsPreload(u, a[0]) || IsFd(u, a[0]) then [] else [a[0]];
      assert x + (Others(u, a[1..]) + Others(u, b)) == (x + Others(u, a[1..])) + Others(u, b);
    }
  }

  lemma {:induction false} NoFacts(u: Setup)
    ensures CountP(u, []) == 0 && CountF(u, []) == 0 && Others(u, []) == []
  {
  }

  lemma {:induction false} FrontFacts(u: Setup, a: seq<string>)
    requires a != []
    ensures CountP(u, a) == (if IsPreload(u, a[0]) then 1 else 0) + CountP(u, a[1..])
    ensures CountF(u, a) == (if IsFd(u, a[0]) then 1 else 0) + CountF(u, a[1..])
    ensures Others(u, a) == (if IsPreload(u, a[0]) || IsFd(u, a[0]) then [] else [a[0]]) + Others(u, a[1..])
  {
    hide IsPreload, IsFd;
    assert [] + Others(u, a[1..]) == Others(u, a[1..]);
  }

  lemma {:induction false} OneEntry(u: Setup, e: string)
    ensures CountP(u, [e]) == (if IsPreload(u, e) then 1 else 0) && CountF(u, [e]) == (if IsFd(u, e) then 1 else 0)
    ensures IsPreload(u, e) || IsFd(u, e) ==> Others(u, [e]) == []
  {
    hide IsPreload, IsFd;
    assert [e][1..] == [];
  }

  lemma {:induction false} AddedFacts(u: Setup, env: seq<string>)
    requires GoodSetup(u)
    ensures var a := Added(u, env);
            && CountP(u, a) == (if CountP(u, env) > 0 then 0 else 1)
            && CountF(u, a) == (if u.fd == -1 || CountF(u, env) > 0 then 0 else 1)
            && Others(u, a) == [] && |a| <= (if u.fd == -1 then 1 else 2)
            && forall i :: 0 <= i < |a| ==> GoodEntry(u, a[i])
  {
    NewPreloadEntry(u);
    if u.fd != -1 {
      FdEntry(u);
    }
    hide IsPreload, IsFd, GoodSetup, NewPreload, NewFd, DsoFirst, RightFd;
    var p: seq<string> := if CountP(u, env) > 0 then [] else [NewPreload(u)];
    var f: seq<string> := if u.fd == -1 || CountF(u, env) > 0 then [] else [NewFd(u)];
    OneEntry(u, NewPreload(u));
    OneEntry(u, NewFd(u));
    ConcatFacts(u, p, f);
  }

  /** The new environment has one preload entry that begins with the object
      and one entry with the right descriptor, keeps all other entries in
      order, and fits the array whose size was computed before. */
  lemma {:induction false} ResultIsGood(u: Setup, env: seq<string>)
    requires GoodSetup(u)
    ensures Good(u, Result(u, env)) && Others(u, Result(u, env)) == Others(u, env)
    ensures |Result(u, env)| + 1 <= ArraySize(u, env)
  {
    var k := Kept(u, env, false, false);
    var f, a := AllFixed(u, k), Added(u, env);
    KeptFacts(u, env, false, false);
    FixedFacts(u, k);
    AddedFacts(u, env);
    ConcatFacts(u, f, a);
    forall i | 0 <= i < |f| ensures GoodEntry(u, f[i]) {
      FixedKind(u, k[i]);
    }
    NoFd(u, env);
    hide GoodSetup, GoodEntry, Kept, AllFixed, Added, CountP, CountF, Others;
    assert Others(u, env) + [] == Others(u, env);
  }

  lemma {:induction false} NoFd(u: Setup, env: seq<string>)
    ensures u.fd == -1 ==> CountF(u, env) == 0
  {
    if env != [] {
      NoFd(u, env[1..]);
    }
  }

  /** The array size computed before copying. */
  function ArraySize(u: Setup, env: seq<string>): nat {
    |env| + (if u.fd != -1 then 1 else 0) + 2
  }

  lemma {:induction false} KeptSame(u: Setup, env: seq<string>, seenP: bool, seenF: bool)
    requires CountP(u, env) <= (if seenP then 0 else 1) && CountF(u, env) <= (if seenF then 0 else 1)
    ensures Kept(u, env, seenP, seenF) == env
  {
    hide IsPreload, IsFd;
    if env != [] {
      NotBoth(u, env[0]);
      KeptSame(u, env[1..], seenP || IsPreload(u, env[0]), seenF || IsFd(u, env[0]));
      assert env == [env[0]] + env[1..];
    }
  }

  /** A good environment stays as it is; applying the change twice therefore
      equals applying it once. */
  lemma {:induction false} Idempotent(u: Setup, env: seq<string>)
    requires GoodSetup(u)
    ensures Good(u, env) ==> Result(u, env) == env
    ensures Result(u, Result(u, env)) == Result(u, env)
  {
    if Good(u, env) {
      GoodStays(u, env);
    }
    ResultIsGood(u, env);
    GoodStays(u, Result(u, env));
  }

  lemma {:induction false} GoodStays(u: Setup, env: seq<string>)
    requires GoodSetup(u) && Good(u, env)
    ensures Result(u, env) == env
  {
    NoFd(u, env);
    KeptSame(u, env, false, false);
    forall i | 0 <= i < |env| ensures Fixed(u, env[i]) == env[i] {
      FixedKind(u, env[i]);
    }
    hide GoodEntry, Kept, CountP, CountF, Fixed;
    assert AllFixed(u, env) == env;
    assert env + [] == env;
  }

  // ---- the loop ----

  /** The entries copied so far: together with what is still to be copied they
      are the kept ones, and the saved positions are those of the entries. */
  ghost predicate Copied(u: Setup, env: seq<string>, rest: seq<string>, out: seq<string>, p: Option<nat>, f: Option<nat>) {
    && out + Kept(u, rest, p.Some?, f.Some?) == Kept(u, env, false, false)
    && (p.Some? ==> p.value < |out| && IsPreload(u, out[p.value]))
    && (f.Some? ==> f.value < |out| && IsFd(u, out[f.value]))
    && (p.None? ==> CountP(u, out) == 0) && (f.None? ==> CountF(u, out) == 0)
  }

  lemma {:induction false} CopyOne(u: Setup, env: seq<string>, rest: seq<string>, out: seq<string>, p: Option<nat>, f: Option<nat>)
    requires Copied(u, env, rest, out, p, f) && rest != []
    ensures var e := rest[0];
            if (IsPreload(u, e) && p.Some?) || (IsFd(u, e) && f.Some?) then Copied(u, env, rest[1..], out, p, f)
            else Copied(u, env, rest[1..], out + [e], if IsPreload(u, e) then Some(|out|) else p,
                        if IsFd(u, e) then Some(|out|) else f)
  {
    var e := rest[0];
    NotBoth(u, e);
    OneEntry(u, e);
    ConcatFacts(u, out, [e]);
    KeptOne(u, rest, out, p.Some?, f.Some?);
    hide IsPreload, IsFd, CountP, CountF, Kept;
  }

  lemma {:induction false} KeptOne(u: Setup, rest: seq<string>, out: seq<string>, seenP: bool, seenF: bool)
    requires rest != []
    ensures var e := rest[0]; var k := Kept(u, rest[1..], seenP || IsPreload(u, e), seenF || IsFd(u, e));
            out + Kept(u, rest, seenP, seenF) ==
            if (IsPreload(u, e) && seenP) || (IsFd(u, e) && seenF) then out + k else (out + [e]) + k
  {
    var e := rest[0];
    NotBoth(u, e);
    hide IsPreload, IsFd;
    var k := Kept(u, rest[1..], seenP || IsPreload(u, e), seenF || IsFd(u, e));
    assert [] + k == k && out + ([e] + k) == (out + [e]) + k;
  }

  lemma {:induction false} OnlyPreload(u: Setup, s: seq<string>, k: nat, j: nat)
    requires CountP(u, s) <= 1 && k < |s| && j < |s| && IsPreload(u, s[k]) && IsPreload(u, s[j])
    ensures k == j
  {
    hide IsPreload;
    if k > 0 && j > 0 {
      OnlyPreload(u, s[1..], k - 1, j - 1);
    } else if k != j {
      SomePreload(u, s[1..], if k > 0 then k - 1 else j - 1);
    }
  }

  lemma {:induction false} SomePreload(u: Setup, s: seq<string>, k: nat)
    requires k < |s| && IsPreload(u, s[k])
    ensures CountP(u, s) > 0
  {
    if k > 0 {
      SomePreload(u, s[1..], k - 1);
    }
  }

  lemma {:induction false} OnlyFd(u: Setup, s: seq<string>, k: nat, j: nat)
    requires CountF(u, s) <= 1 && k < |s| && j < |s| && IsFd(u, s[k]) && IsFd(u, s[j])
    ensures k == j
  {
    hide IsFd;
    if k > 0 && j > 0 {
      OnlyFd(u, s[1..], k - 1, j - 1);
    } else if k != j {
      SomeFd(u, s[1..], if k > 0 then k - 1 else j - 1);
    }
  }

  lemma {:induction false} SomeFd(u: Setup, s: seq<string>, k: nat)
    requires k < |s| && IsFd(u, s[k])
    ensures CountF(u, s) > 0
  {
    if k > 0 {
      SomeFd(u, s[1..], k - 1);
    }
  }

  lemma {:induction false} NoneOf(u: Setup, s: seq<string>, k: nat)
    requires k < |s|
    ensures CountP(u, s) == 0 ==> !IsPreload(u, s[k])
    ensures CountF(u, s) == 0 ==> !IsFd(u, s[k])
  {
    if k > 0 {
      NoneOf(u, s[1..], k - 1);
    }
  }

  function At(s: seq<string>, p: Option<nat>, e: string): seq<string>
    requires p.Some? ==> p.value < |s|
  {
    if p.Some? then s[p.value := e] else s
  }

  /** The saved positions are those of the only entries of their kind. */
  lemma {:induction false} SavedPositions(u: Setup, env: seq<string>, out: seq<string>, p: Option<nat>, f: Option<nat>)
    requires Copied(u, env, [], out, p, f)
    ensures out == Kept(u, env, false, false)
    ensures p.Some? <==> CountP(u, env) > 0
    ensures f.Some? <==> CountF(u, env) > 0
    ensures forall i: nat :: i < |out| ==> (IsPreload(u, out[i]) <==> p == Some(i)) && (IsFd(u, out[i]) <==> f == Some(i))
  {
    assert out + [] == out;
    KeptFacts(u, env, false, false);
    hide IsPreload, IsFd, Kept;
    if p.Some? { SomePreload(u, out, p.value); }
    if f.Some? { SomeFd(u, out, f.value); }
    forall i: nat | i < |out| ensures (IsPreload(u, out[i]) <==> p == Some(i)) && (IsFd(u, out[i]) <==> f == Some(i)) {
      NoneOf(u, out, i);
      if p.Some? && IsPreload(u, out[i]) { OnlyPreload(u, out, p.value, i); }
      if f.Some? && IsFd(u, out[i]) { OnlyFd(u, out, f.value, i); }
    }
  }

  /** Fixing the two saved positions fixes every entry. */
  lemma {:induction false} TwoFixes(u: Setup, env: seq<string>, out: seq<string>, p: Option<nat>, f: Option<nat>)
    requires Copied(u, env, [], out, p, f)
    ensures var one := At(out, p, if p.Some? then FixedPreload(u, out[p.value]) else "");
            At(one, f, if f.Some? then FixedFd(u, out[f.value]) else "") == AllFixed(u, out)
    ensures out == Kept(u, env, false, false)
    ensures p.Some? <==> CountP(u, env) > 0
    ensures f.Some? <==> CountF(u, env) > 0
  {
    SavedPositions(u, env, out, p, f);
    var one := At(out, p, if p.Some? then FixedPreload(u, out[p.value]) else "");
    var two := At(one, f, if f.Some? then FixedFd(u, out[f.value]) else "");
    assert p.Some? && f.Some? ==> p != f by { if p.Some? { NotBoth(u, out[p.value]); } }
    hide IsPreload, IsFd, Kept, CountP, CountF, FixedPreload, FixedFd, Copied;
    forall i: nat | i < |out| ensures two[i] == Fixed(u, out[i]) {
      assert (IsPreload(u, out[i]) <==> p == Some(i)) && (IsFd(u, out[i]) <==> f == Some(i));
    }
  }

  /** What the copying loop leaves behind. */
  datatype Copy = Copy(n: nat, preloadPtr: Option<nat>, interceptPtr: Option<nat>, dsoPresent: bool, fdPresent: bool)

  ghost predicate CopyOk(u: Setup, env: seq<string>, rest: seq<string>, out: seq<string>, c: Copy) {
    && |out| == c.n && Copied(u, env, rest, out, c.preloadPtr, c.interceptPtr)
    && c.dsoPresent == (c.preloadPtr.Some? && DsoFirst(u, PreloadValue(u, out[c.preloadPtr.value])))
    && c.fdPresent == (c.interceptPtr.Some? && RightFd(u, out[c.interceptPtr.value]))
  }

  /** What one turn of the loop makes of the positions and flags. */
  function Turn(u: Setup, c: Copy, e: string): (d: Copy)
  {
    if IsPreload(u, e) then
      if c.preloadPtr.Some? then c
      else c.(n := c.n + 1, preloadPtr := Some(c.n), dsoPresent := DsoFirst(u, PreloadValue(u, e)))
    else if IsFd(u, e) then
      if c.interceptPtr.Some? then c else c.(n := c.n + 1, interceptPtr := Some(c.n), fdPresent := RightFd(u, e))
    else c.(n := c.n + 1)
  }

  lemma {:induction false} TurnOk(u: Setup, env: seq<string>, rest: seq<string>, out: seq<string>, c: Copy)
    requires CopyOk(u, env, rest, out, c) && rest != []
    ensures var d := Turn(u, c, rest[0]);
            CopyOk(u, env, rest[1..], if d.n == c.n then out else out + [rest[0]], d)
  {
    CopyOne(u, env, rest, out, c.preloadPtr, c.interceptPtr);
    NotBoth(u, rest[0]);
    hide Kept, CountP, CountF, DsoFirst;
  }

  /** The loop of `sudo_preload_dso_alloc` */
  method CopyEntries(u: Setup, env: seq<string>, nenvp: array<string>) returns (c: Copy)
    requires |env| <= nenvp.Length
    modifies nenvp
    ensures c.n <= |env| && CopyOk(u, env, [], nenvp[..c.n], c)
  {
    c := Copy(0, None, None, false, false);
    CopyStarts(u, env);
    hide CopyOk, Turn;
    ghost var rest, out := env, [];
    for i := 0 to |env|
      invariant c.n <= i && rest == env[i..] && out == nenvp[..c.n] && CopyOk(u, env, rest, out, c)
    {
      TurnOk(u, env, rest, out, c);
      TurnLength(u, c, env[i]);
      var d := Turn(u, c, env[i]);
      if d.n > c.n {
        nenvp[c.n] := env[i];
        out := out + [env[i]];
      }
      c := d;
      rest := rest[1..];
    }
  }

  lemma {:induction false} CopyStarts(u: Setup, env: seq<string>)
    ensures CopyOk(u, env, env, [], Copy(0, None, None, false, false))
  {
    assert [] + Kept(u, env, false, false) == Kept(u, env, false, false);
  }

  lemma {:induction false} TurnLength(u: Setup, c: Copy, e: string)
    ensures c.n <= Turn(u, c, e).n <= c.n + 1
  {
  }

  /** The preload entry written after the loop, in place or at the end. */
  function WithPreload(u: Setup, out: seq<string>, c: Copy): seq<string>
    requires c.preloadPtr.Some? ==> c.preloadPtr.value < |out| && IsPreload(u, out[c.preloadPtr.value])
  {
    if c.dsoPresent then out
    else if c.preloadPtr.None? then out + [NewPreload(u)]
    else out[c.preloadPtr.value := u.preloadVar + "=" + u.dso + [u.delim] + PreloadValue(u, out[c.preloadPtr.value])]
  }

  /** The descriptor entry written then. */
  function WithFd(u: Setup, out: seq<string>, c: Copy): seq<string>
    requires c.interceptPtr.Some? ==> c.interceptPtr.value < |out|
  {
    if c.fdPresent || u.fd == -1 then out
    else if c.interceptPtr.Some? then out[c.interceptPtr.value := NewFd(u)]
    else out + [NewFd(u)]
  }

  lemma {:induction false} CopyPositions(u: Setup, env: seq<string>, out: seq<string>, c: Copy)
    requires CopyOk(u, env, [], out, c)
    ensures |out| == c.n
    ensures c.preloadPtr.Some? ==> c.preloadPtr.value < c.n && IsPreload(u, out[c.preloadPtr.value])
    ensures c.interceptPtr.Some? ==> c.interceptPtr.value < c.n
    ensures c.dsoPresent ==> c.preloadPtr.Some?
    ensures c.fdPresent ==> c.interceptPtr.Some?
  {
  }

  /** The preload entry afterwards is the fixed one, or a new one. */
  lemma {:induction false} PreloadDone(u: Setup, out: seq<string>, c: Copy)
    requires c.preloadPtr.Some? ==> c.preloadPtr.value < |out| && IsPreload(u, out[c.preloadPtr.value])
    requires c.dsoPresent == (c.preloadPtr.Some? && DsoFirst(u, PreloadValue(u, out[c.preloadPtr.value])))
    ensures var p := c.preloadPtr; var added: seq<string> := if p.None? then [NewPreload(u)] else [];
            WithPreload(u, out, c) == At(out, p, if p.Some? then FixedPreload(u, out[p.value]) else "") + added
  {
    hide DsoFirst, IsPreload, NewPreload;
    if c.preloadPtr.Some? {
      var k := c.preloadPtr.value;
      assert c.dsoPresent ==> out[k := out[k]] == out;
      assert out[k := FixedPreload(u, out[k])] + [] == out[k := FixedPreload(u, out[k])];
    }
  }

  /** And so is the descriptor entry, in front of what was added before. */
  lemma {:induction false} FdDone(u: Setup, one: seq<string>, added: seq<string>, c: Copy)
    requires c.interceptPtr.Some? ==> c.interceptPtr.value < |one| && IsFd(u, one[c.interceptPtr.value])
    requires c.fdPresent == (c.interceptPtr.Some? && RightFd(u, one[c.interceptPtr.value]))
    ensures var f := c.interceptPtr; var more: seq<string> := if u.fd == -1 || f.Some? then [] else [NewFd(u)];
            WithFd(u, one + added, c) == At(one, f, if f.Some? then FixedFd(u, one[f.value]) else "") + (added + more)
  {
    assert c.interceptPtr.Some? ==> u.fd != -1;
    hide IsFd, RightFd, NewFd;
    assert added + [] == added;
    if c.interceptPtr.Some? {
      var k := c.interceptPtr.value;
      assert c.fdPresent ==> one[k := one[k]] == one;
      assert (one + added)[k := NewFd(u)] == one[k := NewFd(u)] + added;
    } else {
      assert (one + added) + [NewFd(u)] == one + (added + [NewFd(u)]);
    }
  }

  lemma {:induction false} FinishedIsResult(u: Setup, env: seq<string>, out: seq<string>, c: Copy)
    requires CopyOk(u, env, [], out, c)
    ensures WithFd(u, WithPreload(u, out, c), c) == Result(u, env)
  {
    var p, f := c.preloadPtr, c.interceptPtr;
    TwoFixes(u, env, out, p, f);
    NoFd(u, env);
    var one := At(out, p, if p.Some? then FixedPreload(u, out[p.value]) else "");
    var added: seq<string> := if p.None? then [NewPreload(u)] else [];
    if p.Some? {
      NotBoth(u, out[p.value]);
    }
    assert f.Some? ==> one[f.value] == out[f.value];
    hide AllFixed, CountP, CountF, Kept, DsoFirst, RightFd, FixedFd, FixedPreload, NewFd, NewPreload, IsFd, IsPreload, Copied;
    PreloadDone(u, out, c);
    hide WithPreload, WithFd;
    FdDone(u, one, added, c);
  }

  method PutPreload(u: Setup, nenvp: array<string>, c: Copy) returns (n: nat)
    requires c.n < nenvp.Length && (c.dsoPresent ==> c.preloadPtr.Some?)
    requires c.preloadPtr.Some? ==> c.preloadPtr.value < c.n && IsPreload(u, nenvp[c.preloadPtr.value])
    modifies nenvp
    ensures c.n <= n <= nenvp.Length && nenvp[..n] == WithPreload(u, old(nenvp[..c.n]), c)
  {
    n := c.n;
    if !c.dsoPresent {
      if c.preloadPtr.None? {
        nenvp[n] := NewPreload(u);
        n := n + 1;
      } else {
        var k := c.preloadPtr.value;
        nenvp[k] := u.preloadVar + "=" + u.dso + [u.delim] + PreloadValue(u, nenvp[k]);
      }
    }
  }

  method PutFd(u: Setup, nenvp: array<string>, c: Copy, n0: nat) returns (n: nat)
    requires c.n <= n0 <= nenvp.Length && (c.interceptPtr.Some? ==> c.interceptPtr.value < c.n)
    requires |WithFd(u, nenvp[..n0], c)| < nenvp.Length
    modifies nenvp
    ensures n < nenvp.Length && nenvp[..n] == WithFd(u, old(nenvp[..n0]), c)
  {
    n := n0;
    if !c.fdPresent && u.fd != -1 {
      if c.interceptPtr.Some? {
        nenvp[c.interceptPtr.value] := NewFd(u);
      } else {
        nenvp[n] := NewFd(u);
        n := n + 1;
      }
    }
  }

  /** `sudo_preload_dso_alloc`: the array allocated up front has room for the
      new environment and its terminator. */
  method DsoAlloc(u: Setup, env: seq<string>) returns (nenvp: array<string>, n: nat)
    requires GoodSetup(u)
    ensures nenvp.Length == ArraySize(u, env) && n < nenvp.Length && nenvp[..n] == Result(u, env)
  {
    nenvp := new string[ArraySize(u, env)](_ => "");
    var c := CopyEntries(u, env, nenvp);
    FinishedIsResult(u, env, nenvp[..c.n], c);
    ResultIsGood(u, env);
    CopyPositions(u, env, nenvp[..c.n], c);
    hide CopyOk, Result, Good, GoodSetup, WithPreload, WithFd;
    n := PutPreload(u, nenvp, c);
    n := PutFd(u, nenvp, c, n);
  }

  // ---- the entries as they are formatted ----

  /** Text without an escape is copied. */
  lemma {:induction false} LiteralText(text: string, rest: string, args: seq<Arg>)
    requires '%' !in text && Matches(rest, args)
    ensures Matches(text + rest, args) && Formatted(text + rest, args) == text + Formatted(rest, args)
  {
    hide Matches, Formatted;
    if text == [] {
      assert text + rest == rest;
    } else {
      var c, more := text[0], text[1..] + rest;
      LiteralText(text[1..], rest, args);
      LiteralChar(c, more, args);
      assert text + rest == [c] + more;
      assert [c] + (text[1..] + Formatted(rest, args)) == text + Formatted(rest, args);
    }
  }

  lemma {:induction false} LiteralChar(c: char, rest: string, args: seq<Arg>)
    requires c != '%' && Matches(rest, args)
    ensures Matches([c] + rest, args) && Formatted([c] + rest, args) == [c] + Formatted(rest, args)
  {
    var fmt := [c] + rest;
    assert fmt[0] == c && fmt[1..] == rest && args[0..] == args;
    assert First(fmt, args) == Piece([c], 1, 0);
  }

  lemma {:induction false} StringText(s: string, rest: string, args: seq<Arg>)
    requires Matches(rest, args)
    ensures var more := [Str(Some(s))] + args;
            Matches("%s" + rest, more) && Formatted("%s" + rest, more) == s + Formatted(rest, args)
  {
    var fmt, more := "%s" + rest, [Str(Some(s))] + args;
    assert fmt[2..] == rest && more[1..] == args;
    assert First(fmt, more) == Piece(s, 2, 1);
  }

  lemma {:induction false} CharText(c: char, rest: string, args: seq<Arg>)
    requires Matches(rest, args)
    ensures var more := [Chr(c)] + args;
            Matches("%c" + rest, more) && Formatted("%c" + rest, more) == [c] + Formatted(rest, args)
  {
    var fmt, more := "%c" + rest, [Chr(c)] + args;
    assert fmt[2..] == rest && more[1..] == args;
    assert First(fmt, more) == Piece([c], 2, 1);
  }

  /** "%s=" followed by more */
  lemma {:induction false} VariableText(name: string, rest: string, args: seq<Arg>)
    requires Matches(rest, args)
    ensures var more := [Str(Some(name))] + args;
            Matches("%s=" + rest, more) && Formatted("%s=" + rest, more) == name + "=" + Formatted(rest, args)
  {
    hide Matches, Formatted;
    LiteralText("=", rest, args);
    StringText(name, "=" + rest, args);
    assert "%s" + ("=" + rest) == "%s=" + rest;
    assert name + ("=" + Formatted(rest, args)) == name + "=" + Formatted(rest, args);
  }

  /** "%s%c%s" */
  lemma {:induction false} ListText(first: string, delim: char, others: string)
    ensures var args := [Str(Some(first))] + ([Chr(delim)] + ([Str(Some(others))] + []));
            Matches("%s%c%s", args) && Formatted("%s%c%s", args) == first + [delim] + others
  {
    assert Matches("", []) && Formatted("", []) == "";
    StringText(others, "", []);
    assert "%s" + "" == "%s" && others + "" == others;
    CharText(delim, "%s", [Str(Some(others))] + []);
    assert "%c" + "%s" == "%c%s";
    StringText(first, "%c%s", [Chr(delim)] + ([Str(Some(others))] + []));
    assert "%s" + "%c%s" == "%s%c%s";
    assert first + ([delim] + others) == first + [delim] + others;
  }

  /** The entries written are those the formatter makes of the formats and
      arguments it is called with. */
  lemma {:induction false} EntriesAreFormatted(u: Setup, e: string)
    requires -INT_MAX - 1 <= u.fd <= INT_MAX
    ensures var fmt := if u.initial.Some? then "%s=%s%c%s" else "%s=%s";
            var args := [Str(Some(u.preloadVar)), Str(Some(u.dso))]
                        + if u.initial.Some? then [Chr(u.delim), Str(u.initial)] else [];
            Matches(fmt, args) && NewPreload(u) == Formatted(fmt, args)
    ensures IsPreload(u, e) && !DsoFirst(u, PreloadValue(u, e)) ==>
              var args := [Str(Some(u.preloadVar)), Str(Some(u.dso)), Chr(u.delim), Str(Some(PreloadValue(u, e)))];
              Matches("%s=%s%c%s", args) && FixedPreload(u, e) == Formatted("%s=%s%c%s", args)
    ensures Matches("SUDO_INTERCEPT_FD=%d", [Num(u.fd)]) && NewFd(u) == Formatted("SUDO_INTERCEPT_FD=%d", [Num(u.fd)])
  {
    NewPreloadText(u);
    NewFdText(u);
    ListFormat();
    if IsPreload(u, e) {
      PrefixedText(u, PreloadValue(u, e));
    }
    hide Matches, Formatted, IsPreload;
  }

  lemma {:induction false} FourArgs(a: Arg, b: Arg, c: Arg, d: Arg)
    ensures [a] + ([b] + ([c] + ([d] + []))) == [a, b, c, d]
  {
  }

  lemma {:induction false} Regrouped(a: string, b: string, c: string, d: string)
    ensures a + (b + c + d) == a + b + c + d == a + b + (c + d)
  {
  }

  /** "%s=%s%c%s" */
  const LIST_FORMAT := "%s=" + "%s%c%s"

  lemma {:induction false} ListFormat()
    ensures LIST_FORMAT == "%s=%s%c%s"
  {
  }

  lemma {:induction false} PrefixedText(u: Setup, others: string)
    ensures var args := [Str(Some(u.preloadVar)), Str(Some(u.dso)), Chr(u.delim), Str(Some(others))];
            Matches(LIST_FORMAT, args) && Formatted(LIST_FORMAT, args) == u.preloadVar + "=" + u.dso + [u.delim] + others
  {
    hide Matches, Formatted;
    ListText(u.dso, u.delim, others);
    VariableText(u.preloadVar, "%s%c%s", [Str(Some(u.dso))] + ([Chr(u.delim)] + ([Str(Some(others))] + [])));
    FourArgs(Str(Some(u.preloadVar)), Str(Some(u.dso)), Chr(u.delim), Str(Some(others)));
    Regrouped(u.preloadVar + "=", u.dso, [u.delim], others);
  }

  lemma {:induction false} NewPreloadText(u: Setup)
    ensures var fmt := if u.initial.Some? then "%s=%s%c%s" else "%s=%s";
            var args := [Str(Some(u.preloadVar)), Str(Some(u.dso))]
                        + if u.initial.Some? then [Chr(u.delim), Str(u.initial)] else [];
            Matches(fmt, args) && NewPreload(u) == Formatted(fmt, args)
  {
    var names := [Str(Some(u.preloadVar)), Str(Some(u.dso))];
    if u.initial.Some? {
      PrefixedText(u, u.initial.value);
      ListFormat();
      hide Matches, Formatted;
      assert names + [Chr(u.delim), Str(u.initial)] == [Str(Some(u.preloadVar)), Str(Some(u.dso)), Chr(u.delim), Str(Some(u.initial.value))];
      Regrouped(u.preloadVar + "=", u.dso, [u.delim], u.initial.value);
    } else {
      assert Matches("", []) && Formatted("", []) == "";
      StringText(u.dso, "", []);
      assert "%s" + "" == "%s" && u.dso + "" == u.dso;
      VariableText(u.preloadVar, "%s", [Str(Some(u.dso))] + []);
      hide Matches, Formatted;
      assert "%s=" + "%s" == "%s=%s" && [Str(Some(u.preloadVar))] + ([Str(Some(u.dso))] + []) == names + [];
      assert u.preloadVar + "=" + u.dso + [] == u.preloadVar + "=" + u.dso;
    }
  }

  lemma {:induction false} NewFdText(u: Setup)
    requires -INT_MAX - 1 <= u.fd <= INT_MAX
    ensures Matches("SUDO_INTERCEPT_FD=%d", [Num(u.fd)]) && NewFd(u) == Formatted("SUDO_INTERCEPT_FD=%d", [Num(u.fd)])
  {
    var args := [Num(u.fd)];
    assert "%d"[2..] == "" && args[1..] == [];
    assert Matches("", []) && Formatted("", []) == "";
    assert First("%d", args) == Piece(SignedDecimal(u.fd), 2, 1);
    assert Matches("%d", args) && Formatted("%d", args) == SignedDecimal(u.fd) + "" == SignedDecimal(u.fd);
    LiteralText(FD_PREFIX, "%d", args);
    assert FD_PREFIX + "%d" == "SUDO_INTERCEPT_FD=%d";
  }
}
