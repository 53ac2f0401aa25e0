/** The seccomp filter that stops a command at execve(2) and execveat(2): a
    classic BPF program, its interpreter, and what it is meant to decide. */
module Seccomp {
  import opened Options

  datatype Action = Trace | TraceCompat | Allow

  datatype Insn =
    | LoadArch
    | LoadNr
    | JumpEq(k: nat, onTrue: nat, onFalse: nat)
    | Ret(action: Action)

  /** An architecture and its two system call numbers. */
  datatype Abi = Abi(arch: nat, execve: nat, execveat: nat)

  /** What the preprocessor sees: further architectures, and x32 numbers. */
  datatype Config = Config(native: Abi, x32: Option<(nat, nat)>, compat: Option<Abi>, compat2: Option<Abi>)

  /** The instructions for a compat architecture: `done` is the distance from
      the last test to the final ALLOW. */
  function CompatBlock(abi: Abi, done: nat): seq<Insn> {
    [JumpEq(abi.arch, 0, 4), LoadNr, JumpEq(abi.execve, 1, 0), JumpEq(abi.execveat, 0, done), Ret(TraceCompat)]
  }

  function NativeBlock(abi: Abi, x32: Option<(nat, nat)>): seq<Insn> {
    [JumpEq(abi.arch, 0, 6), LoadNr]
    + (if x32.Some? then [JumpEq(x32.value.0, 3, 0), JumpEq(x32.value.1, 2, 0)]
       else [JumpEq(abi.execve, 3, 0), JumpEq(abi.execveat, 2, 3)])
    + [JumpEq(abi.execve, 1, 0), JumpEq(abi.execveat, 0, 1), Ret(Trace), Ret(Allow)]
  }

  function Optionally(abi: Option<Abi>, done: nat): seq<Insn> {
    if abi.Some? then CompatBlock(abi.value, done) else []
  }

  /** The array in `set_exec_filter` */
  function Filter(c: Config): seq<Insn> {
    [LoadArch] + Optionally(c.compat2, 13) + Optionally(c.compat, 8) + NativeBlock(c.native, c.x32)
  }

  /** Runs a program; None is a jump out of the program, which the kernel
      does not accept.  Jumps only go forward. */
  function Interp(prog: seq<Insn>, pc: nat, acc: nat, arch: nat, nr: nat): Option<Action>
    decreases |prog| - pc
  {
    if pc >= |prog| then None
    else match prog[pc]
         case LoadArch => Interp(prog, pc + 1, arch, arch, nr)
         case LoadNr => Interp(prog, pc + 1, nr, arch, nr)
         case JumpEq(k, onTrue, onFalse) =>
           if acc == k then Interp(prog, pc + 1 + onTrue, acc, arch, nr)
           else Interp(prog, pc + 1 + onFalse, acc, arch, nr)
         case Ret(action) => Some(action)
  }

  predicate Calls(abi: Abi, arch: nat, nr: nat) {
    arch == abi.arch && (nr == abi.execve || nr == abi.execveat)
  }

  /** TRACE for execve and execveat of any known architecture, with the compat
      flag exactly for the compat architectures, and ALLOW for all else. */
  function Wanted(c: Config, arch: nat, nr: nat): Action {
    if (c.compat.Some? && Calls(c.compat.value, arch, nr)) || (c.compat2.Some? && Calls(c.compat2.value, arch, nr))
    then TraceCompat
    else if Calls(c.native, arch, nr)
            || (c.x32.Some? && Calls(Abi(c.native.arch, c.x32.value.0, c.x32.value.1), arch, nr))
    then Trace
    else Allow
  }

  /** The architectures of a configuration are different ones. */
  predicate Separate(c: Config) {
    && (c.compat.Some? ==> c.compat.value.arch != c.native.arch)
    && (c.compat2.Some? ==> c.compat2.value.arch != c.native.arch)
    && (c.compat.Some? && c.compat2.Some? ==> c.compat.value.arch != c.compat2.value.arch)
  }

  lemma {:induction false} RunCompat(prog: seq<Insn>, pc: nat, abi: Abi, done: nat, arch: nat, nr: nat)
    requires pc + 5 <= |prog| && prog[pc..pc + 5] == CompatBlock(abi, done)
    ensures Interp(prog, pc, arch, arch, nr) ==
            if arch != abi.arch then Interp(prog, pc + 5, arch, arch, nr)
            else if Calls(abi, arch, nr) then Some(TraceCompat)
            else Interp(prog, pc + 4 + done, nr, arch, nr)
  {
    var block := prog[pc..pc + 5];
    assert prog[pc] == block[0] && prog[pc + 1] == block[1] && prog[pc + 2] == block[2];
    assert prog[pc + 3] == block[3] && prog[pc + 4] == block[4];
    var at2 := Interp(prog, pc + 2, nr, arch, nr);
    assert Interp(prog, pc + 4, nr, arch, nr) == Some(TraceCompat);
    assert Interp(prog, pc + 3, nr, arch, nr)
        == if nr == abi.execveat then Some(TraceCompat) else Interp(prog, pc + 4 + done, nr, arch, nr);
    assert at2 == if nr == abi.execve then Some(TraceCompat) else Interp(prog, pc + 3, nr, arch, nr);
    assert Interp(prog, pc + 1, arch, arch, nr) == at2;
  }

  lemma {:induction false} RunNative(prog: seq<Insn>, pc: nat, abi: Abi, x32: Option<(nat, nat)>, arch: nat, nr: nat)
    requires pc + 8 == |prog| && prog[pc..] == NativeBlock(abi, x32)
    ensures Interp(prog, pc, arch, arch, nr) ==
            Some(if Calls(abi, arch, nr) || (x32.Some? && Calls(Abi(abi.arch, x32.value.0, x32.value.1), arch, nr))
                 then Trace else Allow)
    ensures Interp(prog, pc + 7, nr, arch, nr) == Some(Allow)
  {
    var block := prog[pc..];
    assert prog[pc] == block[0] && prog[pc + 1] == block[1] && prog[pc + 2] == block[2] && prog[pc + 3] == block[3];
    assert prog[pc + 4] == block[4] && prog[pc + 5] == block[5] && prog[pc + 6] == block[6] && prog[pc + 7] == block[7];
    assert Interp(prog, pc + 7, arch, arch, nr) == Interp(prog, pc + 7, nr, arch, nr) == Some(Allow);
    assert Interp(prog, pc + 6, nr, arch, nr) == Some(Trace);
    assert Interp(prog, pc + 5, nr, arch, nr) == Some(if nr == abi.execveat then Trace else Allow);
    assert Interp(prog, pc + 4, nr, arch, nr) == Some(if nr == abi.execve || nr == abi.execveat then Trace else Allow);
    var at3, at2 := Interp(prog, pc + 3, nr, arch, nr), Interp(prog, pc + 2, nr, arch, nr);
    if x32.Some? {
      assert at3 == if nr == x32.value.1 then Some(Trace) else Interp(prog, pc + 4, nr, arch, nr);
      assert at2 == if nr == x32.value.0 then Some(Trace) else at3;
    } else {
      assert at3 == Some(if nr == abi.execveat then Trace else Allow);
      assert at2 == if nr == abi.execve then Some(Trace) else at3;
    }
    assert Interp(prog, pc + 1, arch, arch, nr) == at2;
  }

  /** What the filter computes, block by block. */
  lemma {:induction false} RunFilter(c: Config, arch: nat, nr: nat)
    requires Separate(c)
    ensures var prog := Filter(c); var r := Interp(prog, 0, 0, arch, nr);
            if c.compat.None? && c.compat2.Some? && arch == c.compat2.value.arch && !Calls(c.compat2.value, arch, nr)
            then r == None
            else r == Some(Wanted(c, arch, nr))
  {
    var prog := Filter(c);
    var a := |Optionally(c.compat2, 13)|;
    var b := |Optionally(c.compat, 8)|;
    assert Interp(prog, 0, 0, arch, nr) == Interp(prog, 1, arch, arch, nr);
    assert prog[1 + a + b..] == NativeBlock(c.native, c.x32);
    RunNative(prog, 1 + a + b, c.native, c.x32, arch, nr);
    if c.compat.Some? {
      assert prog[1 + a..1 + a + 5] == CompatBlock(c.compat.value, 8);
      RunCompat(prog, 1 + a, c.compat.value, 8, arch, nr);
    }
    if c.compat2.Some? {
      assert prog[1..1 + 5] == CompatBlock(c.compat2.value, 13);
      RunCompat(prog, 1, c.compat2.value, 13, arch, nr);
    }
  }

  /** The filter decides as wanted for every architecture and system call
      number exactly when compat2 is only configured beside compat. */
  lemma {:induction false} FilterIsRightIff(c: Config)
    requires Separate(c)
    ensures (forall arch: nat, nr: nat :: Interp(Filter(c), 0, 0, arch, nr) == Some(Wanted(c, arch, nr)))
            <==> (c.compat2.Some? ==> c.compat.Some?)
  {
    if c.compat2.Some? && c.compat.None? {
      var abi := c.compat2.value;
      var nr := abi.execve + abi.execveat + 1;
      RunFilter(c, abi.arch, nr);
    } else {
      forall arch: nat, nr: nat ensures Interp(Filter(c), 0, 0, arch, nr) == Some(Wanted(c, arch, nr)) {
        RunFilter(c, arch, nr);
      }
    }
  }
}
