/** Where a rewritten execve(2) call's arguments go: below the tracee's stack
    pointer, addresses first, then the strings, then the path name. */
module ExecLayouts {
  import opened IoLogs
  import opened Options
  import opened Tracees
  import opened ExecVectors
  import opened ExecReads
  import ArgBuffers

  /** WORDALIGN */
  function WordAlign(n: nat, compat: bool): (m: nat)
    ensures n <= m < n + Off(compat, 1) && m % (if compat then 4 else 8) == 0
  {
    if compat then (n + 3) / 4 * 4 else (n + 7) / 8 * 8
  }

  /** What changed: the argument vector and the path are each optional. */
  datatype Change = Change(argv: Option<Strings>, path: Option<seq<Byte>>)

  function StringBytes(c: Change): nat {
    (if c.argv.Some? then Size(c.argv.value, |c.argv.value|) else 0) + (if c.path.Some? then |c.path.value| + 1 else 0)
  }

  /** The space computed before anything is written; the room for addresses
      comes from the original argument count. */
  function Space(compat: bool, oldArgc: nat, c: Change): nat {
    (if c.argv.Some? then PointerRoom(compat, oldArgc) else 0) + StringBytes(c)
  }

  /** The bytes that carry meaning; these use the new argument count. */
  function Used(compat: bool, c: Change): nat {
    (if c.argv.Some? then PointerRoom(compat, |c.argv.value|) else 0) + StringBytes(c)
  }

  /** The new arguments fit the reserved space exactly when the new vector is
      not longer than the original one. */
  lemma {:induction false} FitsIff(compat: bool, oldArgc: nat, c: Change)
    ensures Used(compat, c) <= WordAlign(Space(compat, oldArgc, c), compat)
            <==> (c.argv.Some? ==> |c.argv.value| <= oldArgc)
  {
    hide WordAlign;
    assert WordAlign(Space(compat, oldArgc, c), compat) < Space(compat, oldArgc, c) + Off(compat, 1);
  }

  /** How many words are written for n addresses and NULL. */
  function PointerWords(compat: bool, n: nat): nat {
    if compat then n / 2 + 1 else n + 1
  }

  /** These words never reach the strings behind the room for addresses.  They
      fill it, except that an odd number of compat arguments leaves one address
      free; the extra word is needed for an even number. */
  lemma {:induction false} PointerWordsFit(compat: bool, n: nat)
    ensures 8 * PointerWords(compat, n) == PointerRoom(compat, n) - if compat && n % 2 == 1 then 4 else 0
    ensures 8 * PointerWords(compat, n) <= Off(compat, n + 1) <==> !compat || n % 2 == 1
  {
    assert n == 2 * (n / 2) + n % 2;
  }

  ghost predicate GoodChange(c: Change) {
    && (c.argv.Some? ==> forall i :: 0 <= i < |c.argv.value| ==> NoNul(c.argv.value[i]))
    && (c.path.Some? ==> NoNul(c.path.value))
  }

  /** What the tracee's memory holds afterwards. */
  ghost predicate InPlace(mem: seq<Byte>, big: bool, compat: bool, sp: nat, c: Change) {
    && (c.argv.Some? ==>
          var vec := c.argv.value; VectorAt(mem, big, compat, sp, sp + PointerRoom(compat, |vec|), vec))
    && (c.path.Some? ==> StringAt(mem, PathAt(compat, sp, c), c.path.value))
  }

  function PathAt(compat: bool, sp: nat, c: Change): nat {
    sp + if c.argv.Some? then PointerRoom(compat, |c.argv.value|) + Size(c.argv.value, |c.argv.value|) else 0
  }

  lemma {:induction false} RoomOrder(compat: bool, n: nat)
    ensures Off(compat, n + 1) <= PointerRoom(compat, n)
  {
  }

  /** What is in place afterwards is what a reader of the tracee gets. */
  lemma {:induction false} InPlaceIsRead(mem: seq<Byte>, big: bool, compat: bool, sp: nat, c: Change)
    requires GoodChange(c) && InPlace(mem, big, compat, sp, c) && 0 < sp && sp + Used(compat, c) + 15 <= |mem| && AddressSpace(mem, compat)
    ensures c.argv.Some? ==>
              VecAt(mem, big, compat, sp) == if AllClean(c.argv.value) then Some(c.argv.value) else None
    ensures c.path.Some? ==>
              Text(mem, PathAt(compat, sp, c)) == if Clean(c.path.value) then Some(c.path.value) else None
  {
    hide VectorAt, AllClean, Clean, VecFrom, Text, Stored;
    if c.argv.Some? {
      var vec := c.argv.value;
      var strtab := sp + PointerRoom(compat, |vec|);
      ArgBuffers.WrittenIsRead(mem, big, compat, sp, strtab, vec);
    }
    if c.path.Some? {
      TextIff(mem, PathAt(compat, sp, c), c.path.value);
    }
  }

  /** Memory after the rewrite. */
  function Rewritten(mem: seq<Byte>, big: bool, compat: bool, sp: nat, c: Change): (m: seq<Byte>)
    ensures |m| == |mem|
  {
    var m := if c.argv.Some? then AfterVec(mem, big, compat, c.argv.value, sp, sp + PointerRoom(compat, |c.argv.value|)) else mem;
    if c.path.Some? then WithString(m, big, PathAt(compat, sp, c), c.path.value) else m
  }

  /** The part of `ptrace_intercept_execve` that rewrites the arguments.
      Everything lands where the registers point, and nothing below the new
      stack area changes.  The red zone, which begins 128 bytes below the stack
      pointer, stays as it was if no written word reaches it; if the vector did
      not become longer at most its first 16 bytes change. */
  method Rewrite(t: Tracee, compat: bool, stack: nat, oldArgc: nat, c: Change) returns (sp: nat, ok: bool)
    requires GoodChange(c) && 128 + WordAlign(Space(compat, oldArgc, c), compat) <= stack
    requires stack - 128 + Used(compat, c) + 15 <= |t.mem| && stack <= |t.mem| && AddressSpace(t.mem, compat)
    modifies t
    ensures ok && sp == stack - 128 - WordAlign(Space(compat, oldArgc, c), compat)
    ensures InPlace(t.mem, t.big, compat, sp, c) && t.mem == Rewritten(old(t.mem), t.big, compat, sp, c)
    ensures OnlyWithin(old(t.mem), t.mem, sp, sp + Used(compat, c) + 15)
    ensures Reach(t.big, compat, sp, c) <= stack - 128 ==> t.mem[stack - 128..] == old(t.mem)[stack - 128..]
    ensures (c.argv.Some? ==> |c.argv.value| <= oldArgc) ==> t.mem[stack - 112..] == old(t.mem)[stack - 112..]
  {
    FitsIff(compat, oldArgc, c);
    var reserved := WordAlign(Space(compat, oldArgc, c), compat);
    assert reserved < Space(compat, oldArgc, c) + Off(compat, 1);
    sp := stack - 128 - reserved;
    hide WordAlign, Space, Used, PointerRoom, OnlyWithin, InPlace, GoodChange, Rewritten, Reach, Off;
    ok := WriteAll(t, compat, sp, c);
    Survives(old(t.mem), t.mem, t.big, compat, sp, stack - 128, c);
  }

  /** What is left alone above a: everything the writes do not reach. */
  lemma {:induction false} Survives(before: seq<Byte>, mem: seq<Byte>, big: bool, compat: bool, sp: nat, a: nat, c: Change)
    requires OnlyWithin(before, mem, sp, sp + Used(compat, c) + 15) && mem == Rewritten(before, big, compat, sp, c)
    requires a + 16 <= |before|
    ensures |mem| == |before|
    ensures Reach(big, compat, sp, c) <= a ==> mem[a..] == before[a..]
    ensures sp + Used(compat, c) <= a ==> mem[a + 16..] == before[a + 16..]
  {
    hide Used, Rewritten, Reach;
    if Reach(big, compat, sp, c) <= a {
      KeptAbove(before, big, compat, sp, c, a);
    }
    if sp + Used(compat, c) <= a {
      AboveUnchanged(before, mem, sp, sp + Used(compat, c) + 15, a + 16);
    }
  }

  method WriteAll(t: Tracee, compat: bool, sp: nat, c: Change) returns (ok: bool)
    requires GoodChange(c) && sp + Used(compat, c) + 15 <= |t.mem| && AddressSpace(t.mem, compat)
    modifies t
    ensures ok && InPlace(t.mem, t.big, compat, sp, c) && t.mem == Rewritten(old(t.mem), t.big, compat, sp, c)
    ensures OnlyWithin(old(t.mem), t.mem, sp, sp + Used(compat, c) + 15)
  {
    hide Used, PointerRoom, Size, OnlyWithin, VectorAt, GoodChange, AfterVec, WithString;
    NothingChanged(t.mem, sp, sp + Used(compat, c) + 15);
    ok := true;
    if c.argv.Some? {
      ok := WriteArgv(t, compat, sp, c);
    }
    if c.path.Some? {
      ok := WritePath(t, compat, sp, c, old(t.mem));
    }
  }

  lemma {:induction false} NothingChanged(mem: seq<Byte>, addr: nat, end: nat)
    requires addr <= |mem|
    ensures OnlyWithin(mem, mem, addr, end)
  {
  }

  lemma {:induction false} AboveUnchanged(before: seq<Byte>, mem: seq<Byte>, addr: nat, end: nat, a: nat)
    requires OnlyWithin(before, mem, addr, end) && end <= a <= |mem|
    ensures |before| == |mem| && mem[a..] == before[a..]
  {
    assert mem[a..] == mem[end..][a - end..] && before[a..] == before[end..][a - end..];
  }

  lemma {:induction false} WithinWider(before: seq<Byte>, mem: seq<Byte>, addr: nat, end: nat, end': nat)
    requires OnlyWithin(before, mem, addr, end) && end <= end'
    ensures OnlyWithin(before, mem, addr, end')
  {
    if end' <= |mem| {
      AboveUnchanged(before, mem, addr, end, end');
    }
  }

  method WriteArgv(t: Tracee, compat: bool, sp: nat, c: Change) returns (ok: bool)
    requires GoodChange(c) && c.argv.Some? && sp + Used(compat, c) + 15 <= |t.mem| && AddressSpace(t.mem, compat)
    modifies t
    ensures ok && |t.mem| == |old(t.mem)|
    ensures var vec := c.argv.value; VectorAt(t.mem, t.big, compat, sp, sp + PointerRoom(compat, |vec|), vec)
    ensures t.mem == AfterVec(old(t.mem), t.big, compat, c.argv.value, sp, sp + PointerRoom(compat, |c.argv.value|))
    ensures OnlyWithin(old(t.mem), t.mem, sp, sp + Used(compat, c) + 15)
  {
    hide VectorAt, OnlyWithin, PointerRoom, AfterVec;
    var vec := c.argv.value;
    var strtab := sp + PointerRoom(compat, |vec|);
    var n := WriteVec(t, compat, vec, sp, strtab);
    ok := n.Some?;
    WithinWider(old(t.mem), t.mem, sp, strtab + Size(vec, |vec|) + 15, sp + Used(compat, c) + 15);
    SameSize(old(t.mem), t.mem, sp, sp + Used(compat, c) + 15);
  }

  lemma {:induction false} SameSize(before: seq<Byte>, mem: seq<Byte>, addr: nat, end: nat)
    requires OnlyWithin(before, mem, addr, end)
    ensures |mem| == |before|
  {
  }

  method WritePath(t: Tracee, compat: bool, sp: nat, c: Change, ghost before: seq<Byte>) returns (ok: bool)
    requires GoodChange(c) && c.path.Some? && sp + Used(compat, c) + 15 <= |t.mem|
    requires c.argv.Some? ==> VectorAt(t.mem, t.big, compat, sp, sp + PointerRoom(compat, |c.argv.value|), c.argv.value)
    requires OnlyWithin(before, t.mem, sp, sp + Used(compat, c) + 15)
    modifies t
    ensures ok && InPlace(t.mem, t.big, compat, sp, c)
    ensures t.mem == WithString(old(t.mem), t.big, PathAt(compat, sp, c), c.path.value)
    ensures OnlyWithin(before, t.mem, sp, sp + Used(compat, c) + 15)
  {
    hide VectorAt, OnlyWithin, PointerRoom, Overlay, Padded, BytesWritten;
    ghost var mem, a, n := t.mem, PathAt(compat, sp, c), BytesWritten(|c.path.value|, t.big);
    WordStarts(|c.path.value|, 0, t.big);
    var r := t.WriteString(PathAt(compat, sp, c), c.path.value);
    ok := r.Some?;
    PaddedString(mem, a, c.path.value, n);
    WithinExtends(before, mem, sp, sp + Used(compat, c) + 15, a, Padded(c.path.value, n), sp + Used(compat, c) + 15);
    if c.argv.Some? {
      VectorKept(mem, t.big, compat, sp, c.argv.value, a, Padded(c.path.value, n));
    }
  }

  lemma {:induction false} VectorKept(mem: seq<Byte>, big: bool, compat: bool, sp: nat, vec: Strings, a: nat, bytes: seq<Byte>)
    requires VectorAt(mem, big, compat, sp, sp + PointerRoom(compat, |vec|), vec)
    requires a == sp + PointerRoom(compat, |vec|) + Size(vec, |vec|) && a + |bytes| <= |mem|
    ensures VectorAt(Overlay(mem, a, bytes), big, compat, sp, sp + PointerRoom(compat, |vec|), vec)
  {
    RoomOrder(compat, |vec|);
    var strtab := sp + PointerRoom(compat, |vec|);
    assert Partly(mem, big, compat, sp, strtab, vec, |vec| + 1, |vec|);
    hide Partly, Overlay, PointerRoom, Off, Size;
    StringsKept(mem, big, compat, sp, strtab, vec, |vec| + 1, |vec|, a, bytes);
  }

  // ---- how far the writes reach ----

  function Max(a: nat, b: nat): nat {
    if a < b then b else a
  }

  /** The end of the furthest word written for the first i strings. */
  function StringsReach(big: bool, vec: Strings, strtab: nat, i: nat): (e: nat)
    requires i <= |vec|
    ensures strtab <= e
  {
    if i == 0 then strtab
    else Max(StringsReach(big, vec, strtab, i - 1), strtab + Size(vec, i - 1) + BytesWritten(|vec[i - 1]|, big))
  }

  /** The end of the furthest word written, strings and path together. */
  function Reach(big: bool, compat: bool, sp: nat, c: Change): (e: nat)
    ensures sp <= e
  {
    var e := if c.argv.Some? then StringsReach(big, c.argv.value, sp + PointerRoom(compat, |c.argv.value|), |c.argv.value|) else sp;
    if c.path.Some? then Max(e, PathAt(compat, sp, c) + BytesWritten(|c.path.value|, big)) else e
  }

  /** A byte outside what is written stays, and the last one written is NUL. */
  lemma {:induction false} PokedByte(mem: seq<Byte>, a: nat, bytes: seq<Byte>, k: nat)
    requires k < |mem|
    ensures k < a || a + |bytes| <= k ==> Poked(mem, a, bytes)[k] == mem[k]
    ensures a <= k < a + |bytes| <= |mem| ==> Poked(mem, a, bytes)[k] == bytes[k - a]
  {
  }

  lemma {:induction false} StringByte(mem: seq<Byte>, big: bool, a: nat, s: seq<Byte>, k: nat)
    requires k < |mem|
    ensures k < a || a + BytesWritten(|s|, big) <= k ==> WithString(mem, big, a, s)[k] == mem[k]
    ensures a + BytesWritten(|s|, big) == k + 1 ==> WithString(mem, big, a, s)[k] == 0
  {
    var n := BytesWritten(|s|, big);
    WordStarts(|s|, 0, big);
    hide BytesWritten, Poked;
    PokedByte(mem, a, Padded(s, n), k);
  }

  lemma {:induction false} WordByte(mem: seq<Byte>, big: bool, compat: bool, vec: Strings, addr: nat, strtab: nat, d: nat, k: nat)
    requires d <= |vec| && k < |mem| && addr + Off(compat, d) + 8 <= strtab <= k
    ensures WithWord(mem, big, compat, vec, addr, strtab, d)[k] == mem[k]
  {
    hide Enc, Poked, WordFor;
    PokedByte(mem, addr + Off(compat, d), Enc(big, WordFor(big, compat, vec, strtab, d), 8), k);
  }

  /** In the string area a turn of the loop does what its string does. */
  lemma {:induction false} EntryByte(mem: seq<Byte>, big: bool, compat: bool, vec: Strings, addr: nat, strtab: nat, i: nat, k: nat)
    requires i < |vec| && addr + PointerRoom(compat, |vec|) <= strtab <= k < |mem|
    ensures WithEntry(mem, big, compat, vec, addr, strtab, i)[k] == WithString(mem, big, strtab + Size(vec, i), vec[i])[k]
  {
    SlotArithmetic(compat, i, |vec|);
    hide WithString, WithWord, Off, PointerRoom;
    if !(compat && i % 2 == 1) {
      WordByte(WithString(mem, big, strtab + Size(vec, i), vec[i]), big, compat, vec, addr, strtab, i, k);
    }
  }

  /** After i turns a byte past the reach is as before, and the last byte
      reached is NUL. */
  lemma {:induction false} EntriesByte(mem: seq<Byte>, big: bool, compat: bool, vec: Strings, addr: nat, strtab: nat, i: nat, k: nat)
    requires i <= |vec| && addr + PointerRoom(compat, |vec|) <= strtab <= k < |mem|
    ensures StringsReach(big, vec, strtab, i) <= k ==> AfterEntries(mem, big, compat, vec, addr, strtab, i)[k] == mem[k]
    ensures i > 0 && StringsReach(big, vec, strtab, i) == k + 1 ==> AfterEntries(mem, big, compat, vec, addr, strtab, i)[k] == 0
  {
    hide BytesWritten, WithString, WithEntry, PointerRoom;
    if i > 0 {
      EntriesByte(mem, big, compat, vec, addr, strtab, i - 1, k);
      var m := AfterEntries(mem, big, compat, vec, addr, strtab, i - 1);
      EntryByte(m, big, compat, vec, addr, strtab, i - 1, k);
      StringByte(m, big, strtab + Size(vec, i - 1), vec[i - 1], k);
      WordStarts(|vec[i - 1]|, 0, big);
      var e := strtab + Size(vec, i - 1) + BytesWritten(|vec[i - 1]|, big);
      assert StringsReach(big, vec, strtab, i) == Max(StringsReach(big, vec, strtab, i - 1), e);
      assert i == 1 ==> StringsReach(big, vec, strtab, i - 1) == strtab;
    }
  }

  lemma {:induction false} VecByte(mem: seq<Byte>, big: bool, compat: bool, vec: Strings, addr: nat, strtab: nat, k: nat)
    requires addr + PointerRoom(compat, |vec|) <= strtab <= k < |mem|
    ensures AfterVec(mem, big, compat, vec, addr, strtab)[k] == AfterEntries(mem, big, compat, vec, addr, strtab, |vec|)[k]
  {
    SlotArithmetic(compat, |vec|, |vec|);
    hide WithWord, AfterEntries, Off, PointerRoom;
    if !compat || |vec| % 2 == 0 {
      WordByte(AfterEntries(mem, big, compat, vec, addr, strtab, |vec|), big, compat, vec, addr, strtab, |vec|, k);
    }
  }

  /** Something with a NUL is written. */
  predicate WritesText(c: Change) {
    c.path.Some? || (c.argv.Some? && c.argv.value != [])
  }

  lemma {:induction false} RewrittenByte(mem: seq<Byte>, big: bool, compat: bool, sp: nat, c: Change, k: nat)
    requires k < |mem|
    ensures Reach(big, compat, sp, c) <= k ==> Rewritten(mem, big, compat, sp, c)[k] == mem[k]
    ensures WritesText(c) && Reach(big, compat, sp, c) == k + 1 ==> Rewritten(mem, big, compat, sp, c)[k] == 0
  {
    hide AfterVec, AfterEntries, WithString, BytesWritten, PointerRoom, Size, StringsReach;
    var m := mem;
    if c.argv.Some? {
      var vec := c.argv.value;
      var strtab := sp + PointerRoom(compat, |vec|);
      m := AfterVec(mem, big, compat, vec, sp, strtab);
      if strtab <= k {
        EntriesByte(mem, big, compat, vec, sp, strtab, |vec|, k);
        VecByte(mem, big, compat, vec, sp, strtab, k);
      }
      ReachPast(big, vec, strtab);
    }
    if c.path.Some? {
      WordStarts(|c.path.value|, 0, big);
      StringByte(m, big, PathAt(compat, sp, c), c.path.value, k);
    }
  }

  /** With a string the reach lies past the addresses. */
  lemma {:induction false} ReachPast(big: bool, vec: Strings, strtab: nat)
    ensures if vec == [] then StringsReach(big, vec, strtab, |vec|) == strtab else StringsReach(big, vec, strtab, |vec|) > strtab
  {
    if vec != [] {
      WordStarts(|vec[|vec| - 1]|, 0, big);
    }
  }

  lemma {:induction false} KeptAbove(mem: seq<Byte>, big: bool, compat: bool, sp: nat, c: Change, a: nat)
    requires Reach(big, compat, sp, c) <= a <= |mem|
    ensures Rewritten(mem, big, compat, sp, c)[a..] == mem[a..]
  {
    var m := Rewritten(mem, big, compat, sp, c);
    forall k | a <= k < |mem| ensures m[k] == mem[k] {
      RewrittenByte(mem, big, compat, sp, c, k);
    }
  }

  /** What is reached is at least what is used. */
  lemma {:induction false} ReachCoversUsed(big: bool, compat: bool, sp: nat, c: Change)
    ensures sp + Used(compat, c) <= Reach(big, compat, sp, c)
  {
    if c.argv.Some? && c.argv.value != [] {
      WordStarts(|c.argv.value[|c.argv.value| - 1]|, 0, big);
    }
    if c.path.Some? {
      WordStarts(|c.path.value|, 0, big);
    }
    hide BytesWritten, PointerRoom;
  }

  /** Where the new arguments go, below the red zone. */
  function StackArea(compat: bool, stack: nat, oldArgc: nat, c: Change): nat
    requires 128 + WordAlign(Space(compat, oldArgc, c), compat) <= stack
  {
    stack - 128 - WordAlign(Space(compat, oldArgc, c), compat)
  }

  /** The red zone is preserved for every content of memory if and only if the
      furthest word written ends before it. */
  lemma {:induction false} RedZoneKeptIff(big: bool, compat: bool, stack: nat, oldArgc: nat, c: Change, size: nat)
    requires 128 + WordAlign(Space(compat, oldArgc, c), compat) <= stack <= size
    requires Reach(big, compat, StackArea(compat, stack, oldArgc, c), c) <= size
    ensures var sp := StackArea(compat, stack, oldArgc, c);
            (forall mem: seq<Byte> :: |mem| == size ==> Rewritten(mem, big, compat, sp, c)[stack - 128..] == mem[stack - 128..])
            <==> Reach(big, compat, sp, c) <= stack - 128
  {
    NoTextNoReach(big, compat, stack, oldArgc, c);
    var sp, a := StackArea(compat, stack, oldArgc, c), stack - 128;
    hide Rewritten, Reach, StackArea, WordAlign, Space;
    if Reach(big, compat, sp, c) <= a {
      forall mem: seq<Byte> | |mem| == size ensures Rewritten(mem, big, compat, sp, c)[a..] == mem[a..] {
        KeptAbove(mem, big, compat, sp, c, a);
      }
    } else {
      var mem := Spoiled(big, compat, sp, c, a, size);
    }
  }

  /** Memory whose part from a on does not survive. */
  lemma {:induction false} Spoiled(big: bool, compat: bool, sp: nat, c: Change, a: nat, size: nat) returns (mem: seq<Byte>)
    requires WritesText(c) && a < Reach(big, compat, sp, c) <= size
    ensures |mem| == size && Rewritten(mem, big, compat, sp, c)[a..] != mem[a..]
  {
    hide Rewritten, Reach;
    mem := seq(size, _ => 255);
    var k := Reach(big, compat, sp, c) - 1;
    RewrittenByte(mem, big, compat, sp, c, k);
    var m := Rewritten(mem, big, compat, sp, c);
    assert m[a..][k - a] == m[k] && mem[a..][k - a] == mem[k];
  }

  /** Addresses alone never reach the red zone. */
  lemma {:induction false} NoTextNoReach(big: bool, compat: bool, stack: nat, oldArgc: nat, c: Change)
    requires 128 + WordAlign(Space(compat, oldArgc, c), compat) <= stack
    ensures !WritesText(c) ==> Reach(big, compat, StackArea(compat, stack, oldArgc, c), c) <= stack - 128
  {
  }

  /** A longer vector always reaches into the red zone. */
  lemma {:induction false} LongerVectorSpoils(big: bool, compat: bool, stack: nat, oldArgc: nat, c: Change)
    requires 128 + WordAlign(Space(compat, oldArgc, c), compat) <= stack
    requires c.argv.Some? && |c.argv.value| > oldArgc
    ensures Reach(big, compat, StackArea(compat, stack, oldArgc, c), c) > stack - 128
  {
    FitsIff(compat, oldArgc, c);
    ReachCoversUsed(big, compat, StackArea(compat, stack, oldArgc, c), c);
    hide Reach, Used, Space, WordAlign;
  }

  /** A path alone, for a native process, is padded into the red zone exactly on
      little-endian machines when its length is no multiple of a word. */
  lemma {:induction false} PathReachesIff(big: bool, stack: nat, path: seq<Byte>)
    requires 128 + WordAlign(|path| + 1, false) <= stack
    ensures var c := Change(None, Some(path));
            Reach(big, false, StackArea(false, stack, 0, c), c) <= stack - 128 <==> big || |path| % 8 == 0
  {
  }

  /** Seven bytes of path zero eight bytes of the red zone, whatever was there. */
  lemma {:induction false} PaddingChangesRedZone(mem: seq<Byte>, stack: nat, path: seq<Byte>)
    requires |path| == 7 && 136 <= stack <= |mem|
    ensures var c := Change(None, Some(path)); var sp := StackArea(false, stack, 0, c);
            forall k :: stack - 128 <= k < stack - 120 ==> Rewritten(mem, false, false, sp, c)[k] == 0
  {
    var c := Change(None, Some(path));
    var sp := StackArea(false, stack, 0, c);
    assert sp == stack - 136 && PathAt(false, sp, c) == sp && BytesWritten(7, false) == 16;
    forall k | stack - 128 <= k < stack - 120 ensures Rewritten(mem, false, false, sp, c)[k] == 0 {
      PokedByte(mem, sp, Padded(path, 16), k);
    }
  }
}
