/** What reading the arguments of a traced execve(2) gives, for every content of
    its memory, and which contents give a vector of strings. */
module ExecReads {
  import opened IoLogs
  import opened Options
  import opened Words
  import opened Tracees
  import opened ExecVectors

  // ---- what the words hold ----

  lemma {:induction false} ValueConcat(s: seq<Byte>, t: seq<Byte>)
    ensures Value(s + t) == Value(s) * Pow256(|t|) + Value(t)
    ensures Value(t) < Pow256(|t|)
    decreases |t|
  {
    if t == [] {
      assert s + t == s;
    } else {
      var k := |t| - 1;
      ValueConcat(s, t[..k]);
      assert (s + t)[..|s + t| - 1] == s + t[..k];
      var p, v := Pow256(k), Value(t[..k]);
      assert Value(s + t) == (Value(s) * p + v) * 256 + t[k] as nat;
      assert (Value(s) * p + v) * 256 == Value(s) * (256 * p) + v * 256;
    }
  }

  /** Shifting and masking a word gives its two halves in memory order. */
  lemma {:induction false} HalvesRead(big: bool, x: seq<Byte>, y: seq<Byte>)
    requires |x| == |y| == 4
    ensures var w := Dec(big, x + y);
            if big then w / HALF == Dec(big, x) && w % HALF == Dec(big, y)
            else w % HALF == Dec(big, x) && w / HALF == Dec(big, y)
  {
    PowWord();
    hide Pow256, Value;
    ReversedConcat(x, y);
    if big {
      ValueConcat(x, y);
      DivMod(Value(x), Value(y));
    } else {
      ValueConcat(Reversed(y), Reversed(x));
      DivMod(Value(Reversed(y)), Value(Reversed(x)));
    }
  }

  lemma {:induction false} DivMod(hi: nat, lo: nat)
    requires lo < HALF
    ensures (hi * HALF + lo) / HALF == hi && (hi * HALF + lo) % HALF == lo
  {
  }

  // ---- what memory holds ----

  function Ones(n: nat): (w: seq<Byte>)
    ensures |w| == n && forall i :: 0 <= i < n ==> w[i] == 255
  {
    seq(n, _ => 255)
  }

  /** What PTRACE_PEEKDATA returns at a; -1 where it fails. */
  function WordAt(mem: seq<Byte>, a: nat): (w: seq<Byte>)
    ensures |w| == 8
  {
    if a + 8 <= |mem| then mem[a..a + 8] else Ones(8)
  }

  lemma {:induction false} OnesValue(n: nat)
    ensures Value(Ones(n)) == Pow256(n) - 1
  {
    if n > 0 {
      OnesValue(n - 1);
      assert Ones(n)[..n - 1] == Ones(n - 1);
    }
  }

  lemma {:induction false} OnesDecode(big: bool)
    ensures Dec(big, Ones(8)) == FULL - 1 && Dec(big, Ones(8)[..4]) == Dec(big, Ones(8)[4..]) == HALF - 1
  {
    OnesValue(4);
    OnesValue(8);
    PowWord();
    OnesReversed(4);
    OnesReversed(8);
    hide Value, Pow256, Reversed, Ones;
    assert Ones(8)[..4] == Ones(4) && Ones(8)[4..] == Ones(4);
  }

  lemma {:induction false} OnesReversed(n: nat)
    ensures Reversed(Ones(n)) == Ones(n)
  {
    hide Reversed, Ones;
    var r, s := Reversed(Ones(n)), Ones(n);
    assert forall i :: 0 <= i < n ==> r[i] == s[i];
  }

  /** The address in the j-th slot of a vector at addr. */
  function SlotAt(mem: seq<Byte>, big: bool, compat: bool, addr: nat, j: nat): nat {
    if !compat then Dec(big, WordAt(mem, addr + 8 * j))
    else if j % 2 == 0 then Dec(big, WordAt(mem, addr + 4 * j)[..4])
    else Dec(big, WordAt(mem, addr + 4 * j - 4)[4..])
  }

  /** The string at a, if all the words up to its NUL can be read. */
  function Text(mem: seq<Byte>, a: nat): (s: Option<seq<Byte>>)
    ensures s.Some? ==> a + 8 <= |mem|
    decreases |mem| - a
  {
    if a + 8 > |mem| || AllOnes(mem[a..a + 8]) then None
    else
      var w := mem[a..a + 8];
      var k := FirstNul(w);
      if k < 8 then Some(w[..k])
      else
        var rest := Text(mem, a + 8);
        if rest.None? then None else Some(w + rest.value)
  }

  /** Bytes from the start of a vector that are peeked at for slot j. */
  function PeekRoom(compat: bool, j: nat): (n: nat)
    ensures n >= Off(compat, j + 1)
  {
    if compat then Off(true, j + 2 - j % 2) else Off(false, j + 1)
  }

  /** The address of the word that holds the j-th slot. */
  lemma {:induction false} SlotInWord(mem: seq<Byte>, big: bool, compat: bool, addr: nat, j: nat)
    ensures var p, v := addr + PeekRoom(compat, j), SlotAt(mem, big, compat, addr, j);
            if p > |mem| then v == (if compat then HALF - 1 else FULL - 1)
            else var a := addr + Off(compat, j); v == Dec(big, mem[a..a + Off(compat, 1)])
  {
    OnesDecode(big);
    hide Dec, Ones;
    var p := addr + PeekRoom(compat, j);
    if compat && p <= |mem| {
      assert p == addr + if j % 2 == 0 then 4 * j + 8 else 4 * j + 4;
      assert mem[p - 8..p][..4] == mem[p - 8..p - 4] && mem[p - 8..p][4..] == mem[p - 4..p];
    }
  }

  /** A slot that is NULL or points to a string is in memory. */
  lemma {:induction false} SlotInMemory(mem: seq<Byte>, big: bool, compat: bool, addr: nat, j: nat)
    requires AddressSpace(mem, compat)
    requires var v := SlotAt(mem, big, compat, addr, j); v == 0 || Text(mem, v).Some?
    ensures addr + PeekRoom(compat, j) <= |mem|
  {
    SlotInWord(mem, big, compat, addr, j);
  }

  /** A vector with strings put in front. */
  function After(done: Strings, rest: Option<Strings>): Option<Strings> {
    if rest.None? then None else Some(done + rest.value)
  }

  /** What reading the slots from the j-th on gives. */
  function VecFrom(mem: seq<Byte>, big: bool, compat: bool, addr: nat, j: nat): Option<Strings>
    requires AddressSpace(mem, compat)
    decreases |mem| - addr - Off(compat, j)
  {
    var v := SlotAt(mem, big, compat, addr, j);
    if v == 0 then Some([])
    else if Text(mem, v).None? then None
    else
      SlotInMemory(mem, big, compat, addr, j);
      After([Text(mem, v).value], VecFrom(mem, big, compat, addr, j + 1))
  }

  /** What reading the vector at addr gives; a NULL vector is empty. */
  function VecAt(mem: seq<Byte>, big: bool, compat: bool, addr: nat): Option<Strings>
    requires AddressSpace(mem, compat)
  {
    if addr == 0 then Some([]) else VecFrom(mem, big, compat, addr, 0)
  }

  // ---- the same, said of the bytes ----

  /** A string all of whose words are in memory. */
  ghost predicate Readable(mem: seq<Byte>, a: nat, s: seq<Byte>) {
    NoNul(s) && StringAt(mem, a, s) && a + 8 * (|s| / 8) + 8 <= |mem|
  }

  /** A string is read whole into a buffer that holds it; a smaller one is
      reported, and a string that cannot be read never is. */
  lemma {:induction false} ReadIsText(mem: seq<Byte>, a: nat, room: nat)
    ensures var r, s := ReadFrom(mem, a, room), Text(mem, a);
            if s.Some? then r == (if room > |s.value| then Bytes(s.value) else NoSpace)
            else !r.Bytes? && (a + room > |mem| ==> r.Failed?)
    decreases |mem| - a
  {
    hide AllOnes;
    if a + 8 <= |mem| && room >= 8 {
      ReadIsText(mem, a + 8, room - 8);
    }
  }

  lemma {:induction false} TextIsString(mem: seq<Byte>, a: nat)
    requires Text(mem, a).Some?
    ensures Readable(mem, a, Text(mem, a).value) && Clean(Text(mem, a).value)
    decreases |mem| - a
  {
    var w, s := mem[a..a + 8], Text(mem, a).value;
    if FirstNul(w) < 8 {
      assert mem[a..a + |s|] == s && mem[a + |s|] == w[|s|];
    } else {
      TextIsString(mem, a + 8);
      hide AllOnes, Text, FirstNul;
      var rest := Text(mem, a + 8).value;
      assert s[..8] == w && s[8..] == rest;
      assert mem[a..a + |s|] == w + mem[a + 8..a + 8 + |rest|];
    }
  }

  /** A string is read exactly when it stands there, all its words are in
      memory and none of them is all ones. */
  lemma {:induction false} TextIff(mem: seq<Byte>, a: nat, s: seq<Byte>)
    ensures Text(mem, a) == Some(s) <==> Readable(mem, a, s) && Clean(s)
    ensures Readable(mem, a, s) && !Clean(s) ==> Text(mem, a) == None
  {
    hide Text, ReadFrom, Clean, NoNul;
    if Text(mem, a).Some? {
      TextIsString(mem, a);
    }
    if Readable(mem, a, s) {
      ReadIsText(mem, a, |mem| + 1);
      ReadFromString(mem, a, s, |mem| + 1);
    }
  }

  ghost predicate AllClean(vec: Strings) {
    forall j :: 0 <= j < |vec| ==> Clean(vec[j])
  }

  ghost function SlotValue(ptrs: seq<nat>, j: nat): nat {
    if j < |ptrs| then ptrs[j] else 0
  }

  ghost predicate SlotHolds(mem: seq<Byte>, big: bool, compat: bool, addr: nat, j: nat, v: nat) {
    var a, width := addr + Off(compat, j), Off(compat, 1);
    a + width <= |mem| && Dec(big, mem[a..a + width]) == v
  }

  /** A NULL-terminated vector of strings somewhere in memory. */
  ghost predicate Stored(mem: seq<Byte>, big: bool, compat: bool, addr: nat, ptrs: seq<nat>, vec: Strings) {
    && |ptrs| == |vec| && addr + PeekRoom(compat, |vec|) <= |mem|
    && (forall j: nat :: j <= |ptrs| ==> SlotHolds(mem, big, compat, addr, j, SlotValue(ptrs, j)))
    && (forall j: nat :: j < |ptrs| ==> 0 < ptrs[j] && Readable(mem, ptrs[j], vec[j]))
  }

  lemma {:induction false} SlotStored(mem: seq<Byte>, big: bool, compat: bool, addr: nat, ptrs: seq<nat>, vec: Strings, j: nat)
    requires Stored(mem, big, compat, addr, ptrs, vec) && j <= |vec|
    ensures |ptrs| == |vec| && SlotAt(mem, big, compat, addr, j) == SlotValue(ptrs, j)
    ensures j < |vec| ==> 0 < ptrs[j] && Readable(mem, ptrs[j], vec[j])
  {
    hide Dec, SlotAt, Readable;
    assert SlotHolds(mem, big, compat, addr, j, SlotValue(ptrs, j));
    SlotInWord(mem, big, compat, addr, j);
  }

  lemma {:induction false} CleanFront(s: seq<Byte>, vec: Strings)
    ensures AllClean([]) && (AllClean([s] + vec) <==> Clean(s) && AllClean(vec))
  {
    hide Clean;
    var all := [s] + vec;
    if AllClean(all) {
      assert Clean(all[0]);
      forall i | 0 <= i < |vec| ensures Clean(vec[i]) {
        assert vec[i] == all[i + 1];
      }
    }
  }

  lemma {:induction false} StoredFrom(mem: seq<Byte>, big: bool, compat: bool, addr: nat, ptrs: seq<nat>, vec: Strings, j: nat)
    requires Stored(mem, big, compat, addr, ptrs, vec) && j <= |vec| && AddressSpace(mem, compat)
    ensures VecFrom(mem, big, compat, addr, j) == if AllClean(vec[j..]) then Some(vec[j..]) else None
    decreases |vec| - j
  {
    hide Stored, SlotAt, Text, Readable, Clean, AllClean, AddressSpace;
    CleanFront([], []);
    SlotStored(mem, big, compat, addr, ptrs, vec, j);
    if j == |vec| {
      assert vec[j..] == [];
    } else {
      TextIff(mem, ptrs[j], vec[j]);
      CleanFront(vec[j], vec[j + 1..]);
      assert vec[j..] == [vec[j]] + vec[j + 1..];
      StoredFrom(mem, big, compat, addr, ptrs, vec, j + 1);
    }
  }

  lemma {:induction false} FromSlot(mem: seq<Byte>, big: bool, compat: bool, addr: nat, j: nat, vec: Strings, i: nat)
    requires AddressSpace(mem, compat) && VecFrom(mem, big, compat, addr, j) == Some(vec) && i <= |vec|
    ensures var v := SlotAt(mem, big, compat, addr, j + i);
            if i < |vec| then v != 0 && Text(mem, v) == Some(vec[i]) else v == 0
    decreases i
  {
    hide SlotAt, Text, AddressSpace;
    if vec != [] {
      assert VecFrom(mem, big, compat, addr, j + 1).value == vec[1..];
      if i > 0 {
        FromSlot(mem, big, compat, addr, j + 1, vec[1..], i - 1);
      }
    }
  }

  lemma {:induction false} FromIsStored(mem: seq<Byte>, big: bool, compat: bool, addr: nat, vec: Strings)
    requires AddressSpace(mem, compat) && VecFrom(mem, big, compat, addr, 0) == Some(vec)
    ensures Stored(mem, big, compat, addr, seq(|vec|, j requires 0 <= j => SlotAt(mem, big, compat, addr, j)), vec) && AllClean(vec)
  {
    hide SlotAt, Text, AddressSpace, VecFrom, Dec, Readable, Clean;
    var ptrs := seq(|vec|, j requires 0 <= j => SlotAt(mem, big, compat, addr, j));
    forall j: nat | j <= |ptrs|
      ensures SlotHolds(mem, big, compat, addr, j, SlotValue(ptrs, j)) && addr + PeekRoom(compat, j) <= |mem|
    {
      FromSlot(mem, big, compat, addr, 0, vec, j);
      SlotInMemory(mem, big, compat, addr, j);
      SlotInWord(mem, big, compat, addr, j);
    }
    forall j: nat | j < |ptrs| ensures 0 < ptrs[j] && Readable(mem, ptrs[j], vec[j]) && Clean(vec[j]) {
      FromSlot(mem, big, compat, addr, 0, vec, j);
      TextIff(mem, ptrs[j], vec[j]);
    }
  }

  /** A vector is read if and only if it is stored there and no string of it
      has an all-ones word. */
  lemma {:induction false} ReadIffStored(mem: seq<Byte>, big: bool, compat: bool, addr: nat, vec: Strings)
    requires AddressSpace(mem, compat) && addr != 0
    ensures VecAt(mem, big, compat, addr) == Some(vec) <==>
            AllClean(vec) && exists ptrs :: Stored(mem, big, compat, addr, ptrs, vec)
  {
    hide VecFrom, Stored, AllClean, SlotAt, AddressSpace;
    if VecAt(mem, big, compat, addr) == Some(vec) {
      FromIsStored(mem, big, compat, addr, vec);
    }
    if ptrs :| Stored(mem, big, compat, addr, ptrs, vec) {
      StoredFrom(mem, big, compat, addr, ptrs, vec, 0);
      assert vec[0..] == vec;
    }
  }

}
