/** The argument vector of a traced execve(2): packed into the tracee's memory
    as addresses and strings.  Addresses are native words, or 32-bit halves of
    them for a compat process. */
module ExecVectors {
  import opened IoLogs
  import opened Options
  import opened Words
  import opened Tracees

  // ---- words as bytes ----

  function Reversed(s: seq<Byte>): (r: seq<Byte>)
    ensures |r| == |s| && forall i :: 0 <= i < |s| ==> r[i] == s[|s| - 1 - i]
  {
    if s == [] then [] else Reversed(s[1..]) + [s[0]]
  }

  /** The bytes of an unsigned number in memory order. */
  function Enc(big: bool, v: nat, width: nat): (w: seq<Byte>)
    ensures |w| == width
  {
    if big then Digits(v, width) else Reversed(Digits(v, width))
  }

  function Dec(big: bool, w: seq<Byte>): nat {
    Value(if big then w else Reversed(w))
  }

  const HALF := 0x1_0000_0000
  const FULL := 0x1_0000_0000_0000_0000

  lemma {:induction false} ReversedTwice(s: seq<Byte>)
    ensures Reversed(Reversed(s)) == s
  {
  }

  lemma {:induction false} DecEnc(big: bool, v: nat, width: nat)
    requires v < Pow256(width)
    ensures Dec(big, Enc(big, v, width)) == v
  {
    DigitsValue(v, width);
    ReversedTwice(Digits(v, width));
  }

  lemma {:induction false} PowWord()
    ensures Pow256(4) == HALF && Pow256(8) == FULL
  {
    assert Pow256(1) == 256 && Pow256(2) == 0x1_0000 && Pow256(3) == 0x100_0000 && Pow256(4) == HALF;
    assert Pow256(5) == 256 * HALF && Pow256(6) == 0x1_0000 * HALF && Pow256(7) == 0x100_0000 * HALF;
  }

  lemma {:induction false} DigitsSplit(hi: nat, lo: nat, a: nat, b: nat)
    requires lo < Pow256(b)
    ensures Digits(hi * Pow256(b) + lo, a + b) == Digits(hi, a) + Digits(lo, b)
  {
    if b == 0 {
      assert Digits(hi, a) + [] == Digits(hi, a);
    } else {
      var n, p := hi * Pow256(b) + lo, Pow256(b - 1);
      assert n == (hi * p) * 256 + lo;
      assert n / 256 == hi * p + lo / 256 && n % 256 == lo % 256;
      DigitsSplit(hi, lo / 256, a, b - 1);
      assert Digits(hi, a) + (Digits(lo / 256, b - 1) + [(lo % 256) as Byte])
          == (Digits(hi, a) + Digits(lo / 256, b - 1)) + [(lo % 256) as Byte];
    }
  }

  /** Two 32-bit addresses in one word, as shifts and ors make it. */
  function Packed(big: bool, p: nat, q: nat): nat {
    if big then p * HALF + q else q * HALF + p
  }

  /** In memory the packed word is the two addresses in order. */
  lemma {:induction false} PackedBytes(big: bool, p: nat, q: nat)
    requires p < HALF && q < HALF
    ensures Enc(big, Packed(big, p, q), 8) == Enc(big, p, 4) + Enc(big, q, 4)
    ensures Packed(big, p, q) < Pow256(8)
  {
    PowWord();
    if big {
      DigitsSplit(p, q, 4, 4);
    } else {
      DigitsSplit(q, p, 4, 4);
      ReversedConcat(Digits(q, 4), Digits(p, 4));
    }
  }

  lemma {:induction false} ReversedConcat(s: seq<Byte>, t: seq<Byte>)
    ensures Reversed(s + t) == Reversed(t) + Reversed(s)
  {
  }

  // ---- a vector in memory ----

  type Strings = seq<seq<Byte>>

  /** Addresses have 64 bits, and 32 bits in a compat process. */
  predicate AddressSpace(mem: seq<Byte>, compat: bool) {
    |mem| <= if compat then HALF else FULL
  }

  /** Bytes taken by the first i strings and their NULs. */
  function Size(vec: Strings, i: nat): nat
    requires i <= |vec|
  {
    if i == 0 then 0 else Size(vec, i - 1) + |vec[i - 1]| + 1
  }

  lemma {:induction false} SizeMonotone(vec: Strings, i: nat, j: nat)
    requires i <= j <= |vec|
    ensures Size(vec, i) <= Size(vec, j)
    ensures i < j ==> Size(vec, i) + |vec[i]| + 1 <= Size(vec, j)
    decreases j
  {
    if i + 1 < j {
      SizeMonotone(vec, i, j - 1);
    }
  }

  /** Offset of the j-th address. */
  function Off(compat: bool, j: nat): nat {
    if compat then 4 * j else 8 * j
  }

  /** Room for n addresses and NULL; one more word in compat mode. */
  function PointerRoom(compat: bool, n: nat): nat {
    Off(compat, if compat then n + 2 else n + 1)
  }

  ghost predicate PointerAt(mem: seq<Byte>, big: bool, compat: bool, addr: nat, j: nat, v: nat) {
    var a, width := addr + Off(compat, j), Off(compat, 1);
    a + width <= |mem| && mem[a..a + width] == Enc(big, v, width)
  }

  /** Value of the j-th slot: the address of a string, then NULL. */
  function Slot(vec: Strings, strtab: nat, j: nat): nat
    requires j <= |vec|
  {
    if j < |vec| then strtab + Size(vec, j) else 0
  }

  ghost predicate SlotOk(mem: seq<Byte>, big: bool, compat: bool, addr: nat, strtab: nat, vec: Strings, j: nat)
    requires j <= |vec|
  {
    PointerAt(mem, big, compat, addr, j, Slot(vec, strtab, j))
  }

  ghost predicate StringOk(mem: seq<Byte>, strtab: nat, vec: Strings, j: nat)
    requires j < |vec|
  {
    StringAt(mem, strtab + Size(vec, j), vec[j])
  }

  /** The first d slots and the first i strings are in place. */
  ghost predicate Partly(mem: seq<Byte>, big: bool, compat: bool, addr: nat, strtab: nat, vec: Strings, d: nat, i: nat) {
    && d <= |vec| + 1 && i <= |vec|
    && (forall j: nat :: j < d ==> SlotOk(mem, big, compat, addr, strtab, vec, j))
    && (forall j: nat :: j < i ==> StringOk(mem, strtab, vec, j))
  }

  ghost predicate VectorAt(mem: seq<Byte>, big: bool, compat: bool, addr: nat, strtab: nat, vec: Strings) {
    Partly(mem, big, compat, addr, strtab, vec, |vec| + 1, |vec|)
  }

  lemma {:induction false} StringsKept(mem: seq<Byte>, big: bool, compat: bool, addr: nat, strtab: nat, vec: Strings, d: nat, i: nat, a: nat, bytes: seq<Byte>)
    requires Partly(mem, big, compat, addr, strtab, vec, d, i)
    requires strtab + Size(vec, i) <= a && a + |bytes| <= |mem| && addr + Off(compat, d) <= strtab
    ensures Partly(Overlay(mem, a, bytes), big, compat, addr, strtab, vec, d, i)
  {
    hide Overlay;
    var m := Overlay(mem, a, bytes);
    forall j: nat | j < d ensures SlotOk(m, big, compat, addr, strtab, vec, j) {
      assert SlotOk(mem, big, compat, addr, strtab, vec, j);
      OverlayKeeps(mem, a, bytes, addr + Off(compat, j), addr + Off(compat, j + 1));
    }
    forall j: nat | j < i ensures StringOk(m, strtab, vec, j) {
      assert StringOk(mem, strtab, vec, j);
      SizeMonotone(vec, j, i);
      var b := strtab + Size(vec, j);
      OverlayKeeps(mem, a, bytes, b, b + |vec[j]|);
      OverlayKeeps(mem, a, bytes, b + |vec[j]|, b + |vec[j]| + 1);
      assert m[b + |vec[j]|..b + |vec[j]| + 1][0] == mem[b + |vec[j]|..b + |vec[j]| + 1][0];
    }
  }

  lemma {:induction false} SlotsKept(mem: seq<Byte>, big: bool, compat: bool, addr: nat, strtab: nat, vec: Strings, d: nat, i: nat, a: nat, bytes: seq<Byte>)
    requires Partly(mem, big, compat, addr, strtab, vec, d, i)
    requires addr + Off(compat, d) <= a && a + |bytes| <= strtab && a + |bytes| <= |mem|
    ensures Partly(Overlay(mem, a, bytes), big, compat, addr, strtab, vec, d, i)
  {
    hide Overlay;
    var m := Overlay(mem, a, bytes);
    forall j: nat | j < d ensures SlotOk(m, big, compat, addr, strtab, vec, j) {
      assert SlotOk(mem, big, compat, addr, strtab, vec, j);
      OverlayKeeps(mem, a, bytes, addr + Off(compat, j), addr + Off(compat, j + 1));
    }
    forall j: nat | j < i ensures StringOk(m, strtab, vec, j) {
      assert StringOk(mem, strtab, vec, j);
      var b := strtab + Size(vec, j);
      OverlayKeeps(mem, a, bytes, b, b + |vec[j]|);
      OverlayKeeps(mem, a, bytes, b + |vec[j]|, b + |vec[j]| + 1);
      assert m[b + |vec[j]|..b + |vec[j]| + 1][0] == mem[b + |vec[j]|..b + |vec[j]| + 1][0];
    }
  }

  lemma {:induction false} AddString(mem: seq<Byte>, big: bool, compat: bool, addr: nat, strtab: nat, vec: Strings, d: nat, i: nat, n: nat)
    requires Partly(mem, big, compat, addr, strtab, vec, d, i) && i < |vec| && |vec[i]| < n
    requires strtab + Size(vec, i) + n <= |mem| && addr + Off(compat, d) <= strtab
    ensures Partly(Overlay(mem, strtab + Size(vec, i), Padded(vec[i], n)), big, compat, addr, strtab, vec, d, i + 1)
  {
    hide Overlay, Padded, SlotOk;
    var a := strtab + Size(vec, i);
    StringsKept(mem, big, compat, addr, strtab, vec, d, i, a, Padded(vec[i], n));
    PaddedString(mem, a, vec[i], n);
    assert StringOk(Overlay(mem, a, Padded(vec[i], n)), strtab, vec, i);
  }

  /** The slots that a word written for slot d fills. */
  function SlotsWritten(compat: bool, d: nat, n: nat): nat {
    if !compat then d + 1 else if d + 2 <= n + 1 then d + 2 else n + 1
  }

  /** The word written for slot d. */
  function WordFor(big: bool, compat: bool, vec: Strings, strtab: nat, d: nat): nat
    requires d <= |vec|
  {
    if !compat then Slot(vec, strtab, d)
    else Packed(big, Slot(vec, strtab, d), if d + 1 <= |vec| then Slot(vec, strtab, d + 1) else 0)
  }

  predicate InRange(compat: bool, vec: Strings, strtab: nat) {
    strtab + Size(vec, |vec|) <= if compat then HALF else FULL
  }

  lemma {:induction false} SlotInRange(compat: bool, vec: Strings, strtab: nat, j: nat)
    requires InRange(compat, vec, strtab) && j <= |vec|
    ensures Slot(vec, strtab, j) < if compat then HALF else Pow256(8)
    ensures strtab > 0 && j < |vec| ==> Slot(vec, strtab, j) > 0
  {
    PowWord();
    if j < |vec| {
      SizeMonotone(vec, j, |vec|);
    }
  }

  lemma {:induction false} OverlayHolds(mem: seq<Byte>, a: nat, bytes: seq<Byte>, i: nat, j: nat)
    requires a + |bytes| <= |mem| && i <= j <= |bytes|
    ensures Overlay(mem, a, bytes)[a + i..a + j] == bytes[i..j]
  {
  }

  lemma {:induction false} NativeSlot(mem: seq<Byte>, big: bool, addr: nat, strtab: nat, vec: Strings, d: nat)
    requires d <= |vec| && addr + Off(false, d) + 8 <= |mem|
    ensures SlotOk(Overlay(mem, addr + Off(false, d), Enc(big, WordFor(big, false, vec, strtab, d), 8)),
                   big, false, addr, strtab, vec, d)
  {
    hide Overlay, Enc;
    var a, w := addr + Off(false, d), Enc(big, WordFor(big, false, vec, strtab, d), 8);
    OverlayHolds(mem, a, w, 0, 8);
    assert w[0..8] == w;
  }

  lemma {:induction false} CompatWord(big: bool, strtab: nat, vec: Strings, d: nat)
    requires d <= |vec| && InRange(true, vec, strtab)
    ensures Enc(big, WordFor(big, true, vec, strtab, d), 8) ==
            Enc(big, Slot(vec, strtab, d), 4) + Enc(big, if d + 1 <= |vec| then Slot(vec, strtab, d + 1) else 0, 4)
  {
    hide Slot, Enc, Packed;
    SlotInRange(true, vec, strtab, d);
    SlotInRange(true, vec, strtab, if d + 1 <= |vec| then d + 1 else d);
    PackedBytes(big, Slot(vec, strtab, d), if d + 1 <= |vec| then Slot(vec, strtab, d + 1) else 0);
  }

  lemma {:induction false} HalvesStored(mem: seq<Byte>, a: nat, x: seq<Byte>, y: seq<Byte>)
    requires a + 8 <= |mem| && |x| == |y| == 4
    ensures var m := Overlay(mem, a, x + y); m[a..a + 4] == x && m[a + 4..a + 8] == y
  {
    OverlayHolds(mem, a, x + y, 0, 4);
    OverlayHolds(mem, a, x + y, 4, 8);
  }

  lemma {:induction false} CompatSlots(mem: seq<Byte>, big: bool, addr: nat, strtab: nat, vec: Strings, d: nat)
    requires d <= |vec| && addr + Off(true, d) + 8 <= |mem| && InRange(true, vec, strtab)
    ensures var m := Overlay(mem, addr + Off(true, d), Enc(big, WordFor(big, true, vec, strtab, d), 8));
            && SlotOk(m, big, true, addr, strtab, vec, d)
            && (d + 1 <= |vec| ==> SlotOk(m, big, true, addr, strtab, vec, d + 1))
  {
    hide Slot, Enc, Overlay, InRange, WordFor;
    CompatWord(big, strtab, vec, d);
    HalvesStored(mem, addr + Off(true, d), Enc(big, Slot(vec, strtab, d), 4),
                 Enc(big, if d + 1 <= |vec| then Slot(vec, strtab, d + 1) else 0, 4));
  }

  /** The words that the writing loop computes. */
  lemma {:induction false} WordsComputed(big: bool, compat: bool, vec: Strings, strtab: nat, d: nat)
    requires d <= |vec|
    ensures d == |vec| ==> WordFor(big, compat, vec, strtab, d) == 0
    ensures var word := WordFor(big, compat, vec, strtab, d);
            d < |vec| ==>
              var p, q := strtab + Size(vec, d), strtab + Size(vec, d + 1);
              word == if compat then Packed(big, p, if d + 1 < |vec| then q else 0) else p
  {
  }

  lemma {:induction false} AddSlots(mem: seq<Byte>, big: bool, compat: bool, addr: nat, strtab: nat, vec: Strings, d: nat, i: nat)
    requires Partly(mem, big, compat, addr, strtab, vec, d, i) && d <= |vec| && InRange(compat, vec, strtab)
    requires addr + Off(compat, d) + 8 <= strtab && addr + Off(compat, d) + 8 <= |mem|
    ensures Partly(Overlay(mem, addr + Off(compat, d), Enc(big, WordFor(big, compat, vec, strtab, d), 8)),
                   big, compat, addr, strtab, vec, SlotsWritten(compat, d, |vec|), i)
  {
    hide Overlay, Enc, StringOk, SlotOk, WordFor, InRange, Off;
    SlotsKept(mem, big, compat, addr, strtab, vec, d, i, addr + Off(compat, d), Enc(big, WordFor(big, compat, vec, strtab, d), 8));
    if compat {
      CompatSlots(mem, big, addr, strtab, vec, d);
    } else {
      NativeSlot(mem, big, addr, strtab, vec, d);
    }
  }

  /** Slots filled when i strings have been handled. */
  function SlotsAfter(compat: bool, i: nat): nat {
    if compat then i + i % 2 else i
  }

  lemma {:induction false} SlotArithmetic(compat: bool, i: nat, n: nat)
    requires i <= n
    ensures SlotsAfter(compat, i) <= n + 1 && Off(compat, SlotsAfter(compat, i)) <= PointerRoom(compat, n)
    ensures if compat && i % 2 == 1 then SlotsAfter(compat, i + 1) == SlotsAfter(compat, i) == i + 1
            else && SlotsAfter(compat, i) == i && Off(compat, i) + 8 <= PointerRoom(compat, n)
                 && (i < n ==> SlotsWritten(compat, i, n) == SlotsAfter(compat, i + 1)
                               && Off(compat, SlotsAfter(compat, i + 1)) == Off(compat, i) + 8)
                 && (i == n ==> SlotsWritten(compat, i, n) == n + 1)
    ensures Off(compat, 0) == 0 && SlotsAfter(compat, 0) == 0
  {
  }

  /** Writing changed only the pointer area and the string area with its padding. */
  ghost predicate OnlyWithin(before: seq<Byte>, mem: seq<Byte>, addr: nat, end: nat) {
    |mem| == |before| && addr <= |mem| && mem[..addr] == before[..addr] && (end <= |mem| ==> mem[end..] == before[end..])
  }

  lemma {:induction false} WithinExtends(before: seq<Byte>, mem: seq<Byte>, addr: nat, end: nat, a: nat, bytes: seq<Byte>, end': nat)
    requires OnlyWithin(before, mem, addr, end) && addr <= a && a + |bytes| <= |mem| && end <= end' && a + |bytes| <= end'
    ensures OnlyWithin(before, Overlay(mem, a, bytes), addr, end')
  {
    var m := Overlay(mem, a, bytes);
    assert m[..addr] == mem[..addr];
    if end' <= |mem| {
      assert m[end'..] == mem[end'..];
      assert mem[end'..] == mem[end..][end' - end..] && before[end'..] == before[end..][end' - end..];
    }
  }

  /** Memory after bytes were written at a, if they fit. */
  function Poked(mem: seq<Byte>, a: nat, bytes: seq<Byte>): (m: seq<Byte>)
    ensures |m| == |mem|
  {
    if a + |bytes| <= |mem| then Overlay(mem, a, bytes) else mem
  }

  /** Memory after a string was written. */
  function WithString(mem: seq<Byte>, big: bool, a: nat, s: seq<Byte>): (m: seq<Byte>)
    ensures |m| == |mem|
  {
    Poked(mem, a, Padded(s, BytesWritten(|s|, big)))
  }

  /** Memory after the word for slot d was written. */
  function WithWord(mem: seq<Byte>, big: bool, compat: bool, vec: Strings, addr: nat, strtab: nat, d: nat): (m: seq<Byte>)
    requires d <= |vec|
    ensures |m| == |mem|
  {
    Poked(mem, addr + Off(compat, d), Enc(big, WordFor(big, compat, vec, strtab, d), 8))
  }

  /** Memory after turn i of the loop: a string, and a word unless the last turn
      has written it. */
  function WithEntry(mem: seq<Byte>, big: bool, compat: bool, vec: Strings, addr: nat, strtab: nat, i: nat): (m: seq<Byte>)
    requires i < |vec|
    ensures |m| == |mem|
  {
    var m := WithString(mem, big, strtab + Size(vec, i), vec[i]);
    if compat && i % 2 == 1 then m else WithWord(m, big, compat, vec, addr, strtab, i)
  }

  /** Memory after the first i turns. */
  function AfterEntries(mem: seq<Byte>, big: bool, compat: bool, vec: Strings, addr: nat, strtab: nat, i: nat): (m: seq<Byte>)
    requires i <= |vec|
    ensures |m| == |mem|
  {
    if i == 0 then mem
    else WithEntry(AfterEntries(mem, big, compat, vec, addr, strtab, i - 1), big, compat, vec, addr, strtab, i - 1)
  }

  /** Memory after the whole vector was written. */
  function AfterVec(mem: seq<Byte>, big: bool, compat: bool, vec: Strings, addr: nat, strtab: nat): (m: seq<Byte>)
    ensures |m| == |mem|
  {
    var m := AfterEntries(mem, big, compat, vec, addr, strtab, |vec|);
    if !compat || |vec| % 2 == 0 then WithWord(m, big, compat, vec, addr, strtab, |vec|) else m
  }

  /** `ptrace_write_vec`.  The caller leaves room for the addresses below the
      string table; padding may reach up to 15 bytes past the last string. */
  method WriteVec(t: Tracee, compat: bool, vec: Strings, addr0: nat, strtab0: nat) returns (r: Option<nat>)
    requires (forall i :: 0 <= i < |vec| ==> NoNul(vec[i])) && InRange(compat, vec, strtab0)
    requires addr0 + PointerRoom(compat, |vec|) <= strtab0 <= |t.mem|
    modifies t
    ensures strtab0 + Size(vec, |vec|) + 15 <= |t.mem| ==> r.Some?
    ensures r.Some? ==> r.value == Size(vec, |vec|) && VectorAt(t.mem, t.big, compat, addr0, strtab0, vec)
    ensures r.Some? ==> t.mem == AfterVec(old(t.mem), t.big, compat, vec, addr0, strtab0)
    ensures OnlyWithin(old(t.mem), t.mem, addr0, strtab0 + Size(vec, |vec|) + 15)
  {
    hide Partly, OnlyWithin, WordFor, InRange, NoNul, Off, SlotsAfter, SlotsWritten, PointerRoom, WithString, WithWord, AfterEntries, Size;
    var ok, addr, strtab := WriteEntries(t, compat, vec, addr0, strtab0);
    if !ok {
      return None;
    }
    SlotArithmetic(compat, |vec|, |vec|);
    if !compat || |vec| % 2 == 0 {
      WordsComputed(t.big, compat, vec, strtab0, |vec|);
      ok := PokeSlots(t, compat, vec, addr0, strtab0, addr, 0, |vec|, |vec|, old(t.mem));
      if !ok {
        return None;
      }
    }
    assert VectorAt(t.mem, t.big, compat, addr0, strtab0, vec);
    return Some(strtab - strtab0);
  }

  lemma {:induction false} EntriesStart(mem: seq<Byte>, big: bool, compat: bool, vec: Strings, addr: nat, strtab: nat)
    requires addr <= |mem|
    ensures Partly(mem, big, compat, addr, strtab, vec, 0, 0)
    ensures OnlyWithin(mem, mem, addr, strtab + Size(vec, |vec|) + 15)
  {
  }

  /** The loop over the strings. */
  method WriteEntries(t: Tracee, compat: bool, vec: Strings, addr0: nat, strtab0: nat) returns (ok: bool, addr: nat, strtab: nat)
    requires (forall i :: 0 <= i < |vec| ==> NoNul(vec[i])) && InRange(compat, vec, strtab0)
    requires addr0 + PointerRoom(compat, |vec|) <= strtab0 <= |t.mem|
    modifies t
    ensures |t.mem| == |old(t.mem)| && OnlyWithin(old(t.mem), t.mem, addr0, strtab0 + Size(vec, |vec|) + 15)
    ensures strtab0 + Size(vec, |vec|) + 15 <= |t.mem| ==> ok
    ensures ok ==>
              && addr == addr0 + Off(compat, SlotsAfter(compat, |vec|)) && strtab == strtab0 + Size(vec, |vec|)
              && Partly(t.mem, t.big, compat, addr0, strtab0, vec, SlotsAfter(compat, |vec|), |vec|)
              && t.mem == AfterEntries(old(t.mem), t.big, compat, vec, addr0, strtab0, |vec|)
  {
    hide Partly, OnlyWithin, InRange, NoNul, Off, SlotsAfter, PointerRoom, WithEntry;
    SlotArithmetic(compat, 0, |vec|);
    EntriesStart(t.mem, t.big, compat, vec, addr0, strtab0);
    addr, strtab := addr0, strtab0;
    for i := 0 to |vec|
      invariant strtab == strtab0 + Size(vec, i) && |t.mem| == |old(t.mem)|
      invariant addr == addr0 + Off(compat, SlotsAfter(compat, i))
      invariant Partly(t.mem, t.big, compat, addr0, strtab0, vec, SlotsAfter(compat, i), i)
      invariant t.mem == AfterEntries(old(t.mem), t.big, compat, vec, addr0, strtab0, i)
      invariant OnlyWithin(old(t.mem), t.mem, addr0, strtab0 + Size(vec, |vec|) + 15)
    {
      ok, addr, strtab := WriteEntry(t, compat, vec, addr, strtab, i, addr0, strtab0, old(t.mem));
      if !ok {
        return;
      }
    }
    ok := true;
  }

  /** One turn of the loop: a string, and the word with its address unless the
      last turn has written that. */
  method WriteEntry(t: Tracee, compat: bool, vec: Strings, addr: nat, strtab: nat, i: nat, ghost addr0: nat, ghost strtab0: nat,
                    ghost before: seq<Byte>)
    returns (ok: bool, addr': nat, strtab': nat)
    requires i < |vec| && NoNul(vec[i]) && InRange(compat, vec, strtab0) && addr0 + PointerRoom(compat, |vec|) <= strtab0
    requires strtab == strtab0 + Size(vec, i) && addr == addr0 + Off(compat, SlotsAfter(compat, i))
    requires Partly(t.mem, t.big, compat, addr0, strtab0, vec, SlotsAfter(compat, i), i)
    requires OnlyWithin(before, t.mem, addr0, strtab0 + Size(vec, |vec|) + 15)
    modifies t
    ensures |t.mem| == |old(t.mem)| && OnlyWithin(before, t.mem, addr0, strtab0 + Size(vec, |vec|) + 15)
    ensures strtab0 + Size(vec, |vec|) + 15 <= |t.mem| ==> ok
    ensures ok ==>
              && strtab' == strtab0 + Size(vec, i + 1) && addr' == addr0 + Off(compat, SlotsAfter(compat, i + 1))
              && Partly(t.mem, t.big, compat, addr0, strtab0, vec, SlotsAfter(compat, i + 1), i + 1)
              && t.mem == WithEntry(old(t.mem), t.big, compat, vec, addr0, strtab0, i)
  {
    hide Partly, OnlyWithin, WordFor, Packed, InRange, NoNul, Off, SlotsAfter, SlotsWritten, PointerRoom, WithString, WithWord;
    SlotArithmetic(compat, i, |vec|);
    addr', strtab' := addr, strtab;
    var word := strtab;
    var n := WriteOne(t, compat, vec, addr0, strtab0, strtab, i, SlotsAfter(compat, i), before);
    if n.None? {
      return false, addr, strtab;
    }
    strtab' := strtab + n.value;
    if compat && i % 2 == 1 {
      return true, addr, strtab';
    }
    if compat {
      word := Packed(t.big, word, if i + 1 < |vec| then strtab' else 0);
    }
    WordsComputed(t.big, compat, vec, strtab0, i);
    ok := PokeSlots(t, compat, vec, addr0, strtab0, addr, word, i + 1, i, before);
    addr' := addr + 8;
  }

  method WriteOne(t: Tracee, ghost compat: bool, vec: Strings, ghost addr: nat, ghost strtab: nat, a: nat,
                  i: nat, ghost d: nat, ghost before: seq<Byte>) returns (r: Option<nat>)
    requires i < |vec| && NoNul(vec[i]) && a == strtab + Size(vec, i)
    requires addr + Off(compat, d) <= strtab
    requires Partly(t.mem, t.big, compat, addr, strtab, vec, d, i)
    requires OnlyWithin(before, t.mem, addr, strtab + Size(vec, |vec|) + 15)
    modifies t
    ensures |t.mem| == |old(t.mem)|
    ensures strtab + Size(vec, |vec|) + 15 <= |t.mem| ==> r.Some?
    ensures r.Some? ==> r.value == |vec[i]| + 1 && Partly(t.mem, t.big, compat, addr, strtab, vec, d, i + 1)
    ensures r.Some? ==> t.mem == WithString(old(t.mem), t.big, a, vec[i])
    ensures OnlyWithin(before, t.mem, addr, strtab + Size(vec, |vec|) + 15)
  {
    hide Partly, Overlay, Padded, BytesWritten, NoNul;
    ghost var n, mem, end := BytesWritten(|vec[i]|, t.big), t.mem, strtab + Size(vec, |vec|) + 15;
    WordStarts(|vec[i]|, 0, t.big);
    SizeMonotone(vec, i, |vec|);
    r := t.WriteString(a, vec[i]);
    if r.Some? {
      AddString(mem, t.big, compat, addr, strtab, vec, d, i, n);
      WithinExtends(before, mem, addr, end, a, Padded(vec[i], n), end);
    } else {
      assert a <= |mem| ==> t.mem[..a][..addr] == t.mem[..addr] && mem[..a][..addr] == mem[..addr];
    }
  }

  method PokeSlots(t: Tracee, compat: bool, ghost vec: Strings, ghost addr: nat, ghost strtab: nat, a: nat, word: nat,
                   ghost i: nat, ghost d: nat, ghost before: seq<Byte>) returns (ok: bool)
    requires d <= |vec| && a == addr + Off(compat, d) && a + 8 <= strtab && InRange(compat, vec, strtab)
    requires word == WordFor(t.big, compat, vec, strtab, d)
    requires Partly(t.mem, t.big, compat, addr, strtab, vec, d, i)
    requires OnlyWithin(before, t.mem, addr, strtab + Size(vec, |vec|) + 15)
    modifies t
    ensures |t.mem| == |old(t.mem)| && ok == (a + 8 <= |t.mem|)
    ensures ok ==> Partly(t.mem, t.big, compat, addr, strtab, vec, SlotsWritten(compat, d, |vec|), i)
    ensures ok ==> t.mem == WithWord(old(t.mem), t.big, compat, vec, addr, strtab, d)
    ensures OnlyWithin(before, t.mem, addr, strtab + Size(vec, |vec|) + 15)
  {
    hide Partly, Overlay, OnlyWithin, Enc, WordFor, InRange;
    ghost var mem, end := t.mem, strtab + Size(vec, |vec|) + 15;
    ok := t.Poke(a, Enc(t.big, word, 8));
    if ok {
      AddSlots(mem, t.big, compat, addr, strtab, vec, d, i);
      WithinExtends(before, mem, addr, end, a, Enc(t.big, word, 8), end);
    }
  }
}
