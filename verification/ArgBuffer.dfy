/** Reading the arguments of a traced execve(2) into a buffer that doubles when
    it is full: the strings of a vector one behind the other, then the vector
    itself with offsets into the buffer. */
module ArgBuffers {
  import opened IoLogs
  import opened Options
  import opened Words
  import opened Tracees
  import opened ExecVectors
  import opened ExecReads

  // ---- the slots ----

  /** The word in a slot, as the loop in `ptrace_read_vec` gets it: it peeks at
      every second slot only and keeps the other half for the next turn. */
  method NextWord(t: Tracee, compat: bool, addr: nat, stash: Option<nat>) returns (word: nat, stash': Option<nat>)
    ensures stash.Some? ==> word == stash.value && stash' == None
    ensures stash.None? && !compat ==> word == Dec(t.big, WordAt(t.mem, addr)) && stash' == None
    ensures stash.None? && compat ==> word == Dec(t.big, WordAt(t.mem, addr)[..4])
                                      && stash' == Some(Dec(t.big, WordAt(t.mem, addr)[4..]))
  {
    if stash.Some? {
      return stash.value, None;
    }
    var peeked := t.Peek(addr);
    var w := if peeked.Some? then peeked.value else Ones(8);
    word := Dec(t.big, w);
    stash' := None;
    if compat {
      HalvesRead(t.big, w[..4], w[4..]);
      assert w[..4] + w[4..] == w;
      if t.big {
        word, stash' := word / HALF, Some(word % HALF);
      } else {
        word, stash' := word % HALF, Some(word / HALF);
      }
    }
  }

  /** What the loop over the slots knows before its j-th turn. */
  ghost predicate AtSlot(mem: seq<Byte>, big: bool, compat: bool, addr: nat, j: nat, a: nat, stash: Option<nat>) {
    && a == addr + Off(compat, j)
    && stash == if compat && j % 2 == 1 then Some(SlotAt(mem, big, compat, addr, j)) else None
  }

  method ReadSlot(t: Tracee, compat: bool, a: nat, stash: Option<nat>, ghost addr: nat, ghost j: nat)
    returns (word: nat, stash': Option<nat>)
    requires AtSlot(t.mem, t.big, compat, addr, j, a, stash)
    ensures word == SlotAt(t.mem, t.big, compat, addr, j)
    ensures AtSlot(t.mem, t.big, compat, addr, j + 1, a + Off(compat, 1), stash')
  {
    hide Dec, WordAt;
    word, stash' := NextWord(t, compat, a, stash);
    assert (j + 1) % 2 == 1 <==> j % 2 != 1;
  }

  // ---- the buffer ----

  /** The first n bytes of the buffer have been kept; it may have grown. */
  ghost predicate Kept(before: seq<Byte>, n: nat, data: seq<Byte>) {
    n <= |before| <= |data| && data[..n] == before[..n]
  }

  lemma {:induction false} KeptPart(before: seq<Byte>, n: nat, data: seq<Byte>, i: nat, j: nat)
    requires Kept(before, n, data) && i <= j <= n
    ensures data[i..j] == before[i..j] && Kept(before, i, data) && (i < n ==> data[i] == before[i])
  {
    forall k | 0 <= k < n ensures data[k] == before[k] {
      assert data[..n][k] == before[..n][k];
    }
  }

  lemma {:induction false} KeptOn(before: seq<Byte>, n: nat, d: seq<Byte>, m: nat, data: seq<Byte>)
    requires Kept(before, n, d) && Kept(d, m, data) && n <= m
    ensures Kept(before, n, data)
  {
    KeptPart(d, m, data, 0, n);
    assert data[0..n] == data[..n] && d[0..n] == d[..n];
  }

  /** The size of a buffer that is doubled until `need` bytes fit. */
  function SizeFor(size: nat, need: nat): (n: nat)
    requires size > 0
    ensures n >= need && n >= size && (size >= need ==> n == size)
    decreases need - size
  {
    if size >= need then size else SizeFor(2 * size, need)
  }

  lemma {:induction false} SizeForDoubled(size: nat, need: nat)
    requires 0 < size < need
    ensures SizeFor(size, need) == SizeFor(2 * size, need)
  {
  }

  lemma {:induction false} SizeForMore(size: nat, a: nat, b: nat)
    requires size > 0 && a <= b
    ensures SizeFor(SizeFor(size, a), b) == SizeFor(size, b)
    decreases a - size
  {
    if size < a {
      SizeForMore(2 * size, a, b);
    }
  }

  class ArgBuf {
    var data: seq<Byte>

    constructor (size: nat)
      ensures |data| == size
    {
      var bytes := new Byte[size];
      data := bytes[..];
    }

    /** `growbuf`: twice the size, contents kept, and the rest whatever it is. */
    method Grow()
      modifies this
      ensures |data| == 2 * |old(data)| && Kept(old(data), |old(data)|, data)
    {
      var rest := new Byte[|data|];
      data := data + rest[..];
    }

    method Put(pos: nat, bytes: seq<Byte>)
      requires pos + |bytes| <= |data|
      modifies this
      ensures data == Overlay(old(data), pos, bytes) && Kept(old(data), pos, data)
      ensures data[pos..pos + |bytes|] == bytes
    {
      data := Overlay(data, pos, bytes);
    }

    /** The retry loop around `ptrace_read_string`. */
    method ReadInto(t: Tracee, a: nat, pos: nat) returns (len: Option<nat>)
      requires 0 < |data| && pos <= |data|
      modifies this
      ensures Kept(old(data), pos, data)
      ensures len == if Text(t.mem, a).Some? then Some(|Text(t.mem, a).value| + 1) else None
      ensures len.Some? ==> pos + len.value <= |data| && data[pos..pos + len.value] == Text(t.mem, a).value + [0]
      ensures len.Some? ==> |data| == SizeFor(|old(data)|, pos + len.value)
    {
      hide Text, ReadFrom, Overlay, SizeFor;
      ghost var need := if Text(t.mem, a).Some? then pos + |Text(t.mem, a).value| + 1 else 0;
      while true
        invariant 0 < |data| && Kept(old(data), pos, data)
        invariant Text(t.mem, a).Some? ==> SizeFor(|data|, need) == SizeFor(|old(data)|, need)
        decreases |t.mem| + pos - |data| + 1
      {
        ReadIsText(t.mem, a, |data| - pos);
        var r := t.ReadString(a, |data| - pos);
        ghost var d := data;
        match r {
          case Failed => return None;
          case NoSpace =>
            TextFits(t.mem, a);
            if Text(t.mem, a).Some? {
              SizeForDoubled(|data|, need);
            }
            Grow();
            KeptOn(old(data), pos, d, |d|, data);
          case Bytes(str) =>
            Put(pos, str + [0]);
            KeptOn(old(data), pos, d, pos, data);
            return Some(|str| + 1);
        }
      }
    }
  }

  lemma {:induction false} TextFits(mem: seq<Byte>, a: nat)
    ensures Text(mem, a).Some? ==> |Text(mem, a).value| <= |mem|
  {
    if Text(mem, a).Some? {
      TextIsString(mem, a);
    }
  }

  // ---- the string table ----

  /** The first i strings, each with its NUL. */
  function Table(vec: Strings, i: nat): (s: seq<Byte>)
    requires i <= |vec|
    ensures |s| == Size(vec, i)
  {
    if i == 0 then [] else Table(vec, i - 1) + vec[i - 1] + [0]
  }

  lemma {:induction false} TableFront(vec: Strings, s: seq<Byte>, i: nat)
    requires i <= |vec|
    ensures Size(vec + [s], i) == Size(vec, i) && Table(vec + [s], i) == Table(vec, i)
  {
    if i > 0 {
      TableFront(vec, s, i - 1);
    }
  }

  ghost predicate TableAt(data: seq<Byte>, off: nat, vec: Strings) {
    off + Size(vec, |vec|) <= |data| && data[off..off + Size(vec, |vec|)] == Table(vec, |vec|)
  }

  lemma {:induction false} TableGrows(data: seq<Byte>, off: nat, vec: Strings, pos: nat, data': seq<Byte>, s: seq<Byte>)
    requires TableAt(data, off, vec) && pos == off + Size(vec, |vec|) && Kept(data, pos, data')
    requires pos + |s| + 1 <= |data'| && data'[pos..pos + |s| + 1] == s + [0]
    ensures TableAt(data', off, vec + [s]) && pos + |s| + 1 == off + Size(vec + [s], |vec| + 1)
  {
    var end := pos + |s| + 1;
    TableFront(vec, s, |vec|);
    KeptPart(data, pos, data', off, pos);
    assert data'[off..end] == data'[off..pos] + data'[pos..end];
    assert Table(vec, |vec|) + (s + [0]) == Table(vec + [s], |vec| + 1);
  }

  /** The strings of the first slots are in the table, and the rest follows. */
  ghost predicate Filling(mem: seq<Byte>, big: bool, compat: bool, addr: nat, before: seq<Byte>, off: nat,
                          data: seq<Byte>, pos: nat, got: Strings) {
    && AddressSpace(mem, compat) && Kept(before, off, data)
    && TableAt(data, off, got) && pos == off + Size(got, |got|) && 0 < |before| && |data| == SizeFor(|before|, pos)
    && VecFrom(mem, big, compat, addr, 0) == After(got, VecFrom(mem, big, compat, addr, |got|))
  }

  lemma {:induction false} FillingStarts(mem: seq<Byte>, big: bool, compat: bool, addr: nat, data: seq<Byte>, off: nat)
    requires AddressSpace(mem, compat) && off <= |data| && 0 < |data|
    ensures Filling(mem, big, compat, addr, data, off, data, off, [])
  {
    hide VecFrom, AddressSpace;
    assert data[off..off] == [];
    var all := VecFrom(mem, big, compat, addr, 0);
    assert all.Some? ==> [] + all.value == all.value;
  }

  lemma {:induction false} FillingOn(mem: seq<Byte>, big: bool, compat: bool, addr: nat, before: seq<Byte>, off: nat,
                                     data: seq<Byte>, pos: nat, got: Strings, data': seq<Byte>, s: seq<Byte>)
    requires Filling(mem, big, compat, addr, before, off, data, pos, got) && Kept(data, pos, data')
    requires SlotAt(mem, big, compat, addr, |got|) != 0 && Text(mem, SlotAt(mem, big, compat, addr, |got|)) == Some(s)
    requires pos + |s| + 1 <= |data'| && data'[pos..pos + |s| + 1] == s + [0]
    requires 0 < |data| && |data'| == SizeFor(|data|, pos + |s| + 1)
    ensures Filling(mem, big, compat, addr, before, off, data', pos + |s| + 1, got + [s])
  {
    hide SlotAt, Text, AddressSpace, TableAt, SizeFor, Size, Kept;
    SizeForMore(|before|, pos, pos + |s| + 1);
    KeptOn(before, off, data, pos, data');
    TableGrows(data, off, got, pos, data', s);
    var rest := VecFrom(mem, big, compat, addr, |got| + 1);
    assert rest.Some? ==> got + ([s] + rest.value) == (got + [s]) + rest.value;
  }

  lemma {:induction false} FillingEnds(mem: seq<Byte>, big: bool, compat: bool, addr: nat, before: seq<Byte>, off: nat,
                                       data: seq<Byte>, pos: nat, got: Strings)
    requires Filling(mem, big, compat, addr, before, off, data, pos, got)
    ensures off <= pos <= |data| && Kept(before, off, data) && AddressSpace(mem, compat)
    ensures var v := SlotAt(mem, big, compat, addr, |got|);
            if v == 0 then VecFrom(mem, big, compat, addr, 0) == Some(got) && TableAt(data, off, got)
                           && 0 < |before| && |data| == SizeFor(|before|, pos)
            else Text(mem, v).None? ==> VecFrom(mem, big, compat, addr, 0).None?
    ensures SlotAt(mem, big, compat, addr, |got|) == FULL - 1 ==> VecFrom(mem, big, compat, addr, 0).None?
  {
    hide SlotAt;
    assert got + [] == got;
  }

  datatype Turn = AtNull | Unread | Read(a: nat, pos: nat, stash: Option<nat>)

  /** One turn: the address in a slot, and the string it points to. */
  method ReadOne(t: Tracee, compat: bool, buf: ArgBuf, a: nat, pos: nat, stash: Option<nat>,
                 ghost addr: nat, ghost off: nat, ghost before: seq<Byte>, ghost got: Strings)
    returns (turn: Turn, ghost got': Strings)
    requires AtSlot(t.mem, t.big, compat, addr, |got|, a, stash) && 0 < |buf.data|
    requires Filling(t.mem, t.big, compat, addr, before, off, buf.data, pos, got)
    modifies buf
    ensures Kept(before, off, buf.data) && 0 < |buf.data|
    ensures turn.AtNull? ==>
              && VecFrom(t.mem, t.big, compat, addr, 0) == Some(got) && buf.data == old(buf.data) && TableAt(buf.data, off, got)
              && 0 < |before| && |buf.data| == SizeFor(|before|, pos)
    ensures turn.Unread? ==> VecFrom(t.mem, t.big, compat, addr, 0).None?
    ensures turn.Read? ==>
              && a < turn.a && a < |t.mem| && |got'| == |got| + 1
              && AtSlot(t.mem, t.big, compat, addr, |got'|, turn.a, turn.stash)
              && Filling(t.mem, t.big, compat, addr, before, off, buf.data, turn.pos, got')
  {
    hide SlotAt, Text, Filling, VecFrom, TableAt, AddressSpace, SizeFor;
    FillingEnds(t.mem, t.big, compat, addr, before, off, buf.data, pos, got);
    got' := got;
    var word, stash' := ReadSlot(t, compat, a, stash, addr, |got|);
    if word == FULL - 1 {
      return Unread, got;
    }
    if word == 0 {
      return AtNull, got;
    }
    ghost var data := buf.data;
    var len := buf.ReadInto(t, word, pos);
    KeptOn(before, off, data, pos, buf.data);
    if len.None? {
      return Unread, got;
    }
    ghost var s := Text(t.mem, word).value;
    SlotInMemory(t.mem, t.big, compat, addr, |got|);
    FillingOn(t.mem, t.big, compat, addr, before, off, data, pos, got, buf.data, s);
    return Read(a + Off(compat, 1), pos + len.value, stash'), got + [s];
  }

  /** The first loop of `ptrace_read_vec`; it gives the end of the table. */
  method FillTable(t: Tracee, compat: bool, addr: nat, buf: ArgBuf, off: nat) returns (end: Option<nat>)
    requires AddressSpace(t.mem, compat) && 0 < |buf.data| && off <= |buf.data|
    modifies buf
    ensures Kept(old(buf.data), off, buf.data) && 0 < |buf.data|
    ensures var vec := VecFrom(t.mem, t.big, compat, addr, 0);
            && (end.Some? <==> vec.Some?)
            && (end.Some? ==> TableAt(buf.data, off, vec.value) && end.value == off + Size(vec.value, |vec.value|)
                              && |buf.data| == SizeFor(|old(buf.data)|, end.value))
  {
    var a: nat, pos: nat, stash: Option<nat> := addr, off, None;
    ghost var got: Strings := [];
    FillingStarts(t.mem, t.big, compat, addr, buf.data, off);
    assert AtSlot(t.mem, t.big, compat, addr, 0, a, stash);
    hide AtSlot, Filling, VecFrom, TableAt, AddressSpace, Kept, SlotAt, Text, SizeFor;
    while true
      invariant AtSlot(t.mem, t.big, compat, addr, |got|, a, stash) && 0 < |buf.data|
      invariant Filling(t.mem, t.big, compat, addr, old(buf.data), off, buf.data, pos, got)
      decreases |t.mem| - a
    {
      FillingPos(t.mem, t.big, compat, addr, old(buf.data), off, buf.data, pos, got);
      var turn, got' := ReadOne(t, compat, buf, a, pos, stash, addr, off, old(buf.data), got);
      match turn {
        case AtNull => return Some(pos);
        case Unread => return None;
        case Read(a', pos', stash') => a, pos, stash, got := a', pos', stash', got';
      }
    }
  }

  lemma {:induction false} FillingPos(mem: seq<Byte>, big: bool, compat: bool, addr: nat, before: seq<Byte>, off: nat,
                                      data: seq<Byte>, pos: nat, got: Strings)
    requires Filling(mem, big, compat, addr, before, off, data, pos, got)
    ensures pos == off + Size(got, |got|)
  {
  }

  // ---- the vector behind the string table ----

  function Align8(n: nat): (m: nat)
    ensures n <= m < n + 8
  {
    (n + 7) / 8 * 8
  }

  datatype Room = Room(left: nat, size: nat)

  function Doubled(r: Room): Room {
    Room(r.left + r.size, 2 * r.size)
  }

  /** Doubling until two addresses fit. */
  function Grown(r: Room): (g: Room)
    requires r.size > 0
    ensures g.left >= 16 && g.size >= r.size && g.left - r.left == g.size - r.size
    ensures r.left >= 16 ==> g == r
    decreases 16 - r.left
  {
    if r.left >= 16 then r else Grown(Doubled(r))
  }

  /** Room for the vector when its first entry is stored; aligning it costs pad bytes. */
  function FirstRoom(left: nat, size: nat, pad: nat): nat
    requires size > 0 && pad < 8
  {
    var r := Grown(Room(left, size));
    Grown(Room(r.left - pad, r.size)).left
  }

  /** Bytes from the end of a table to where its vector is aligned. */
  function Pad(end: nat): (n: nat)
    ensures n < 8
  {
    Align8(end) - end
  }

  function End(off: nat, vec: Strings): nat {
    off + Size(vec, |vec|)
  }

  /** With the table in a buffer of this size, the room at the first entry is
      too small for all, so the buffer grows between two of them. */
  predicate TooSmall(size: nat, off: nat, vec: Strings)
    requires size > 0 && End(off, vec) <= size
  {
    2 <= |vec| && FirstRoom(size - End(off, vec), size, Pad(End(off, vec))) < 8 * (|vec| + 1)
  }

  /** The size of the buffer once the vector is made, if it was not. */
  function MadeSize(size: nat, off: nat, vec: Strings): (n: nat)
    requires size > 0 && End(off, vec) <= size
    ensures n >= size
  {
    var end := End(off, vec);
    var g := Grown(Room(size - end, size));
    if vec == [] then g.size else Grown(Room(g.left - Pad(end), g.size)).size
  }

  /** Bytes that table and vector take from off on. */
  function UsedBy(off: nat, vec: Strings): nat {
    Align8(End(off, vec)) + 8 * (|vec| + 1) - off
  }

  /** The same for a vector that is read into a buffer of this size. */
  predicate Overruns(size: nat, off: nat, vec: Strings)
    requires size > 0
  {
    TooSmall(SizeFor(size, End(off, vec)), off, vec)
  }

  function SizeAfter(size: nat, off: nat, vec: Strings): (n: nat)
    requires size > 0
    ensures n >= size
  {
    MadeSize(SizeFor(size, End(off, vec)), off, vec)
  }

  lemma {:induction false} TableHolds(vec: Strings, i: nat, n: nat)
    requires i < n <= |vec|
    ensures Size(vec, i) + |vec[i]| + 1 <= Size(vec, n)
    ensures Table(vec, n)[Size(vec, i)..Size(vec, i) + |vec[i]| + 1] == vec[i] + [0]
    decreases n
  {
    SizeMonotone(vec, i, n);
    var a, b := Size(vec, i), Size(vec, i) + |vec[i]| + 1;
    if i + 1 < n {
      TableHolds(vec, i, n - 1);
      SizeMonotone(vec, i, n - 1);
      assert Table(vec, n)[a..b] == Table(vec, n - 1)[a..b];
    } else {
      assert Table(vec, n)[a..b] == vec[i] + [0];
    }
  }

  lemma {:induction false} FirstNulAt(data: seq<Byte>, from: nat, end: nat, s: seq<Byte>)
    requires NoNul(s) && from + |s| + 1 <= end <= |data| && data[from..from + |s| + 1] == s + [0]
    ensures FirstNul(data[from..end]) == |s|
  {
    var w, z := data[from..end], data[from..from + |s| + 1];
    assert forall j :: 0 <= j < |s| ==> w[j] == z[j] == s[j];
    assert w[|s|] == z[|s|] == 0;
  }

  /** memchr(3) from the start of a string finds its NUL. */
  lemma {:induction false} NulFound(data: seq<Byte>, off: nat, vec: Strings, i: nat, end: nat)
    requires TableAt(data, off, vec) && i < |vec| && NoNul(vec[i]) && off + Size(vec, |vec|) <= end <= |data|
    ensures Size(vec, i) + |vec[i]| + 1 <= Size(vec, |vec|)
    ensures FirstNul(data[off + Size(vec, i)..end]) == |vec[i]|
  {
    hide Size, Table, FirstNul, NoNul;
    TableHolds(vec, i, |vec|);
    var a, n, k := Size(vec, i), Size(vec, |vec|), |vec[i]|;
    SliceOfSlice(data, off, n, a, a + k + 1);
    FirstNulAt(data, off + a, end, vec[i]);
  }

  lemma {:induction false} SliceOfSlice(data: seq<Byte>, off: nat, n: nat, a: nat, b: nat)
    requires off + n <= |data| && a <= b <= n
    ensures data[off..off + n][a..b] == data[off + a..off + b]
  {
    var t, u := data[off..off + n], data[off + a..off + b];
    assert forall i :: 0 <= i < |u| ==> t[a..b][i] == u[i];
  }

  lemma {:induction false} StringFrom(data: seq<Byte>, a: nat, s: seq<Byte>)
    requires a + |s| + 1 <= |data| && data[a..a + |s| + 1] == s + [0]
    ensures StringAt(data, a, s)
  {
    var w := data[a..a + |s| + 1];
    assert data[a..a + |s|] == w[..|s|] && data[a + |s|] == w[|s|];
  }

  /** The strings of a table stand where its offsets say. */
  lemma {:induction false} TableStrings(data: seq<Byte>, off: nat, vec: Strings, j: nat)
    requires TableAt(data, off, vec) && j < |vec|
    ensures StringOk(data, off, vec, j)
  {
    hide Size, Table;
    TableHolds(vec, j, |vec|);
    var a, k := Size(vec, j), |vec[j]|;
    SliceOfSlice(data, off, Size(vec, |vec|), a, a + k + 1);
    StringFrom(data, off + a, vec[j]);
  }

  /** The room left: it is the first room less the entries stored. */
  ghost predicate Building(vec: Strings, off: nat, d: nat, strtab: nat, room: nat, size: nat, vecOff: nat, first: nat) {
    && d <= |vec| && strtab == off + Size(vec, d)
    && size > 0 && room + vecOff + 8 * d == size && room >= 8
    && if d == 0 then first == Grown(Room(room, size)).left else room + 8 * d == first
  }

  lemma {:induction false} BuildStart(vec: Strings, off: nat, left: nat, size: nat)
    requires 0 < size == off + Size(vec, |vec|) + left
    ensures var end := off + Size(vec, |vec|); var at := Align8(end); var g := Grown(Room(left, size));
            Building(vec, off, 0, off, g.left - (at - end), g.size, at, FirstRoom(left, size, at - end))
  {
  }

  lemma {:induction false} BuildStep(vec: Strings, off: nat, d: nat, strtab: nat, room: nat, size: nat, vecOff: nat, first: nat)
    requires Building(vec, off, d, strtab, room, size, vecOff, first) && d < |vec| && (d == 0 || room >= 16)
    ensures var g := Grown(Room(room, size));
            Building(vec, off, d + 1, strtab + |vec[d]| + 1, g.left - 8, g.size, vecOff, first) && vecOff + 8 * d + 16 <= g.size
  {
  }

  lemma {:induction false} BuildAt(vec: Strings, off: nat, d: nat, strtab: nat, room: nat, size: nat, vecOff: nat, first: nat)
    requires Building(vec, off, d, strtab, room, size, vecOff, first)
    ensures size > 0 && d <= |vec| && strtab == off + Size(vec, d) && vecOff + 8 * (d + 1) <= size
    ensures strtab < off + Size(vec, |vec|) ==> d < |vec|
    ensures strtab < off + Size(vec, |vec|) && room < 16 && d != 0 ==> 2 <= |vec| && first < 8 * (|vec| + 1)
    ensures strtab >= off + Size(vec, |vec|) ==> d == |vec| && (2 <= |vec| ==> first >= 8 * (|vec| + 1))
  {
    SizeMonotone(vec, d, |vec|);
  }

  /** The table is as it was, and the first d entries of the vector stand
      behind it. */
  ghost predicate Entered(before: seq<Byte>, data: seq<Byte>, big: bool, off: nat, vec: Strings, vecOff: nat, d: nat) {
    && off + Size(vec, |vec|) <= vecOff && Kept(before, off + Size(vec, |vec|), data) && TableAt(before, off, vec)
    && Partly(data, big, false, vecOff, off, vec, d, 0)
  }

  lemma {:induction false} EnteredTable(before: seq<Byte>, data: seq<Byte>, big: bool, off: nat, vec: Strings, vecOff: nat, d: nat)
    requires Entered(before, data, big, off, vec, vecOff, d)
    ensures TableAt(data, off, vec)
  {
    hide Partly;
    KeptPart(before, off + Size(vec, |vec|), data, off, off + Size(vec, |vec|));
  }

  lemma {:induction false} EnteredGrown(before: seq<Byte>, d1: seq<Byte>, data: seq<Byte>, big: bool, off: nat, vec: Strings, vecOff: nat, d: nat)
    requires Entered(before, d1, big, off, vec, vecOff, d) && Kept(d1, |d1|, data)
    ensures Entered(before, data, big, off, vec, vecOff, d)
  {
    hide Size, TableAt, Enc, Slot;
    KeptOn(before, off + Size(vec, |vec|), d1, |d1|, data);
    forall j: nat | j < d ensures SlotOk(data, big, false, vecOff, off, vec, j) {
      assert SlotOk(d1, big, false, vecOff, off, vec, j);
      KeptPart(d1, |d1|, data, vecOff + Off(false, j), vecOff + Off(false, j) + 8);
    }
  }

  lemma {:induction false} EnteredOne(before: seq<Byte>, data: seq<Byte>, big: bool, off: nat, vec: Strings, vecOff: nat, d: nat)
    requires Entered(before, data, big, off, vec, vecOff, d) && d <= |vec| && vecOff + 8 * d + 8 <= |data|
    ensures Entered(before, Overlay(data, vecOff + 8 * d, Enc(big, Slot(vec, off, d), 8)), big, off, vec, vecOff, d + 1)
  {
    hide Size, TableAt, Enc, Slot, Overlay;
    var w := Enc(big, Slot(vec, off, d), 8);
    var m, n := Overlay(data, vecOff + 8 * d, w), off + Size(vec, |vec|);
    OverlayKeeps(data, vecOff + 8 * d, w, 0, n);
    assert m[0..n] == m[..n] && data[0..n] == data[..n];
    NativeSlot(data, big, vecOff, off, vec, d);
    forall j: nat | j < d ensures SlotOk(m, big, false, vecOff, off, vec, j) {
      assert SlotOk(data, big, false, vecOff, off, vec, j);
      OverlayKeeps(data, vecOff + 8 * d, w, vecOff + 8 * j, vecOff + 8 * j + 8);
    }
  }

  lemma {:induction false} EnteredAll(before: seq<Byte>, data: seq<Byte>, big: bool, off: nat, vec: Strings, vecOff: nat)
    requires Entered(before, data, big, off, vec, vecOff, |vec| + 1)
    ensures VectorAt(data, big, false, vecOff, off, vec) && Kept(before, off + Size(vec, |vec|), data)
  {
    EnteredTable(before, data, big, off, vec, vecOff, |vec| + 1);
    hide Size, TableAt, StringOk, SlotOk;
    forall j: nat | j < |vec| ensures StringOk(data, off, vec, j) {
      TableStrings(data, off, vec, j);
    }
  }

  lemma {:induction false} NoneEntered(before: seq<Byte>, data: seq<Byte>, big: bool, off: nat, vec: Strings, vecOff: nat)
    requires TableAt(before, off, vec) && Kept(before, |before|, data) && off + Size(vec, |vec|) <= vecOff
    ensures Entered(before, data, big, off, vec, vecOff, 0)
  {
    hide Size, Table;
    var n := off + Size(vec, |vec|);
    KeptPart(before, |before|, data, 0, n);
    assert data[0..n] == data[..n] && before[0..n] == before[..n];
  }

  // ---- making the vector ----

  method AddRoom(buf: ArgBuf, left: nat, ghost before: seq<Byte>) returns (room: nat)
    requires 0 < |buf.data| && left < 16 && Kept(before, |before|, buf.data)
    modifies buf
    ensures room > left && 0 < |buf.data| && Kept(before, |before|, buf.data)
    ensures Grown(Room(room, |buf.data|)) == Grown(Room(left, |old(buf.data)|))
  {
    hide Grown;
    ghost var d := buf.data;
    GrownOnce(Room(left, |buf.data|));
    room := left + |buf.data|;
    buf.Grow();
    KeptOn(before, |before|, d, |d|, buf.data);
  }

  lemma {:induction false} GrownOnce(r: Room)
    requires r.left < 16 && r.size > 0
    ensures Grown(r) == Grown(Doubled(r))
  {
  }

  /** The loop that grows the buffer until two addresses fit. */
  method MakeRoom(buf: ArgBuf, left: nat) returns (room: nat)
    requires 0 < |buf.data|
    modifies buf
    ensures Kept(old(buf.data), |old(buf.data)|, buf.data)
    ensures Room(room, |buf.data|) == Grown(Room(left, |old(buf.data)|))
  {
    room := left;
    assert Kept(buf.data, |buf.data|, buf.data);
    hide Kept, Grown;
    while room < 16
      invariant 0 < |buf.data| && Kept(old(buf.data), |old(buf.data)|, buf.data)
      invariant Grown(Room(room, |buf.data|)) == Grown(Room(left, |old(buf.data)|))
      decreases 16 - room
    {
      room := AddRoom(buf, room, old(buf.data));
    }
    RoomEnough(Room(room, |buf.data|));
  }

  lemma {:induction false} RoomEnough(r: Room)
    requires r.size > 0 && r.left >= 16
    ensures Grown(r) == r
  {
  }

  /** One turn of the loop: the string's offset becomes entry d. */
  method StoreEntry(buf: ArgBuf, big: bool, left: nat, strtab: nat, strend: nat, vecOff: nat, d: nat,
                    ghost before: seq<Byte>, ghost off: nat, ghost vec: Strings)
    returns (room: nat, next: nat)
    requires 0 < |buf.data| && Entered(before, buf.data, big, off, vec, vecOff, d) && d < |vec| && NoNul(vec[d])
    requires strtab == off + Size(vec, d) && strend == off + Size(vec, |vec|)
    requires vecOff + 8 * d + 16 <= Grown(Room(left, |buf.data|)).size
    modifies buf
    ensures Room(room + 8, |buf.data|) == Grown(Room(left, |old(buf.data)|))
    ensures Entered(before, buf.data, big, off, vec, vecOff, d + 1) && next == strtab + |vec[d]| + 1
  {
    hide Grown, Table, TableAt, Size, FirstNul, NoNul, Entered, Enc, Overlay;
    ghost var data := buf.data;
    room := MakeRoom(buf, left);
    EnteredGrown(before, data, buf.data, big, off, vec, vecOff, d);
    EnteredOne(before, buf.data, big, off, vec, vecOff, d);
    buf.Put(vecOff + 8 * d, Enc(big, strtab, 8));
    room := room - 8;
    EnteredTable(before, buf.data, big, off, vec, vecOff, d + 1);
    TableEnds(buf.data, off, vec);
    NulFound(buf.data, off, vec, d, strend);
    next := strtab + FirstNul(buf.data[strtab..strend]) + 1;
  }

  lemma {:induction false} TableEnds(data: seq<Byte>, off: nat, vec: Strings)
    requires TableAt(data, off, vec)
    ensures off + Size(vec, |vec|) <= |data|
  {
  }

  /** What `strtab_to_vec` gives: the number of entries, where the vector is and
      the bytes it takes; or an entry would lie outside the buffer. */
  datatype Made = Vector(count: nat, at: nat, used: nat) | Outside

  ghost predicate Right(data: seq<Byte>, big: bool, off: nat, m: Made, vec: Strings) {
    m.Vector? && m.count == |vec| && VectorAt(data, big, false, m.at, off, vec)
  }

  // ---- growing between two entries ----

  /** What the loop knows once the buffer has grown between two entries: it
      takes the end of the table to be further on than it is. */
  ghost predicate Over(before: seq<Byte>, data: seq<Byte>, off: nat, vec: Strings,
                       count: nat, strtab: nat, strend: nat, at: nat, room: nat) {
    var end := off + Size(vec, |vec|);
    && Kept(before, end, data) && TableAt(before, off, vec)
    && end < strend <= |data| && strend <= at && strtab <= strend
    && (count <= |vec| ==> strtab == off + Size(vec, count))
    && (Short(vec, |data|) == 0 ==> room >= 8 * (strend - strtab) + 8)
  }

  /** How far the buffer is from a size at which it grows no more. */
  function Short(vec: Strings, size: nat): nat {
    var enough := 16 * Size(vec, |vec|) + 64;
    if size >= enough then 0 else enough - size
  }

  lemma {:induction false} GrownHalf(r: Room)
    requires r.size > 0 && r.left < 16
    ensures var g := Grown(r); 2 * g.left >= g.size >= 2 * r.size
  {
    HalfGrown(Doubled(r));
  }

  lemma {:induction false} HalfGrown(r: Room)
    requires r.size > 0 && 2 * r.left >= r.size
    ensures var g := Grown(r); 2 * g.left >= g.size >= r.size
    decreases 16 - r.left
  {
    if r.left < 16 {
      HalfGrown(Doubled(r));
    }
  }

  /** Growing: the end is taken from the string reached, not from the first. */
  lemma {:induction false} OverGrows(before: seq<Byte>, d: seq<Byte>, data: seq<Byte>, off: nat, vec: Strings,
                                     count: nat, strtab: nat, at: nat, room: nat, left: nat)
    requires Kept(before, off + Size(vec, |vec|), d) && TableAt(before, off, vec) && Kept(d, |d|, data)
    requires off < strtab <= |d| && (count <= |vec| ==> strtab == off + Size(vec, count)) && 0 < |d| && left < 16
    requires Room(room, |data|) == Grown(Room(left, |d|)) && strtab + Size(vec, |vec|) <= at
    ensures Over(before, data, off, vec, count, strtab, strtab + Size(vec, |vec|), at, room)
    ensures Short(vec, |d|) > 0 ==> Short(vec, |data|) < Short(vec, |d|)
  {
    GrownHalf(Room(left, |d|));
    hide Size, Grown, Table;
    KeptOn(before, off + Size(vec, |vec|), d, |d|, data);
  }

  lemma {:induction false} OverEnds(before: seq<Byte>, data: seq<Byte>, off: nat, vec: Strings,
                                    count: nat, strtab: nat, strend: nat, at: nat, room: nat)
    requires Over(before, data, off, vec, count, strtab, strend, at, room)
    ensures off + Size(vec, |vec|) < strend <= |data| && strend <= at && Kept(before, off + Size(vec, |vec|), data)
    ensures strtab == strend ==> count > |vec|
    ensures strtab < strend && room < 16 ==> Short(vec, |data|) > 0
    ensures strtab <= strend
  {
    hide Table;
    if count <= |vec| {
      SizeMonotone(vec, count, |vec|);
    }
  }

  /** Storing an entry leaves the table alone, and the next string is found if
      there is one. */
  lemma {:induction false} OverStores(before: seq<Byte>, d: seq<Byte>, data: seq<Byte>, off: nat, vec: Strings,
                                      count: nat, strtab: nat, strend: nat, at: nat, room: nat)
    requires Over(before, d, off, vec, count, strtab, strend, at, room) && strtab < strend && 8 <= room
    requires Kept(d, at, data) && |data| == |d| && (forall i :: 0 <= i < |vec| ==> NoNul(vec[i]))
    ensures var nul := FirstNul(data[strtab..strend]);
            && Kept(before, off + Size(vec, |vec|), data)
            && (strtab + nul == strend ==> count >= |vec|)
            && (strtab + nul < strend ==> Over(before, data, off, vec, count + 1, strtab + nul + 1, strend, at, room - 8))
  {
    hide Table, NoNul, FirstNul, Short, Size;
    var end := off + Size(vec, |vec|);
    KeptOn(before, end, d, at, data);
    KeptPart(before, end, data, off, end);
    if count < |vec| {
      NulFound(data, off, vec, count, strend);
      NextSize(vec, count);
    }
  }

  lemma {:induction false} NextSize(vec: Strings, i: nat)
    requires i < |vec|
    ensures Size(vec, i + 1) == Size(vec, i) + |vec[i]| + 1
  {
  }

  /** A vector with the end of the table in the place of its NULL is wrong. */
  lemma {:induction false} NotNull(data: seq<Byte>, big: bool, off: nat, vec: Strings, at: nat, end: nat)
    requires 0 < end < FULL && at + 8 * |vec| + 8 <= |data|
    requires data[at + 8 * |vec|..at + 8 * |vec| + 8] == Enc(big, end, 8)
    ensures !VectorAt(data, big, false, at, off, vec)
  {
    hide Enc, StringOk;
    NotZero(big, end);
    assert VectorAt(data, big, false, at, off, vec) ==> SlotOk(data, big, false, at, off, vec, |vec|);
  }

  lemma {:induction false} NotZero(big: bool, v: nat)
    requires 0 < v < FULL
    ensures Enc(big, v, 8) != Enc(big, 0, 8)
  {
    PowWord();
    hide Enc, Dec, Pow256;
    DecEnc(big, v, 8);
    DecEnc(big, 0, 8);
  }

  /** The NULL behind the last entry, which is the index-th. */
  method Terminate(buf: ArgBuf, big: bool, at: nat, count: nat, index: nat, strend: nat, ghost n: nat) returns (m: Made)
    requires n <= at && strend <= at
    modifies buf
    ensures |buf.data| == |old(buf.data)| && (n <= |buf.data| ==> Kept(old(buf.data), n, buf.data))
    ensures m.Vector? ==> m.count == count && m.at == at && strend + m.used == at + 8 * (index + 1) <= |buf.data|
    ensures m.Vector? ==> Kept(old(buf.data), at + 8 * index, buf.data)
  {
    if at + 8 * (index + 1) > |buf.data| {
      return Outside;
    }
    hide Enc, Overlay;
    ghost var d := buf.data;
    buf.Put(at + 8 * index, Enc(big, 0, 8));
    KeptPart(d, at + 8 * index, buf.data, n, n);
    m := Vector(count, at, at + 8 * (index + 1) - strend);
  }

  /** The loop from the turn on in which the buffer grows between two entries.
      The vector it makes is never right: it goes on past the table, and stores
      the table's end as one more string. */
  method Overrun(buf: ArgBuf, big: bool, off: nat, len: nat, start: nat, left: nat, first: nat, ghost vec: Strings, ghost before: seq<Byte>)
    returns (m: Made)
    requires 0 < first < |vec| && start == off + Size(vec, first) && len == Size(vec, |vec|) && left < 16
    requires Kept(before, off + len, buf.data) && TableAt(before, off, vec) && (forall i :: 0 <= i < |vec| ==> NoNul(vec[i]))
    modifies buf
    ensures Kept(before, off + len, buf.data)
    ensures off + len < FULL ==> !Right(buf.data, big, off, m, vec)
    ensures m.Vector? ==> off + len + m.used <= |buf.data|
  {
    OverBegins(before, buf.data, off, vec, first);
    hide Over, Size, Table, TableAt, NoNul, Grown, Enc, Overlay, Short, Kept, Align8, VectorAt, FirstNul;
    var strtab, count := start, first;
    var strend, at, room := OverGrow(buf, off, len, strtab, left, count, vec, before);
    while strtab < strend
      invariant Over(before, buf.data, off, vec, count, strtab, strend, at, room) && 0 < |buf.data| && off < strtab
      decreases Short(vec, |buf.data|), strend - strtab
    {
      OverEnds(before, buf.data, off, vec, count, strtab, strend, at, room);
      if room < 16 {
        OverParts(before, buf.data, off, vec, count, strtab, strend, at, room);
        strend, at, room := OverGrow(buf, off, len, strtab, room, count, vec, before);
      }
      var turn := OverStore(buf, big, off, count, strtab, strend, at, room, vec, before);
      match turn {
        case Stop(made) => return made;
        case Next(strtab') => strtab, count, room := strtab', count + 1, room - 8;
      }
    }
    OverEnds(before, buf.data, off, vec, count, strtab, strend, at, room);
    ghost var data := buf.data;
    m := Terminate(buf, big, at, count, count, strend, off + len);
    KeptOn(before, off + len, data, off + len, buf.data);
  }

  lemma {:induction false} OverBegins(before: seq<Byte>, data: seq<Byte>, off: nat, vec: Strings, first: nat)
    requires 0 < first < |vec| && Kept(before, off + Size(vec, |vec|), data) && TableAt(before, off, vec)
    ensures 0 < |data| && off < off + Size(vec, first) <= |data|
  {
    SizeMonotone(vec, 0, first);
    SizeMonotone(vec, first, |vec|);
  }

  lemma {:induction false} OverParts(before: seq<Byte>, data: seq<Byte>, off: nat, vec: Strings,
                                     count: nat, strtab: nat, strend: nat, at: nat, room: nat)
    requires Over(before, data, off, vec, count, strtab, strend, at, room)
    ensures Kept(before, off + Size(vec, |vec|), data) && TableAt(before, off, vec) && strtab <= |data|
    ensures count <= |vec| ==> strtab == off + Size(vec, count)
  {
  }

  method OverGrow(buf: ArgBuf, off: nat, len: nat, strtab: nat, left: nat, ghost count: nat, ghost vec: Strings, ghost before: seq<Byte>)
    returns (strend: nat, at: nat, room: nat)
    requires Kept(before, off + len, buf.data) && TableAt(before, off, vec) && len == Size(vec, |vec|)
    requires off < strtab <= |buf.data| && (count <= |vec| ==> strtab == off + Size(vec, count)) && 0 < |buf.data| && left < 16
    modifies buf
    ensures strend == strtab + len && room >= 16 && 0 < |buf.data|
    ensures Over(before, buf.data, off, vec, count, strtab, strend, at, room)
    ensures Short(vec, |old(buf.data)|) > 0 ==> Short(vec, |buf.data|) < Short(vec, |old(buf.data)|)
  {
    hide Over, Size, Table, TableAt, Grown, Short, Align8;
    ghost var d := buf.data;
    room := MakeRoom(buf, left);
    strend := strtab + len;
    at := Align8(strend);
    OverGrows(before, d, buf.data, off, vec, count, strtab, at, room, left);
  }

  datatype OverTurn = Next(strtab: nat) | Stop(made: Made)

  method OverStore(buf: ArgBuf, big: bool, off: nat, count: nat, strtab: nat, strend: nat, at: nat, room: nat,
                   ghost vec: Strings, ghost before: seq<Byte>)
    returns (turn: OverTurn)
    requires Over(before, buf.data, off, vec, count, strtab, strend, at, room) && off < strtab < strend && 16 <= room
    requires forall i :: 0 <= i < |vec| ==> NoNul(vec[i])
    modifies buf
    ensures Kept(before, off + Size(vec, |vec|), buf.data) && |buf.data| == |old(buf.data)|
    ensures turn.Next? ==> off < turn.strtab && strtab < turn.strtab
                           && Over(before, buf.data, off, vec, count + 1, turn.strtab, strend, at, room - 8)
    ensures turn.Stop? && off + Size(vec, |vec|) < FULL ==> !Right(buf.data, big, off, turn.made, vec)
    ensures turn.Stop? && turn.made.Vector? ==> off + Size(vec, |vec|) + turn.made.used <= |buf.data|
  {
    hide Over, Size, Table, TableAt, NoNul, Enc, Overlay, Short, FirstNul, VectorAt, Kept, Right;
    OverEnds(before, buf.data, off, vec, count, strtab, strend, at, room);
    OverParts(before, buf.data, off, vec, count, strtab, strend, at, room);
    if at + 8 * count + 8 > |buf.data| {
      OutsideIsWrong(buf.data, big, off, vec);
      return Stop(Outside);
    }
    ghost var d := buf.data;
    buf.Put(at + 8 * count, Enc(big, strtab, 8));
    KeptPart(d, at + 8 * count, buf.data, at, at);
    OverStores(before, d, buf.data, off, vec, count, strtab, strend, at, room);
    var nul := FirstNul(buf.data[strtab..strend]);
    if strtab + nul < strend {
      return Next(strtab + nul + 1);
    }
    ghost var data := buf.data;
    var m := StopAt(buf, big, off, count, strtab, strend, at, vec);
    KeptOn(before, off + Size(vec, |vec|), data, off + Size(vec, |vec|), buf.data);
    return Stop(m);
  }

  lemma {:induction false} OutsideIsWrong(data: seq<Byte>, big: bool, off: nat, vec: Strings)
    ensures !Right(data, big, off, Outside, vec)
  {
  }

  /** No NUL was found: NULL goes behind the entry just stored. */
  method StopAt(buf: ArgBuf, big: bool, off: nat, count: nat, strtab: nat, strend: nat, at: nat, ghost vec: Strings)
    returns (m: Made)
    requires at + 8 * count + 8 <= |buf.data| && buf.data[at + 8 * count..at + 8 * count + 8] == Enc(big, strtab, 8)
    requires off < strtab && count >= |vec| && (count == |vec| ==> strtab == off + Size(vec, |vec|))
    requires off + Size(vec, |vec|) <= strend <= at
    modifies buf
    ensures |buf.data| == |old(buf.data)| && Kept(old(buf.data), off + Size(vec, |vec|), buf.data)
    ensures off + Size(vec, |vec|) < FULL ==> !Right(buf.data, big, off, m, vec)
    ensures m.Vector? ==> strend + m.used <= |buf.data|
  {
    hide Size, Enc, Overlay, VectorAt;
    ghost var data, end := buf.data, off + Size(vec, |vec|);
    m := Terminate(buf, big, at, count, count + 1, strend, end);
    if m.Vector? && count == |vec| && end < FULL {
      KeptPart(data, at + 8 * (count + 1), buf.data, at + 8 * count, at + 8 * count + 8);
      NotNull(buf.data, big, off, vec, at, end);
    }
  }

  // ---- the whole function ----

  /** The loop that stores the offset of each string. */
  method FillVector(buf: ArgBuf, big: bool, off: nat, strend: nat, left: nat, at: nat,
                    ghost vec: Strings, ghost before: seq<Byte>, ghost first: nat)
    returns (m: Made, ghost overrun: bool)
    requires Building(vec, off, 0, off, left, |buf.data|, at, first) && Entered(before, buf.data, big, off, vec, at, 0)
    requires strend == off + Size(vec, |vec|)
    requires forall i :: 0 <= i < |vec| ==> NoNul(vec[i])
    modifies buf
    ensures overrun <==> 2 <= |vec| && first < 8 * (|vec| + 1)
    ensures !overrun ==> m == Vector(|vec|, at, at + 8 * (|vec| + 1) - strend) && strend <= at
    ensures !overrun ==> Entered(before, buf.data, big, off, vec, at, |vec| + 1) && at + 8 * (|vec| + 1) <= |buf.data|
    ensures !overrun ==> |buf.data| == if vec == [] then |old(buf.data)| else Grown(Room(left, |old(buf.data)|)).size
    ensures Kept(before, strend, buf.data)
    ensures overrun && strend < FULL ==> !Right(buf.data, big, off, m, vec)
    ensures m.Vector? ==> strend + m.used <= |buf.data|
  {
    hide Building, Grown, Table, TableAt, Size, Entered, NoNul, Enc, Overlay, Right;
    BuildAt(vec, off, 0, off, left, |buf.data|, at, first);
    var strtab, room, count := off, left, 0;
    while strtab < strend
      invariant Building(vec, off, count, strtab, room, |buf.data|, at, first)
      invariant Entered(before, buf.data, big, off, vec, at, count) && 0 < |old(buf.data)|
      invariant if count == 0 then room == left && |buf.data| == |old(buf.data)| else |buf.data| == Grown(Room(left, |old(buf.data)|)).size
      decreases strend - strtab
    {
      BuildAt(vec, off, count, strtab, room, |buf.data|, at, first);
      if room < 16 && count != 0 {
        EnteredKeeps(before, buf.data, big, off, vec, at, count);
        m := Overrun(buf, big, off, strend - off, strtab, room, count, vec, before);
        return m, true;
      }
      BuildStep(vec, off, count, strtab, room, |buf.data|, at, first);
      room, strtab := StoreEntry(buf, big, room, strtab, strend, at, count, before, off, vec);
      count := count + 1;
    }
    BuildAt(vec, off, count, strtab, room, |buf.data|, at, first);
    EnteredOne(before, buf.data, big, off, vec, at, count);
    buf.Put(at + 8 * count, Enc(big, 0, 8));
    EnteredKeeps(before, buf.data, big, off, vec, at, count + 1);
    return Vector(count, at, at + 8 * (count + 1) - strend), false;
  }

  /** `strtab_to_vec`.  The buffer may grow before the first entry is stored.
      When it grows later, the new end of the table is taken from the middle of
      it and the entries stored so far are not moved: the vector is right if and
      only if that does not happen. */
  method StrtabToVec(buf: ArgBuf, big: bool, off: nat, len: nat, left: nat, ghost vec: Strings)
    returns (m: Made)
    requires 0 < |buf.data| == off + len + left && len == Size(vec, |vec|) && TableAt(buf.data, off, vec)
    requires forall i :: 0 <= i < |vec| ==> NoNul(vec[i])
    modifies buf
    ensures Kept(old(buf.data), off + len, buf.data)
    ensures var bad := TooSmall(|old(buf.data)|, off, vec);
            && (off + len < FULL || !bad ==> (Right(buf.data, big, off, m, vec) <==> !bad))
            && (!bad ==> m.at == Align8(off + len) && len + m.used == UsedBy(off, vec) && |buf.data| == MadeSize(|old(buf.data)|, off, vec))
    ensures m.Vector? ==> off + len + m.used <= |buf.data|
  {
    hide Building, Grown, FirstRoom, Table, TableAt, Size, NoNul, Align8, Entered, VectorAt;
    var strend := off + len;
    ghost var data := buf.data;
    BuildStart(vec, off, left, |buf.data|);
    var room := MakeRoom(buf, left);
    var at := Align8(strend);
    NoneEntered(data, buf.data, big, off, vec, at);
    ghost var overrun;
    m, overrun := FillVector(buf, big, off, strend, room - (at - strend), at, vec, data,
                             FirstRoom(left, |data|, at - strend));
    if !overrun {
      EnteredAll(data, buf.data, big, off, vec, at);
    }
  }

  /** Two empty strings in a buffer with room for them and two addresses, not
      three: the vector made of them is wrong. */
  method OverrunHappens(big: bool) returns (buf: ArgBuf, m: Made)
    ensures !Right(buf.data, big, 0, m, [[], []])
  {
    ghost var vec: Strings := [[], []];
    buf := new ArgBuf(24);
    buf.Put(0, [0, 0]);
    assert Size(vec, 2) == 2 && Table(vec, 2) == [0, 0] && TableAt(buf.data, 0, vec);
    assert Align8(2) == 8 && FirstRoom(22, 24, 6) == 16;
    hide Size, Table, TableAt, FirstRoom, Align8, VectorAt, Overlay;
    m := StrtabToVec(buf, big, 0, 2, 22, vec);
  }

  lemma {:induction false} EnteredKeeps(before: seq<Byte>, data: seq<Byte>, big: bool, off: nat, vec: Strings, vecOff: nat, d: nat)
    requires Entered(before, data, big, off, vec, vecOff, d)
    ensures Kept(before, off + Size(vec, |vec|), data) && TableAt(before, off, vec) && off + Size(vec, |vec|) <= vecOff
  {
  }

  lemma {:induction false} EnoughRoom(left: nat, size: nat, pad: nat, n: nat)
    requires size > 0 && pad < 8 && left >= 8 * (n + 1) + 23
    ensures FirstRoom(left, size, pad) >= 8 * (n + 1)
  {
  }

  // ---- whole vectors ----

  /** Room that is enough for a vector without growing the buffer. */
  function Needed(vec: Strings): nat {
    Size(vec, |vec|) + 8 * (|vec| + 1) + 23
  }

  lemma {:induction false} NeededSuffices(size: nat, off: nat, vec: Strings)
    requires size > 0
    ensures |vec| <= 1 || off + Needed(vec) <= size ==> !Overruns(size, off, vec)
    ensures off + Needed(vec) <= size ==> SizeAfter(size, off, vec) == size && UsedBy(off, vec) <= Needed(vec)
  {
    hide Size;
    var end := End(off, vec);
    if off + Needed(vec) <= size {
      EnoughRoom(size - end, size, Pad(end), |vec|);
    }
  }

  /** A vector that has been read from `off` on: its strings begin there, its
      pointers follow, and `used` bytes are taken. */
  ghost predicate VectorIn(data: seq<Byte>, big: bool, off: nat, vecOff: nat, used: nat, vec: Strings) {
    && VectorAt(data, big, false, vecOff, off, vec)
    && off + Size(vec, |vec|) <= vecOff && off + used == vecOff + 8 * (|vec| + 1) <= |data| && used <= Needed(vec)
  }

  /** What is in the buffer below n stays there when the rest changes. */
  lemma {:induction false} VectorKept(before: seq<Byte>, n: nat, data: seq<Byte>, big: bool, off: nat, vecOff: nat, used: nat, vec: Strings)
    requires VectorIn(before, big, off, vecOff, used, vec) && off + used <= n && Kept(before, n, data)
    ensures VectorIn(data, big, off, vecOff, used, vec)
  {
    hide Size, Enc, Slot, Needed;
    forall j: nat | j < |vec| + 1 ensures SlotOk(data, big, false, vecOff, off, vec, j) {
      assert SlotOk(before, big, false, vecOff, off, vec, j);
      KeptPart(before, n, data, vecOff + 8 * j, vecOff + 8 * j + 8);
    }
    forall j: nat | j < |vec| ensures StringOk(data, off, vec, j) {
      assert StringOk(before, off, vec, j);
      SizeMonotone(vec, j, |vec|);
      var a := off + Size(vec, j);
      KeptPart(before, n, data, a, a + |vec[j]|);
      KeptPart(before, n, data, a + |vec[j]|, a + |vec[j]|);
    }
  }

  lemma {:induction false} FromNoNul(mem: seq<Byte>, big: bool, compat: bool, addr: nat, vec: Strings)
    requires AddressSpace(mem, compat) && VecFrom(mem, big, compat, addr, 0) == Some(vec)
    ensures forall i :: 0 <= i < |vec| ==> NoNul(vec[i])
  {
    hide SlotAt, VecFrom, Text, AddressSpace;
    forall i | 0 <= i < |vec| ensures NoNul(vec[i]) {
      FromSlot(mem, big, compat, addr, 0, vec, i);
      TextIff(mem, SlotAt(mem, big, compat, addr, i), vec[i]);
    }
  }

  lemma {:induction false} EmptyAt(data: seq<Byte>, big: bool, off: nat, vecOff: nat)
    requires off <= vecOff < off + 8 && vecOff + 8 <= |data|
    ensures Slot([], off, 0) == 0 && VectorIn(Overlay(data, vecOff, Enc(big, 0, 8)), big, off, vecOff, vecOff + 8 - off, [])
  {
    hide Enc, Overlay, PointerAt;
    NativeSlot(data, big, vecOff, off, [], 0);
    assert Size([], 0) == 0;
  }

  lemma {:induction false} NoStrings(size: nat, off: nat)
    requires 0 < size && off <= size
    ensures UsedBy(off, []) == Align8(off) + 8 - off && SizeAfter(size, off, []) == Grown(Room(size - off, size)).size
  {
    hide Grown, Align8;
    assert Size([], 0) == 0;
  }

  /** A NULL vector: no strings, and NULL for its vector. */
  method EmptyVec(buf: ArgBuf, big: bool, off: nat) returns (m: Made)
    requires 0 < |buf.data| && off <= |buf.data|
    modifies buf
    ensures Kept(old(buf.data), off, buf.data) && Placed(buf.data, big, off, m, [])
    ensures m.used == UsedBy(off, []) && |buf.data| == SizeAfter(|old(buf.data)|, off, []) && off + m.used <= |buf.data|
  {
    NoStrings(|buf.data|, off);
    hide Grown, Enc, Overlay, VectorIn, Kept, Align8, Size, SizeAfter, UsedBy;
    ghost var before := buf.data;
    var room := MakeRoom(buf, |buf.data| - off);
    ghost var d := buf.data;
    var at := Align8(off);
    EmptyAt(d, big, off, at);
    buf.Put(at, Enc(big, 0, 8));
    KeptBelow(before, off, d, at, buf.data);
    m := Vector(0, at, at + 8 - off);
  }

  lemma {:induction false} KeptBelow(before: seq<Byte>, n: nat, d: seq<Byte>, m: nat, data: seq<Byte>)
    requires Kept(before, |before|, d) && Kept(d, m, data) && n <= m && n <= |before|
    ensures Kept(before, n, data) && |before| <= |data|
  {
    KeptPart(before, |before|, d, 0, n);
    assert d[0..n] == d[..n] && before[0..n] == before[..n];
    KeptOn(before, n, d, m, data);
  }

  /** The vector read is in place, `used` bytes from `off` on. */
  ghost predicate Placed(data: seq<Byte>, big: bool, off: nat, m: Made, vec: Strings) {
    m.Vector? && m.count == |vec| && VectorIn(data, big, off, m.at, m.used, vec)
  }

  /** `ptrace_read_vec`: the vector in the tracee, in either layout and byte
      order, becomes a native one in the buffer, or cannot be read at all.  It
      is right if and only if the buffer does not have to grow between two of its
      entries. */
  method ReadVec(t: Tracee, compat: bool, addr: nat, buf: ArgBuf, off: nat)
    returns (ok: bool, m: Made)
    requires AddressSpace(t.mem, compat) && 0 < |buf.data| && off <= |buf.data|
    modifies buf
    ensures Kept(old(buf.data), off, buf.data) && 0 < |buf.data|
    ensures ok <==> VecAt(t.mem, t.big, compat, addr).Some?
    ensures ok ==> var vec := VecAt(t.mem, t.big, compat, addr).value;
                   var bad := Overruns(|old(buf.data)|, off, vec);
                   && (End(off, vec) < FULL || !bad ==> (Placed(buf.data, t.big, off, m, vec) <==> !bad))
                   && (!bad ==> m.used == UsedBy(off, vec) && |buf.data| == SizeAfter(|old(buf.data)|, off, vec))
    ensures ok && m.Vector? ==> off + m.used <= |buf.data|
  {
    hide AddressSpace, VecFrom, TableAt, Size, Kept, NoNul, VectorIn, SizeFor, UsedBy, MadeSize, TooSmall;
    ok, m := true, Outside;
    if addr == 0 {
      m := EmptyVec(buf, t.big, off);
      NeverTooSmall(SizeFor(|old(buf.data)|, End(off, [])), off);
      KeptThrough(old(buf.data), off, buf.data, off, buf.data);
      return;
    }
    var end := FillTable(t, compat, addr, buf, off);
    if end.None? {
      ok := false;
      return;
    }
    ghost var vec, data := VecFrom(t.mem, t.big, compat, addr, 0).value, buf.data;
    FromNoNul(t.mem, t.big, compat, addr, vec);
    m := VecOfTable(buf, t.big, off, end.value, vec);
    KeptThrough(old(buf.data), off, data, off, buf.data);
  }

  lemma {:induction false} NeverTooSmall(size: nat, off: nat)
    requires size > 0 && End(off, []) <= size
    ensures !TooSmall(size, off, [])
  {
  }

  /** The second half of `ptrace_read_vec`, from the finished string table. */
  method VecOfTable(buf: ArgBuf, big: bool, off: nat, end: nat, ghost vec: Strings) returns (m: Made)
    requires 0 < |buf.data| && TableAt(buf.data, off, vec) && end == End(off, vec)
    requires forall i :: 0 <= i < |vec| ==> NoNul(vec[i])
    modifies buf
    ensures Kept(old(buf.data), off, buf.data)
    ensures var bad := TooSmall(|old(buf.data)|, off, vec);
            && (end < FULL || !bad ==> (Placed(buf.data, big, off, m, vec) <==> !bad))
            && (!bad ==> m.used == UsedBy(off, vec) && |buf.data| == MadeSize(|old(buf.data)|, off, vec))
    ensures m.Vector? ==> off + m.used <= |buf.data|
  {
    hide TableAt, Size, Kept, NoNul, VectorAt, TooSmall, MadeSize;
    ghost var data := buf.data;
    TableEnds(buf.data, off, vec);
    m := StrtabToVec(buf, big, off, end - off, |buf.data| - end, vec);
    if m.Vector? {
      m := m.(used := end - off + m.used);
    }
    KeptPart(data, end, buf.data, off, off);
  }

  lemma {:induction false} KeptThrough(before: seq<Byte>, n: nat, d: seq<Byte>, m: nat, data: seq<Byte>)
    requires Kept(before, n, d) && Kept(d, m, data) && n <= m
    ensures Kept(before, n, data) && |before| <= |d| <= |data|
  {
    KeptOn(before, n, d, m, data);
  }

  // ---- path, arguments and environment ----

  /** What reading the path gives with a buffer of `size` bytes; a NULL path
      takes no room. */
  function PathRead(mem: seq<Byte>, addr: nat, size: nat): Option<seq<Byte>> {
    if addr == 0 then Some([])
    else if Text(mem, addr).Some? && |Text(mem, addr).value| < size then Some(Text(mem, addr).value + [0])
    else None
  }

  datatype ExecInfo = ExecInfo(argc: nat, argv: nat, envc: nat, envp: nat)

  /** Where the strings of both vectors begin and how much each takes. */
  datatype Parts = Parts(argTab: nat, argUsed: nat, envTab: nat, envUsed: nat)

  /** The buffer of `get_execve_info`: the path, the arguments and the
      environment one behind the other, and room for one more argument when
      there is none. */
  ghost predicate InfoIn(data: seq<Byte>, big: bool, info: ExecInfo, parts: Parts, path: seq<Byte>, argv: Strings, envp: Strings) {
    && |path| == parts.argTab <= |data| && data[..|path|] == path
    && info.argc == |argv| && VectorIn(data, big, parts.argTab, info.argv, parts.argUsed, argv)
    && parts.argTab + parts.argUsed + (if argv == [] then 8 else 0) <= parts.envTab
    && info.envc == |envp| && VectorIn(data, big, parts.envTab, info.envp, parts.envUsed, envp)
  }

  method ReadPath(t: Tracee, addr: nat, buf: ArgBuf) returns (len: Option<nat>)
    requires 0 < |buf.data|
    modifies buf
    ensures |buf.data| == |old(buf.data)|
    ensures var path := PathRead(t.mem, addr, |buf.data|);
            && len == (if path.Some? then Some(|path.value|) else None)
            && (len.Some? ==> len.value <= |buf.data| && buf.data[..len.value] == path.value)
  {
    if addr == 0 {
      return Some(0);
    }
    ReadIsText(t.mem, addr, |buf.data|);
    hide Text, ReadFrom, Overlay;
    var r := t.ReadString(addr, |buf.data|);
    if !r.Bytes? {
      return None;
    }
    buf.Put(0, r.s + [0]);
    assert buf.data[0..|r.s| + 1] == buf.data[..|r.s| + 1];
    return Some(|r.s| + 1);
  }

  /** An extra slot behind an empty argument vector. */
  method Reserve(buf: ArgBuf, off: nat) returns (next: nat)
    requires 0 < |buf.data| && off <= |buf.data|
    modifies buf
    ensures Kept(old(buf.data), off, buf.data) && 0 < |buf.data|
    ensures next == off + 8 <= |buf.data| == SizeFor(|old(buf.data)|, off + 8)
  {
    while |buf.data| - off < 8
      invariant 0 < |buf.data| && Kept(old(buf.data), off, buf.data)
      invariant SizeFor(|buf.data|, off + 8) == SizeFor(|old(buf.data)|, off + 8)
      decreases off + 8 - |buf.data|
    {
      ghost var d := buf.data;
      buf.Grow();
      KeptOn(old(buf.data), off, d, |d|, buf.data);
    }
    next := off + 8;
  }

  /** Where the environment's strings begin, and the size of the buffer then, if
      the arguments did not make it grow between two entries. */
  function EnvTab(path: nat, argv: Strings): nat {
    path + UsedBy(path, argv) + if argv == [] then 8 else 0
  }

  function EnvSize(size: nat, path: nat, argv: Strings): (n: nat)
    requires size > 0
    ensures n > 0
  {
    var n := SizeAfter(size, path, argv);
    if argv == [] then SizeFor(n, EnvTab(path, argv)) else n
  }

  /** A buffer for everything makes neither vector grow it. */
  lemma {:induction false} NeededForBoth(size: nat, path: nat, argv: Strings, envp: Strings)
    requires size > 0 && path + Needed(argv) + 8 + Needed(envp) <= size
    ensures !Overruns(size, path, argv) && !Overruns(EnvSize(size, path, argv), EnvTab(path, argv), envp)
  {
    hide Needed, UsedBy, SizeAfter, Overruns;
    NeededSuffices(size, path, argv);
    NeededSuffices(size, EnvTab(path, argv), envp);
  }

  /** `get_execve_info`, with offsets for pointers.  What it returns is right if
      path and vectors can be read and neither vector makes the buffer grow
      between two entries, and wrong if only the environment does; nothing is
      returned if one cannot be read. */
  method GetExecveInfo(t: Tracee, compat: bool, pathAddr: nat, argvAddr: nat, envpAddr: nat, size: nat)
    returns (buf: ArgBuf, info: Option<ExecInfo>, parts: Parts)
    requires AddressSpace(t.mem, compat) && 0 < size
    ensures var path, argv, envp := PathRead(t.mem, pathAddr, size), VecAt(t.mem, t.big, compat, argvAddr), VecAt(t.mem, t.big, compat, envpAddr);
            && (info.Some? ==> path.Some? && argv.Some? && envp.Some?)
            && (path.Some? && argv.Some? && envp.Some? && !Overruns(size, |path.value|, argv.value) ==>
                  var n, off := EnvSize(size, |path.value|, argv.value), EnvTab(|path.value|, argv.value);
                  var right := info.Some? && InfoIn(buf.data, t.big, info.value, parts, path.value, argv.value, envp.value);
                  && (!Overruns(n, off, envp.value) ==> right)
                  && (Overruns(n, off, envp.value) && End(off, envp.value) < FULL ==> !right))
  {
    hide AddressSpace, PathRead, VecAt, VectorIn, Size, Overruns, SizeAfter, UsedBy, SizeFor;
    buf := new ArgBuf(size);
    info, parts := None, Parts(0, 0, 0, 0);
    var path := ReadPath(t, pathAddr, buf);
    if path.None? {
      return;
    }
    var off := path.value;
    ghost var d0 := buf.data;
    var ok, m := ReadVec(t, compat, argvAddr, buf, off);
    if !ok || m.Outside? {
      return;
    }
    ghost var d1, args := buf.data, VecAt(t.mem, t.big, compat, argvAddr).value;
    ghost var bad := Overruns(size, off, args);
    if !bad {
      InBuffer(d1, t.big, off, m.at, m.used, args);
    }
    parts := parts.(argTab := off, argUsed := m.used);
    off := off + m.used;
    if m.count == 0 {
      off := Reserve(buf, off);
    }
    ghost var d2 := buf.data;
    parts := parts.(envTab := off);
    var ok', m' := ReadVec(t, compat, envpAddr, buf, off);
    if !ok' || m'.Outside? {
      return;
    }
    parts := parts.(envUsed := m'.used);
    info := Some(ExecInfo(m.count, m.at, m'.count, m'.at));
    PathKept(d0, d1, d2, buf.data, parts);
    KeptOn(d1, parts.argTab + m.used, d2, off, buf.data);
    if !bad {
      VectorKept(d1, parts.argTab + m.used, buf.data, t.big, parts.argTab, m.at, m.used, args);
    }
  }

  lemma {:induction false} InBuffer(data: seq<Byte>, big: bool, off: nat, vecOff: nat, used: nat, vec: Strings)
    requires VectorIn(data, big, off, vecOff, used, vec)
    ensures off + used <= |data| && used <= Needed(vec)
  {
  }

  lemma {:induction false} PathKept(d0: seq<Byte>, d1: seq<Byte>, d2: seq<Byte>, data: seq<Byte>, parts: Parts)
    requires Kept(d0, parts.argTab, d1) && Kept(d1, parts.argTab + parts.argUsed, d2) && Kept(d2, parts.envTab, data)
    requires parts.argTab + parts.argUsed <= parts.envTab
    ensures Kept(d0, parts.argTab, data)
  {
    KeptOn(d0, parts.argTab, d1, parts.argTab + parts.argUsed, d2);
    KeptOn(d0, parts.argTab, d2, parts.envTab, data);
  }

  // ---- round trip ----

  /** The addresses of the strings of a table. */
  function Offsets(vec: Strings, off: nat, i: nat): (o: seq<nat>)
    requires i <= |vec|
    ensures |o| == i && forall j: nat :: j < i ==> o[j] == off + Size(vec, j)
  {
    if i == 0 then [] else Offsets(vec, off, i - 1) + [off + Size(vec, i - 1)]
  }

  /** What `ptrace_write_vec` writes is a vector that can be read. */
  lemma {:induction false} WrittenIsStored(mem: seq<Byte>, big: bool, compat: bool, addr: nat, strtab: nat, vec: Strings)
    requires VectorAt(mem, big, compat, addr, strtab, vec) && InRange(compat, vec, strtab) && 0 < strtab
    requires forall i :: 0 <= i < |vec| ==> NoNul(vec[i])
    requires addr + PointerRoom(compat, |vec|) <= strtab && strtab + Size(vec, |vec|) + 15 <= |mem|
    ensures Stored(mem, big, compat, addr, Offsets(vec, strtab, |vec|), vec)
  {
    var ptrs := Offsets(vec, strtab, |vec|);
    hide PointerAt, InRange, Offsets, Enc, Dec, Slot;
    assert PeekRoom(compat, |vec|) <= PointerRoom(compat, |vec|);
    forall j: nat | j <= |ptrs| ensures SlotHolds(mem, big, compat, addr, j, SlotValue(ptrs, j)) {
      assert SlotOk(mem, big, compat, addr, strtab, vec, j);
      SlotWritten(mem, big, compat, addr, strtab, vec, j);
    }
    forall j: nat | j < |ptrs| ensures 0 < ptrs[j] && Readable(mem, ptrs[j], vec[j]) {
      assert StringOk(mem, strtab, vec, j);
      SizeMonotone(vec, j, |vec|);
      assert 8 * (|vec[j]| / 8) <= |vec[j]|;
    }
  }

  lemma {:induction false} SlotWritten(mem: seq<Byte>, big: bool, compat: bool, addr: nat, strtab: nat, vec: Strings, j: nat)
    requires j <= |vec| && SlotOk(mem, big, compat, addr, strtab, vec, j) && InRange(compat, vec, strtab)
    ensures SlotHolds(mem, big, compat, addr, j, SlotValue(Offsets(vec, strtab, |vec|), j))
  {
    PowWord();
    hide Enc, Dec, Pow256, InRange;
    SlotInRange(compat, vec, strtab, j);
    DecEnc(big, Slot(vec, strtab, j), Off(compat, 1));
  }

  lemma {:induction false} WrittenIsRead(mem: seq<Byte>, big: bool, compat: bool, addr: nat, strtab: nat, vec: Strings)
    requires VectorAt(mem, big, compat, addr, strtab, vec) && InRange(compat, vec, strtab) && 0 < strtab
    requires forall i :: 0 <= i < |vec| ==> NoNul(vec[i])
    requires addr + PointerRoom(compat, |vec|) <= strtab && strtab + Size(vec, |vec|) + 15 <= |mem| && AddressSpace(mem, compat)
    ensures VecFrom(mem, big, compat, addr, 0) == if AllClean(vec) then Some(vec) else None
  {
    hide VectorAt, Stored, InRange, NoNul, VecFrom, AllClean;
    WrittenIsStored(mem, big, compat, addr, strtab, vec);
    StoredFrom(mem, big, compat, addr, Offsets(vec, strtab, |vec|), vec, 0);
    assert vec[0..] == vec;
  }

  /** Writing a vector into the tracee and reading it back gives the same
      strings, in both layouts and both byte orders; only a string with an
      all-ones word cannot be read. */
  method RoundTrip(t: Tracee, compat: bool, vec: Strings, addr: nat, strtab: nat, buf: ArgBuf, off: nat)
    returns (ok: bool, m: Made)
    requires (forall i :: 0 <= i < |vec| ==> NoNul(vec[i])) && InRange(compat, vec, strtab) && AddressSpace(t.mem, compat)
    requires 0 < addr && addr + PointerRoom(compat, |vec|) <= strtab && strtab + Size(vec, |vec|) + 15 <= |t.mem|
    requires 0 < |buf.data| && off <= |buf.data|
    modifies t, buf
    ensures ok <==> AllClean(vec)
    ensures var bad := Overruns(|old(buf.data)|, off, vec);
            ok && (End(off, vec) < FULL || !bad) ==> (Placed(buf.data, t.big, off, m, vec) <==> !bad)
  {
    hide Size, AllClean, VectorAt, InRange, NoNul, VecFrom, VectorIn, Kept, AfterVec, Overruns, UsedBy, SizeAfter;
    var n := WriteVec(t, compat, vec, addr, strtab);
    WrittenIsRead(t.mem, t.big, compat, addr, strtab, vec);
    ok, m := ReadVec(t, compat, addr, buf, off);
  }
}
