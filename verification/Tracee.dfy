/** Strings in the memory of a traced process, read and written one native
    eight-byte word at a time at any address. */
module Tracees {
  import opened IoLogs
  import opened Options

  predicate NoNul(s: seq<Byte>) {
    forall i :: 0 <= i < |s| ==> s[i] != 0
  }

  function Zeros(n: nat): (z: seq<Byte>)
    ensures |z| == n && forall i :: 0 <= i < n ==> z[i] == 0
  {
    seq(n, _ => 0)
  }

  /** The word that PTRACE_PEEKDATA cannot tell from an error. */
  predicate AllOnes(w: seq<Byte>) {
    |w| == 8 && forall i :: 0 <= i < 8 ==> w[i] == 255
  }

  /** Memory with some bytes replaced. */
  function Overlay(mem: seq<Byte>, a: nat, bytes: seq<Byte>): (m: seq<Byte>)
    requires a + |bytes| <= |mem|
    ensures |m| == |mem|
  {
    mem[..a] + bytes + mem[a + |bytes|..]
  }

  /** The first n bytes of s followed by NULs. */
  function Padded(s: seq<Byte>, n: nat): (p: seq<Byte>)
    ensures |p| == n
  {
    if n <= |s| then s[..n] else s + Zeros(n - |s|)
  }

  /** A NUL-terminated string stands at a. */
  ghost predicate StringAt(mem: seq<Byte>, a: nat, s: seq<Byte>) {
    a + |s| < |mem| && mem[a..a + |s|] == s && mem[a + |s|] == 0
  }

  /** How many bytes `ptrace_write_string` writes for n bytes: its test for the
      end looks at the low-order byte of the word, which is the last byte on a
      big-endian machine but the first on a little-endian one. */
  function BytesWritten(n: nat, big: bool): nat {
    if big || n % 8 == 0 then 8 * (n / 8) + 8 else 8 * (n / 8) + 16
  }

  /** No word of s, counted from its start, is all ones. */
  ghost predicate Clean(s: seq<Byte>) {
    |s| >= 8 ==> !AllOnes(s[..8]) && Clean(s[8..])
  }

  datatype ReadResult = Bytes(s: seq<Byte>) | NoSpace | Failed

  function FirstNul(w: seq<Byte>): (k: nat)
    ensures k <= |w| && (forall i :: 0 <= i < k ==> w[i] != 0) && (k < |w| ==> w[k] == 0)
  {
    if w == [] || w[0] == 0 then 0 else 1 + FirstNul(w[1..])
  }

  /** What reading a string at a into a buffer of `room` bytes gives. */
  function ReadFrom(mem: seq<Byte>, a: nat, room: nat): ReadResult
    decreases |mem| - a
  {
    if a + 8 > |mem| || AllOnes(mem[a..a + 8]) then Failed
    else
      var w := mem[a..a + 8];
      var k := FirstNul(w);
      if k < 8 then (if room <= k then NoSpace else Bytes(w[..k]))
      else if room < 8 then NoSpace
      else
        Prefixed(w, ReadFrom(mem, a + 8, room - 8))
  }

  /** A string in readable memory is read back whole if the buffer holds it
      and its NUL, except that one with an all-ones word is never read. */
  lemma {:induction false} ReadFromString(mem: seq<Byte>, a: nat, s: seq<Byte>, room: nat)
    requires NoNul(s) && StringAt(mem, a, s) && a + 8 * (|s| / 8) + 8 <= |mem|
    ensures room > |s| ==> ReadFrom(mem, a, room) == if Clean(s) then Bytes(s) else Failed
    ensures room <= |s| ==> !ReadFrom(mem, a, room).Bytes? && (Clean(s) ==> ReadFrom(mem, a, room).NoSpace?)
    decreases |s|
  {
    var w := mem[a..a + 8];
    if |s| < 8 {
      assert w[|s|] == mem[a + |s|] && forall i :: 0 <= i < |s| ==> w[i] == mem[a..a + |s|][i];
      assert FirstNul(w) == |s| && w[..|s|] == s;
    } else {
      var t := s[8..];
      assert w == s[..8] by {
        assert mem[a..a + |s|][..8] == w;
      }
      assert FirstNul(w) == 8;
      assert mem[a + 8..a + 8 + |t|] == t by {
        assert mem[a..a + |s|][8..] == mem[a + 8..a + |s|];
      }
      assert s == w + t;
      if !AllOnes(w) && room >= 8 {
        ReadFromString(mem, a + 8, t, room - 8);
      }
    }
  }

  /** Overlaying bytes leaves what lies before or after them. */
  lemma {:induction false} OverlayKeeps(mem: seq<Byte>, a: nat, bytes: seq<Byte>, i: nat, j: nat)
    requires a + |bytes| <= |mem| && i <= j <= |mem| && (j <= a || a + |bytes| <= i)
    ensures Overlay(mem, a, bytes)[i..j] == mem[i..j]
  {
  }

  lemma {:induction false} OverlayExtends(mem: seq<Byte>, a: nat, x: seq<Byte>, y: seq<Byte>)
    requires a + |x| + |y| <= |mem|
    ensures Overlay(Overlay(mem, a, x), a + |x|, y) == Overlay(mem, a, x + y)
  {
  }

  /** The memory after `ptrace_write_string` holds the string. */
  lemma {:induction false} PaddedString(mem: seq<Byte>, a: nat, s: seq<Byte>, n: nat)
    requires |s| < n && a + n <= |mem|
    ensures StringAt(Overlay(mem, a, Padded(s, n)), a, s)
  {
    var m := Overlay(mem, a, Padded(s, n));
    assert m[a..a + |s|] == s;
  }

  class Tracee {
    var mem: seq<Byte>
    const big: bool

    /** PTRACE_PEEKDATA; None stands for an error. */
    method Peek(a: nat) returns (w: Option<seq<Byte>>)
      ensures w == if a + 8 <= |mem| then Some(mem[a..a + 8]) else None
    {
      w := if a + 8 <= |mem| then Some(mem[a..a + 8]) else None;
    }

    /** PTRACE_POKEDATA */
    method Poke(a: nat, w: seq<Byte>) returns (ok: bool)
      requires |w| == 8
      modifies this
      ensures ok == (a + 8 <= |mem|) && |mem| == |old(mem)|
      ensures mem == if ok then Overlay(old(mem), a, w) else old(mem)
    {
      ok := a + 8 <= |mem|;
      if ok {
        mem := Overlay(mem, a, w);
      }
    }

    /** `ptrace_read_string` */
    method ReadString(a0: nat, room0: nat) returns (r: ReadResult)
      ensures r == ReadFrom(mem, a0, room0)
    {
      var a, room, s := a0, room0, [];
      PrefixedNone(ReadFrom(mem, a0, room0));
      hide FirstNul, AllOnes, ReadFrom, Prefixed;
      while true
        invariant ReadFrom(mem, a0, room0) == Prefixed(s, ReadFrom(mem, a, room))
        decreases |mem| - a
      {
        ReadWord(mem, a, room, s);
        var w := Peek(a);
        if w.None? || AllOnes(w.value) {
          return Failed;
        }
        var taken, end := TakeBytes(w.value, room);
        if end {
          return if |taken| < room then Bytes(s + taken) else NoSpace;
        }
        s, a, room := s + taken, a + 8, room - 8;
      }
    }

    /** The loop over one word; it ends at a NUL or when there is no room. */
    method TakeBytes(w: seq<Byte>, room: nat) returns (taken: seq<Byte>, end: bool)
      requires |w| == 8
      ensures end == (room < 8 || FirstNul(w) < 8)
      ensures taken == w[..if FirstNul(w) < room then FirstNul(w) else if room < 8 then room else 8]
    {
      taken := [];
      while |taken| < 8
        invariant |taken| <= 8 && |taken| <= FirstNul(w) && |taken| <= room && taken == w[..|taken|]
      {
        if |taken| == room || w[|taken|] == 0 {
          return taken, true;
        }
        taken := taken + [w[|taken|]];
      }
      end := false;
    }

    /** `ptrace_write_string`: word by word, NUL-padded. */
    method WriteString(a0: nat, str: seq<Byte>) returns (r: Option<nat>)
      requires NoNul(str)
      modifies this
      ensures |mem| == |old(mem)|
      ensures r == if a0 + BytesWritten(|str|, big) <= |mem| then Some(|str| + 1) else None
      ensures r.Some? ==> mem == Overlay(old(mem), a0, Padded(str, BytesWritten(|str|, big)))
      ensures if a0 <= |mem| then mem[..a0] == old(mem)[..a0] else mem == old(mem)
    {
      var a, pos := a0, 0;
      ghost var n := 0;
      WordStarts(|str|, 0, big);
      NothingWritten(mem, a0, str);
      hide Overlay, Padded, BytesWritten, WordStart, Written, NoNul;
      while true
        invariant WordStart(n) && n < BytesWritten(|str|, big) && a == a0 + n && |mem| == |old(mem)|
        invariant pos == if n < |str| then n else |str|
        invariant Written(old(mem), a0, str, n, mem)
        decreases BytesWritten(|str|, big) - n
      {
        var buf, ok;
        WrittenBelow(old(mem), a0, str, n, mem);
        buf, pos := FillWord(str, pos, n);
        ok := PokeNext(a, buf, str, a0, n, old(mem));
        WordStarts(|str|, n, big);
        if !ok {
          return None;
        }
        WrittenBelow(old(mem), a0, str, n + 8, mem);
        if (if big then buf[7] else buf[0]) == 0 {
          return Some(pos + 1);
        }
        a := a + 8;
        n := n + 8;
      }
    }

    method PokeNext(a: nat, buf: seq<Byte>, ghost str: seq<Byte>, ghost a0: nat, ghost n: nat, ghost before: seq<Byte>)
      returns (ok: bool)
      requires a == a0 + n && Written(before, a0, str, n, mem) && |buf| == 8 && buf == Padded(str, n + 8)[n..]
      modifies this
      ensures ok == (a0 + n + 8 <= |mem|) && |mem| == |old(mem)|
      ensures ok ==> Written(before, a0, str, n + 8, mem) && |mem| == |before| && mem == Overlay(before, a0, Padded(str, n + 8))
      ensures !ok ==> mem == old(mem)
    {
      hide Overlay, Padded, Written;
      ghost var m := mem;
      ok := Poke(a, buf);
      if ok {
        WordAdded(before, a0, str, n, m, buf);
      }
    }

    /** The loop that fills one word. */
    method FillWord(str: seq<Byte>, pos0: nat, ghost n: nat) returns (buf: seq<Byte>, pos: nat)
      requires NoNul(str) && pos0 == if n < |str| then n else |str|
      ensures |buf| == 8 && buf == Padded(str, n + 8)[n..] && pos == if n + 8 < |str| then n + 8 else |str|
      ensures buf[0] == 0 <==> |str| <= n
      ensures buf[7] == 0 <==> |str| <= n + 7
    {
      buf, pos := [], pos0;
      while |buf| < 8
        invariant |buf| <= 8 && pos == if n + |buf| < |str| then n + |buf| else |str|
        invariant forall i :: 0 <= i < |buf| ==> buf[i] == if n + i < |str| then str[n + i] else 0
      {
        if pos == |str| {
          buf := buf + [0];
        } else {
          buf := buf + [str[pos]];
          pos := pos + 1;
        }
      }
    }
  }

  predicate WordStart(n: nat) {
    n % 8 == 0
  }

  /** Where the words of a string start, and after which one writing ends. */
  lemma {:induction false} WordStarts(len: nat, n: nat, big: bool)
    ensures WordStart(0) && 0 < BytesWritten(len, big)
    ensures WordStart(n) && n < BytesWritten(len, big) ==>
              WordStart(n + 8) && n + 8 <= BytesWritten(len, big)
              && (n + 8 == BytesWritten(len, big) <==> if big then len <= n + 7 else len <= n)
    ensures len < BytesWritten(len, big) <= len + if big then 8 else 16
  {
  }

  /** A result with bytes put in front. */
  function Prefixed(s: seq<Byte>, r: ReadResult): ReadResult {
    if r.Bytes? then Bytes(s + r.s) else r
  }

  lemma {:induction false} PrefixedNone(r: ReadResult)
    ensures Prefixed([], r) == r
  {
    if r.Bytes? {
      assert [] + r.s == r.s;
    }
  }

  /** Reading goes on behind s word by word. */
  lemma {:induction false} ReadWord(mem: seq<Byte>, a: nat, room: nat, s: seq<Byte>)
    ensures var r := Prefixed(s, ReadFrom(mem, a, room));
            if a + 8 > |mem| || AllOnes(mem[a..a + 8]) then r == Failed
            else
              var w := mem[a..a + 8]; var k := FirstNul(w);
              if k < 8 then r == (if room <= k then NoSpace else Bytes(s + w[..k]))
              else if room < 8 then r == NoSpace
              else r == Prefixed(s + w[..8], ReadFrom(mem, a + 8, room - 8))
  {
    hide FirstNul, AllOnes;
    if a + 8 <= |mem| && room >= 8 {
      var w := mem[a..a + 8];
      assert w[..8] == w;
      PrefixedTwice(s, w, ReadFrom(mem, a + 8, room - 8));
    }
  }

  lemma {:induction false} PrefixedTwice(s: seq<Byte>, t: seq<Byte>, r: ReadResult)
    ensures Prefixed(s, Prefixed(t, r)) == Prefixed(s + t, r)
  {
    if r.Bytes? {
      assert s + (t + r.s) == (s + t) + r.s;
    }
  }

  /** The first n bytes of a padded string have been written. */
  ghost predicate Written(before: seq<Byte>, a: nat, s: seq<Byte>, n: nat, mem: seq<Byte>) {
    if n == 0 then mem == before else a + n <= |before| && mem == Overlay(before, a, Padded(s, n))
  }

  lemma {:induction false} WrittenBelow(before: seq<Byte>, a: nat, s: seq<Byte>, n: nat, mem: seq<Byte>)
    requires Written(before, a, s, n, mem)
    ensures |mem| == |before| && if a <= |mem| then mem[..a] == before[..a] else mem == before
  {
  }

  lemma {:induction false} NothingWritten(mem: seq<Byte>, a: nat, s: seq<Byte>)
    ensures Written(mem, a, s, 0, mem)
  {
  }

  lemma {:induction false} PaddedWord(s: seq<Byte>, n: nat)
    ensures Padded(s, n) + Padded(s, n + 8)[n..] == Padded(s, n + 8)
  {
    assert Padded(s, n + 8)[..n] == Padded(s, n);
  }

  lemma {:induction false} WordAdded(before: seq<Byte>, a: nat, s: seq<Byte>, n: nat, mem: seq<Byte>, w: seq<Byte>)
    requires Written(before, a, s, n, mem) && a + n + 8 <= |mem| && w == Padded(s, n + 8)[n..]
    ensures |mem| == |before| && Written(before, a, s, n + 8, Overlay(mem, a + n, w))
    ensures Overlay(mem, a + n, w) == Overlay(before, a, Padded(s, n + 8))
  {
    PaddedWord(s, n);
    if n == 0 {
      assert Padded(s, 0) + w == w;
    } else {
      hide Overlay, Padded;
      OverlayExtends(before, a, Padded(s, n), w);
    }
  }
}
