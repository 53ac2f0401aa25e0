/** Fixed-width numbers as byte sequences, most significant byte first. */
module Words {
  import opened IoLogs

  function Value(s: seq<Byte>): nat {
    if s == [] then 0 else Value(s[..|s| - 1]) * 256 + s[|s| - 1] as nat
  }

  function Digits(n: nat, width: nat): (s: seq<Byte>)
    ensures |s| == width
  {
    if width == 0 then [] else Digits(n / 256, width - 1) + [(n % 256) as Byte]
  }

  function Pow256(k: nat): (p: nat)
    ensures p > 0
  {
    if k == 0 then 1 else 256 * Pow256(k - 1)
  }

  lemma {:induction false} DigitsValue(n: nat, width: nat)
    ensures n < Pow256(width) ==> Value(Digits(n, width)) == n
    ensures width == 4 ==> Pow256(width) == 0x1_0000_0000
  {
    if width > 0 {
      DigitsValue(n / 256, width - 1);
      var d := Digits(n, width);
      assert d[..width - 1] == Digits(n / 256, width - 1);
    }
    if width == 4 {
      assert Pow256(1) == 256 && Pow256(2) == 0x1_0000 && Pow256(3) == 0x100_0000;
    }
  }

  lemma {:induction false} ValueInjective(s: seq<Byte>, t: seq<Byte>)
    requires |s| == |t| && Value(s) == Value(t)
    ensures s == t
  {
    if s != [] {
      var k := |s| - 1;
      ValueInjective(s[..k], t[..k]);
      assert s == s[..k] + [s[k]] && t == t[..k] + [t[k]];
    }
  }
}

/** Length-prefixed messages: the wire format, and what parsing a whole byte
    stream at once yields. */
module Framing {
  import opened IoLogs
  import opened Words

  /** MESSAGE_SIZE_MAX */
  const MESSAGE_SIZE_MAX := 2 * 1024 * 1024

  type Message = seq<Byte>

  /** ntohl of the first four bytes. */
  function WireLength(s: seq<Byte>): nat
    requires |s| >= 4
  {
    Value(s[..4])
  }

  /** htonl */
  function LengthWord(n: nat): (w: seq<Byte>)
    ensures |w| == 4
    ensures n < 0x1_0000_0000 ==> WireLength(w) == n
  {
    DigitsValue(n, 4);
    assert Digits(n, 4)[..4] == Digits(n, 4);
    Digits(n, 4)
  }

  lemma {:induction false} WireLengthInjective(s: seq<Byte>, t: seq<Byte>)
    requires |s| >= 4 && |t| >= 4
    requires WireLength(s) == WireLength(t)
    ensures s[..4] == t[..4]
  {
    ValueInjective(s[..4], t[..4]);
  }

  /** One message in wire format. */
  function Frame(m: Message): seq<Byte>
    requires |m| <= MESSAGE_SIZE_MAX
  {
    LengthWord(|m|) + m
  }

  ghost predicate Sendable(ms: seq<Message>) {
    forall i :: 0 <= i < |ms| ==> |ms[i]| <= MESSAGE_SIZE_MAX
  }

  function Frames(ms: seq<Message>): seq<Byte>
    requires Sendable(ms)
  {
    if ms == [] then [] else Frame(ms[0]) + Frames(ms[1..])
  }

  lemma {:induction false} FramesAppend(a: seq<Message>, b: seq<Message>)
    requires Sendable(a) && Sendable(b)
    ensures Sendable(a + b) && Frames(a + b) == Frames(a) + Frames(b)
  {
    if a == [] {
      assert a + b == b;
    } else {
      FramesAppend(a[1..], b);
      assert (a + b)[1..] == a[1..] + b;
      assert Frame(a[0]) + (Frames(a[1..]) + Frames(b)) == (Frame(a[0]) + Frames(a[1..])) + Frames(b);
    }
  }

  /** The result of parsing: complete messages, the unparsed tail, and whether
      parsing stopped at a length over the limit. */
  datatype Parsed = Parsed(msgs: seq<Message>, rest: seq<Byte>, tooLarge: bool)

  /** A complete message at the front of s. */
  predicate Complete(s: seq<Byte>) {
    |s| >= 4 && WireLength(s) <= MESSAGE_SIZE_MAX && WireLength(s) + 4 <= |s|
  }

  function Parse(s: seq<Byte>): Parsed {
    if !Complete(s) then Parsed([], s, |s| >= 4 && WireLength(s) > MESSAGE_SIZE_MAX)
    else
      var n := WireLength(s);
      var p := Parse(s[4 + n..]);
      Parsed([s[4..4 + n]] + p.msgs, p.rest, p.tooLarge)
  }

  lemma {:induction false} CompleteIsFrame(s: seq<Byte>)
    requires Complete(s)
    ensures var n := WireLength(s); s == Frame(s[4..4 + n]) + s[4 + n..]
  {
    var n := WireLength(s);
    WireLengthInjective(s, LengthWord(n));
  }

  lemma {:induction false} FrameIsComplete(m: Message, t: seq<Byte>)
    requires |m| <= MESSAGE_SIZE_MAX
    ensures Complete(Frame(m) + t) && WireLength(Frame(m) + t) == |m|
    ensures (Frame(m) + t)[4..4 + |m|] == m && (Frame(m) + t)[4 + |m|..] == t
  {
    var w := LengthWord(|m|);
    assert (Frame(m) + t)[..4] == w[..4];
  }

  /** What is parsed and what is left make up the input, and nothing complete is left. */
  lemma {:induction false} ParseSplits(s: seq<Byte>)
    ensures var p := Parse(s);
            && Sendable(p.msgs) && s == Frames(p.msgs) + p.rest && !Complete(p.rest)
            && (p.tooLarge <==> |p.rest| >= 4 && WireLength(p.rest) > MESSAGE_SIZE_MAX)
  {
    if !Complete(s) {
      assert s == [] + s;
    } else {
      var n := WireLength(s);
      ParseSplits(s[4 + n..]);
      CompleteIsFrame(s);
      var p := Parse(s[4 + n..]);
      assert Parse(s).msgs[0] == s[4..4 + n] && Parse(s).msgs[1..] == p.msgs;
      assert Frame(s[4..4 + n]) + (Frames(p.msgs) + p.rest) == Frames(Parse(s).msgs) + p.rest;
    }
  }

  /** Parsing a concatenation of frames gives the messages back and goes on
      with what follows them. */
  lemma {:induction false} ParseFrames(ms: seq<Message>, t: seq<Byte>)
    requires Sendable(ms)
    ensures var p := Parse(t); Parse(Frames(ms) + t) == Parsed(ms + p.msgs, p.rest, p.tooLarge)
  {
    hide WireLength, LengthWord;
    if ms == [] {
      assert Frames(ms) + t == t;
      assert ms + Parse(t).msgs == Parse(t).msgs;
    } else {
      ParseFrames(ms[1..], t);
      assert Frames(ms) + t == Frame(ms[0]) + (Frames(ms[1..]) + t);
      FrameIsComplete(ms[0], Frames(ms[1..]) + t);
      assert [ms[0]] + (ms[1..] + Parse(t).msgs) == ms + Parse(t).msgs;
    }
  }

  /** Parsing can be resumed: parse a, keep the tail, and go on with more bytes. */
  lemma {:induction false} ParseResumes(a: seq<Byte>, b: seq<Byte>)
    ensures var p := Parse(a); var q := Parse(p.rest + b);
            Parse(a + b) == Parsed(p.msgs + q.msgs, q.rest, q.tooLarge)
  {
    ParseSplits(a);
    hide Parse, WireLength, LengthWord;
    var p := Parse(a);
    ParseFrames(p.msgs, p.rest + b);
    assert a + b == Frames(p.msgs) + (p.rest + b);
  }

  /** A length over the limit stops the parse for good. */
  lemma {:induction false} TooLargeStays(a: seq<Byte>, b: seq<Byte>)
    requires Parse(a).tooLarge
    ensures Parse(a + b).msgs == Parse(a).msgs && Parse(a + b).tooLarge
  {
    ParseResumes(a, b);
    ParseSplits(a);
    var r := Parse(a).rest;
    assert (r + b)[..4] == r[..4];
  }
}
