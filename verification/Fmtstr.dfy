/** The small formatter of src/exec_preload.c: one pass counts, the other writes. */
module Fmtstr {
  import opened Options
  import opened Decimals

  datatype Arg = Str(s: Option<string>) | Chr(c: char) | Num(d: int)

  /** What the front of a format yields: its text, and how much of the format
      and of the arguments it takes.  An unknown escape is literal text. */
  datatype Piece = Piece(text: string, skip: nat, uses: nat)

  predicate Escape(fmt: string, c: char) {
    |fmt| > 1 && fmt[0] == '%' && fmt[1] == c
  }

  /** The arguments fit the format; a %d argument is an int. */
  predicate Fits(fmt: string, args: seq<Arg>) {
    && (Escape(fmt, 'c') ==> args != [] && args[0].Chr?)
    && (Escape(fmt, 's') ==> args != [] && args[0].Str?)
    && (Escape(fmt, 'd') ==> args != [] && args[0].Num? && -INT_MAX - 1 <= args[0].d <= INT_MAX)
  }

  function First(fmt: string, args: seq<Arg>): (p: Piece)
    requires fmt != [] && Fits(fmt, args)
    ensures 0 < p.skip <= |fmt| && p.uses <= |args|
  {
    if Escape(fmt, '%') then Piece("%", 2, 0)
    else if Escape(fmt, 'c') then Piece([args[0].c], 2, 1)
    else if Escape(fmt, 's') then Piece(if args[0].s.Some? then args[0].s.value else "(NULL)", 2, 1)
    else if Escape(fmt, 'd') then Piece(SignedDecimal(args[0].d), 2, 1)
    else Piece([fmt[0]], 1, 0)
  }

  predicate Matches(fmt: string, args: seq<Arg>)
    decreases |fmt|
  {
    fmt == [] || (Fits(fmt, args) && var p := First(fmt, args); Matches(fmt[p.skip..], args[p.uses..]))
  }

  function Formatted(fmt: string, args: seq<Arg>): string
    requires Matches(fmt, args)
    decreases |fmt|
  {
    if fmt == [] then [] else var p := First(fmt, args); p.text + Formatted(fmt[p.skip..], args[p.uses..])
  }

  /** The first pass. */
  method Measure(ofmt: string, oargs: seq<Arg>) returns (size: nat, overflow: bool)
    requires Matches(ofmt, oargs)
    ensures !overflow && size == |Formatted(ofmt, oargs)| + 1
  {
    var fmt, args := ofmt, oargs;
    size, overflow := 1, false;
    while fmt != []
      invariant Matches(fmt, args) && !overflow && size + |Formatted(fmt, args)| == |Formatted(ofmt, oargs)| + 1
      decreases |fmt|
    {
      if Escape(fmt, 'c') {
        size := size + 1;
        fmt, args := fmt[2..], args[1..];
      } else if Escape(fmt, '%') {
        size := size + 1;
        fmt, args := fmt[2..], args[0..];
      } else if Escape(fmt, 's') {
        size := size + if args[0].s.Some? then |args[0].s.value| else |"(NULL)"|;
        fmt, args := fmt[2..], args[1..];
      } else if Escape(fmt, 'd') {
        var len := |SignedDecimal(args[0].d)|;
        WidthsSuffice(0, args[0].d);
        if len >= StrlenMaxSigned(4) + 1 {
          overflow := true;
          return;
        }
        size := size + len;
        fmt, args := fmt[2..], args[1..];
      } else {
        size := size + 1;
        fmt, args := fmt[1..], args[0..];
      }
    }
  }

  method Put(a: array<char>, at: nat, s: string)
    requires at + |s| <= a.Length
    modifies a
    ensures a[..at + |s|] == old(a[..at]) + s
  {
    forall i | 0 <= i < |s| {
      a[at + i] := s[i];
    }
    assert a[..at + |s|] == old(a[..at]) + s;
  }

  /** The second pass writes exactly what the first one counted, and its
      overflow exit is never taken.  Its own count of the space left is not
      exact: literal text makes it grow. */
  method Format(ofmt: string, oargs: seq<Arg>) returns (newstr: array<char>, overflow: bool)
    requires Matches(ofmt, oargs)
    ensures !overflow && fresh(newstr) && newstr[..] == Formatted(ofmt, oargs) + ['\0']
  {
    var size;
    size, overflow := Measure(ofmt, oargs);
    newstr := new char[size](_ => '\0');
    var fmt, args, cur := ofmt, oargs, 0;
    assert newstr[..0] + Formatted(ofmt, oargs) == Formatted(ofmt, oargs);
    hide Formatted, First, Matches;
    while fmt != []
      invariant Matches(fmt, args) && !overflow && 0 <= cur < newstr.Length <= cur + size
      invariant newstr.Length == |Formatted(ofmt, oargs)| + 1
      invariant newstr[..cur] + Formatted(fmt, args) == Formatted(ofmt, oargs)
      decreases |fmt|
    {
      size, cur, fmt, args, overflow := FormatOne(newstr, size, cur, fmt, args, Formatted(ofmt, oargs));
    }
    NoPiece(fmt, args, newstr[..cur]);
    if size < 1 {
      overflow := true;
      return;
    }
    newstr[cur] := '\0';
    assert newstr[..] == newstr[..cur] + ['\0'];
  }

  /** Text that is no escape: the second pass counts it the wrong way. */
  predicate Literal(fmt: string) {
    !Escape(fmt, '%') && !Escape(fmt, 'c') && !Escape(fmt, 's') && !Escape(fmt, 'd')
  }

  /** One turn of the second pass. */
  method FormatOne(newstr: array<char>, size: nat, cur: nat, fmt: string, args: seq<Arg>, ghost all: string)
    returns (size': nat, cur': nat, fmt': string, args': seq<Arg>, overflow: bool)
    requires fmt != [] && Matches(fmt, args) && cur < newstr.Length <= cur + size && newstr.Length == |all| + 1
    requires newstr[..cur] + Formatted(fmt, args) == all
    modifies newstr
    ensures !overflow && |fmt'| < |fmt| && Matches(fmt', args') && cur' < newstr.Length <= cur' + size'
    ensures newstr[..cur'] + Formatted(fmt', args') == all
    ensures cur' + size' == cur + size + if Literal(fmt) then 2 else 0
  {
    OnePiece(fmt, args, newstr[..cur]);
    hide Formatted, First, Matches;
    var text, literal;
    text, fmt', args', literal := NextText(fmt, args);
    size', cur', overflow := size, cur, |text| >= size;
    if !overflow {
      Put(newstr, cur, text);
      cur' := cur + |text|;
      size' := if literal then size + 1 else size - |text|;
    }
  }

  lemma {:induction false} OnePiece(fmt: string, args: seq<Arg>, done: string)
    requires fmt != [] && Matches(fmt, args)
    ensures var p := First(fmt, args);
            && Fits(fmt, args) && Matches(fmt[p.skip..], args[p.uses..])
            && done + Formatted(fmt, args) == (done + p.text) + Formatted(fmt[p.skip..], args[p.uses..])
  {
    var p := First(fmt, args);
    var rest := Formatted(fmt[p.skip..], args[p.uses..]);
    assert done + (p.text + rest) == (done + p.text) + rest;
  }

  lemma {:induction false} NoPiece(fmt: string, args: seq<Arg>, done: string)
    requires fmt == []
    ensures Matches(fmt, args) && done + Formatted(fmt, args) == done
  {
  }

  /** The switch over one piece; `literal` marks text outside an escape. */
  method NextText(fmt: string, args: seq<Arg>) returns (text: string, fmt': string, args': seq<Arg>, literal: bool)
    requires fmt != [] && Fits(fmt, args)
    ensures var p := First(fmt, args); text == p.text && fmt' == fmt[p.skip..] && args' == args[p.uses..]
    ensures literal == Literal(fmt) && (literal ==> |text| == 1)
  {
    literal := false;
    if Escape(fmt, '%') {
      text, fmt', args' := "%", fmt[2..], args[0..];
    } else if Escape(fmt, 'c') {
      text, fmt', args' := [args[0].c], fmt[2..], args[1..];
    } else if Escape(fmt, 's') {
      text := if args[0].s.Some? then args[0].s.value else "(NULL)";
      fmt', args' := fmt[2..], args[1..];
    } else if Escape(fmt, 'd') {
      text, fmt', args' := SignedDecimal(args[0].d), fmt[2..], args[1..];
    } else {
      text, fmt', args', literal := [fmt[0]], fmt[1..], args[0..], true;
    }
  }
}
