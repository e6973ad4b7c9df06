/** The pattern language of external/basic/basic_pattern.c, and a greedy evaluator that says what
    a format means: literals, classes, sets of classes, and captures. */
module Pattern {
  import opened Bytes

  /** A character class; `Any` is what every upper-case complement class really is. */
  datatype Class =
    | Custom(ch: byte) | Space | Alnum | Alpha | Digit | Cntrl | Punct | Lower | Upper | XDigit
    | Nul | NotNul | Any

  // ---- the classes of <ctype.h> in the C locale

  predicate IsLower(c: byte) { 97 <= c <= 122 }
  predicate IsUpper(c: byte) { 65 <= c <= 90 }
  predicate IsAlpha(c: byte) { IsLower(c) || IsUpper(c) }
  predicate IsDigit(c: byte) { 48 <= c <= 57 }
  predicate IsAlnum(c: byte) { IsAlpha(c) || IsDigit(c) }
  predicate IsSpace(c: byte) { c == 32 || 9 <= c <= 13 }
  predicate IsCntrl(c: byte) { c < 32 || c == 127 }
  predicate IsPunct(c: byte) { 33 <= c <= 126 && !IsAlnum(c) }
  predicate IsXDigit(c: byte) { IsDigit(c) || 97 <= c <= 102 || 65 <= c <= 70 }
  function ToUpper(c: byte): byte { if IsLower(c) then c - 32 else c }

  predicate InClass(c: byte, k: Class)
  {
    match k
    case Custom(ch) => c == ch
    case Space => IsSpace(c)
    case Alnum => IsAlnum(c)
    case Alpha => IsAlpha(c)
    case Digit => IsDigit(c)
    case Cntrl => IsCntrl(c)
    case Punct => IsPunct(c)
    case Lower => IsLower(c)
    case Upper => IsUpper(c)
    case XDigit => IsXDigit(c)
    case Nul => c == 0
    case NotNul => c != 0
    case Any => true
  }

  predicate InUnion(c: byte, ks: seq<Class>)
  {
    exists i :: 0 <= i < |ks| && InClass(c, ks[i])
  }

  /** How many characters at the front of `s` are in the union of `ks`. */
  function RunLength(s: seq<byte>, ks: seq<Class>): (n: nat)
    ensures n <= |s|
  {
    if s == [] || !InUnion(s[0], ks) then 0 else 1 + RunLength(s[1..], ks)
  }

  /** The run is the longest one: all of it is in the union, and what follows is not. */
  lemma {:induction false} RunIsLongest(s: seq<byte>, ks: seq<Class>)
    ensures forall i :: 0 <= i < RunLength(s, ks) ==> InUnion(s[i], ks)
    ensures RunLength(s, ks) < |s| ==> !InUnion(s[RunLength(s, ks)], ks)
    decreases |s|
  {
    if s != [] && InUnion(s[0], ks) {
      RunIsLongest(s[1..], ks);
      forall i | 0 <= i < RunLength(s, ks)
        ensures InUnion(s[i], ks)
      {
        if i != 0 {
          assert s[i] == s[1..][i - 1];
        }
      }
    }
  }

  // ---- formats

  const PERCENT: byte := 37
  const OPEN: byte := 40
  const CLOSE: byte := 41
  const STAR: byte := 42
  const PLUS: byte := 43
  const QUESTION: byte := 63
  const SET: byte := 91
  const END_SET: byte := 93
  const CARET: byte := 94

  /** The class a letter after '%' names; any other character names itself. */
  function ClassOf(c: byte): Class
  {
    match c
    case 97 => Alpha
    case 115 => Space
    case 99 => Cntrl
    case 100 => Digit
    case 108 => Lower
    case 117 => Upper
    case 112 => Punct
    case 119 => Alnum
    case 120 => XDigit
    case 122 => Nul
    case 121 => NotNul
    case _ => if c in [65, 83, 67, 68, 76, 85, 80, 87, 88, 90, 89] then Any else Custom(c)
  }

  datatype Item =
    | Lit(c: byte)
    | Many(members: seq<Class>, optional: bool)
    | Open
    | Close
    | Unclosed

  /** The members of a set, or of a single '%' class. */
  function Members(p: seq<byte>): seq<Class>
  {
    if p == [] then []
    else if p[0] != PERCENT then [Custom(p[0])] + Members(p[1..])
    else if |p| == 1 then []
    else [ClassOf(p[1])] + Members(p[2..])
  }

  /** No '%' is left without a character after it. */
  predicate Whole(p: seq<byte>)
  {
    p == [] || (if p[0] != PERCENT then Whole(p[1..]) else 2 <= |p| && Whole(p[2..]))
  }

  predicate IsSpecifier(fmt: seq<byte>) { fmt != [] && fmt[0] in [PLUS, STAR, QUESTION] }

  /** '*' and '?' allow an empty run; '+' says nothing that its absence does not. */
  predicate AllowsEmpty(fmt: seq<byte>) { fmt != [] && fmt[0] in [STAR, QUESTION] }

  function AfterSpecifier(fmt: seq<byte>): seq<byte> { if IsSpecifier(fmt) then fmt[1..] else fmt }

  /** The length of the set at the front of `s`, which has lost its '['; `s` itself if it is not
      closed. A ']' after a '%' does not close it. */
  function SetLength(s: seq<byte>, prev: byte): (n: nat)
    ensures n <= |s|
    ensures n < |s| ==> s[n] == END_SET && (if n == 0 then prev else s[n - 1]) != PERCENT
    decreases |s|
  {
    if s == [] || (s[0] == END_SET && prev != PERCENT) then 0 else 1 + SetLength(s[1..], s[0])
  }

  /** A format the matcher can read: every '%' outside a set has its character, and no set
      starts with '^'. */
  predicate WellFormed(fmt: seq<byte>)
    decreases |fmt|
  {
    if fmt == [] then true
    else if fmt[0] == PERCENT then 2 <= |fmt| && WellFormed(AfterSpecifier(fmt[2..]))
    else if fmt[0] == SET then
      var n := SetLength(fmt[1..], SET);
      n == |fmt| - 1 || (fmt[1] != CARET && WellFormed(AfterSpecifier(fmt[n + 2..])))
    else WellFormed(fmt[1..])
  }

  function Parse(fmt: seq<byte>): seq<Item>
    requires WellFormed(fmt)
    decreases |fmt|
  {
    if fmt == [] then []
    else if fmt[0] == PERCENT then
      [Many([ClassOf(fmt[1])], AllowsEmpty(fmt[2..]))] + Parse(AfterSpecifier(fmt[2..]))
    else if fmt[0] == SET then
      var n := SetLength(fmt[1..], SET);
      if n == |fmt| - 1 then [Unclosed]
      else [Many(Members(fmt[1..n + 1]), AllowsEmpty(fmt[n + 2..]))] + Parse(AfterSpecifier(fmt[n + 2..]))
    else
      [if fmt[0] == OPEN then Open else if fmt[0] == CLOSE then Close else Lit(fmt[0])] + Parse(fmt[1..])
  }

  /** Where a capture started, if one is open. */
  datatype Start = NotOpen | From(at: nat)

  /** The number of characters matched, or a failure; and the captures written in either case. */
  datatype Outcome = Matched(used: nat, captures: seq<seq<byte>>) | Failed(captures: seq<seq<byte>>)

  /** The meaning of a format: literals match themselves (letters of either case if `fold`), a set
      takes the longest run of its union, and captures are what was consumed between brackets. */
  function Eval(items: seq<Item>, src: seq<byte>, pos: nat, start: Start, captures: seq<seq<byte>>, fold: bool): Outcome
    requires pos <= |src| && (start.From? ==> start.at <= pos)
    decreases |items|
  {
    if items == [] then
      if start.From? then Failed(captures) else Matched(pos, captures)
    else
      match items[0]
      case Lit(c) =>
        if pos < |src| && SameChar(c, src[pos], fold)
        then Eval(items[1..], src, pos + 1, start, captures, fold) else Failed(captures)
      case Many(ks, optional) =>
        var n := RunLength(src[pos..], ks);
        if n == 0 && !optional then Failed(captures)
        else Eval(items[1..], src, pos + n, start, captures, fold)
      case Open => Eval(items[1..], src, pos, From(pos), captures, fold)
      case Close =>
        if start.From?
        then Eval(items[1..], src, pos, NotOpen, captures + [src[start.at..pos]], fold)
        else Failed(captures)
      case Unclosed => Failed(captures)
  }

  predicate SameChar(c: byte, d: byte, fold: bool)
  {
    if fold then ToUpper(c) == ToUpper(d) else c == d
  }

  /** match_string_virtual: an empty source only matches an empty format. */
  function Meaning(fmt: seq<byte>, src: seq<byte>, fold: bool): Outcome
    requires WellFormed(fmt)
  {
    if src == [] then (if fmt == [] then Matched(0, []) else Failed([]))
    else Eval(Parse(fmt), src, 0, NotOpen, [], fold)
  }

  // ---- what the meaning implies

  /** A slice of what was consumed. */
  ghost predicate IsSlice(c: seq<byte>, s: seq<byte>)
  {
    exists i, j :: 0 <= i <= j <= |s| && s[i..j] == c
  }

  lemma SliceGrows(src: seq<byte>, i: nat, j: nat, n: nat)
    requires i <= j <= n <= |src|
    ensures IsSlice(src[i..j], src[..n])
  {
    assert src[..n][i..j] == src[i..j];
  }

  /** A match consumes a prefix of the source, and every capture is a slice of that prefix. */
  lemma {:induction false} CapturesAreSlices(items: seq<Item>, src: seq<byte>, pos: nat, start: Start,
                                            captures: seq<seq<byte>>, fold: bool)
    requires pos <= |src| && (start.From? ==> start.at <= pos)
    requires forall i :: 0 <= i < |captures| ==> IsSlice(captures[i], src[..pos])
    ensures var o := Eval(items, src, pos, start, captures, fold);
            o.Matched? ==> pos <= o.used <= |src|
                           && forall i :: 0 <= i < |o.captures| ==> IsSlice(o.captures[i], src[..o.used])
    decreases |items|
  {
    if items != [] {
      match items[0]
      case Lit(c) =>
        if pos < |src| && SameChar(c, src[pos], fold) {
          SlicesGrow(captures, src, pos, pos + 1);
          CapturesAreSlices(items[1..], src, pos + 1, start, captures, fold);
        }
      case Many(ks, optional) =>
        var n := RunLength(src[pos..], ks);
        SlicesGrow(captures, src, pos, pos + n);
        CapturesAreSlices(items[1..], src, pos + n, start, captures, fold);
      case Open => CapturesAreSlices(items[1..], src, pos, From(pos), captures, fold);
      case Close =>
        if start.From? {
          SliceGrows(src, start.at, pos, pos);
          CapturesAreSlices(items[1..], src, pos, NotOpen, captures + [src[start.at..pos]], fold);
        }
      case Unclosed =>
    }
  }

  lemma SlicesGrow(captures: seq<seq<byte>>, src: seq<byte>, m: nat, n: nat)
    requires m <= n <= |src| && forall i :: 0 <= i < |captures| ==> IsSlice(captures[i], src[..m])
    ensures forall i :: 0 <= i < |captures| ==> IsSlice(captures[i], src[..n])
  {
    forall i | 0 <= i < |captures|
      ensures IsSlice(captures[i], src[..n])
    {
      var j, k :| 0 <= j <= k <= m && src[..m][j..k] == captures[i];
      assert src[..n][j..k] == src[..m][j..k];
    }
  }

  /** A '+' after a class changes nothing: a class always takes its longest run, and without
      '*' or '?' the run must not be empty. */
  lemma PlusIsDefault(c: byte, rest: seq<byte>)
    requires WellFormed(rest) && !IsSpecifier(rest)
    ensures WellFormed([PERCENT, c] + rest) && WellFormed([PERCENT, c, PLUS] + rest)
    ensures Parse([PERCENT, c, PLUS] + rest) == Parse([PERCENT, c] + rest)
  {
    assert ([PERCENT, c] + rest)[2..] == rest;
    assert ([PERCENT, c, PLUS] + rest)[2..] == [PLUS] + rest;
    assert ([PLUS] + rest)[1..] == rest;
  }

  predicate Plain(fmt: seq<byte>)
  {
    forall i :: 0 <= i < |fmt| ==> fmt[i] !in [PERCENT, SET, OPEN, CLOSE]
  }

  lemma PlainParses(fmt: seq<byte>)
    requires Plain(fmt) && fmt != [] && WellFormed(fmt[1..])
    ensures Plain(fmt[1..]) && WellFormed(fmt) && Parse(fmt) == [Lit(fmt[0])] + Parse(fmt[1..])
  {
    var c := fmt[0];
    assert c !in [PERCENT, SET, OPEN, CLOSE];
    assert WellFormed(fmt);
  }

  lemma LitEvals(c: byte, items: seq<Item>, src: seq<byte>, pos: nat, captures: seq<seq<byte>>)
    requires pos <= |src|
    ensures Eval([Lit(c)] + items, src, pos, NotOpen, captures, false)
            == if pos < |src| && c == src[pos] then Eval(items, src, pos + 1, NotOpen, captures, false)
               else Failed(captures)
  {
    assert ([Lit(c)] + items)[0] == Lit(c) && ([Lit(c)] + items)[1..] == items;
  }

  lemma PrefixByChar(a: seq<byte>, s: seq<byte>, pos: nat)
    requires a != [] && pos <= |s|
    ensures a <= s[pos..] <==> pos < |s| && a[0] == s[pos] && a[1..] <= s[pos + 1..]
  {
    if pos < |s| && a[0] == s[pos] && a[1..] <= s[pos + 1..] {
      assert a == [a[0]] + a[1..] && s[pos..] == [s[pos]] + s[pos + 1..];
    }
    if a <= s[pos..] {
      assert s[pos..][1..] == s[pos + 1..] && s[pos..][0] == s[pos];
    }
  }

  /** A format without special characters matches exactly the sources that start with it. */
  lemma {:induction false} PlainMatchesPrefix(fmt: seq<byte>, src: seq<byte>, pos: nat, captures: seq<seq<byte>>)
    requires Plain(fmt) && pos <= |src|
    ensures WellFormed(fmt)
    ensures Eval(Parse(fmt), src, pos, NotOpen, captures, false)
            == if fmt <= src[pos..] then Matched(pos + |fmt|, captures) else Failed(captures)
    decreases |fmt|
  {
    if fmt != [] {
      hide Parse, Eval, WellFormed;
      PlainMatchesPrefix(fmt[1..], src, if pos < |src| then pos + 1 else pos, captures);
      PlainParses(fmt);
      LitEvals(fmt[0], Parse(fmt[1..]), src, pos, captures);
      PrefixByChar(fmt, src, pos);
    }
  }
}
