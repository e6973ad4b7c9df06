/** The matcher of external/basic/basic_pattern.c as it is written: an interpreter that moves
    cursors over the format and the source. It is proved to compute Pattern.Meaning. */
module Matcher {
  import opened Bytes
  import opened Pattern

  const LETTER: bv32 := 1
  const SPACE: bv32 := 2
  const CONTROL: bv32 := 4
  const DIGIT: bv32 := 8
  const LOWER: bv32 := 0x10
  const UPPER: bv32 := 0x20
  const PUNCTUATION: bv32 := 0x40
  const ALPHANUM: bv32 := 0x80
  const HEXA: bv32 := 0x100
  const NULL_CHAR: bv32 := 0x200
  const CUSTOM: bv32 := 0x400
  const NEGATIVE: bv32 := 0x800
  const ALL: bv32 := 0x1000

  /** match_char */
  predicate MatchChar(c: byte, matches: bv32, ch: byte)
  {
    || (matches & CUSTOM != 0 && c == ch)
    || (matches & SPACE != 0 && IsSpace(c))
    || (matches & ALPHANUM != 0 && IsAlnum(c))
    || (matches & LETTER != 0 && IsAlpha(c))
    || (matches & DIGIT != 0 && IsDigit(c))
    || (matches & CONTROL != 0 && IsCntrl(c))
    || (matches & PUNCTUATION != 0 && IsPunct(c))
    || (matches & LOWER != 0 && IsLower(c))
    || (matches & UPPER != 0 && IsUpper(c))
    || (matches & HEXA != 0 && IsXDigit(c))
    || (matches & NULL_CHAR != 0 && c == 0)
    || (matches & NEGATIVE != 0 && c != ch)
    || (matches & ALL != 0 && c != 0)
  }

  /** The letters of get_pattern; the last result says whether the letter names itself. */
  function Letter(c: byte): (bv32, bool)
  {
    match c
    case 97 => (LETTER, false)
    case 65 => (!LETTER, false)
    case 115 => (SPACE, false)
    case 83 => (!SPACE, false)
    case 99 => (CONTROL, false)
    case 67 => (!CONTROL, false)
    case 100 => (DIGIT, false)
    case 68 => (!DIGIT, false)
    case 108 => (LOWER, false)
    case 76 => (!LOWER, false)
    case 117 => (UPPER, false)
    case 85 => (!UPPER, false)
    case 112 => (PUNCTUATION, false)
    case 80 => (!PUNCTUATION, false)
    case 119 => (ALPHANUM, false)
    case 87 => (!ALPHANUM, false)
    case 120 => (HEXA, false)
    case 88 => (!HEXA, false)
    case 122 => (NULL_CHAR, false)
    case 90 => (!NULL_CHAR, false)
    case 121 => (ALL, false)
    case 89 => (!ALL, false)
    case _ => (CUSTOM, true)
  }

  /** The bits get_pattern sets select exactly the class the letter names, whatever character
      an earlier member left behind. */
  lemma LetterMeansClass(l: byte, c: byte, stale: byte)
    ensures var (matches, own) := Letter(l);
            MatchChar(c, matches, if own then l else stale) == InClass(c, ClassOf(l))
  {
    SingleBits();
    ComplementBits();
  }

  /** The letters that should name complements do not: each accepts every character, whatever an
      earlier member left behind, because its mask asks both for a character that is `ch` and for one
      that is not. No other letter does so. */
  lemma ComplementsAcceptAll(l: byte)
    ensures (forall c: byte, ch: byte :: MatchChar(c, Letter(l).0, ch))
            <==> l in [65, 83, 67, 68, 76, 85, 80, 87, 88, 90, 89]
  {
    SingleBits();
    ComplementBits();
    if l !in [65, 83, 67, 68, 76, 85, 80, 87, 88, 90, 89] {
      var c: byte := if l == 112 then 97 else if l == 122 then 1 else if l == 121 || l == 99 then 0 else 33;
      var d: byte := if l == 99 then 97 else c;
      LetterMeansClass(l, d, 200);
      assert !MatchChar(d, Letter(l).0, 200);
    }
  }

  lemma SingleBits()
    ensures forall m | m in [LETTER, SPACE, CONTROL, DIGIT, LOWER, UPPER, PUNCTUATION, ALPHANUM, HEXA,
                                    NULL_CHAR, CUSTOM, ALL],
                   b | b in [LETTER, SPACE, CONTROL, DIGIT, LOWER, UPPER, PUNCTUATION, ALPHANUM, HEXA,
                              NULL_CHAR, CUSTOM, NEGATIVE, ALL]
              :: (m & b != 0) == (m == b)
  {
  }

  lemma ComplementBits()
    ensures forall m | m in [LETTER, SPACE, CONTROL, DIGIT, LOWER, UPPER, PUNCTUATION, ALPHANUM, HEXA, NULL_CHAR, ALL]
              :: !m & CUSTOM != 0 && !m & NEGATIVE != 0
  {
  }

  /** get_pattern, for the character of the pattern at `at` */
  function GetPattern(p: seq<byte>, at: nat, stale: byte): (bv32, byte, nat)
    requires at < |p| && (p[at] == PERCENT ==> at + 1 < |p|)
  {
    if p[at] != PERCENT then (CUSTOM, p[at], 1)
    else
      var (matches, own) := Letter(p[at + 1]);
      (matches, if own then p[at + 1] else stale, 2)
  }

  /** The pattern element at `at` is the class `ks[done]`, and the rest of the pattern is the rest
      of the classes. */
  lemma ElementIsClass(p: seq<byte>, at: nat, stale: byte, ks: seq<Class>, done: nat)
    requires at < |p| && Whole(p[at..]) && done <= |ks| && ks[done..] == Members(p[at..])
    ensures p[at] == PERCENT ==> at + 1 < |p|
    ensures done < |ks|
    ensures var (matches, ch, len) := GetPattern(p, at, stale);
            && at + len <= |p| && Whole(p[at + len..]) && ks[done + 1..] == Members(p[at + len..])
            && forall c: byte :: MatchChar(c, matches, ch) == InClass(c, ks[done])
  {
    hide InClass, Letter;
    var q := p[at..];
    assert q[0] == p[at];
    assert ks[done..][0] == ks[done] && ks[done..][1..] == ks[done + 1..];
    if q[0] != PERCENT {
      assert q[1..] == p[at + 1..];
      forall c: byte
        ensures MatchChar(c, CUSTOM, p[at]) == InClass(c, Custom(p[at]))
      {
        CustomMeansItself(c, p[at]);
      }
    } else {
      assert q[1] == p[at + 1] && q[2..] == p[at + 2..];
      var (matches, ch, len) := GetPattern(p, at, stale);
      forall c: byte
        ensures MatchChar(c, matches, ch) == InClass(c, ClassOf(q[1]))
      {
        LetterMeansClass(q[1], c, stale);
      }
    }
  }

  lemma CustomMeansItself(c: byte, ch: byte)
    ensures MatchChar(c, CUSTOM, ch) == InClass(c, Custom(ch))
  {
    SingleBits();
  }

  lemma MemberExtendsRun(data: seq<byte>, str: nat, ks: seq<Class>, k: nat)
    requires str <= RunLength(data, ks) && str < |data| && k < |ks| && InClass(data[str], ks[k])
    ensures str + 1 <= RunLength(data, ks)
  {
    RunIsLongest(data, ks);
  }

  lemma RunEnds(data: seq<byte>, str: nat, ks: seq<Class>)
    requires str <= RunLength(data, ks)
    requires str < |data| ==> forall i :: 0 <= i < |ks| ==> !InClass(data[str], ks[i])
    ensures str == RunLength(data, ks)
  {
    RunIsLongest(data, ks);
  }

  /** match_pattern for a set that does not start with '^'; -1 if the run may not be empty */
  method MatchPattern(data: seq<byte>, pattern: seq<byte>, runAll: bool, runZero: bool) returns (count: int)
    requires Whole(pattern) && (pattern != [] ==> pattern[0] != CARET)
    ensures var n := RunLength(data, Members(pattern));
            count == if n == 0 && !runZero then -1 else n
  {
    hide InClass, MatchChar, Members, GetPattern;
    ghost var ks := Members(pattern);
    var str := 0;
    var character: byte := 0;
    while true
      invariant str <= RunLength(data, ks)
      decreases |data| - str
    {
      var first := str;
      var matchAnything := false;
      var fmt := 0;
      ghost var done := 0;
      assert pattern[0..] == pattern;
      while fmt < |pattern|
        invariant first <= str <= RunLength(data, ks) && matchAnything == (first < str)
        invariant fmt <= |pattern| && Whole(pattern[fmt..])
        invariant done <= |ks| && ks[done..] == Members(pattern[fmt..])
        invariant !matchAnything && str < |data| ==> forall i :: 0 <= i < done ==> !InClass(data[str], ks[i])
      {
        ElementIsClass(pattern, fmt, character, ks, done);
        var (matches, ch, len) := GetPattern(pattern, fmt, character);
        character := ch;
        fmt := fmt + len;
        done := done + 1;
        if str < |data| && MatchChar(data[str], matches, character) {
          MemberExtendsRun(data, str, ks, done - 1);
          str := str + 1;
          matchAnything := true;
        } else {
          continue;
        }
        if runAll {
          while str < |data| && MatchChar(data[str], matches, character)
            invariant first < str <= RunLength(data, ks)
          {
            MemberExtendsRun(data, str, ks, done - 1);
            str := str + 1;
          }
        }
      }
      if !matchAnything {
        NoMembers(ks, done, pattern[fmt..]);
        break;
      }
    }
    RunEnds(data, str, ks);
    count := if str == 0 && !runZero then -1 else str;
  }

  lemma NoMembers(ks: seq<Class>, done: nat, rest: seq<byte>)
    requires done <= |ks| && ks[done..] == Members(rest) && rest == []
    ensures done == |ks|
  {
  }

  // ---- the interpreter

  /** The character at `i` of a C string. */
  function At(s: seq<byte>, i: nat): byte { if i < |s| then s[i] else 0 }

  /** get_specifier, and the step over the specifier: RUN_ALL, RUN_ZERO and the next position */
  function Specifier(fmt: seq<byte>, at: nat): (bool, bool, nat)
  {
    var c := At(fmt, at);
    (c in [PLUS, STAR], c in [STAR, QUESTION], if c in [PLUS, STAR, QUESTION] then at + 1 else at)
  }

  lemma SpecifierSkips(fmt: seq<byte>, at: nat)
    requires at <= |fmt|
    ensures var (all, zero, next) := Specifier(fmt, at);
            at <= next <= |fmt| && zero == AllowsEmpty(fmt[at..]) && fmt[next..] == AfterSpecifier(fmt[at..])
  {
  }

  /** A pattern whose last character is not '%' has no dangling '%'. */
  lemma {:induction false} WholeByLast(p: seq<byte>)
    requires p != [] ==> p[|p| - 1] != PERCENT
    ensures Whole(p)
    decreases |p|
  {
    if p != [] {
      if p[0] != PERCENT {
        WholeByLast(p[1..]);
      } else {
        WholeByLast(p[2..]);
      }
    }
  }

  /** The loop of match_string_virtual that looks for the ']' of a set starting at `from`; the
      result is the end of the format if there is none */
  method FindSetEnd(fmt: seq<byte>, from: nat) returns (end: nat)
    requires 0 < from <= |fmt| && fmt[from - 1] == SET && 0 !in fmt
    ensures from <= end == from + SetLength(fmt[from..], SET) <= |fmt|
    ensures end < |fmt| ==> Whole(fmt[from..end])
  {
    end := from;
    while true
      invariant from <= end <= |fmt|
      invariant SetLength(fmt[from..], SET) == end - from + SetLength(fmt[end..], fmt[end - 1])
      decreases |fmt| - end
    {
      if At(fmt, end) == 0 {
        break;
      }
      if fmt[end] == END_SET && fmt[end - 1] != PERCENT {
        WholeByLast(fmt[from..end]);
        break;
      }
      assert fmt[end..][1..] == fmt[end + 1..];
      end := end + 1;
    }
  }

  /** The state of the interpreter at position `i` of the format means what the whole does. */
  ghost predicate Agrees(format: seq<byte>, src: seq<byte>, fold: bool, i: nat, ptr: nat, start: Start,
                         captures: seq<seq<byte>>)
  {
    && WellFormed(format) && i <= |format| && WellFormed(format[i..])
    && ptr <= |src| && (start.From? ==> start.at <= ptr)
    && Eval(Parse(format), src, 0, NotOpen, [], fold) == Eval(Parse(format[i..]), src, ptr, start, captures, fold)
  }

  lemma AgreesAtStart(format: seq<byte>, src: seq<byte>, fold: bool)
    requires WellFormed(format)
    ensures Agrees(format, src, fold, 0, 0, NotOpen, [])
  {
    assert format[0..] == format;
  }

  /** One item of the format: a class, from '%' to its specifier. */
  lemma ClassStep(format: seq<byte>, src: seq<byte>, fold: bool, i: nat, ptr: nat, start: Start,
        captures: seq<seq<byte>>)
    requires Agrees(format, src, fold, i, ptr, start, captures) && At(format, i) == PERCENT
    ensures ptr <= |src| && i + 2 <= |format| && Whole(format[i..i + 2])
    ensures var (all, zero, next) := Specifier(format, i + 2);
            var n := RunLength(src[ptr..], Members(format[i..i + 2]));
            if n == 0 && !zero then Eval(Parse(format), src, 0, NotOpen, [], fold) == Failed(captures)
            else Agrees(format, src, fold, next, ptr + n, start, captures)
  {
    hide ClassOf, RunLength, Members, Specifier, AfterSpecifier, AllowsEmpty;
    var f := format[i..];
    assert f[0] == PERCENT;
    SpecifierSkips(format, i + 2);
    assert f[2..] == format[i + 2..];
    MembersOfClass(format[i..i + 2]);
    assert f[1] == format[i + 1];
    ManyStep([ClassOf(f[1])], AllowsEmpty(f[2..]), Parse(AfterSpecifier(f[2..])), src, fold, ptr, start, captures);
  }

  lemma ManyStep(ks: seq<Class>, optional: bool, more: seq<Item>, src: seq<byte>, fold: bool, ptr: nat, start: Start,
                 captures: seq<seq<byte>>)
    requires ptr <= |src| && (start.From? ==> start.at <= ptr)
    ensures var n := RunLength(src[ptr..], ks);
            Eval([Many(ks, optional)] + more, src, ptr, start, captures, fold)
            == if n == 0 && !optional then Failed(captures) else Eval(more, src, ptr + n, start, captures, fold)
  {
    hide RunLength;
    var items := [Many(ks, optional)] + more;
    assert items[0] == Many(ks, optional) && items[1..] == more;
  }

  lemma MembersOfClass(p: seq<byte>)
    requires |p| == 2 && p[0] == PERCENT
    ensures Whole(p) && Members(p) == [ClassOf(p[1])]
  {
    hide ClassOf;
    assert p[2..] == [] && Members(p[2..]) == [];
  }

  /** One item of the format: a set, from '[' to its specifier. */
  lemma SetStep(format: seq<byte>, src: seq<byte>, fold: bool, i: nat, ptr: nat, start: Start, captures: seq<seq<byte>>)
    requires Agrees(format, src, fold, i, ptr, start, captures) && At(format, i) == SET
    ensures var end := i + 1 + SetLength(format[i + 1..], SET);
            if end == |format| then Eval(Parse(format), src, 0, NotOpen, [], fold) == Failed(captures)
            else
              var p := format[i + 1..end];
              var (all, zero, next) := Specifier(format, end + 1);
              var n := RunLength(src[ptr..], Members(p));
              && (p != [] ==> p[0] != CARET)
              && if n == 0 && !zero then Eval(Parse(format), src, 0, NotOpen, [], fold) == Failed(captures)
                 else Agrees(format, src, fold, next, ptr + n, start, captures)
  {
    hide ClassOf, RunLength, Members, Specifier, AfterSpecifier, AllowsEmpty, SetLength;
    hide Parse, Eval, WellFormed;
    var f := format[i..];
    assert f[0] == SET;
    assert f[1..] == format[i + 1..];
    var n := SetLength(f[1..], SET);
    ParseSet(f);
    if n < |f| - 1 {
      var end := i + 1 + n;
      SpecifierSkips(format, end + 1);
      var tail := f[n + 2..];
      assert tail == format[end + 1..] && f[1..n + 1] == format[i + 1..end];
      assert n != 0 ==> f[1..n + 1][0] == f[1];
      ManyStep(Members(f[1..n + 1]), AllowsEmpty(tail), Parse(AfterSpecifier(tail)), src, fold, ptr, start, captures);
    } else {
      UnclosedFails(src, fold, ptr, start, captures);
    }
  }

  lemma ParseSet(f: seq<byte>)
    requires WellFormed(f) && f != [] && f[0] == SET
    ensures var n := SetLength(f[1..], SET);
            if n == |f| - 1 then Parse(f) == [Unclosed]
            else && f[1] != CARET && WellFormed(AfterSpecifier(f[n + 2..]))
                 && Parse(f) == [Many(Members(f[1..n + 1]), AllowsEmpty(f[n + 2..]))]
                                + Parse(AfterSpecifier(f[n + 2..]))
  {
    hide Members, SetLength;
  }

  lemma UnclosedFails(src: seq<byte>, fold: bool, ptr: nat, start: Start, captures: seq<seq<byte>>)
    requires ptr <= |src| && (start.From? ==> start.at <= ptr)
    ensures Eval([Unclosed], src, ptr, start, captures, fold) == Failed(captures)
  {
    hide RunLength;
    assert [Unclosed][0] == Unclosed;
  }

  /** One item of the format: a bracket or a literal. */
  lemma CharStep(format: seq<byte>, src: seq<byte>, fold: bool, i: nat, ptr: nat, start: Start,
        captures: seq<seq<byte>>)
    requires Agrees(format, src, fold, i, ptr, start, captures)
    requires i < |format| && format[i] != PERCENT && format[i] != SET
    ensures var whole := Eval(Parse(format), src, 0, NotOpen, [], fold);
            if format[i] == OPEN then Agrees(format, src, fold, i + 1, ptr, From(ptr), captures)
            else if format[i] == CLOSE then
              if start.From? then Agrees(format, src, fold, i + 1, ptr, NotOpen, captures + [src[start.at..ptr]])
              else whole == Failed(captures)
            else if ptr < |src| && SameChar(format[i], src[ptr], fold)
            then Agrees(format, src, fold, i + 1, ptr + 1, start, captures)
            else whole == Failed(captures)
  {
    var f := format[i..];
    assert f[1..] == format[i + 1..];
    assert Parse(f)[1..] == Parse(f[1..]);
  }

  /** The pattern between `from` and `to`, whose specifier is at `at`: the run matched or -1, and
      the position behind the specifier */
  method MatchItem(data: seq<byte>, format: seq<byte>, from: nat, to: nat, at: nat) returns (used: int, next: nat)
    requires from <= to <= at <= |format| && Whole(format[from..to])
    requires format[from..to] != [] ==> format[from..to][0] != CARET
    ensures var n := RunLength(data, Members(format[from..to]));
            used == if n == 0 && !Specifier(format, at).1 then -1 else n
    ensures next == Specifier(format, at).2 && at <= next <= |format|
  {
    hide Members;
    SpecifierSkips(format, at);
    var (all, zero, n) := Specifier(format, at);
    used := MatchPattern(data, format[from..to], all, zero);
    next := n;
  }

  /** match_string_virtual: the number of characters used or -1, the source it leaves, and the
      captures it has written */
  method MatchString(src: seq<byte>, format: seq<byte>, fold: bool)
    returns (used: int, rest: seq<byte>, captures: seq<seq<byte>>)
    requires WellFormed(format) && 0 !in format
    ensures match Meaning(format, src, fold)
            case Matched(n, cs) => n <= |src| && used == n && rest == src[n..] && captures == cs
            case Failed(cs) => used == -1 && rest == src && captures == cs
  {
    hide Eval, Parse, WellFormed, Members, Agrees, RunLength, Specifier, Whole, SetLength;
    captures := [];
    if src == [] {
      return if format == [] then 0 else -1, src, captures;
    }
    var i, ptr, start := 0, 0, NotOpen;
    AgreesAtStart(format, src, fold);
    while true
      invariant Agrees(format, src, fold, i, ptr, start, captures)
      invariant i <= |format| && ptr <= |src| && (start.From? ==> start.at <= ptr)
      decreases |format| - i
    {
      if At(format, i) == PERCENT {
        ClassStep(format, src, fold, i, ptr, start, captures);
        var n, next := MatchItem(src[ptr..], format, i, i + 2, i + 2);
        if n < 0 {
          return -1, src, captures;
        }
        i, ptr := next, ptr + n;
      } else if At(format, i) == SET {
        SetStep(format, src, fold, i, ptr, start, captures);
        var end := FindSetEnd(format, i + 1);
        if end == |format| {
          return -1, src, captures;
        }
        var n, next := MatchItem(src[ptr..], format, i + 1, end, end + 1);
        if n < 0 {
          return -1, src, captures;
        }
        i, ptr := next, ptr + n;
      } else if At(format, i) == 0 {
        break;
      } else {
        CharStep(format, src, fold, i, ptr, start, captures);
        if format[i] == OPEN {
          start := From(ptr);
        } else if format[i] == CLOSE {
          if start == NotOpen {
            return -1, src, captures;
          }
          captures := captures + [src[start.at..ptr]];
          start := NotOpen;
        } else {
          if ptr >= |src| || !SameChar(format[i], src[ptr], fold) {
            return -1, src, captures;
          }
          ptr := ptr + 1;
        }
        i := i + 1;
      }
    }
    EndOfFormat(format, src, fold, i, ptr, start, captures);
    if start != NotOpen {
      return -1, src, captures;
    }
    return ptr, src[ptr..], captures;
  }

  lemma EndOfFormat(format: seq<byte>, src: seq<byte>, fold: bool, i: nat, ptr: nat, start: Start,
        captures: seq<seq<byte>>)
    requires Agrees(format, src, fold, i, ptr, start, captures) && i == |format|
    ensures Eval(Parse(format), src, 0, NotOpen, [], fold)
            == if start.From? then Failed(captures) else Matched(ptr, captures)
  {
    assert format[i..] == [];
  }
}
