/** What the formats of the matcher mean, character by character: for a class or a set with each
    specifier, alone and with a format before and behind it, what is matched is said in terms of the
    source. Numbers are character codes: 37 '%', 40 '(', 41 ')', 42 '*', 43 '+', 63 '?', 91 '[', 93 ']', 94 '^'. */
module Formats {
  import opened Bytes
  import opened Pattern

  // ---- classes and sets

  /** The classes the letters name, those of the C locale; every other character names itself. */
  lemma LettersMean(l: byte, c: byte)
    ensures InClass(c, ClassOf(l)) <==>
            if l == 97 then 65 <= c <= 90 || 97 <= c <= 122
            else if l == 115 then c == 32 || 9 <= c <= 13
            else if l == 99 then c < 32 || c == 127
            else if l == 100 then 48 <= c <= 57
            else if l == 108 then 97 <= c <= 122
            else if l == 117 then 65 <= c <= 90
            else if l == 112 then 33 <= c <= 47 || 58 <= c <= 64 || 91 <= c <= 96 || 123 <= c <= 126
            else if l == 119 then 48 <= c <= 57 || 65 <= c <= 90 || 97 <= c <= 122
            else if l == 120 then 48 <= c <= 57 || 65 <= c <= 70 || 97 <= c <= 102
            else if l == 122 then c == 0
            else if l == 121 then c != 0
            else l in [65, 83, 67, 68, 76, 85, 80, 87, 88, 90, 89] || c == l
  {
  }

  /** Folding takes a letter and its other case for the same, and nothing else. */
  lemma FoldMeans(c: byte, d: byte)
    ensures SameChar(c, d, false) <==> c == d
    ensures SameChar(c, d, true) <==>
            c == d || (65 <= c <= 90 && d == c + 32) || (97 <= c <= 122 && d + 32 == c)
  {
  }

  /** A character is in a set if a member of the set, a character or '%' and a class letter, accepts it. */
  lemma SetMeans(x: byte, rest: seq<byte>, c: byte)
    ensures !InUnion(c, Members([]))
    ensures x != 37 ==> (InUnion(c, Members([x] + rest)) <==> c == x || InUnion(c, Members(rest)))
    ensures InUnion(c, Members([37, x] + rest)) <==> InClass(c, ClassOf(x)) || InUnion(c, Members(rest))
  {
    assert ([x] + rest)[1..] == rest && ([37, x] + rest)[2..] == rest;
    if x != 37 { FirstInUnion(c, Custom(x), Members(rest)); }
    FirstInUnion(c, ClassOf(x), Members(rest));
  }

  lemma FirstInUnion(c: byte, k: Class, ks: seq<Class>)
    ensures InUnion(c, [k] + ks) <==> InClass(c, k) || InUnion(c, ks)
  {
    hide InClass;
    var all := [k] + ks;
    assert all[0] == k;
    if InUnion(c, ks) {
      var i :| 0 <= i < |ks| && InClass(c, ks[i]);
      assert all[i + 1] == ks[i];
    }
    if InUnion(c, all) && !InClass(c, k) {
      var i :| 0 <= i < |all| && InClass(c, all[i]);
      assert ks[i - 1] == all[i];
    }
  }

  /** The characters from `pos` on that are in the union, as far as they go */
  predicate IsRun(src: seq<byte>, pos: nat, n: nat, ks: seq<Class>)
  {
    && pos + n <= |src|
    && (forall i :: pos <= i < pos + n ==> InUnion(src[i], ks))
    && (pos + n < |src| ==> !InUnion(src[pos + n], ks))
  }

  lemma RunIsRun(src: seq<byte>, pos: nat, n: nat, ks: seq<Class>)
    requires pos <= |src| && IsRun(src, pos, n, ks)
    ensures RunLength(src[pos..], ks) == n
  {
    hide InUnion;
    var s := src[pos..];
    RunIsLongest(s, ks);
    assert forall i :: 0 <= i < |s| ==> s[i] == src[pos + i];
  }

  // ---- formats in parts

  /** How far a format gets: to a position, with a capture open or not, or it fails. */
  datatype Progress = Fails(captures: seq<seq<byte>>) | Reaches(pos: nat, start: Start, captures: seq<seq<byte>>)

  function Walk(items: seq<Item>, src: seq<byte>, pos: nat, start: Start, captures: seq<seq<byte>>,
                fold: bool): (p: Progress)
    requires pos <= |src| && (start.From? ==> start.at <= pos)
    ensures p.Reaches? ==> p.pos <= |src| && (p.start.From? ==> p.start.at <= p.pos)
    decreases |items|
  {
    if items == [] then Reaches(pos, start, captures)
    else
      match items[0]
      case Lit(c) =>
        if pos < |src| && SameChar(c, src[pos], fold)
        then Walk(items[1..], src, pos + 1, start, captures, fold) else Fails(captures)
      case Many(ks, optional) =>
        var n := RunLength(src[pos..], ks);
        if n == 0 && !optional then Fails(captures) else Walk(items[1..], src, pos + n, start, captures, fold)
      case Open => Walk(items[1..], src, pos, From(pos), captures, fold)
      case Close =>
        if start.From?
        then Walk(items[1..], src, pos, NotOpen, captures + [src[start.at..pos]], fold) else Fails(captures)
      case Unclosed => Fails(captures)
  }

  lemma {:induction false} EvalParts(a: seq<Item>, b: seq<Item>, src: seq<byte>, pos: nat, start: Start,
                                     captures: seq<seq<byte>>, fold: bool)
    requires pos <= |src| && (start.From? ==> start.at <= pos)
    ensures Eval(a + b, src, pos, start, captures, fold)
            == match Walk(a, src, pos, start, captures, fold)
               case Fails(cs) => Failed(cs)
               case Reaches(p, st, cs) => Eval(b, src, p, st, cs, fold)
    decreases |a|
  {
    if a == [] {
      assert a + b == b;
    } else {
      assert (a + b)[0] == a[0] && (a + b)[1..] == a[1..] + b;
      hide RunLength, SameChar;
      match a[0]
      case Lit(c) =>
        if pos < |src| && SameChar(c, src[pos], fold) { EvalParts(a[1..], b, src, pos + 1, start, captures, fold); }
      case Many(ks, optional) => EvalParts(a[1..], b, src, pos + RunLength(src[pos..], ks), start, captures, fold);
      case Open => EvalParts(a[1..], b, src, pos, From(pos), captures, fold);
      case Close =>
        if start.From? { EvalParts(a[1..], b, src, pos, NotOpen, captures + [src[start.at..pos]], fold); }
      case Unclosed =>
    }
  }

  /** What can follow a format without changing what its end means */
  predicate NewItem(f: seq<byte>) { f == [] || f[0] !in [42, 43, 63] }

  /** No set is left open. */
  predicate AllClosed(fmt: seq<byte>)
    requires WellFormed(fmt)
  {
    Unclosed !in Parse(fmt)
  }

  lemma {:induction false} SetLengthParts(a: seq<byte>, b: seq<byte>, prev: byte)
    requires SetLength(a, prev) < |a|
    ensures SetLength(a + b, prev) == SetLength(a, prev)
    decreases |a|
  {
    if !(a[0] == END_SET && prev != PERCENT) {
      assert (a + b)[0] == a[0] && (a + b)[1..] == a[1..] + b;
      SetLengthParts(a[1..], b, a[0]);
    }
  }

  lemma SpecifierParts(a: seq<byte>, b: seq<byte>)
    requires NewItem(b)
    ensures AfterSpecifier(a + b) == AfterSpecifier(a) + b && AllowsEmpty(a + b) == AllowsEmpty(a)
    ensures |AfterSpecifier(a)| <= |a|
  {
    if a == [] {
      assert a + b == b;
    } else {
      assert (a + b)[0] == a[0] && (a + b)[1..] == a[1..] + b;
    }
  }

  lemma SetParts(a: seq<byte>, b: seq<byte>)
    requires a != [] && SetLength(a[1..], SET) + 1 < |a|
    ensures var n := SetLength(a[1..], SET);
            && SetLength((a + b)[1..], SET) == n
            && (a + b)[n + 2..] == a[n + 2..] + b && (a + b)[1..n + 1] == a[1..n + 1]
  {
    hide SetLength;
    assert (a + b)[1..] == a[1..] + b;
    SetLengthParts(a[1..], b, SET);
  }

  /** The first item of a format, and the format behind it */
  function FirstItem(f: seq<byte>): (Item, seq<byte>)
    requires WellFormed(f) && f != []
  {
    if f[0] == PERCENT then (Many([ClassOf(f[1])], AllowsEmpty(f[2..])), AfterSpecifier(f[2..]))
    else if f[0] == SET then
      var n := SetLength(f[1..], SET);
      if n == |f| - 1 then (Unclosed, [])
      else (Many(Members(f[1..n + 1]), AllowsEmpty(f[n + 2..])), AfterSpecifier(f[n + 2..]))
    else (if f[0] == OPEN then Open else if f[0] == CLOSE then Close else Lit(f[0]), f[1..])
  }

  lemma ParseByItem(f: seq<byte>)
    requires WellFormed(f) && f != []
    ensures var (x, tail) := FirstItem(f); WellFormed(tail) && |tail| < |f| && Parse(f) == [x] + Parse(tail)
  {
    hide Members, ClassOf, SetLength, AllowsEmpty;
    assert Parse([]) == [];
    var (x, tail) := FirstItem(f);
    assert WellFormed(tail) && Parse(f) == [x] + Parse(tail);
    TailIsShorter(f);
  }

  lemma TailIsShorter(f: seq<byte>)
    requires WellFormed(f) && f != []
    ensures |FirstItem(f).1| < |f|
  {
    hide Members, ClassOf, AllowsEmpty, AfterSpecifier, SetLength;
    if f[0] == PERCENT {
      SpecifierIsShort(f[2..]);
    } else if f[0] == SET {
      var n := SetLength(f[1..], SET);
      if n != |f| - 1 { SpecifierIsShort(f[n + 2..]); }
    }
  }

  lemma SpecifierIsShort(s: seq<byte>)
    ensures |AfterSpecifier(s)| <= |s|
  {
  }

  lemma FirstItemParts(a: seq<byte>, b: seq<byte>)
    requires WellFormed(a) && a != [] && FirstItem(a).0 != Unclosed && NewItem(b)
    requires WellFormed(FirstItem(a).1 + b)
    ensures WellFormed(a + b) && FirstItem(a + b) == (FirstItem(a).0, FirstItem(a).1 + b)
  {
    hide Members, ClassOf, SetLength, AllowsEmpty, AfterSpecifier, NewItem;
    assert (a + b)[0] == a[0];
    if a[0] == PERCENT {
      assert (a + b)[1] == a[1] && (a + b)[2..] == a[2..] + b;
      SpecifierParts(a[2..], b);
    } else if a[0] == SET {
      SetParts(a, b);
      assert (a + b)[1] == a[1];
      SpecifierParts(a[SetLength(a[1..], SET) + 2..], b);
    } else {
      assert (a + b)[1..] == a[1..] + b;
    }
  }

  /** Two formats, one behind the other, are read one after the other. */
  lemma {:induction false} ParseParts(a: seq<byte>, b: seq<byte>)
    requires WellFormed(a) && AllClosed(a) && WellFormed(b) && NewItem(b)
    ensures WellFormed(a + b) && Parse(a + b) == Parse(a) + Parse(b)
    decreases |a|
  {
    if a == [] {
      assert a + b == b && Parse(a) == [] && [] + Parse(b) == Parse(b);
    } else {
      hide Parse, WellFormed, NewItem, FirstItem;
      ParseByItem(a);
      var (x, tail) := FirstItem(a);
      ClosedTail(x, Parse(tail));
      ParseParts(tail, b);
      FirstItemParts(a, b);
      ParseByItem(a + b);
      ItemsAssoc(x, Parse(tail), Parse(b));
    }
  }

  lemma ClosedTail(x: Item, tail: seq<Item>)
    requires Unclosed !in [x] + tail
    ensures x != Unclosed && Unclosed !in tail
  {
    assert ([x] + tail)[0] == x;
  }

  lemma ItemsAssoc(x: Item, a: seq<Item>, b: seq<Item>)
    ensures [x] + (a + b) == [x] + a + b
  {
  }

  // ---- a class or a set, with its specifier

  /** The characters between the brackets of a set: a closing bracket only behind a '%' */
  predicate Enclosed(body: seq<byte>)
  {
    && (body != [] ==> body[0] != 94 && body[|body| - 1] != 37)
    && (forall j :: 0 <= j < |body| && body[j] == 93 ==> 0 < j && body[j - 1] == 37)
  }

  /** '%' and a letter, or a set in its brackets, and the classes it stands for */
  predicate IsItem(item: seq<byte>, ks: seq<Class>)
  {
    || (|item| == 2 && item[0] == 37 && ks == [ClassOf(item[1])])
    || (2 <= |item| && item[0] == 91 && item[|item| - 1] == 93 && Enclosed(item[1..|item| - 1])
        && ks == Members(item[1..|item| - 1]))
  }

  lemma {:induction false} SetEnds(body: seq<byte>, rest: seq<byte>, prev: byte)
    requires forall j {:trigger body[j]} :: 0 <= j < |body| && body[j] == 93 ==>
               (if j == 0 then prev else body[j - 1]) == 37
    requires (if body == [] then prev else body[|body| - 1]) != 37
    ensures SetLength(body + [93] + rest, prev) == |body|
    decreases |body|
  {
    var s := body + [93] + rest;
    if body == [] {
      assert s[0] == 93;
    } else {
      assert s[0] == body[0] && s[1..] == body[1..] + [93] + rest;
      assert body[0] == 93 ==> prev == 37;
      assert |body| > 1 ==> body[1..][|body| - 2] == body[|body| - 1];
      forall j | 0 <= j < |body[1..]| && body[1..][j] == 93
        ensures (if j == 0 then body[0] else body[1..][j - 1]) == 37
      {
        assert body[j + 1] == 93;
      }
      SetEnds(body[1..], rest, body[0]);
    }
  }

  lemma SpecifierIs(spec: seq<byte>)
    requires spec in [[], [43], [42], [63]]
    ensures AfterSpecifier(spec) == [] && (AllowsEmpty(spec) <==> spec in [[42], [63]])
  {
  }

  lemma SetInParts(body: seq<byte>, spec: seq<byte>)
    ensures var f := [91] + body + [93] + spec; var n := |body|;
            && f[0] == 91 && f[1..] == body + [93] + spec && f[n + 2..] == spec && f[1..n + 1] == body
            && f[1] == if n == 0 then 93 else body[0]
  {
    var f := [91] + body + [93] + spec;
    assert f == [91] + (body + ([93] + spec));
  }

  /** What an item with its specifier is read as */
  lemma ItemParses(item: seq<byte>, spec: seq<byte>, ks: seq<Class>)
    requires IsItem(item, ks) && spec in [[], [43], [42], [63]]
    ensures WellFormed(item + spec) && NewItem(item + spec)
    ensures Parse(item + spec) == [Many(ks, spec in [[42], [63]])]
  {
    hide Members, ClassOf;
    var f := item + spec;
    SpecifierIs(spec);
    assert Parse([]) == [] && WellFormed([]);
    hide AfterSpecifier, AllowsEmpty;
    if item[0] == 37 {
      assert f[0] == 37 && f[1] == item[1] && f[2..] == spec;
    } else {
      var body := item[1..|item| - 1];
      assert item == [91] + body + [93];
      SetEnds(body, spec, 91);
      SetInParts(body, spec);
    }
  }

  /** How far a format gets in a source, and what a format makes of a source from a position on */
  function Before(fmt: seq<byte>, src: seq<byte>, fold: bool): (p: Progress)
    requires WellFormed(fmt)
    ensures p.Reaches? ==> p.pos <= |src| && (p.start.From? ==> p.start.at <= p.pos)
  {
    Walk(Parse(fmt), src, 0, NotOpen, [], fold)
  }

  function Behind(fmt: seq<byte>, src: seq<byte>, pos: nat, start: Start, captures: seq<seq<byte>>, fold: bool): Outcome
    requires WellFormed(fmt) && pos <= |src| && (start.From? ==> start.at <= pos)
  {
    Eval(Parse(fmt), src, pos, start, captures, fold)
  }

  lemma ManyMeans(ks: seq<Class>, optional: bool, more: seq<Item>, src: seq<byte>, pos: nat, n: nat, start: Start,
                  captures: seq<seq<byte>>, fold: bool)
    requires pos <= |src| && (start.From? ==> start.at <= pos) && IsRun(src, pos, n, ks)
    ensures Eval([Many(ks, optional)] + more, src, pos, start, captures, fold)
            == if n == 0 && !optional then Failed(captures) else Eval(more, src, pos + n, start, captures, fold)
  {
    RunIsRun(src, pos, n, ks);
    hide RunLength, IsRun;
    assert ([Many(ks, optional)] + more)[1..] == more;
  }

  /** A class or a set inside any format: where the format before it has got to, it takes all the
      characters it accepts, as far as they go, and the format behind it goes on from there. With '*' or
      '?' they may be none; with '+' or nothing the match fails then. */
  lemma ItemInFormat(pre: seq<byte>, item: seq<byte>, spec: seq<byte>, post: seq<byte>, ks: seq<Class>,
                     src: seq<byte>, fold: bool)
    requires WellFormed(pre) && AllClosed(pre) && WellFormed(post) && NewItem(post) && src != []
    requires IsItem(item, ks) && spec in [[], [43], [42], [63]]
    ensures WellFormed(pre + (item + spec + post))
    ensures match Before(pre, src, fold)
            case Fails(cs) => Meaning(pre + (item + spec + post), src, fold) == Failed(cs)
            case Reaches(pos, start, cs) =>
              forall n: nat | pos + n <= |src| :: IsRun(src, pos, n, ks) ==>
                Meaning(pre + (item + spec + post), src, fold)
                == if n == 0 && spec in [[], [43]] then Failed(cs) else Behind(post, src, pos + n, start, cs, fold)
  {
    hide Walk, Eval, Parse, IsItem, WellFormed, NewItem, IsRun;
    ItemParses(item, spec, ks);
    var f, optional := item + spec, spec in [[42], [63]];
    assert AllClosed(f);
    ParseParts(f, post);
    assert NewItem(f + post) by { ItemFirst(f, post); }
    ParseParts(pre, f + post);
    EvalParts(Parse(pre), Parse(f + post), src, 0, NotOpen, [], fold);
    match Before(pre, src, fold)
    case Fails(cs) =>
    case Reaches(pos, start, cs) =>
      forall n: nat | pos + n <= |src| && IsRun(src, pos, n, ks)
        ensures Meaning(pre + (item + spec + post), src, fold)
                == if n == 0 && spec in [[], [43]] then Failed(cs) else Behind(post, src, pos + n, start, cs, fold)
      {
        ManyMeans(ks, optional, Parse(post), src, pos, n, start, cs, fold);
      }
  }

  lemma ItemFirst(f: seq<byte>, post: seq<byte>)
    requires NewItem(f) && NewItem(post)
    ensures NewItem(f + post)
  {
    if f == [] { assert f + post == post; }
  }

  /** A class or a set alone: with '*' or '?' it always matches, and takes as many of the first
      characters as it accepts, possibly none; with '+' or nothing it matches the same way, if and only
      if it accepts the first one. Between brackets what it takes is captured. */
  lemma ItemAlone(item: seq<byte>, ks: seq<Class>, src: seq<byte>, n: nat, fold: bool)
    requires IsItem(item, ks) && src != [] && IsRun(src, 0, n, ks)
    ensures forall spec | spec in [[], [43], [42], [63]] :: WellFormed(item + spec)
    ensures Meaning(item + [42], src, fold) == Meaning(item + [63], src, fold) == Matched(n, [])
    ensures Meaning(item + [], src, fold) == Meaning(item + [43], src, fold)
            == if InUnion(src[0], ks) then Matched(n, []) else Failed([])
  {
    hide IsItem, IsRun, Meaning, WellFormed;
    WithSpecifier(item, [], ks, src, n, fold);
    WithSpecifier(item, [43], ks, src, n, fold);
    WithSpecifier(item, [42], ks, src, n, fold);
    WithSpecifier(item, [63], ks, src, n, fold);
    FirstInRun(src, n, ks);
  }

  lemma WithSpecifier(item: seq<byte>, spec: seq<byte>, ks: seq<Class>, src: seq<byte>, n: nat, fold: bool)
    requires IsItem(item, ks) && spec in [[], [43], [42], [63]] && src != [] && IsRun(src, 0, n, ks)
    ensures WellFormed(item + spec)
    ensures Meaning(item + spec, src, fold) == if n == 0 && spec in [[], [43]] then Failed([]) else Matched(n, [])
  {
    hide IsItem, IsRun, Meaning, Eval, WellFormed, Before, Behind;
    NothingIsClosed();
    ItemInFormat([], item, spec, [], ks, src, fold);
    assert [] + (item + spec + []) == item + spec;
    RunWithin(src, n, ks);
    NothingMeans(src, n, fold);
  }

  lemma NothingIsClosed()
    ensures WellFormed([]) && AllClosed([]) && NewItem([])
  {
  }

  lemma FirstInRun(src: seq<byte>, n: nat, ks: seq<Class>)
    requires src != [] && IsRun(src, 0, n, ks)
    ensures n == 0 <==> !InUnion(src[0], ks)
  {
  }

  lemma RunWithin(src: seq<byte>, n: nat, ks: seq<Class>)
    requires IsRun(src, 0, n, ks)
    ensures n <= |src|
  {
  }

  lemma NothingMeans(src: seq<byte>, n: nat, fold: bool)
    requires n <= |src|
    ensures Before([], src, fold) == Reaches(0, NotOpen, []) && Behind([], src, n, NotOpen, [], fold) == Matched(n, [])
  {
  }

  lemma BracketsMean(src: seq<byte>, n: nat, fold: bool)
    requires n <= |src|
    ensures WellFormed([40]) && AllClosed([40]) && WellFormed([41]) && NewItem([41])
    ensures Before([40], src, fold) == Reaches(0, From(0), [])
    ensures Behind([41], src, n, From(0), [], fold) == Matched(n, [src[..n]])
  {
    assert [40][1..] == [] && [41][1..] == [];
    assert Parse([40]) == [Open] && Parse([41]) == [Close];
    assert [Open][1..] == [] && [Close][1..] == [] && [] + [src[..n]] == [src[..n]];
  }

  /** Between brackets, what the item takes is captured. */
  lemma ItemCaptured(item: seq<byte>, spec: seq<byte>, ks: seq<Class>, src: seq<byte>, n: nat, fold: bool)
    requires IsItem(item, ks) && spec in [[], [43], [42], [63]] && src != [] && IsRun(src, 0, n, ks)
    ensures WellFormed([40] + (item + spec + [41]))
    ensures Meaning([40] + (item + spec + [41]), src, fold)
            == if n == 0 && spec in [[], [43]] then Failed([]) else Matched(n, [src[..n]])
  {
    hide IsItem, IsRun, Meaning, Eval, AllClosed, Before, Behind;
    RunWithin(src, n, ks);
    BracketsMean(src, n, fold);
    ItemInFormat([40], item, spec, [41], ks, src, fold);
  }

  /** A format of plain characters matches exactly the sources that begin with them, up to case if the
      case is folded. */
  lemma {:induction false} PlainMatches(fmt: seq<byte>, src: seq<byte>, pos: nat, captures: seq<seq<byte>>, fold: bool)
    requires Plain(fmt) && pos <= |src|
    ensures WellFormed(fmt)
    ensures Behind(fmt, src, pos, NotOpen, captures, fold)
            == if pos + |fmt| <= |src| && forall i :: 0 <= i < |fmt| ==> SameChar(fmt[i], src[pos + i], fold)
               then Matched(pos + |fmt|, captures) else Failed(captures)
    decreases |fmt|
  {
    if fmt != [] {
      hide Parse, WellFormed, SameChar;
      var next := if pos < |src| then pos + 1 else pos;
      PlainMatches(fmt[1..], src, next, captures, fold);
      PlainParses(fmt);
      var items := Parse(fmt);
      assert items[0] == Lit(fmt[0]) && items[1..] == Parse(fmt[1..]);
      if pos < |src| && SameChar(fmt[0], src[pos], fold) {
        assert forall i :: 0 <= i < |fmt| - 1 ==> fmt[1..][i] == fmt[i + 1];
        assert pos + |fmt| <= |src| ==>
          ((forall i :: 0 <= i < |fmt| ==> SameChar(fmt[i], src[pos + i], fold))
           <==> (forall i :: 0 <= i < |fmt[1..]| ==> SameChar(fmt[1..][i], src[next + i], fold))) by {
          if pos + |fmt| <= |src| { ShiftedSame(fmt, src, pos, fold); }
        }
      }
    }
  }

  lemma ShiftedSame(fmt: seq<byte>, src: seq<byte>, pos: nat, fold: bool)
    requires fmt != [] && pos + |fmt| <= |src| && SameChar(fmt[0], src[pos], fold)
    ensures (forall i :: 0 <= i < |fmt| ==> SameChar(fmt[i], src[pos + i], fold))
            <==> (forall i :: 0 <= i < |fmt[1..]| ==> SameChar(fmt[1..][i], src[pos + 1 + i], fold))
  {
    hide SameChar;
    if forall i :: 0 <= i < |fmt| ==> SameChar(fmt[i], src[pos + i], fold) {
      forall i | 0 <= i < |fmt[1..]| ensures SameChar(fmt[1..][i], src[pos + 1 + i], fold) {
        assert SameChar(fmt[i + 1], src[pos + (i + 1)], fold);
      }
    }
    if forall i :: 0 <= i < |fmt[1..]| ==> SameChar(fmt[1..][i], src[pos + 1 + i], fold) {
      forall i | 0 <= i < |fmt| ensures SameChar(fmt[i], src[pos + i], fold) {
        if i != 0 { assert SameChar(fmt[1..][i - 1], src[pos + 1 + (i - 1)], fold); }
      }
    }
  }

  /** What never matches: anything but the empty format in an empty source; an item behind a bracket
      that is not closed; a closing bracket that was not opened; and a set that is not closed. */
  lemma WhatNeverMatches(item: seq<byte>, spec: seq<byte>, ks: seq<Class>, body: seq<byte>, src: seq<byte>, n: nat,
                         fold: bool)
    requires IsItem(item, ks) && spec in [[], [43], [42], [63]] && src != [] && IsRun(src, 0, n, ks)
    requires forall j :: 0 <= j < |body| && body[j] == 93 ==> 0 < j && body[j - 1] == 37
    ensures Meaning([], [], fold) == Matched(0, [])
    ensures WellFormed(item + spec) && Meaning(item + spec, [], fold) == Failed([])
    ensures WellFormed([40] + (item + spec + [])) && Meaning([40] + (item + spec + []), src, fold) == Failed([])
    ensures WellFormed([41]) && Meaning([41], src, fold) == Failed([])
    ensures WellFormed([91] + body) && Meaning([91] + body, src, fold) == Failed([])
  {
    EmptyFails(item, spec, ks, fold);
    assert [41][1..] == [] && Parse([41]) == [Close];
    OpenSet(body);
    assert [Unclosed][0] == Unclosed;
    hide IsItem, IsRun, AllClosed, Before, Behind;
    RunWithin(src, n, ks);
    BracketsMean(src, n, fold);
    NothingIsClosed();
    NothingOpen(src, n, fold);
    ItemInFormat([40], item, spec, [], ks, src, fold);
  }

  lemma EmptyFails(item: seq<byte>, spec: seq<byte>, ks: seq<Class>, fold: bool)
    requires IsItem(item, ks) && spec in [[], [43], [42], [63]]
    ensures WellFormed(item + spec) && Meaning(item + spec, [], fold) == Failed([])
  {
    ItemParses(item, spec, ks);
    assert |item + spec| >= 2;
  }

  lemma NothingOpen(src: seq<byte>, n: nat, fold: bool)
    requires n <= |src|
    ensures Behind([], src, n, From(0), [], fold) == Failed([])
  {
  }

  lemma {:induction false} SetGoesOn(body: seq<byte>, prev: byte)
    requires forall j {:trigger body[j]} :: 0 <= j < |body| && body[j] == 93 ==>
               (if j == 0 then prev else body[j - 1]) == 37
    ensures SetLength(body, prev) == |body|
    decreases |body|
  {
    if body != [] {
      assert body[0] == 93 ==> prev == 37;
      forall j | 0 <= j < |body[1..]| && body[1..][j] == 93
        ensures (if j == 0 then body[0] else body[1..][j - 1]) == 37
      {
        assert body[j + 1] == 93;
      }
      SetGoesOn(body[1..], body[0]);
    }
  }

  lemma OpenSet(body: seq<byte>)
    requires forall j :: 0 <= j < |body| && body[j] == 93 ==> 0 < j && body[j - 1] == 37
    ensures WellFormed([91] + body) && Parse([91] + body) == [Unclosed]
  {
    hide Members;
    var f := [91] + body;
    assert f[1..] == body;
    SetGoesOn(body, 91);
  }
}
