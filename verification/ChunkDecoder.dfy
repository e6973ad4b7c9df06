/** hin_pipe_decode_chunked of src/http/utils/filters.c as it is written: a decoder whose state
    survives from one buffer to the next, and which reads size lines with the pattern matcher. It
    is proved to do what Chunked.Decode says. */
module ChunkDecoder {
  import opened Bytes
  import opened Pattern
  import opened Matcher
  import C = Chunked

  /** "(%x+)\r\n" */
  const SIZE_LINE: seq<byte> := [40, 37, 120, 43, 41, 13, 10]

  lemma LineEndParses()
    ensures WellFormed([41, 13, 10]) && Parse([41, 13, 10]) == [Close, Lit(CR), Lit(LF)]
  {
    assert [41, 13, 10][1..] == [13, 10] && [13, 10][1..] == [10] && [10][1..] == [];
    assert Parse([10]) == [Lit(LF)];
    assert Parse([13, 10]) == [Lit(CR), Lit(LF)];
  }

  lemma SizeLineParses()
    ensures WellFormed(SIZE_LINE)
    ensures Parse(SIZE_LINE) == [Open, Many([XDigit], false), Close, Lit(CR), Lit(LF)]
  {
    assert SIZE_LINE[1..] == [37, 120, 43, 41, 13, 10];
    assert SIZE_LINE[1..][2..] == [43, 41, 13, 10];
    assert SIZE_LINE[1..][2..][1..] == [41, 13, 10];
    LineEndParses();
    assert Parse(SIZE_LINE[1..]) == [Many([XDigit], false)] + Parse([41, 13, 10]);
  }

  /** What the pattern of a size line matches, and what it captures. */
  lemma SizeLineMatches(src: seq<byte>)
    ensures WellFormed(SIZE_LINE)
    ensures var l := C.SizeLine(src);
            match Meaning(SIZE_LINE, src, false)
            case Failed(_) => l.NoLine?
            case Matched(used, captures) =>
              l.Line? && used == l.len && |captures| == 1 && captures[0] == src[..l.len - 2]
              && (forall i :: 0 <= i < |captures[0]| ==> IsXDigit(captures[0][i]))
              && l.value == Min(C.ParseHex(captures[0]), C.LONG_MAX)
  {
    hide RunLength;
    SizeLineParses();
    if src == [] {
      RunOfNothing();
    } else {
      assert src[0..] == src;
      var n := RunLength(src, [XDigit]);
      C.RunIsHex(src);
      var items := Parse(SIZE_LINE);
      var rest := items[1..];
      assert rest[0] == Many([XDigit], false) && rest[1..] == [Close, Lit(CR), Lit(LF)];
      assert Meaning(SIZE_LINE, src, false) == Eval(rest, src, 0, From(0), [], false);
      if n != 0 {
        assert Eval(rest, src, 0, From(0), [], false) == Eval([Close, Lit(CR), Lit(LF)], src, n, From(0), [], false);
        EndOfLine(src, n);
      }
    }
  }

  lemma EndOfLine(src: seq<byte>, n: nat)
    requires n <= |src|
    ensures Eval([Close, Lit(CR), Lit(LF)], src, n, From(0), [], false)
            == if n + 2 <= |src| && src[n..n + 2] == CRLF then Matched(n + 2, [src[..n]]) else Failed([src[..n]])
  {
    assert [Close, Lit(CR), Lit(LF)][1..] == [Lit(CR), Lit(LF)];
    assert [Lit(CR), Lit(LF)][1..] == [Lit(LF)] && [Lit(LF)][1..] == [];
    assert [] + [src[0..n]] == [src[..n]];
    if n + 2 <= |src| {
      assert src[n..n + 2] == [src[n], src[n + 1]];
    }
    var caps := [src[..n]];
    assert Eval([Close, Lit(CR), Lit(LF)], src, n, From(0), [], false)
        == Eval([Lit(CR), Lit(LF)], src, n, NotOpen, caps, false);
    if n < |src| && src[n] == CR {
      assert Eval([Lit(CR), Lit(LF)], src, n, NotOpen, caps, false)
        == Eval([Lit(LF)], src, n + 1, NotOpen, caps, false);
    }
  }

  lemma RunOfNothing()
    ensures RunLength([], [XDigit]) == 0
  {
  }

  const CRLF_FORMAT: seq<byte> := [13, 10]

  lemma CrlfMatches(src: seq<byte>)
    requires src != []
    ensures WellFormed(CRLF_FORMAT)
    ensures Meaning(CRLF_FORMAT, src, false) == if CRLF <= src then Matched(2, []) else Failed([])
  {
    PlainMatchesPrefix(CRLF_FORMAT, src, 0, []);
    assert src[0..] == src;
  }

  class ChunkDecoder {
    var chunkSz: nat
    var leftOver: int

    constructor ()
      ensures chunkSz == 0 && leftOver == 0
    {
      chunkSz, leftOver := 0, 0;
    }

    ghost function State(): C.Decoder
      reads this
    {
      C.Decoder(chunkSz, leftOver)
    }

    /** hin_pipe_decode_chunked on a buffer that holds `data`; `front` is the memory in front of it.
        What is given to the read callback is collected in `delivered`. */
    method Decode(data: seq<byte>, front: seq<byte>) returns (delivered: seq<byte>, r: C.Result)
      requires |front| == C.InFront(State())
      modifies this
      ensures (State(), delivered, r) == C.Decode(old(State()), data, front)
    {
      hide C.Scan, C.ScanSize, Meaning, WellFormed;
      delivered := [];
      if |data| + leftOver < 0 {
        return delivered, C.Fault;
      }
      var source := if 0 < leftOver then front + data else data[-leftOver..];
      ghost var whole := C.Scan(source, State());
      assert [] + whole.1 == whole.1;
      while true
        invariant Continues(whole, delivered, source, State())
        decreases |source|
      {
        if chunkSz > 0 {
          TakePayload(whole, delivered, source, State());
          var consume := Min(chunkSz, |source|);
          assert source[..|source|] == source;
          delivered := delivered + source[..consume];
          if chunkSz > consume {
            chunkSz := chunkSz - consume;
            return delivered, C.More;
          }
          source := source[consume..];
          chunkSz := 0;
          if |source| < 2 {
            leftOver := |source| - 2;
            return delivered, C.More;
          }
          CrlfMatches(source);
          var used, rest, caps := MatchString(source, CRLF_FORMAT, false);
          if used < 0 {
            return delivered, C.FormatError;
          }
          source := rest;
        }
        TakeSize(whole, delivered, source, State());
        SizeLineMatches(source);
        var used, rest, caps := MatchString(source, SIZE_LINE, false);
        if used <= 0 {
          if |source| < 10 {
            leftOver := |source|;
            return delivered, C.More;
          }
          return delivered, C.FormatError;
        }
        chunkSz := Min(C.ParseHex(caps[0]), C.LONG_MAX);
        source := rest;
        if chunkSz == 0 {
          return delivered, C.End;
        }
      }
    }
  }

  /** The rest of a scan, after what was delivered, is a scan of the rest. */
  ghost predicate Continues(whole: (C.Decoder, seq<byte>, C.Result), delivered: seq<byte>,
                source: seq<byte>, d: C.Decoder)
  {
    var (d1, more, r) := C.Scan(source, d);
    whole == (d1, delivered + more, r)
  }

  /** The part of a round that takes payload. */
  lemma TakePayload(whole: (C.Decoder, seq<byte>, C.Result), delivered: seq<byte>, src: seq<byte>, d: C.Decoder)
    requires Continues(whole, delivered, src, d) && 0 < d.chunkSz
    ensures |src| < d.chunkSz ==> whole == (d.(chunkSz := d.chunkSz - |src|), delivered + src, C.More)
    ensures d.chunkSz <= |src| ==>
              var payload, rest, d0 := src[..d.chunkSz], src[d.chunkSz..], d.(chunkSz := 0);
              if |rest| < 2 then whole == (d0.(leftOver := |rest| - 2), delivered + payload, C.More)
              else if rest[..2] != CRLF then whole == (d0, delivered + payload, C.FormatError)
              else Continues(whole, delivered + payload, rest[2..], d0)
  {
    hide C.ScanSize;
    if d.chunkSz <= |src| {
      var payload, rest, d0 := src[..d.chunkSz], src[d.chunkSz..], d.(chunkSz := 0);
      if 2 <= |rest| {
        var more := C.ScanSize(rest[2..], d0).1;
        assert C.Scan(rest[2..], d0) == C.ScanSize(rest[2..], d0);
        assert delivered + (payload + more) == (delivered + payload) + more;
      }
    }
  }

  /** The part of a round that reads a size line. */
  lemma TakeSize(whole: (C.Decoder, seq<byte>, C.Result), delivered: seq<byte>, src: seq<byte>, d: C.Decoder)
    requires Continues(whole, delivered, src, d) && d.chunkSz == 0
    ensures match C.SizeLine(src)
            case NoLine => whole == if |src| < 10 then (d.(leftOver := |src|), delivered, C.More)
                                    else (d, delivered, C.FormatError)
            case Line(v, n) => if v == 0 then whole == (d, delivered, C.End)
                               else Continues(whole, delivered, src[n..], d.(chunkSz := v))
  {
    assert C.Scan(src, d) == C.ScanSize(src, d);
    assert delivered + [] == delivered;
  }
}
