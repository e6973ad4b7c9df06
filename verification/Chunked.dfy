/** Decoding chunked transfer coding (section 7.1 of RFC 9112) from a stream that arrives in
    pieces: what src/http/utils/filters.c does to each piece, a reference that reads one byte at a
    time, and for which cuts the two agree. */
module Chunked {
  import opened Bytes
  import opened Encoders
  import opened Pattern

  const LONG_MAX: nat := 0x7fff_ffff_ffff_ffff

  /** The value of a hexadecimal digit. */
  function HexValue(c: byte): nat
    requires IsXDigit(c)
  {
    if IsDigit(c) then c - 48 else if IsLower(c) then c - 87 else c - 55
  }

  function ParseHex(s: seq<byte>): nat
    requires forall i :: 0 <= i < |s| ==> IsXDigit(s[i])
  {
    if s == [] then 0 else ParseHex(s[..|s| - 1]) * 16 + HexValue(s[|s| - 1])
  }

  // ---- the decoder

  /** hin_pipe_chunked_decode_t: payload bytes still due, and the correction applied to the start
      of the next buffer */
  datatype Decoder = Decoder(chunkSz: nat, leftOver: int)

  /** What a call of the decoder comes to: it wants more, it has seen the last chunk, it has met
      something that is no chunk, or it has been given less than it was about to skip. */
  datatype Result = More | End | FormatError | Fault

  /** A size line at the front of a source: its value and its length */
  datatype Line = NoLine | Line(value: nat, len: nat)

  function SizeLine(src: seq<byte>): (l: Line)
    ensures l.Line? ==> 3 <= l.len <= |src|
  {
    var n := RunLength(src, [XDigit]);
    RunIsHex(src);
    if 0 < n && n + 2 <= |src| && src[n..n + 2] == CRLF then Line(Min(ParseHex(src[..n]), LONG_MAX), n + 2)
    else NoLine
  }

  lemma RunIsHex(src: seq<byte>)
    ensures forall i :: 0 <= i < RunLength(src, [XDigit]) ==> IsXDigit(src[i])
  {
    RunIsLongest(src, [XDigit]);
    forall i | 0 <= i < RunLength(src, [XDigit])
      ensures IsXDigit(src[i])
    {
      assert InUnion(src[i], [XDigit]);
    }
  }

  /** The loop of hin_pipe_decode_chunked on what it takes for its input. The payload handed to
      the read callback is the second result. */
  function Scan(src: seq<byte>, d: Decoder): (Decoder, seq<byte>, Result)
    decreases |src|, 1
  {
    if d.chunkSz == 0 then ScanSize(src, d)
    else if |src| < d.chunkSz then (d.(chunkSz := d.chunkSz - |src|), src, More)
    else
      var payload, rest, d0 := src[..d.chunkSz], src[d.chunkSz..], d.(chunkSz := 0);
      if |rest| < 2 then (d0.(leftOver := |rest| - 2), payload, More)
      else if rest[..2] != CRLF then (d0, payload, FormatError)
      else
        var (d1, more, r) := ScanSize(rest[2..], d0);
        (d1, payload + more, r)
  }

  function ScanSize(src: seq<byte>, d: Decoder): (Decoder, seq<byte>, Result)
    requires d.chunkSz == 0
    decreases |src|, 0
  {
    match SizeLine(src)
    case NoLine => if |src| < 10 then (d.(leftOver := |src|), [], More) else (d, [], FormatError)
    case Line(v, n) => if v == 0 then (d, [], End) else Scan(src[n..], d.(chunkSz := v))
  }

  /** A size line: hexadecimal digits, CR (13), LF (10) */
  predicate BeginsWithLine(src: seq<byte>, k: nat)
  {
    && 0 < k && k + 2 <= |src| && src[k] == 13 && src[k + 1] == 10
    && forall i :: 0 <= i < k ==> 48 <= src[i] <= 57 || 65 <= src[i] <= 70 || 97 <= src[i] <= 102
  }

  lemma LinesBegin(src: seq<byte>, k: nat)
    ensures BeginsWithLine(src, k) ==> SizeLine(src).Line? && SizeLine(src).len == k + 2
    ensures SizeLine(src).Line? ==> BeginsWithLine(src, SizeLine(src).len - 2)
  {
    RunIsHex(src);
    var n := RunLength(src, [XDigit]);
    if n + 2 <= |src| {
      assert src[n..n + 2][0] == src[n] && src[n..n + 2][1] == src[n + 1];
    }
    if BeginsWithLine(src, k) {
      HexRun(src, k);
      assert src[k..k + 2] == CRLF;
    }
  }

  lemma HexRun(src: seq<byte>, k: nat)
    requires k < |src| && !IsXDigit(src[k]) && forall i :: 0 <= i < k ==> IsXDigit(src[i])
    ensures RunLength(src, [XDigit]) == k
  {
    RunIsLongest(src, [XDigit]);
    var n := RunLength(src, [XDigit]);
    assert forall i :: 0 <= i < k ==> InClass(src[i], [XDigit][0]);
    assert !InUnion(src[k], [XDigit]);
  }

  /** What is no chunk is refused: at a place where a size line is due and none comes, ten bytes are
      an error and fewer wait for the next buffer; and behind a payload of `n` bytes everything but CR
      and LF is an error. */
  lemma WhatIsRefused(src: seq<byte>, n: nat)
    ensures (forall k: nat | k <= |src| :: !BeginsWithLine(src, k)) ==>
              Scan(src, Decoder(0, 0))
              == if 10 <= |src| then (Decoder(0, 0), [], FormatError) else (Decoder(0, |src|), [], More)
    ensures 0 < n && n + 2 <= |src| && (src[n] != 13 || src[n + 1] != 10) ==>
              Scan(src, Decoder(n, 0)) == (Decoder(0, 0), src[..n], FormatError)
  {
    if forall k: nat | k <= |src| :: !BeginsWithLine(src, k) {
      LinesBegin(src, 0);
      assert SizeLine(src).NoLine?;
    }
    if 0 < n && n + 2 <= |src| && (src[n] != 13 || src[n + 1] != 10) {
      assert src[n..][0] == src[n] && src[n..][1] == src[n + 1];
      assert src[n..][..2] != CRLF;
    }
  }

  /** How many bytes in front of the buffer the decoder reads. */
  function InFront(d: Decoder): nat { if 0 < d.leftOver then d.leftOver else 0 }

  /** hin_pipe_decode_chunked on one buffer. A positive correction makes it read memory in front of
      the buffer; `front` is whatever is there, since the buffer the bytes were saved in has been
      freed. */
  function Decode(d: Decoder, data: seq<byte>, front: seq<byte>): (Decoder, seq<byte>, Result)
    requires |front| == InFront(d)
  {
    if 0 < d.leftOver then Scan(front + data, d)
    else if |data| < -d.leftOver then (d, [], Fault)
    else Scan(data[-d.leftOver..], d)
  }

  /** What lies in the `k` bytes in front of a buffer, given every byte of it. */
  function Memory(junk: (nat, nat) -> byte, buffer: nat, k: nat): (s: seq<byte>)
    ensures |s| == k && forall i :: 0 <= i < k ==> s[i] == junk(buffer, i)
  {
    seq(k, i requires 0 <= i => junk(buffer, i))
  }

  /** Decoding the pieces of a stream until the end is signalled: what is delivered, and whether
      it was. Each buffer has its own junk in front of it. */
  function DecodeAll(d: Decoder, pieces: seq<seq<byte>>, junk: (nat, nat) -> byte): (seq<byte>, bool)
    decreases |pieces|
  {
    if pieces == [] then ([], false)
    else
      var (d1, out, r) := Decode(d, pieces[0], Memory(junk, |pieces|, InFront(d)));
      if r == End then (out, true)
      else if r == Fault then (out, false)
      else
        var (more, ended) := DecodeAll(d1, pieces[1..], junk);
        (out + more, ended)
  }

  // ---- the reference

  /** Where a stream of chunks is after some of its bytes. */
  datatype Phase =
    | SizeStart
    | InSize(v: nat, digits: nat)
    | SizeLF(v: nat, digits: nat)
    | Data(left: nat)
    | BeforeCR
    | BeforeLF
    | Done
    | Bad

  function NextPhase(q: Phase, b: byte): Phase
  {
    match q
    case SizeStart => if IsXDigit(b) then InSize(HexValue(b), 1) else Bad
    case InSize(v, k) =>
      if b == CR then SizeLF(v, k)
      else if IsXDigit(b) && v * 16 + HexValue(b) <= LONG_MAX then InSize(v * 16 + HexValue(b), k + 1)
      else Bad
    case SizeLF(v, k) => if b != LF then Bad else if v == 0 then Done else Data(v)
    case Data(n) => if n <= 1 then BeforeCR else Data(n - 1)
    case BeforeCR => if b == CR then BeforeLF else Bad
    case BeforeLF => if b == LF then SizeStart else Bad
    case Done => Done
    case Bad => Bad
  }

  function After(q: Phase, s: seq<byte>): Phase
    decreases |s|
  {
    if s == [] then q else After(NextPhase(q, s[0]), s[1..])
  }

  /** The payload among some bytes of the stream. */
  function Payload(q: Phase, s: seq<byte>): seq<byte>
    decreases |s|
  {
    if s == [] then [] else (if q.Data? then [s[0]] else []) + Payload(NextPhase(q, s[0]), s[1..])
  }

  lemma Peeled(q: Phase, s: seq<byte>)
    requires s != []
    ensures After(q, s) == After(NextPhase(q, s[0]), s[1..])
    ensures Payload(q, s) == (if q.Data? then [s[0]] else []) + Payload(NextPhase(q, s[0]), s[1..])
  {
  }

  lemma {:induction false} AfterAppend(q: Phase, a: seq<byte>, b: seq<byte>)
    ensures After(q, a + b) == After(After(q, a), b)
    ensures Payload(q, a + b) == Payload(q, a) + Payload(After(q, a), b)
    decreases |a|
  {
    if a == [] {
      assert a + b == b;
    } else {
      hide NextPhase, After, Payload;
      assert (a + b)[0] == a[0] && (a + b)[1..] == a[1..] + b;
      AfterAppend(NextPhase(q, a[0]), a[1..], b);
      Peeled(q, a + b);
      Peeled(q, a);
      var one, x, y := if q.Data? then [a[0]] else [], Payload(NextPhase(q, a[0]), a[1..]), Payload(After(q, a), b);
      assert Payload(q, a) == one + x && Payload(q, a + b) == one + (x + y);
      assert one + (x + y) == one + x + y;
    }
  }

  /** A payload due is never empty, and a size line begun has a digit. */
  predicate Proper(q: Phase)
  {
    (q.Data? ==> 0 < q.left) && (q.InSize? || q.SizeLF? ==> 0 < q.digits)
  }

  lemma {:induction false} StaysProper(q: Phase, s: seq<byte>)
    requires Proper(q)
    ensures Proper(After(q, s))
    decreases |s|
  {
    if s != [] {
      StaysProper(NextPhase(q, s[0]), s[1..]);
    }
  }

  lemma {:induction false} StaysDone(s: seq<byte>)
    ensures After(Done, s) == Done && Payload(Done, s) == []
    ensures After(Bad, s) == Bad && Payload(Bad, s) == []
    decreases |s|
  {
    if s != [] {
      StaysDone(s[1..]);
    }
  }

  /** Inside a payload the reference takes bytes as they come. */
  lemma {:induction false} AfterData(n: nat, s: seq<byte>)
    requires 0 < n && |s| <= n
    ensures After(Data(n), s) == if |s| == n then BeforeCR else Data(n - |s|)
    ensures Payload(Data(n), s) == s
    decreases |s|
  {
    if s != [] {
      assert s == [s[0]] + s[1..];
      if n == 1 {
        assert s[1..] == [];
      } else {
        AfterData(n - 1, s[1..]);
      }
    }
  }

  // ---- hexadecimal

  /** "%x" prints digits that read back as the number. */
  lemma {:induction false} HexParses(n: nat)
    ensures Hex(n) != [] && (forall i :: 0 <= i < |Hex(n)| ==> IsXDigit(Hex(n)[i]) && Hex(n)[i] != 0)
    ensures ParseHex(Hex(n)) == n
  {
    var d := HexDigit(n % 16);
    assert IsXDigit(d) && HexValue(d) == n % 16;
    if n < 16 {
      assert Hex(n) == [d] && Hex(n)[..0] == [];
    } else {
      HexParses(n / 16);
      var h := Hex(n / 16);
      assert Hex(n) == h + [d] && Hex(n)[..|h|] == h;
    }
  }

  /** The reference reads a run of digits as the number they print, unless it is too big. */
  lemma {:induction false} AfterHex(s: seq<byte>)
    requires s != [] && forall i :: 0 <= i < |s| ==> IsXDigit(s[i])
    ensures After(SizeStart, s) == if ParseHex(s) <= LONG_MAX then InSize(ParseHex(s), |s|) else Bad
    ensures Payload(SizeStart, s) == []
  {
    var n := |s| - 1;
    var d := s[n];
    assert s == s[..n] + [d] && [d][1..] == [];
    AfterAppend(SizeStart, s[..n], [d]);
    var q := After(SizeStart, s[..n]);
    assert After(q, [d]) == NextPhase(q, d);
    if n == 0 {
      assert s[..n] == [];
    } else {
      AfterHex(s[..n]);
    }
    assert Payload(q, [d]) == [];
  }

  // ---- a scan agrees with the reference

  lemma AfterTwo(q: Phase, a: byte, b: byte, rest: seq<byte>)
    ensures After(q, [a] + rest) == After(NextPhase(q, a), rest)
    ensures After(q, [a, b] + rest) == After(NextPhase(NextPhase(q, a), b), rest)
    ensures !q.Data? && !NextPhase(q, a).Data? ==>
              Payload(q, [a, b] + rest) == Payload(NextPhase(NextPhase(q, a), b), rest)
    ensures !q.Data? ==> Payload(q, [a] + rest) == Payload(NextPhase(q, a), rest)
  {
    assert ([a] + rest)[1..] == rest;
    assert ([a, b] + rest)[1..] == [b] + rest && ([b] + rest)[1..] == rest;
  }

  /** `q` is inside a size line of which `n` bytes have been seen. */
  predicate MidSize(q: Phase, n: nat)
  {
    match q
    case InSize(v, k) => n == k
    case SizeLF(v, k) => n == k + 1
    case _ => false
  }

  /** Where the stream is after a size line. */
  function FirstPhase(size: nat): Phase { if size == 0 then Done else Data(size) }

  lemma AfterDigitRun(src: seq<byte>, n: nat)
    requires n == RunLength(src, [XDigit]) && 0 < n <= |src| && After(SizeStart, src) != Bad
    ensures SizeLine(src).NoLine? ==>
              && Payload(SizeStart, src) == []
              && (if src == [] then After(SizeStart, src) == SizeStart
                  else MidSize(After(SizeStart, src), |src|))
    ensures SizeLine(src).Line? ==>
              && After(SizeStart, src) == After(FirstPhase(SizeLine(src).value), src[SizeLine(src).len..])
              && Payload(SizeStart, src) == Payload(FirstPhase(SizeLine(src).value), src[SizeLine(src).len..])
  {
    hide ParseHex, HexValue, After, Payload, RunLength, IsXDigit, NextPhase;
    RunIsHex(src);
    RunStops(src);
    var h, rest := src[..n], src[n..];
    assert src == h + rest;
    AfterAppend(SizeStart, h, rest);
    AfterHex(h);
    StaysDone(rest);
    AfterDigits(ParseHex(h), n, rest);
    if 2 <= |rest| {
      assert src[n..n + 2] == rest[..2] && src[n + 2..] == rest[2..];
    }
  }

  /** What the reference makes of a source that starts a chunk, in terms of its size line. */
  lemma AfterSizeLine(src: seq<byte>)
    requires After(SizeStart, src) != Bad
    ensures SizeLine(src).NoLine? ==>
              && Payload(SizeStart, src) == []
              && (if src == [] then After(SizeStart, src) == SizeStart
                  else MidSize(After(SizeStart, src), |src|))
    ensures SizeLine(src).Line? ==>
              && After(SizeStart, src) == After(FirstPhase(SizeLine(src).value), src[SizeLine(src).len..])
              && Payload(SizeStart, src) == Payload(FirstPhase(SizeLine(src).value), src[SizeLine(src).len..])
  {
    hide ParseHex, HexValue, After, Payload, RunLength, IsXDigit, NextPhase;
    var n := RunLength(src, [XDigit]);
    RunStops(src);
    EmptyStream(SizeStart);
    if n == 0 {
      if src != [] {
        AfterNonHex(src);
      }
    } else {
      AfterDigitRun(src, n);
    }
  }

  lemma AfterNonHex(src: seq<byte>)
    requires src != [] && !IsXDigit(src[0])
    ensures After(SizeStart, src) == Bad
  {
    StaysDone(src[1..]);
  }

  /** What may follow the digits of a size line. */
  lemma AfterDigits(v: nat, k: nat, rest: seq<byte>)
    requires After(InSize(v, k), rest) != Bad && (rest != [] ==> !IsXDigit(rest[0]))
    ensures var q := After(InSize(v, k), rest);
            if |rest| < 2 then Payload(InSize(v, k), rest) == [] && MidSize(q, k + |rest|)
            else rest[..2] == CRLF && q == After(FirstPhase(v), rest[2..])
                 && Payload(InSize(v, k), rest) == Payload(FirstPhase(v), rest[2..])
  {
    hide HexValue;
    if |rest| == 1 {
      assert rest == [rest[0]] + [];
      AfterTwo(InSize(v, k), rest[0], rest[0], []);
    } else if 2 <= |rest| {
      assert rest == [rest[0], rest[1]] + rest[2..];
      AfterTwo(InSize(v, k), rest[0], rest[1], rest[2..]);
      StaysDone(rest[2..]);
    }
  }

  /** What may follow the payload of a chunk. */
  lemma AfterPayload(rest: seq<byte>)
    requires After(BeforeCR, rest) != Bad
    ensures var q := After(BeforeCR, rest);
            && (rest == [] ==> q == BeforeCR) && (|rest| == 1 ==> q == BeforeLF)
            && (|rest| < 2 ==> Payload(BeforeCR, rest) == [])
            && (2 <= |rest| ==> rest[..2] == CRLF && q == After(SizeStart, rest[2..])
                                && Payload(BeforeCR, rest) == Payload(SizeStart, rest[2..]))
  {
    EmptyStream(BeforeCR);
    EmptyStream(BeforeLF);
    if rest != [] {
      AfterCR(rest);
      hide After, Payload;
      if 2 <= |rest| {
        AfterLF(rest[1..]);
        assert rest[1..][1..] == rest[2..];
      } else {
        assert rest[1..] == [];
      }
    }
  }

  lemma AfterCR(rest: seq<byte>)
    requires rest != [] && After(BeforeCR, rest) != Bad
    ensures rest[0] == CR && After(BeforeCR, rest) == After(BeforeLF, rest[1..])
    ensures Payload(BeforeCR, rest) == Payload(BeforeLF, rest[1..])
  {
    StaysDone(rest[1..]);
  }

  lemma AfterLF(rest: seq<byte>)
    requires rest != [] && After(BeforeLF, rest) != Bad
    ensures rest[0] == LF && After(BeforeLF, rest) == After(SizeStart, rest[1..])
    ensures Payload(BeforeLF, rest) == Payload(SizeStart, rest[1..])
  {
    StaysDone(rest[1..]);
  }

  lemma UnionOfHex(c: byte)
    ensures InUnion(c, [XDigit]) == IsXDigit(c)
  {
    assert InClass(c, [XDigit][0]) == IsXDigit(c);
  }

  lemma RunStops(src: seq<byte>)
    ensures RunLength(src, [XDigit]) < |src| ==> !IsXDigit(src[RunLength(src, [XDigit])])
  {
    RunIsLongest(src, [XDigit]);
    if RunLength(src, [XDigit]) < |src| {
      UnionOfHex(src[RunLength(src, [XDigit])]);
    }
  }

  /** How a scan leaves the decoder when the stream is at `q`, having started with correction `lo`. */
  predicate Leaves(d: Decoder, r: Result, q: Phase, lo: int)
  {
    match q
    case Done => r == End
    case Data(n) => r == More && d == Decoder(n, lo)
    case SizeStart => r == More && d == Decoder(0, 0)
    case BeforeCR => r == More && d == Decoder(0, -2)
    case BeforeLF => r == More && d == Decoder(0, -1)
    case InSize(_, k) => k < 10 ==> r == More && d == Decoder(0, k)
    case SizeLF(_, k) => k + 1 < 10 ==> r == More && d == Decoder(0, k + 1)
    case Bad => true
  }

  lemma {:induction false} ScanAgrees(src: seq<byte>, d: Decoder)
    requires var q := if d.chunkSz == 0 then SizeStart else Data(d.chunkSz); After(q, src) != Bad
    ensures var q := if d.chunkSz == 0 then SizeStart else Data(d.chunkSz);
            var (d1, out, r) := Scan(src, d);
            out == Payload(q, src) && Leaves(d1, r, After(q, src), d.leftOver)
    decreases |src|, 1
  {
    hide After, Payload, ScanSize;
    if d.chunkSz == 0 {
      ScanSizeAgrees(src, d);
    } else if |src| < d.chunkSz {
      AfterData(d.chunkSz, src);
    } else {
      var payload, rest := src[..d.chunkSz], src[d.chunkSz..];
      assert src == payload + rest;
      AfterData(d.chunkSz, payload);
      AfterAppend(Data(d.chunkSz), payload, rest);
      AfterPayload(rest);
      if 2 <= |rest| {
        ScanSizeAgrees(rest[2..], d.(chunkSz := 0));
      } else {
        assert payload + [] == payload;
      }
    }
  }

  lemma {:induction false} ScanSizeAgrees(src: seq<byte>, d: Decoder)
    requires d.chunkSz == 0 && After(SizeStart, src) != Bad
    ensures var (d1, out, r) := ScanSize(src, d);
            out == Payload(SizeStart, src) && Leaves(d1, r, After(SizeStart, src), d.leftOver)
    decreases |src|, 0
  {
    AfterSizeLine(src);
    match SizeLine(src)
    case NoLine =>
    case Line(v, n) =>
      if v == 0 {
        StaysDone(src[n..]);
      } else {
        ScanAgrees(src[n..], d.(chunkSz := v));
      }
  }

  // ---- cuts

  /** The decoder is where the reference is. */
  predicate Sync(d: Decoder, q: Phase)
  {
    match q
    case SizeStart => d == Decoder(0, 0)
    case Data(n) => 0 < n && d == Decoder(n, 0)
    case BeforeCR => d == Decoder(0, -2)
    case BeforeLF => d == Decoder(0, -1)
    case _ => false
  }

  /** A buffer the decoder takes in step with the stream, which is at `q` when it starts. A cut
      inside a size line loses the part before it. A cut next to the CR LF of a chunk is made up
      for at the start of the next buffer, which must be long enough and, as the correction is
      not taken back, must not end inside a payload. */
  predicate GoodPiece(q: Phase, piece: seq<byte>)
  {
    var end := After(q, piece);
    && (q == BeforeCR ==> 2 <= |piece|)
    && (q == BeforeLF ==> 1 <= |piece|)
    && !end.InSize? && !end.SizeLF?
    && (end.Data? ==> q.Data? || q == SizeStart)
  }

  predicate GoodCuts(q: Phase, pieces: seq<seq<byte>>)
    decreases |pieces|
  {
    pieces == []
    || (GoodPiece(q, pieces[0])
        && (After(q, pieces[0]) == Done || GoodCuts(After(q, pieces[0]), pieces[1..])))
  }

  /** Cuts strictly inside a payload, just after a size line, or between chunks. */
  predicate SimpleCuts(q: Phase, pieces: seq<seq<byte>>)
    decreases |pieces|
  {
    pieces == []
    || (var end := After(q, pieces[0]);
        end == Done || ((end.Data? || end == SizeStart) && SimpleCuts(end, pieces[1..])))
  }

  lemma {:induction false} SimpleCutsAreGood(q: Phase, pieces: seq<seq<byte>>)
    requires SimpleCuts(q, pieces) && (q.Data? || q == SizeStart)
    ensures GoodCuts(q, pieces)
    decreases |pieces|
  {
    hide After;
    if pieces != [] && After(q, pieces[0]) != Done {
      SimpleCutsAreGood(After(q, pieces[0]), pieces[1..]);
    }
  }

  /** On a good piece the decoder delivers what the reference does and stays in step with it. */
  lemma DecodeAgrees(q: Phase, d: Decoder, piece: seq<byte>, front: seq<byte>)
    requires Sync(d, q) && After(q, piece) != Bad && |front| == InFront(d)
    requires (q == BeforeCR ==> 2 <= |piece|) && (q == BeforeLF ==> 1 <= |piece|)
    ensures var (d1, out, r) := Decode(d, piece, front);
            out == Payload(q, piece) && Leaves(d1, r, After(q, piece), d.leftOver)
  {
    hide After, Payload, Scan;
    if q == BeforeCR {
      AfterPayload(piece);
    } else if q == BeforeLF {
      AfterLF(piece);
    } else {
      assert piece[0..] == piece;
    }
    ScanAgrees(piece[-d.leftOver..], d);
  }

  /** With good cuts the decoder delivers the payload of the stream and then one end signal,
      whatever memory lies in front of its buffers. */
  lemma {:induction false} GoodCutsDecode(q: Phase, d: Decoder, pieces: seq<seq<byte>>, junk: (nat, nat) -> byte)
    requires Sync(d, q) && GoodCuts(q, pieces) && After(q, Join(pieces)) == Done
    ensures DecodeAll(d, pieces, junk) == (Payload(q, Join(pieces)), true)
    decreases |pieces|
  {
    hide After, Payload, Decode, Join;
    if pieces == [] {
      assert Join(pieces) == [] && After(q, []) == q by { EmptyStream(q); }
    } else {
      var front := Memory(junk, |pieces|, InFront(d));
      var rest := Join(pieces[1..]);
      JoinFirst(pieces);
      AfterAppend(q, pieces[0], rest);
      NotBad(q, pieces[0], rest);
      DecodeAgrees(q, d, pieces[0], front);
      StaysProper(q, pieces[0]);
      var (d1, out, r) := Decode(d, pieces[0], front);
      if After(q, pieces[0]) == Done {
        StaysDone(rest);
        assert out + [] == out;
      } else {
        GoodCutsDecode(After(q, pieces[0]), d1, pieces[1..], junk);
      }
    }
  }

  lemma EmptyStream(q: Phase)
    ensures Join([]) == [] && After(q, []) == q && Payload(q, []) == []
  {
  }

  lemma JoinFirst(pieces: seq<seq<byte>>)
    requires pieces != []
    ensures Join(pieces) == pieces[0] + Join(pieces[1..])
  {
    assert pieces == [pieces[0]] + pieces[1..];
    JoinCons(pieces[0], pieces[1..]);
  }

  lemma NotBad(q: Phase, a: seq<byte>, b: seq<byte>)
    requires After(q, a + b) == Done
    ensures After(q, a) != Bad && After(After(q, a), b) == Done
  {
    AfterAppend(q, a, b);
    StaysDone(b);
  }
}
