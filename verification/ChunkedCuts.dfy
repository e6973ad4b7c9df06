/** The cuts that break the chunked decoder: for every stream the encoder writes with a payload of
    zero bytes, and bytes in front of the buffers that are no digits, any cut that GoodCuts rules
    out makes the decoder lose payload or miss the end. */
module ChunkedCuts {
  import opened Bytes
  import opened Encoders
  import opened Pattern
  import opened Chunked
  import opened ChunkedTrip

  /** Memory in front of a buffer that holds no digits and no zero bytes: the letter 'z' */
  function JunkZ(n: nat, i: nat): byte { 122 }

  // ---- counting zero bytes

  function ZeroCount(s: seq<byte>): nat
  {
    if s == [] then 0 else (if s[0] == 0 then 1 else 0) + ZeroCount(s[1..])
  }

  lemma {:induction false} ZerosAppend(a: seq<byte>, b: seq<byte>)
    ensures ZeroCount(a + b) == ZeroCount(a) + ZeroCount(b)
    decreases |a|
  {
    if a == [] {
      assert a + b == b;
    } else {
      assert (a + b)[1..] == a[1..] + b;
      ZerosAppend(a[1..], b);
    }
  }

  lemma ZerosSplit(s: seq<byte>, n: nat)
    requires n <= |s|
    ensures ZeroCount(s) == ZeroCount(s[..n]) + ZeroCount(s[n..])
  {
    assert s == s[..n] + s[n..];
    ZerosAppend(s[..n], s[n..]);
  }

  predicate AllZero(s: seq<byte>) { forall i :: 0 <= i < |s| ==> s[i] == 0 }

  predicate NoZero(s: seq<byte>) { forall i :: 0 <= i < |s| ==> s[i] != 0 }

  lemma {:induction false} ZerosOf(s: seq<byte>)
    ensures AllZero(s) ==> ZeroCount(s) == |s|
    ensures NoZero(s) ==> ZeroCount(s) == 0
  {
    if s != [] {
      ZerosOf(s[1..]);
    }
  }

  // ---- the decoder invents no zero bytes

  lemma {:induction false} ScanZeros(src: seq<byte>, d: Decoder)
    ensures ZeroCount(Scan(src, d).1) <= ZeroCount(src)
    decreases |src|, 1
  {
    hide ZeroCount;
    if d.chunkSz == 0 {
      ScanSizeZeros(src, d);
    } else if d.chunkSz <= |src| {
      ZerosSplit(src, d.chunkSz);
      var rest := src[d.chunkSz..];
      if 2 <= |rest| && rest[..2] == CRLF {
        ScanSizeZeros(rest[2..], d.(chunkSz := 0));
        ZerosSplit(rest, 2);
        ZerosAppend(src[..d.chunkSz], ScanSize(rest[2..], d.(chunkSz := 0)).1);
      }
    }
  }

  lemma {:induction false} ScanSizeZeros(src: seq<byte>, d: Decoder)
    requires d.chunkSz == 0
    ensures ZeroCount(ScanSize(src, d).1) <= ZeroCount(src)
    decreases |src|, 0
  {
    var l := SizeLine(src);
    if l.Line? && l.value != 0 {
      ScanZeros(src[l.len..], d.(chunkSz := l.value));
      ZerosSplit(src, l.len);
    }
  }

  /** What a buffer delivers has no more zero bytes than it, less those it skips. */
  lemma DecodeZeros(d: Decoder, data: seq<byte>, front: seq<byte>)
    requires |front| == InFront(d) && NoZero(front)
    ensures var out := Decode(d, data, front).1;
            && ZeroCount(out) <= ZeroCount(data)
            && (0 < -d.leftOver <= |data| ==> ZeroCount(out) <= ZeroCount(data[-d.leftOver..]))
  {
    ZerosOf(front);
    ZerosOf([]);
    hide ZeroCount, NoZero, Scan;
    if 0 < d.leftOver {
      ScanZeros(front + data, d);
      ZerosAppend(front, data);
    } else if -d.leftOver <= |data| {
      var k := -d.leftOver;
      ScanZeros(data[k..], d);
      ZerosSplit(data, k);
    }
  }

  lemma {:induction false} DecodeAllZeros(d: Decoder, pieces: seq<seq<byte>>)
    ensures ZeroCount(DecodeAll(d, pieces, JunkZ).0) <= ZeroCount(Join(pieces))
    decreases |pieces|
  {
    hide ZeroCount, Decode, Join;
    if pieces == [] {
      EmptyStream(Bad);
    } else {
      JoinFirst(pieces);
      ZerosAppend(pieces[0], Join(pieces[1..]));
      var front := Memory(JunkZ, |pieces|, InFront(d));
      DecodeZeros(d, pieces[0], front);
      var (d1, out, r) := Decode(d, pieces[0], front);
      DecodeAllZeros(d1, pieces[1..]);
      ZerosAppend(out, DecodeAll(d1, pieces[1..], JunkZ).0);
    }
  }

  // ---- a cut inside a size line

  /** Reading 'z' where a size line should start, the decoder makes no progress ever again. */
  lemma {:induction false} NeverRecovers(d: Decoder, pieces: seq<seq<byte>>)
    requires d.chunkSz == 0 && 0 < d.leftOver
    ensures DecodeAll(d, pieces, JunkZ) == ([], false)
    decreases |pieces|
  {
    if pieces != [] {
      var front := Memory(JunkZ, |pieces|, InFront(d));
      assert (front + pieces[0])[0] == JunkZ(|pieces|, 0);
      NoSizeLine(front + pieces[0], d);
      var (d1, out, r) := Decode(d, pieces[0], front);
      NeverRecovers(d1, pieces[1..]);
      assert out + DecodeAll(d1, pieces[1..], JunkZ).0 == [];
    }
  }

  lemma NoSizeLine(src: seq<byte>, d: Decoder)
    requires src != [] && src[0] == 122 && d.chunkSz == 0
    ensures Scan(src, d) == if |src| < 10 then (d.(leftOver := |src|), [], More) else (d, [], FormatError)
  {
    UnionOfHex(src[0]);
  }

  // ---- a stream with a zero payload

  /** The payload is all zero bytes, and nothing else is. */
  predicate ZeroStream(q: Phase, s: seq<byte>)
  {
    AllZero(Payload(q, s)) && ZeroCount(s) == |Payload(q, s)|
  }

  lemma {:induction false} PayloadZeros(q: Phase, s: seq<byte>)
    ensures ZeroCount(Payload(q, s)) <= ZeroCount(s)
    decreases |s|
  {
    if s != [] {
      PayloadZeros(NextPhase(q, s[0]), s[1..]);
      ZerosAppend([s[0]], Payload(NextPhase(q, s[0]), s[1..]));
      assert [s[0]][1..] == [];
      assert ZeroCount([s[0]]) == (if s[0] == 0 then 1 else 0) + ZeroCount([s[0]][1..]);
      assert [] + Payload(NextPhase(q, s[0]), s[1..]) == Payload(NextPhase(q, s[0]), s[1..]);
    }
  }

  /** Both parts of a zero stream are zero streams. */
  lemma ZeroStreamSplits(q: Phase, a: seq<byte>, b: seq<byte>)
    requires ZeroStream(q, a + b)
    ensures ZeroStream(q, a) && ZeroStream(After(q, a), b)
  {
    hide After, Payload, ZeroCount;
    AfterAppend(q, a, b);
    var p, r := Payload(q, a), Payload(After(q, a), b);
    assert AllZero(p) by {
      forall i | 0 <= i < |p|
        ensures p[i] == 0
      {
        assert p[i] == (p + r)[i];
      }
    }
    assert AllZero(r) by {
      forall i | 0 <= i < |r|
        ensures r[i] == 0
      {
        assert r[i] == (p + r)[|p| + i];
      }
    }
    ZerosAppend(a, b);
    PayloadZeros(q, a);
    PayloadZeros(After(q, a), b);
    ZerosOf(p);
    ZerosOf(r);
  }

  /** A buffer that starts inside a payload but is read with a correction loses a payload byte. */
  lemma LosesPayload(d: Decoder, q: Phase, pieces: seq<seq<byte>>)
    requires q.Data? && d.leftOver < 0 && ZeroStream(q, Join(pieces))
    requires pieces != [] && pieces[0] != []
    ensures !DecodeAll(d, pieces, JunkZ).1 || ZeroCount(DecodeAll(d, pieces, JunkZ).0) < ZeroCount(Join(pieces))
  {
    hide ZeroCount, Decode, Join;
    var piece, rest := pieces[0], Join(pieces[1..]);
    JoinFirst(pieces);
    ZerosAppend(piece, rest);
    var front := Memory(JunkZ, |pieces|, InFront(d));
    var (d1, out, r) := Decode(d, piece, front);
    if |piece| < -d.leftOver {
      TooShort(d, piece, front);
    } else {
      DecodeZeros(d, piece, front);
      ZerosSplit(piece, -d.leftOver);
      FirstIsZero(q, piece, rest);
      ZerosSplit(piece[..-d.leftOver], 1);
      assert piece[..-d.leftOver][..1] == [0];
      assert ZeroCount([0]) == 1 by { ZerosOf([0]); }
      DecodeAllZeros(d1, pieces[1..]);
      ZerosAppend(out, DecodeAll(d1, pieces[1..], JunkZ).0);
    }
  }

  lemma TooShort(d: Decoder, piece: seq<byte>, front: seq<byte>)
    requires |piece| < -d.leftOver && |front| == InFront(d)
    ensures Decode(d, piece, front).2 == Fault
  {
  }

  lemma FirstIsZero(q: Phase, piece: seq<byte>, rest: seq<byte>)
    requires q.Data? && piece != [] && ZeroStream(q, piece + rest)
    ensures piece[0] == 0
  {
    assert (piece + rest)[0] == piece[0];
    assert Payload(q, piece + rest)[0] == piece[0];
  }

  // ---- exactly which cuts are good

  predicate NoneEmpty(pieces: seq<seq<byte>>) { forall i :: 0 <= i < |pieces| ==> pieces[i] != [] }

  /** What DecodeAll makes of a first buffer in step with the stream. */
  lemma FirstPiece(q: Phase, d: Decoder, pieces: seq<seq<byte>>)
    requires Sync(d, q) && pieces != [] && After(q, pieces[0]) != Bad
    requires (q == BeforeCR ==> 2 <= |pieces[0]|) && (q == BeforeLF ==> 1 <= |pieces[0]|)
    ensures var (d1, out, r) := Decode(d, pieces[0], Memory(JunkZ, |pieces|, InFront(d)));
            var (more, ended) := DecodeAll(d1, pieces[1..], JunkZ);
            && out == Payload(q, pieces[0]) && Leaves(d1, r, After(q, pieces[0]), d.leftOver)
            && (After(q, pieces[0]) != Done && Short(After(q, pieces[0])) ==>
                  DecodeAll(d, pieces, JunkZ) == (out + more, ended))
  {
    hide After, Payload, Decode;
    DecodeAgrees(q, d, pieces[0], Memory(JunkZ, |pieces|, InFront(d)));
  }

  /** A first cut that GoodPiece rules out spoils the whole stream. */
  lemma BadPieceFails(q: Phase, d: Decoder, pieces: seq<seq<byte>>)
    requires Sync(d, q) && pieces != [] && NoneEmpty(pieces) && !GoodPiece(q, pieces[0])
    requires After(q, Join(pieces)) == Done && AllShort(q, Join(pieces)) && ZeroStream(q, Join(pieces))
    ensures DecodeAll(d, pieces, JunkZ) != (Payload(q, Join(pieces)), true)
  {
    hide After, Payload, Decode, Join, ZeroCount, AllShort;
    var piece, rest := pieces[0], Join(pieces[1..]);
    JoinFirst(pieces);
    NotBad(q, piece, rest);
    AfterAppend(q, piece, rest);
    AllShortEnds(q, piece, rest);
    ZeroStreamSplits(q, piece, rest);
    StaysProper(q, piece);
    if (q == BeforeCR && |piece| < 2) || (q == BeforeLF && |piece| < 1) {
      TooShort(d, piece, Memory(JunkZ, |pieces|, InFront(d)));
    } else {
      FirstPiece(q, d, pieces);
      var (d1, out, r) := Decode(d, piece, Memory(JunkZ, |pieces|, InFront(d)));
      var end := After(q, piece);
      if end.Data? {
        if pieces[1..] == [] {
          EmptyStream(end);
        } else {
          LosesPayload(d1, end, pieces[1..]);
          ZerosOf(Payload(end, rest));
          Cancel(out, DecodeAll(d1, pieces[1..], JunkZ).0, Payload(end, rest));
        }
      } else {
        NeverRecovers(d1, pieces[1..]);
      }
    }
  }

  lemma {:induction false} BadCutsFail(q: Phase, d: Decoder, pieces: seq<seq<byte>>)
    requires Sync(d, q) && NoneEmpty(pieces) && !GoodCuts(q, pieces)
    requires After(q, Join(pieces)) == Done && AllShort(q, Join(pieces)) && ZeroStream(q, Join(pieces))
    ensures DecodeAll(d, pieces, JunkZ) != (Payload(q, Join(pieces)), true)
    decreases |pieces|
  {
    hide After, Payload, Decode, Join, ZeroCount, AllShort, GoodPiece, ZeroStream, DecodeAll;
    if !GoodPiece(q, pieces[0]) {
      BadPieceFails(q, d, pieces);
    } else {
      var piece, rest := pieces[0], Join(pieces[1..]);
      JoinFirst(pieces);
      NotBad(q, piece, rest);
      AfterAppend(q, piece, rest);
      AllShortEnds(q, piece, rest);
      ZeroStreamSplits(q, piece, rest);
      StaysProper(q, piece);
      GoodPieceKeepsStep(q, d, pieces);
      var d1 := Decode(d, piece, Memory(JunkZ, |pieces|, InFront(d))).0;
      BadCutsFail(After(q, piece), d1, pieces[1..]);
      Cancel(Payload(q, piece), DecodeAll(d1, pieces[1..], JunkZ).0, Payload(After(q, piece), rest));
    }
  }

  lemma Cancel(a: seq<byte>, b: seq<byte>, c: seq<byte>)
    ensures a + b == a + c ==> b == c
  {
    if a + b == a + c {
      assert b == (a + b)[|a|..] && c == (a + c)[|a|..];
    }
  }

  lemma GoodPieceKeepsStep(q: Phase, d: Decoder, pieces: seq<seq<byte>>)
    requires Sync(d, q) && pieces != [] && GoodPiece(q, pieces[0])
    requires After(q, pieces[0]) != Bad && After(q, pieces[0]) != Done
    requires Proper(After(q, pieces[0]))
    ensures var d1 := Decode(d, pieces[0], Memory(JunkZ, |pieces|, InFront(d))).0;
            var (more, ended) := DecodeAll(d1, pieces[1..], JunkZ);
            && Sync(d1, After(q, pieces[0]))
            && DecodeAll(d, pieces, JunkZ) == (Payload(q, pieces[0]) + more, ended)
  {
    hide After, Payload, Decode;
    FirstPiece(q, d, pieces);
  }
}
