/** The chunked encoder and decoder undo each other, for exactly which cuts of the stream. */
module ChunkedTrip {
  import opened Bytes
  import opened Encoders
  import opened Pattern
  import opened Chunked

  // ---- what the encoder writes

  lemma AfterChunk(data: seq<byte>)
    requires |data| <= LONG_MAX
    ensures After(SizeStart, Chunk(data)) == SizeStart && Payload(SizeStart, Chunk(data)) == data
  {
    hide After, Payload, Hex, ParseHex;
    EmptyStream(SizeStart);
    if data != [] {
      var n := |data|;
      HexParses(n);
      AfterHex(Hex(n));
      assert Chunk(data) == Hex(n) + (CRLF + (data + CRLF));
      AfterAppend(SizeStart, Hex(n), CRLF + (data + CRLF));
      AfterTwo(InSize(n, |Hex(n)|), CR, LF, data + CRLF);
      AfterAppend(Data(n), data, CRLF);
      AfterData(n, data);
      AfterTwo(BeforeCR, CR, LF, []);
      assert CRLF == [CR, LF] + [];
    }
  }

  lemma AfterLastChunk()
    ensures After(SizeStart, LAST_CHUNK) == Done && Payload(SizeStart, LAST_CHUNK) == []
  {
    assert LAST_CHUNK == [48] + ([CR, LF] + [CR, LF]);
    AfterTwo(SizeStart, 48, 48, [CR, LF] + [CR, LF]);
    AfterTwo(InSize(0, 1), CR, LF, [CR, LF]);
    StaysDone([CR, LF]);
  }

  /** Blocks as a pipe gives them to the encoder: only the last may be flushed. */
  predicate FlushLast(blocks: seq<Block>)
  {
    forall i :: 0 <= i < |blocks| ==> |blocks[i].data| < 0x8000_0000 && (blocks[i].flush ==> i == |blocks| - 1)
  }

  predicate Complete(blocks: seq<Block>) { blocks != [] && blocks[|blocks| - 1].flush }

  /** The encoder writes a stream of chunks that carries its input; it is finished exactly if the
      last block was flushed. */
  lemma {:induction false} EncoderWritesChunks(blocks: seq<Block>)
    requires FlushLast(blocks)
    ensures var s := EncodeAll(Encoder.Chunked, blocks);
            && After(SizeStart, s) == (if Complete(blocks) then Done else SizeStart)
            && Payload(SizeStart, s) == Input(blocks)
  {
    hide After, Payload, Chunk;
    if blocks == [] {
      EmptyStream(SizeStart);
    } else {
      var n := |blocks| - 1;
      var b := blocks[n];
      EncoderWritesChunks(blocks[..n]);
      var s := EncodeAll(Encoder.Chunked, blocks[..n]);
      assert !Complete(blocks[..n]);
      AfterAppend(SizeStart, s, ChunkedBlock(b.data, b.flush));
      AfterAppend(SizeStart, Chunk(b.data), if b.flush then LAST_CHUNK else []);
      AfterChunk(b.data);
      AfterLastChunk();
      EmptyStream(SizeStart);
    }
  }

  /** The round trip: whatever blocks are encoded, and however the stream is cut strictly inside a
      payload, just after a size line or between chunks (or as GoodCuts allows besides), the
      decoder delivers their concatenation and then one end signal. */
  lemma RoundTrip(blocks: seq<Block>, pieces: seq<seq<byte>>, junk: (nat, nat) -> byte)
    requires FlushLast(blocks) && Complete(blocks)
    requires Join(pieces) == EncodeAll(Encoder.Chunked, blocks)
    requires GoodCuts(SizeStart, pieces)
    ensures DecodeAll(Decoder(0, 0), pieces, junk) == (Input(blocks), true)
  {
    EncoderWritesChunks(blocks);
    GoodCutsDecode(SizeStart, Decoder(0, 0), pieces, junk);
  }

  /** A chunk of less than sixteen bytes, and the end, byte by byte: the size as a digit, CR (13) and
      LF (10), the payload, CR and LF; then a zero and twice CR and LF. */
  lemma ChunkInPlace(data: seq<byte>)
    requires 0 < |data| < 16
    ensures var d: byte := if |data| < 10 then 48 + |data| else 87 + |data|; var end := [48, 13, 10, 13, 10];
            && Encode(Encoder.Chunked, data, false) == [d, 13, 10] + data + [13, 10]
            && Encode(Encoder.Chunked, data, true) == [d, 13, 10] + data + [13, 10] + end
            && Encode(Encoder.Chunked, [], true) == end && Encode(Encoder.Chunked, [], false) == []
  {
  }

  /** The reference reads such a stream as its payload and an end. */
  lemma ReferenceReads(data: seq<byte>)
    requires 0 < |data| < 16
    ensures var d: byte := if |data| < 10 then 48 + |data| else 87 + |data|;
            var s := [d, 13, 10] + data + [13, 10] + [48, 13, 10, 13, 10];
            After(SizeStart, s) == Done && Payload(SizeStart, s) == data
  {
    var blocks := [Block(data, true)];
    assert blocks[..0] == [] && EncodeAll(Encoder.Chunked, []) == [] && Input([]) == [];
    ChunkInPlace(data);
    hide Encode, After, Payload;
    var one := Encode(Encoder.Chunked, data, true);
    assert EncodeAll(Encoder.Chunked, blocks) == [] + one == one;
    assert Input(blocks) == [] + data == data;
    EncoderWritesChunks(blocks);
    assert Complete(blocks) && FlushLast(blocks);
  }

  // ---- the size lines of the encoder are short

  predicate Short(q: Phase) { (q.InSize? || q.SizeLF?) ==> q.digits <= 8 }

  predicate AllShort(q: Phase, s: seq<byte>)
    decreases |s|
  {
    Short(q) && (s == [] || AllShort(NextPhase(q, s[0]), s[1..]))
  }

  lemma {:induction false} AllShortAppend(q: Phase, a: seq<byte>, b: seq<byte>)
    ensures AllShort(q, a + b) <==> AllShort(q, a) && AllShort(After(q, a), b)
    decreases |a|
  {
    if a == [] {
      assert a + b == b;
    } else {
      assert (a + b)[1..] == a[1..] + b;
      AllShortAppend(NextPhase(q, a[0]), a[1..], b);
    }
  }

  lemma {:induction false} AllShortEnds(q: Phase, a: seq<byte>, b: seq<byte>)
    requires AllShort(q, a + b)
    ensures Short(After(q, a)) && AllShort(After(q, a), b)
  {
    AllShortAppend(q, a, b);
    assert AllShort(After(q, a), b);
  }

  lemma {:induction false} DataShort(n: nat, s: seq<byte>)
    requires 0 < n && |s| <= n
    ensures AllShort(Data(n), s)
    decreases |s|
  {
    if s != [] {
      if n == 1 {
        assert s[1..] == [];
      } else {
        DataShort(n - 1, s[1..]);
      }
    }
  }

  lemma {:induction false} DoneShort(s: seq<byte>)
    ensures AllShort(Done, s)
    decreases |s|
  {
    if s != [] {
      DoneShort(s[1..]);
    }
  }

  function Pow16(k: nat): nat { if k == 0 then 1 else 16 * Pow16(k - 1) }

  lemma {:induction false} HexLength(n: nat, k: nat)
    requires n < Pow16(k) && 0 < k
    ensures |Hex(n)| <= k
  {
    if 16 <= n {
      assert k != 1;
      HexLength(n / 16, k - 1);
    }
  }

  lemma {:induction false} SizeStaysShort(s: seq<byte>)
    requires |s| <= 8 && (forall i :: 0 <= i < |s| ==> IsXDigit(s[i])) && (s != [] ==> ParseHex(s) <= LONG_MAX)
    ensures AllShort(SizeStart, s)
  {
    if s != [] {
      var n := |s| - 1;
      assert s == s[..n] + [s[n]];
      SizeStaysShort(s[..n]);
      AllShortAppend(SizeStart, s[..n], [s[n]]);
      AfterHex(s);
      AfterAppend(SizeStart, s[..n], [s[n]]);
      var q := After(SizeStart, s[..n]);
      assert [s[n]][1..] == [];
      assert After(q, [s[n]]) == NextPhase(q, s[n]);
      assert AllShort(NextPhase(q, s[n]), []);
      assert Short(q) by {
        assert s[..n] + [] == s[..n];
        AllShortEnds(SizeStart, s[..n], []);
      }
    }
  }

  lemma ChunkShort(data: seq<byte>)
    requires |data| < 0x8000_0000
    ensures AllShort(SizeStart, Chunk(data))
  {
    hide After, AllShort, Hex, ParseHex;
    if data == [] {
      EmptyShort(SizeStart);
    } else {
      var n := |data|;
      HexParses(n);
      assert n < Pow16(8) by { assert Pow16(8) == 0x1_0000_0000; }
      HexLength(n, 8);
      SizeStaysShort(Hex(n));
      AfterHex(Hex(n));
      assert Chunk(data) == Hex(n) + (CRLF + (data + CRLF));
      AllShortAppend(SizeStart, Hex(n), CRLF + (data + CRLF));
      BodyShort(data, |Hex(n)|);
    }
  }

  lemma BodyShort(data: seq<byte>, digits: nat)
    requires 0 < |data| < 0x8000_0000 && 0 < digits <= 8
    ensures AllShort(InSize(|data|, digits), CRLF + (data + CRLF))
  {
    hide After, AllShort;
    var n := |data|;
    AfterTwo(InSize(n, digits), CR, LF, []);
    EmptyStream(Data(n));
    assert CRLF == [CR, LF] + [];
    AllShortAppend(InSize(n, digits), CRLF, data + CRLF);
    CrlfShort(InSize(n, digits));
    AllShortAppend(Data(n), data, CRLF);
    DataShort(n, data);
    AfterData(n, data);
    CrlfShort(BeforeCR);
  }

  lemma EmptyShort(q: Phase)
    ensures Short(q) ==> AllShort(q, [])
  {
  }

  lemma CrlfShort(q: Phase)
    requires Short(q) && Short(NextPhase(q, CR)) && Short(NextPhase(NextPhase(q, CR), LF))
    ensures AllShort(q, CRLF)
  {
    assert CRLF[1..] == [LF] && [LF][1..] == [];
    assert AllShort(NextPhase(NextPhase(q, CR), LF), []);
  }

  lemma {:induction false} EncoderShort(blocks: seq<Block>)
    requires FlushLast(blocks)
    ensures AllShort(SizeStart, EncodeAll(Encoder.Chunked, blocks))
  {
    hide After, AllShort, Chunk;
    if blocks == [] {
      EmptyShort(SizeStart);
    } else {
      var n := |blocks| - 1;
      var b := blocks[n];
      EncoderShort(blocks[..n]);
      EncoderWritesChunks(blocks[..n]);
      var last := if b.flush then LAST_CHUNK else [];
      AllShortAppend(SizeStart, EncodeAll(Encoder.Chunked, blocks[..n]), ChunkedBlock(b.data, b.flush));
      AllShortAppend(SizeStart, Chunk(b.data), last);
      AfterChunk(b.data);
      ChunkShort(b.data);
      EmptyShort(SizeStart);
      LastChunkShort();
    }
  }

  lemma LastChunkShort()
    ensures AllShort(SizeStart, LAST_CHUNK)
  {
    assert LAST_CHUNK == [48] + ([CR, LF] + [CR, LF]);
    AllShortAppend(SizeStart, [48], [CR, LF] + [CR, LF]);
    AfterTwo(SizeStart, 48, 48, []);
    assert [48] + [] == [48] && [48][1..] == [];
    EmptyStream(InSize(0, 1));
    assert AllShort(InSize(0, 1), []) && AllShort(SizeStart, [48]);
    AllShortAppend(InSize(0, 1), [CR, LF], [CR, LF]);
    CrlfShort(InSize(0, 1));
    AfterTwo(InSize(0, 1), CR, LF, []);
    assert [CR, LF] + [] == [CR, LF];
    EmptyStream(Done);
    DoneShort([CR, LF]);
  }
}
