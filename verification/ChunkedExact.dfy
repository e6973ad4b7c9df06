/** The exact condition under which chunks decode: for the streams the encoder writes, the cuts that
    ChunkedCuts shows to be harmful are the only harmful ones, and all of them are. */
module ChunkedExact {
  import opened Bytes
  import opened Encoders
  import opened Chunked
  import opened ChunkedTrip
  import opened ChunkedCuts

  /** A stream of zero payload from the encoder is a zero stream. */
  lemma {:induction false} EncoderZeroStream(blocks: seq<Block>)
    requires FlushLast(blocks) && AllZero(Input(blocks))
    ensures ZeroCount(EncodeAll(Encoder.Chunked, blocks)) == |Input(blocks)|
  {
    hide ZeroCount, Chunk, Hex;
    if blocks == [] {
      ZerosOf([]);
    } else {
      var n := |blocks| - 1;
      var b := blocks[n];
      assert AllZero(Input(blocks[..n])) && AllZero(b.data) by {
        var head := Input(blocks[..n]);
        assert Input(blocks) == head + b.data;
        assert forall i :: 0 <= i < |head| ==> head[i] == Input(blocks)[i];
        assert forall i :: 0 <= i < |b.data| ==> b.data[i] == Input(blocks)[|head| + i];
      }
      EncoderZeroStream(blocks[..n]);
      ZerosAppend(EncodeAll(Encoder.Chunked, blocks[..n]), ChunkedBlock(b.data, b.flush));
      var last := if b.flush then LAST_CHUNK else [];
      ZerosAppend(Chunk(b.data), last);
      ZerosOf(last);
      assert NoZero(last);
      ChunkZeros(b.data);
    }
  }

  lemma ChunkZeros(data: seq<byte>)
    requires AllZero(data)
    ensures ZeroCount(Chunk(data)) == |data|
  {
    hide ZeroCount, Hex, ParseHex;
    ZerosOf(data);
    if data != [] {
      HexParses(|data|);
      ZerosOf(Hex(|data|));
      ZerosOf(CRLF);
      ZerosAppend(Hex(|data|) + CRLF + data, CRLF);
      ZerosAppend(Hex(|data|) + CRLF, data);
      ZerosAppend(Hex(|data|), CRLF);
    }
  }

  /** The exact condition: for blocks of every number and size, cut into buffers anywhere, the
      decoder delivers a zero payload and the end signal if and only if the cuts are good. */
  lemma ExactlyGoodCuts(blocks: seq<Block>, pieces: seq<seq<byte>>)
    requires FlushLast(blocks) && Complete(blocks) && AllZero(Input(blocks))
    requires NoneEmpty(pieces) && Join(pieces) == EncodeAll(Encoder.Chunked, blocks)
    ensures DecodeAll(Decoder(0, 0), pieces, JunkZ) == (Input(blocks), true) <==> GoodCuts(SizeStart, pieces)
  {
    EncoderWritesChunks(blocks);
    if GoodCuts(SizeStart, pieces) {
      RoundTrip(blocks, pieces, JunkZ);
    } else {
      EncoderShort(blocks);
      EncoderZeroStream(blocks);
      BadCutsFail(SizeStart, Decoder(0, 0), pieces);
    }
  }
}
