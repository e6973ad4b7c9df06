/** The read callbacks a pipe can be given: the bytes each queues for one block of input.
    Chunked transfer coding is section 7.1 of RFC 9112; STDIN records are sections 3.3 and 5.3 of
    the FastCGI Specification 1.0. */
module Encoders {
  import opened Bytes

  /** hin_pipe_copy_raw, hin_pipe_copy_chunked and hin_fcgi_post_read_callback */
  datatype Encoder = Raw | Chunked | Stdin(reqId: nat)

  /** One block of input and whether it is flagged as the last. */
  datatype Block = Block(data: seq<byte>, flush: bool)

  // ---- hexadecimal, as printed by "%x"

  function HexDigit(d: nat): byte
    requires d < 16
  {
    if d < 10 then 48 + d else 87 + d
  }

  function Hex(n: nat): seq<byte>
  {
    if n < 16 then [HexDigit(n)] else Hex(n / 16) + [HexDigit(n % 16)]
  }

  // ---- chunked transfer coding

  const LAST_CHUNK: seq<byte> := [48, CR, LF, CR, LF]

  function Chunk(data: seq<byte>): seq<byte>
  {
    if data == [] then [] else Hex(|data|) + CRLF + data + CRLF
  }

  function ChunkedBlock(data: seq<byte>, flush: bool): seq<byte>
  {
    Chunk(data) + (if flush then LAST_CHUNK else [])
  }

  // ---- FastCGI records

  const FCGI_HEADER: nat := 8
  const FCGI_VERSION_1: byte := 1
  const FCGI_STDIN: byte := 5

  /** FCGI_ROUND_TO_PAD in 64-bit unsigned arithmetic, which gives 0 for 0 */
  function RoundToPad(num: nat): nat
  {
    if num == 0 then 0 else ((num - 1) / 8 + 1) * 8
  }

  /** hin_fcgi_header: version, type, request id, content length, padding length, reserved */
  function RecordHeader(kind: byte, reqId: nat, len: nat, padding: byte): seq<byte>
  {
    [FCGI_VERSION_1, kind, reqId / 256 % 256, reqId % 256, len / 256 % 256, len % 256, padding, 0]
  }

  function Zeros(n: nat): seq<byte> { seq(n, i => 0) }

  /** A record whose content is padded to a multiple of eight bytes. */
  function Record(kind: byte, reqId: nat, data: seq<byte>): seq<byte>
  {
    var pad := RoundToPad(|data|) - |data|;
    RecordHeader(kind, reqId, |data|, pad) + data + Zeros(pad)
  }

  function StdinBlock(reqId: nat, data: seq<byte>, flush: bool): seq<byte>
  {
    (if data == [] then [] else Record(FCGI_STDIN, reqId, data))
    + (if flush then Record(FCGI_STDIN, reqId, []) else [])
  }

  // ---- all encoders

  function Encode(e: Encoder, data: seq<byte>, flush: bool): seq<byte>
  {
    match e
    case Raw => data
    case Chunked => ChunkedBlock(data, flush)
    case Stdin(id) => StdinBlock(id, data, flush)
  }

  /** The capacity of the buffer an encoder allocates. */
  function EncodedSize(e: Encoder, data: seq<byte>, flush: bool): nat
  {
    match e
    case Raw => |data|
    case Chunked => |data| + 50
    case Stdin(_) => RoundToPad(|data|) + FCGI_HEADER + (if flush then FCGI_HEADER else 0)
  }

  function EncodeAll(e: Encoder, blocks: seq<Block>): seq<byte>
  {
    if blocks == [] then []
    else var n := |blocks| - 1; EncodeAll(e, blocks[..n]) + Encode(e, blocks[n].data, blocks[n].flush)
  }

  /** The input the blocks were cut from. */
  function Input(blocks: seq<Block>): seq<byte>
  {
    if blocks == [] then [] else Input(blocks[..|blocks| - 1]) + blocks[|blocks| - 1].data
  }
}
