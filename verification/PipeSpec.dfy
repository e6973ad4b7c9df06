/** What every step of a pipe (src/netcode/pipe.c) does, as functions on a snapshot of the pipe.

    A pipe moves bytes from an input to an output through a queue of buffers. The kernel
    completes one read and one write at a time and decides how many bytes each moves. */
module PipeSpec {
  import opened Bytes
  import opened Encoders

  const HASH_SEED: nat := 6883
  const WORD: nat := 0x1_0000_0000_0000_0000

  /** A buffer of capacity `sz` holding the bytes still to be written; `pos` is the file offset
      of the first of them, and `id` tells one allocation from another. */
  datatype Buf = Buf(id: nat, sz: nat, data: seq<byte>, pos: int)

  /** A buffer handed to the kernel to be filled with at most `want` bytes. */
  datatype Req = Req(id: nat, sz: nat, want: int, pos: int)

  /** Bytes the output has accepted, and the file offset they were written at. */
  datatype Write = Write(pos: int, data: seq<byte>)

  /** What does not change over the life of a pipe. `inPos0`, `outPos0` and `left0` are the
      offsets and the byte budget it is created with. */
  datatype Config = Config(
    condense: bool, hashing: bool, encoder: Encoder,
    inOffsets: bool, inCount: bool, outOffsets: bool,
    inPos0: int, outPos0: int, left0: int)

  /** The fields from `head` on are history: the raw bytes queued before any input, the blocks
      given to the encoder, the writes accepted, the buffers freed, and how often the finish
      callback ran. */
  datatype State = State(
    cfg: Config, started: bool,
    inDone: bool, inInactive: bool, inPos: int,
    outDone: bool, outInactive: bool, outPos: int,
    left: int, count: int, hash: nat,
    que: seq<Buf>, reading: seq<Req>, writing: seq<Buf>, nextId: nat,
    head: seq<byte>, fed: seq<Block>, sent: seq<Write>, freed: seq<nat>,
    finishes: nat, closed: bool, broken: bool)

  function New(cfg: Config, inInactive: bool): State
  {
    State(cfg, false, false, inInactive, cfg.inPos0, false, false, cfg.outPos0,
          cfg.left0, 0, 0,
          [], [], [], 0, [], [], [], [], 0, false, false)
  }

  // ---- lists of buffers

  function Data(q: seq<Buf>): seq<byte>
  {
    if q == [] then [] else q[0].data + Data(q[1..])
  }

  function Ids(q: seq<Buf>): seq<nat>
  {
    if q == [] then [] else [q[0].id] + Ids(q[1..])
  }

  function ReqIds(q: seq<Req>): seq<nat>
  {
    if q == [] then [] else [q[0].id] + ReqIds(q[1..])
  }

  /** The number of queued bytes, as the loops over `write_que` add it up. */
  function Queued(q: seq<Buf>): nat { |Data(q)| }

  // ---- steps

  /** hin_pipe_close. The structure itself is freed once nothing is in flight. */
  function Close(s: State): State
  {
    s.(inDone := true, inInactive := true, outDone := true, outInactive := true,
       finishes := if s.closed then s.finishes else s.finishes + 1, closed := true,
       freed := s.freed + Ids(s.que), que := [])
  }

  predicate Released(s: State) { s.closed && s.reading == [] && s.writing == [] }

  /** What a read callback queues for one block of input: the same buffer if it holds anything,
      or one buffer it allocates. */
  function Product(e: Encoder, id: nat, b: Buf, flush: bool): seq<Buf>
  {
    if !e.Raw? then [Buf(id, EncodedSize(e, b.data, flush), Encode(e, b.data, flush), 0)]
    else if b.data == [] then []
    else [b]
  }

  /** The read callback, and the cleaning of a buffer it does not keep. */
  function Enqueue(s: State, b: Buf, flush: bool): State
  {
    var kept := s.cfg.encoder.Raw? && b.data != [];
    s.(que := s.que + Product(s.cfg.encoder, s.nextId, b, flush),
       nextId := if s.cfg.encoder.Raw? then s.nextId else s.nextId + 1,
       freed := if kept then s.freed else s.freed + [b.id])
  }

  /** hin_pipe_process_buffer, without a decode callback. */
  function Process(s: State, b: Buf): State
  {
    if s.outInactive then s.(freed := s.freed + [b.id])
    else
      var n := |b.data|;
      var left := if s.cfg.inCount then s.left - n else s.left;
      var done := s.inDone || (s.cfg.inCount && left <= 0);
      Enqueue(s.(inPos := if s.cfg.inOffsets then s.inPos + n else s.inPos, left := left,
                 inDone := done, fed := s.fed + [Block(b.data, done)]), b, done)
  }

  /** How many bytes the next read asks for. */
  function Want(s: State): int
  {
    var q := Queued(s.que);
    if s.cfg.inCount && s.left < READ_SZ then s.left
    else if s.cfg.condense && 0 < q < READ_SZ then READ_SZ - q
    else READ_SZ
  }

  /** hin_pipe_read_next on the fresh buffer hin_pipe_advance allocates for it. */
  function ReadNext(s: State): State
  {
    s.(reading := s.reading + [Req(s.nextId, READ_SZ, Want(s), s.inPos)], nextId := s.nextId + 1)
  }

  /** The condensing loop: `head` is filled to capacity from the buffers behind it. The result
      is the filled buffer, what is left behind it, and the emptied buffers in order. */
  function Condense(head: Buf, rest: seq<Buf>): (Buf, seq<Buf>, seq<nat>)
    decreases |rest|
  {
    if rest == [] || head.sz <= |head.data| then (head, rest, [])
    else
      var len := Min(head.sz - |head.data|, |rest[0].data|);
      var full := head.(data := head.data + rest[0].data[..len]);
      if len == |rest[0].data| then
        var (h, r, f) := Condense(full, rest[1..]);
        (h, r, [rest[0].id] + f)
      else (full, [rest[0].(data := rest[0].data[len..])] + rest[1..], [])
  }

  /** A short head buffer that is alone in the queue waits for more input. */
  predicate HoldsBack(s: State)
    requires s.que != []
  {
    s.cfg.condense && |s.que[0].data| < s.que[0].sz && |s.que| == 1 && !s.inDone
  }

  /** The buffer to write, the queue behind it, and the buffers condensing emptied. */
  function Filled(s: State): (Buf, seq<Buf>, seq<nat>)
    requires s.que != []
  {
    if s.cfg.condense && |s.que[0].data| < s.que[0].sz then Condense(s.que[0], s.que[1..])
    else (s.que[0], s.que[1..], [])
  }

  /** hin_pipe_write_next on the head of the queue. */
  function WriteNext(s: State): State
    requires s.que != []
  {
    if HoldsBack(s) then s
    else
      var (h, r, f) := Filled(s);
      s.(que := r, writing := s.writing + [h.(pos := s.outPos)],
         outPos := if s.cfg.outOffsets then s.outPos + |h.data| else s.outPos,
         outDone := false, freed := s.freed + f)
  }

  /** hin_pipe_advance, in three parts: notice an exhausted budget, then close, or else ask for
      input and output. */
  function Exhaust(s: State): State
  {
    s.(inDone := s.inDone || (s.cfg.inCount && s.left <= 0))
  }

  predicate Drained(s: State)
  {
    s.que == [] && s.writing == [] && s.inDone && s.outDone
  }

  function PumpIn(s: State): State
  {
    if !s.inDone && !s.inInactive && s.reading == [] && Queued(s.que) < 2 * READ_SZ
    then ReadNext(s) else s
  }

  function PumpOut(s: State): State
  {
    if s.que != [] && s.writing == [] then WriteNext(s) else s
  }

  function Advance(s: State): State
  {
    var s1 := Exhaust(s);
    if Drained(s1) then Close(s1) else PumpOut(PumpIn(s1))
  }

  /** hin_pipe_start */
  function Opened(s: State): State
  {
    s.(started := true, outDone := true, hash := if s.cfg.hashing then HASH_SEED else s.hash)
  }

  function Start(s: State): State { Advance(Opened(s)) }

  /** hin_pipe_read_callback up to its call of hin_pipe_advance; no bytes means end of file. A
      failed read takes the same path, its error callback aside. */
  function TakeIn(s: State, bytes: seq<byte>): State
    requires s.reading != []
  {
    var r := s.reading[0];
    var s1 := Process(s.(inDone := s.inDone || bytes == [], reading := s.reading[1..]),
                      Buf(r.id, r.sz, bytes, r.pos));
    s1.(outDone := s1.outDone || s1.que == [])
  }

  function ReadDone(s: State, bytes: seq<byte>): State
    requires s.reading != []
  {
    Advance(TakeIn(s, bytes))
  }

  function HashStep(h: nat, c: byte): nat { (h * 8 + h + c) % WORD }

  function HashAll(h: nat, s: seq<byte>): nat
    decreases s
  {
    if s == [] then h else HashAll(HashStep(h, s[0]), s[1..])
  }

  /** What hin_pipe_write_callback records about `n` accepted bytes of the buffer being written. */
  function Accept(s: State, n: nat): State
    requires s.writing != [] && n <= |s.writing[0].data|
  {
    var b := s.writing[0];
    s.(outDone := true, count := s.count + n,
       hash := if s.cfg.hashing then HashAll(s.hash, b.data[..n]) else s.hash,
       sent := s.sent + [Write(b.pos, b.data[..n])])
  }

  /** A write that moved only part of the buffer is resubmitted for the rest. */
  function Resubmit(s: State, n: nat): State
    requires s.writing != [] && n <= |s.writing[0].data|
  {
    var b := s.writing[0];
    Accept(s, n).(writing := [b.(data := b.data[n..], pos := if s.cfg.outOffsets then b.pos + n else b.pos)]
                             + s.writing[1..])
  }

  /** hin_pipe_write_callback, for a buffer written out, up to its call of hin_pipe_advance */
  function PutOut(s: State): State
    requires s.writing != []
  {
    var s1 := Accept(s, |s.writing[0].data|).(writing := s.writing[1..]);
    if s1.que != [] then WriteNext(s1) else s1
  }

  function Free(s: State, id: nat): State { s.(freed := s.freed + [id]) }

  /** hin_pipe_write_callback for a write that moved `n` bytes. A buffer written out completely
      is freed by the event loop when the callback has returned. */
  function WriteDone(s: State, n: nat): State
    requires s.writing != [] && n <= |s.writing[0].data|
  {
    if n < |s.writing[0].data| then Resubmit(s, n)
    else Free(Advance(PutOut(s)), s.writing[0].id)
  }

  /** hin_pipe_write_callback for a failed write. */
  function WriteFailed(s: State): State
    requires s.writing != []
  {
    var s1 := Close(s.(outDone := true, writing := s.writing[1..], broken := true));
    s1.(freed := s1.freed + [s.writing[0].id])
  }

  /** hin_pipe_append_raw of a buffer of capacity `sz` before any input */
  function QueueRaw(s: State, sz: nat, data: seq<byte>): State
  {
    s.(que := s.que + [Buf(s.nextId, sz, data, 0)], nextId := s.nextId + 1, head := s.head + data)
  }

  /** hin_pipe_write_process of a buffer created to hold exactly `data` */
  function Preload(s: State, data: seq<byte>): State
  {
    Process(s.(nextId := s.nextId + 1), Buf(s.nextId, |data|, data, 0))
  }

  /** hin_pipe_write_process followed by hin_pipe_advance, as the FastCGI reader feeds a pipe */
  function Feed(s: State, data: seq<byte>): State { Advance(Preload(s, data)) }

  /** hin_pipe_finish up to its call of hin_pipe_advance */
  function Conclude(s: State): State
  {
    var s1 := Preload(s.(inDone := true), []);
    s1.(outDone := s1.outDone || s1.writing == [])
  }

  function Finish(s: State): State { Advance(Conclude(s)) }
}
