/** The pipe of src/netcode/pipe.c as it is written: an object whose callbacks update flags,
    counters and three lists of buffers. Each method is proved to take exactly the step PipeSpec
    describes, so every theorem about runs of PipeSpec holds of runs of this object. */
module Pipe {
  import opened Bytes
  import opened Encoders
  import F = PipeFlow
  import opened S = PipeSpec
  import opened Condensing

  /** One direction of a pipe: the flags HIN_DONE and HIN_INACTIVE, and the file offset. */
  datatype Dir = Dir(done: bool, inactive: bool, pos: int)

  /** What the outside sees: the blocks given to the encoder, the buffers cleaned, the writes
      accepted, and how often the finish callback ran. */
  datatype Log = Log(head: seq<byte>, fed: seq<Block>, freed: seq<nat>, sent: seq<Write>, finishes: nat, broken: bool)

  class Pipe {
    const cfg: Config
    var inp: Dir
    var out: Dir
    var left: int
    var count: int
    var hash: nat
    var writeQue: seq<Buf>
    var reading: seq<Req>
    var writing: seq<Buf>
    var nextId: nat
    var finishCallback: bool
    ghost var started: bool
    ghost var log: Log

    ghost function Snapshot(): State
      reads this
    {
      State(cfg, started, inp.done, inp.inactive, inp.pos, out.done, out.inactive, out.pos,
            left, count, hash, writeQue, reading, writing, nextId,
            log.head, log.fed, log.sent, log.freed, log.finishes, !finishCallback, log.broken)
    }

    constructor (cfg: Config, inactive: bool)
      ensures Snapshot() == New(cfg, inactive)
    {
      this.cfg := cfg;
      inp := Dir(false, inactive, cfg.inPos0);
      out := Dir(false, false, cfg.outPos0);
      left, count, hash, nextId, finishCallback := cfg.left0, 0, 0, 0, true;
      writeQue, reading, writing := [], [], [];
      started, log := false, Log([], [], [], [], 0, false);
    }

    /** The loops that add up the bytes in `write_que` */
    method QueuedBytes() returns (n: nat)
      ensures n == Queued(writeQue)
    {
      n := 0;
      var i := 0;
      F.NoData();
      assert writeQue[..0] == [];
      while i < |writeQue|
        invariant 0 <= i <= |writeQue| && n == |Data(writeQue[..i])|
      {
        F.DataNext(writeQue, i);
        n := n + |writeQue[i].data|;
        i := i + 1;
      }
      assert writeQue[..i] == writeQue;
    }

    /** hin_buffer_clean */
    ghost method Clean(id: nat)
      modifies this`log
      ensures log == old(log).(freed := old(log).freed + [id])
    {
      log := log.(freed := log.freed + [id]);
    }

    /** hin_pipe_close; what it frees is the queue, from the front */
    method Close()
      modifies this
      ensures Snapshot() == S.Close(old(Snapshot()))
    {
      inp, out := inp.(done := true, inactive := true), out.(done := true, inactive := true);
      if finishCallback {
        log := log.(finishes := log.finishes + 1);
        finishCallback := false;
      }
      CleanQueue();
    }

    method CleanQueue()
      modifies this`writeQue, this`log
      ensures writeQue == [] && log == old(log).(freed := old(log).freed + Ids(old(writeQue)))
    {
      while writeQue != []
        invariant log.freed + Ids(writeQue) == old(log).freed + Ids(old(writeQue))
        invariant log == old(log).(freed := log.freed)
        decreases |writeQue|
      {
        Clean(writeQue[0].id);
        writeQue := writeQue[1..];
      }
    }

    /** hin_pipe_read_next, with the buffer hin_pipe_advance gets for it from the default
        buffer callback */
    method ReadNext()
      modifies this`reading, this`nextId
      ensures Snapshot() == S.ReadNext(old(Snapshot()))
    {
      var want: int := READ_SZ;
      if cfg.condense && writeQue != [] {
        var n := QueuedBytes();
        if 0 < n < READ_SZ {
          want := READ_SZ - n;
        }
      }
      if cfg.inCount && left < READ_SZ {
        want := left;
      }
      reading := reading + [Req(nextId, READ_SZ, want, inp.pos)];
      nextId := nextId + 1;
    }

    /** The condensing loop of hin_pipe_write_next; WriteQueue has it on real memory. */
    method CondenseHead()
      requires writeQue != []
      modifies this`writeQue, this`log
      ensures var (h, r, f) := Condense(old(writeQue)[0], old(writeQue)[1..]);
              writeQue == [h] + r && log == old(log).(freed := old(log).freed + f)
    {
      hide Condense;
      ghost var v := writeQue;
      var i := 1;
      while i < |writeQue|
        invariant writeQue != [] && (i == 1 || (i == 2 <= |writeQue| && writeQue[0].sz <= |writeQue[0].data|))
        invariant SameResult(old(log).freed, v, log.freed, writeQue)
        invariant log == old(log).(freed := log.freed)
        decreases |writeQue| - i
      {
        var buf := writeQue[i];
        var len := writeQue[0].sz - |writeQue[0].data|;
        if len > |buf.data| {
          len := |buf.data|;
        } else if len <= 0 {
          break;
        }
        RoundCondenses(writeQue, old(log).freed, v, log.freed);
        var full := writeQue[0].(data := writeQue[0].data + buf.data[..len]);
        if len == |buf.data| {
          Clean(buf.id);
          writeQue := [full] + writeQue[2..];
        } else {
          writeQue := [full] + ([buf.(data := buf.data[len..])] + writeQue[2..]);
          i := i + 1;
        }
      }
      CondenseDone(old(log).freed, v, log.freed, writeQue);
    }

    /** hin_pipe_write_next on the head of the queue */
    method WriteNext()
      requires writeQue != []
      modifies this`writeQue, this`writing, this`out, this`log
      ensures Snapshot() == S.WriteNext(old(Snapshot()))
    {
      hide Condense;
      if cfg.condense && |writeQue[0].data| < writeQue[0].sz {
        if |writeQue| == 1 && !inp.done {
          return;
        }
        CondenseHead();
      }
      var buffer := writeQue[0].(pos := out.pos);
      if cfg.outOffsets {
        out := out.(pos := out.pos + |buffer.data|);
      }
      writeQue := writeQue[1..];
      writing := writing + [buffer];
      out := out.(done := false);
    }

    /** hin_pipe_advance */
    method Advance()
      modifies this
      ensures Snapshot() == S.Advance(old(Snapshot()))
    {
      hide Data, Condense;
      if cfg.inCount && left <= 0 {
        inp := inp.(done := true);
      }
      if writeQue == [] && writing == [] && inp.done && out.done {
        Close();
        return;
      }
      if !inp.done && !inp.inactive && reading == [] {
        var queued := QueuedBytes();
        if queued < 2 * READ_SZ {
          ReadNext();
        }
      }
      if writeQue != [] && writing == [] {
        WriteNext();
      }
    }

    /** The read callbacks that allocate a buffer: hin_pipe_copy_chunked and
        hin_fcgi_post_read_callback */
    method Build(data: seq<byte>, flush: bool) returns (buf: Buf)
      requires !cfg.encoder.Raw?
      modifies this`nextId
      ensures [buf] == Product(cfg.encoder, old(nextId), Buf(0, 0, data, 0), flush) && nextId == old(nextId) + 1
    {
      var bytes := [];
      match cfg.encoder {
      case Chunked =>
        if data != [] {
          bytes := bytes + (Hex(|data|) + CRLF);
          bytes := bytes + data;
          bytes := bytes + CRLF;
        }
        if flush {
          bytes := bytes + LAST_CHUNK;
        }
        assert bytes == ChunkedBlock(data, flush);
        buf := Buf(nextId, |data| + 50, bytes, 0);
      case Stdin(reqId) =>
        var rounded := RoundToPad(|data|);
        var sz := rounded + FCGI_HEADER;
        if flush {
          sz := sz + FCGI_HEADER;
        }
        if data != [] {
          bytes := bytes + RecordHeader(FCGI_STDIN, reqId, |data|, rounded - |data|);
          bytes := bytes + data + Zeros(rounded - |data|);
          assert bytes == Record(FCGI_STDIN, reqId, data);
        }
        if flush {
          bytes := bytes + RecordHeader(FCGI_STDIN, reqId, 0, 0);
          assert RecordHeader(FCGI_STDIN, reqId, 0, 0) == Record(FCGI_STDIN, reqId, []);
        }
        assert bytes == StdinBlock(reqId, data, flush);
        buf := Buf(nextId, sz, bytes, 0);
      }
      nextId := nextId + 1;
    }

    /** hin_pipe_process_buffer, without a decode callback */
    method ProcessBuffer(b: Buf)
      modifies this
      ensures Snapshot() == S.Process(old(Snapshot()), b)
    {
      hide Encode, EncodedSize;
      if out.inactive {
        Clean(b.id);
        return;
      }
      if cfg.inOffsets {
        inp := inp.(pos := inp.pos + |b.data|);
      }
      if cfg.inCount {
        left := left - |b.data|;
        if left <= 0 {
          inp := inp.(done := true);
        }
      }
      log := log.(fed := log.fed + [Block(b.data, inp.done)]);
      ReadCallback(b, inp.done);
    }

    /** The pipe's read callback, and the cleaning of a buffer it does not keep */
    method ReadCallback(b: Buf, flush: bool)
      modifies this`writeQue, this`nextId, this`log
      ensures Snapshot() == S.Enqueue(old(Snapshot()), b, flush)
    {
      hide Encode, EncodedSize;
      if !cfg.encoder.Raw? {
        var buf := Build(b.data, flush);
        writeQue := writeQue + [buf];
        Clean(b.id);
      } else if b.data == [] {
        Clean(b.id);
      } else {
        writeQue := writeQue + [b];
      }
    }

    /** hin_pipe_read_callback up to its call of hin_pipe_advance */
    method TakeIn(bytes: seq<byte>)
      requires reading != []
      modifies this
      ensures Snapshot() == S.TakeIn(old(Snapshot()), bytes)
    {
      hide S.Process;
      var r := reading[0];
      Received(bytes == []);
      ProcessBuffer(Buf(r.id, r.sz, bytes, r.pos));
      NoteDrained();
    }

    /** The output has nothing to do when nothing is queued for it. */
    method NoteDrained()
      modifies this`out
      ensures Snapshot() == old(Snapshot()).(outDone := old(out.done) || writeQue == [])
    {
      if writeQue == [] {
        out := out.(done := true);
      }
    }

    /** The buffer is no longer being read, and no bytes mean the end of the input. */
    method Received(end: bool)
      requires reading != []
      modifies this`inp, this`reading
      ensures Snapshot() == old(Snapshot()).(inDone := old(inp.done) || end, reading := old(reading)[1..])
    {
      inp := inp.(done := inp.done || end);
      reading := reading[1..];
    }

    /** hin_pipe_read_callback, when the kernel has put `bytes` into the buffer being read */
    method ReadCompleted(bytes: seq<byte>)
      requires reading != []
      modifies this
      ensures Snapshot() == S.ReadDone(old(Snapshot()), bytes)
    {
      hide S.Advance, S.TakeIn;
      TakeIn(bytes);
      Advance();
    }

    /** The loop of hin_pipe_write_callback that adds accepted bytes to the hash, modulo 2^64 */
    method HashBytes(data: seq<byte>)
      modifies this`hash
      ensures hash == HashAll(old(hash), data)
    {
      var i := 0;
      assert data[0..] == data;
      while i < |data|
        invariant 0 <= i <= |data| && HashAll(hash, data[i..]) == HashAll(old(hash), data)
      {
        assert data[i..][1..] == data[i + 1..];
        hash := (hash * 8 + hash + data[i]) % WORD;
        i := i + 1;
      }
    }

    /** hin_pipe_write_callback for a buffer written out, up to its call of hin_pipe_advance */
    method PutOut()
      requires writing != []
      modifies this
      ensures Snapshot() == S.PutOut(old(Snapshot()))
    {
      hide S.WriteNext, S.Accept;
      NoteAccepted(|writing[0].data|);
      writing := writing[1..];
      if writeQue != [] {
        WriteNext();
      }
    }

    /** hin_pipe_write_callback for a buffer written in part */
    method Resubmit(n: nat)
      requires writing != [] && n <= |writing[0].data|
      modifies this
      ensures Snapshot() == S.Resubmit(old(Snapshot()), n)
    {
      hide HashAll;
      var b := writing[0];
      NoteAccepted(n);
      writing := [b.(data := b.data[n..], pos := if cfg.outOffsets then b.pos + n else b.pos)] + writing[1..];
    }

    /** hin_pipe_write_callback, when the output has accepted `n` bytes; the event loop frees a
        buffer that was written out */
    method WriteCompleted(n: nat)
      requires writing != [] && n <= |writing[0].data|
      modifies this
      ensures Snapshot() == S.WriteDone(old(Snapshot()), n)
    {
      hide S.Advance, S.PutOut, S.Resubmit;
      var b := writing[0];
      if n < |b.data| {
        Resubmit(n);
      } else {
        PutOut();
        Advance();
        Clean(b.id);
      }
    }

    /** The counter and the hash in hin_pipe_write_callback */
    method NoteAccepted(n: nat)
      requires writing != [] && n <= |writing[0].data|
      modifies this`out, this`count, this`hash, this`log
      ensures Snapshot() == S.Accept(old(Snapshot()), n)
    {
      hide HashAll;
      var b := writing[0];
      out := out.(done := true);
      count := count + n;
      if cfg.hashing {
        HashBytes(b.data[..n]);
      }
      log := log.(sent := log.sent + [Write(b.pos, b.data[..n])]);
    }

    /** hin_pipe_write_callback, when the write failed */
    method WriteFailed()
      requires writing != []
      modifies this
      ensures Snapshot() == S.WriteFailed(old(Snapshot()))
    {
      hide Ids;
      var b := writing[0];
      out := out.(done := true);
      writing := writing[1..];
      log := log.(broken := true);
      Close();
      Clean(b.id);
    }

    /** hin_pipe_start */
    method Start()
      modifies this
      ensures Snapshot() == S.Start(old(Snapshot()))
    {
      hide S.Advance;
      if cfg.hashing {
        hash := HASH_SEED;
      }
      out := out.(done := true);
      started := true;
      Advance();
    }

    /** hin_pipe_append_raw of a header buffer */
    method AppendRaw(sz: nat, data: seq<byte>)
      modifies this
      ensures Snapshot() == S.QueueRaw(old(Snapshot()), sz, data)
    {
      writeQue := writeQue + [Buf(nextId, sz, data, 0)];
      nextId := nextId + 1;
      log := log.(head := log.head + data);
    }

    /** hin_pipe_write_process of one buffer that holds `data` */
    method WriteProcess(data: seq<byte>)
      modifies this
      ensures Snapshot() == S.Preload(old(Snapshot()), data)
    {
      hide S.Process;
      nextId := nextId + 1;
      ProcessBuffer(Buf(nextId - 1, |data|, data, 0));
    }

    /** hin_pipe_finish */
    method Finish()
      modifies this
      ensures Snapshot() == S.Finish(old(Snapshot()))
    {
      hide S.Advance, S.Preload;
      inp := inp.(done := true);
      WriteProcess([]);
      if writing == [] {
        out := out.(done := true);
      }
      Advance();
    }
  }
}
