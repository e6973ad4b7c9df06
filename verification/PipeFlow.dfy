/** Runs of a pipe, and what every step of every run keeps about the stream itself: no byte is
    lost, repeated or reordered between the input and the output. */
module PipeFlow {
  import opened Bytes
  import opened Encoders
  import opened PipeSpec

  /** What can happen to a pipe: its owner queues, starts, feeds or finishes it, and the kernel
      completes the read or the write in flight. */
  datatype Event =
    | Appended(sz: nat, data: seq<byte>)
    | Preloaded(data: seq<byte>)
    | Started
    | Fed(data: seq<byte>)
    | Finished
    | Read(bytes: seq<byte>)
    | Wrote(n: nat)
    | WriteError

  function Taken(s: State): nat { |Input(s.fed)| }

  /** `data` is what the input `src` has next. */
  predicate Next(s: State, src: seq<byte>, data: seq<byte>)
  {
    data <= src[Min(Taken(s), |src|)..]
  }

  /** The kernel moves at least one byte of a non-empty write and at most what a read asked for;
      an empty read is the end of the input `src`. Owners queue headers before input, and feed only
      pipes that do not read for themselves; what they hand in may go beyond a byte budget. */
  predicate Enabled(s: State, e: Event, src: seq<byte>)
  {
    match e
    case Appended(sz, data) => !s.started && s.fed == [] && |data| <= sz
    case Preloaded(data) => !s.started && !s.inDone && Next(s, src, data)
    case Started => !s.started
    case Fed(data) => s.started && s.inInactive && !s.inDone && Next(s, src, data)
    case Finished => s.started && s.inInactive && !s.inDone && Taken(s) == |src|
    case Read(bytes) => s.reading != [] && |bytes| <= s.reading[0].want && Next(s, src, bytes)
                        && (bytes == [] ==> s.closed || Taken(s) == |src|)
    case Wrote(n) => s.writing != [] && n <= |s.writing[0].data| && (n == 0 ==> s.writing[0].data == [])
    case WriteError => s.writing != []
  }

  function Step(s: State, e: Event, src: seq<byte>): State
    requires Enabled(s, e, src)
  {
    match e
    case Appended(sz, data) => QueueRaw(s, sz, data)
    case Preloaded(data) => Preload(s, data)
    case Started => Start(s)
    case Fed(data) => Feed(s, data)
    case Finished => Finish(s)
    case Read(bytes) => ReadDone(s, bytes)
    case Wrote(n) => WriteDone(s, n)
    case WriteError => WriteFailed(s)
  }

  predicate IsRun(s: State, events: seq<Event>, src: seq<byte>)
    decreases |events|
  {
    events == [] || (Enabled(s, events[0], src) && IsRun(Step(s, events[0], src), events[1..], src))
  }

  function Run(s: State, events: seq<Event>, src: seq<byte>): State
    requires IsRun(s, events, src)
    decreases |events|
  {
    if events == [] then s else Run(Step(s, events[0], src), events[1..], src)
  }

  // ---- lists of buffers

  lemma {:induction false} DataAppend(a: seq<Buf>, b: seq<Buf>)
    ensures Data(a + b) == Data(a) + Data(b)
    decreases |a|
  {
    if a == [] {
      assert a + b == b;
    } else {
      assert (a + b)[1..] == a[1..] + b;
      DataAppend(a[1..], b);
    }
  }

  lemma DataOne(b: Buf)
    ensures Data([b]) == b.data
  {
  }

  lemma NoData()
    ensures Data([]) == []
  {
  }

  lemma DataNext(q: seq<Buf>, i: nat)
    requires i < |q|
    ensures Data(q[..i + 1]) == Data(q[..i]) + q[i].data
  {
    assert q[..i + 1] == q[..i] + [q[i]];
    DataAppend(q[..i], [q[i]]);
    DataOne(q[i]);
  }

  lemma Assoc<T>(a: seq<T>, b: seq<T>, c: seq<T>)
    ensures (a + b) + c == a + (b + c)
  {
  }

  /** Everything the output has accepted, in order. */
  function Output(sent: seq<Write>): seq<byte>
  {
    if sent == [] then [] else Output(sent[..|sent| - 1]) + sent[|sent| - 1].data
  }

  lemma OutputSnoc(sent: seq<Write>, w: Write)
    ensures Output(sent + [w]) == Output(sent) + w.data
  {
    assert (sent + [w])[..|sent|] == sent;
  }

  lemma EncodeAllSnoc(e: Encoder, blocks: seq<Block>, b: Block)
    ensures EncodeAll(e, blocks + [b]) == EncodeAll(e, blocks) + Encode(e, b.data, b.flush)
    ensures Input(blocks + [b]) == Input(blocks) + b.data
  {
    assert (blocks + [b])[..|blocks|] == blocks;
  }

  /** Condensing moves bytes between buffers without changing the stream. */
  lemma {:induction false} CondenseData(head: Buf, rest: seq<Buf>)
    ensures var (h, r, f) := Condense(head, rest);
            h.data + Data(r) == head.data + Data(rest) && h.id == head.id && h.sz == head.sz
            && |r| <= |rest| && |head.data| <= |h.data|
    decreases |rest|
  {
    if rest == [] || head.sz <= |head.data| {
    } else {
      var len := Min(head.sz - |head.data|, |rest[0].data|);
      var full := head.(data := head.data + rest[0].data[..len]);
      assert full.data + rest[0].data[len..] == head.data + rest[0].data;
      if len == |rest[0].data| {
        CondenseData(full, rest[1..]);
        assert full.data == head.data + rest[0].data;
        assert full.data + Data(rest[1..]) == head.data + (rest[0].data + Data(rest[1..]));
      } else {
        var left := rest[0].(data := rest[0].data[len..]);
        assert Data([left] + rest[1..]) == left.data + Data(rest[1..]) by {
          assert ([left] + rest[1..])[1..] == rest[1..];
        }
        calc {
          full.data + Data([left] + rest[1..]);
          full.data + left.data + Data(rest[1..]);
          head.data + rest[0].data + Data(rest[1..]);
          head.data + Data(rest);
        }
      }
    }
  }

  // ---- control

  /** Which flags and lists go together. At most one read and one write are ever in flight, and
      the finish callback has run exactly if the pipe is closed, and then once. */
  predicate Orderly(s: State)
  {
    && |s.reading| <= 1 && |s.writing| <= 1
    && (s.outInactive <==> s.closed)
    && s.finishes == (if s.closed then 1 else 0)
    && (s.closed ==> s.started && s.inDone && s.outDone && s.inInactive && s.que == [] && s.writing == [])
    && (s.broken ==> s.closed)
    && (s.closed && !s.broken ==> s.reading == [])
    && (!s.started ==> s.reading == [] && s.writing == [])
    && (s.started && s.writing == [] ==> s.outDone)
    && (s.reading != [] && !s.closed ==> !s.inDone && !s.inInactive && (s.cfg.inCount ==> 0 < s.left))
  }

  lemma OrderlyAdvance(s: State)
    requires s.started && !s.closed && !s.outInactive && !s.broken && s.finishes == 0
    requires |s.reading| <= 1 && |s.writing| <= 1
    requires s.writing == [] ==> s.outDone
    requires s.reading != [] ==> !s.inDone && !s.inInactive && (s.cfg.inCount ==> 0 < s.left)
    ensures Orderly(Advance(s))
  {
    hide Data, Condense, Want;
  }

  lemma OrderlyTakeIn(s: State, bytes: seq<byte>)
    requires Orderly(s) && !s.closed && s.reading != []
    ensures Orderly(ReadDone(s, bytes))
  {
    hide Advance, Encode, EncodedSize, Data;
    OrderlyAdvance(TakeIn(s, bytes));
  }

  lemma OrderlyPutOut(s: State)
    requires Orderly(s) && !s.closed && s.writing != []
    ensures Orderly(WriteDone(s, |s.writing[0].data|))
  {
    hide Advance, Condense, HashAll;
    OrderlyAdvance(PutOut(s));
  }

  lemma OrderlyFed(s: State, data: seq<byte>)
    requires Orderly(s) && s.started && !s.closed && s.reading == []
    ensures Orderly(Feed(s, data)) && Orderly(Finish(s))
  {
    hide Advance, Encode, EncodedSize, Data;
    OrderlyAdvance(Preload(s, data));
    OrderlyAdvance(Conclude(s));
  }

  /** Every step keeps the flags and lists in order. */
  lemma OrderlyStep(s: State, e: Event, src: seq<byte>)
    requires Orderly(s) && Enabled(s, e, src)
    ensures Orderly(Step(s, e, src))
  {
    if s.broken {
      BrokenRead(s, e, src);
    } else {
      hide Data, Encode, EncodedSize, Input, HashAll, ReadDone, Advance, PutOut, Conclude;
      match e
      case Appended(sz, data) =>
      case Preloaded(data) =>
      case Started => OrderlyAdvance(Opened(s));
      case Fed(data) => OrderlyFed(s, data);
      case Finished => OrderlyFed(s, []);
      case Read(bytes) => OrderlyTakeIn(s, bytes);
      case Wrote(n) =>
        if n == |s.writing[0].data| {
          OrderlyPutOut(s);
        }
      case WriteError =>
    }
  }

  // ---- the stream

  /** What was accepted, what is being written and what is queued. */
  function Stream(s: State): seq<byte> { Output(s.sent) + Data(s.writing) + Data(s.que) }

  /** Everything given to the pipe so far, as the output should see it. */
  function Given(s: State): seq<byte> { s.head + EncodeAll(s.cfg.encoder, s.fed) }

  /** Conservation: accepted ++ in flight ++ queued is everything appended so far. Only a failed
      write drops a tail of it. */
  ghost predicate Flow(s: State)
  {
    if s.broken then Output(s.sent) <= Given(s) else Stream(s) == Given(s)
  }

  lemma ProductData(e: Encoder, id: nat, b: Buf, flush: bool)
    ensures Data(Product(e, id, b, flush)) == Encode(e, b.data, flush)
  {
    hide RecordHeader, Record, StdinBlock, ChunkedBlock, EncodedSize;
    if !e.Raw? {
      DataOne(Product(e, id, b, flush)[0]);
    } else if b.data != [] {
      DataOne(b);
    }
  }

  /** hin_pipe_process_buffer adds one block, encoded, to the end of the queue. */
  lemma ProcessShape(s: State, b: Buf)
    requires !s.outInactive
    ensures var t := Process(s, b);
            && t.fed == s.fed + [Block(b.data, t.inDone)]
            && Data(t.que) == Data(s.que) + Encode(s.cfg.encoder, b.data, t.inDone)
            && t.sent == s.sent && t.writing == s.writing && t.reading == s.reading
            && t.head == s.head && t.cfg == s.cfg && t.broken == s.broken
            && t.closed == s.closed && t.started == s.started && t.outDone == s.outDone
            && |t.que| <= |s.que| + 1 && (s.inDone ==> t.inDone)
  {
    hide Encode, EncodedSize;
    var t := Process(s, b);
    ProductData(s.cfg.encoder, s.nextId, b, t.inDone);
    DataAppend(s.que, Product(s.cfg.encoder, s.nextId, b, t.inDone));
  }

  lemma FlowProcess(s: State, b: Buf)
    requires Flow(s) && !s.broken
    ensures Flow(Process(s, b)) && !Process(s, b).broken
  {
    if !s.outInactive {
      hide Data, Encode, Enqueue, EncodeAll, Output;
      ProcessShape(s, b);
      var t := Process(s, b);
      EncodeAllSnoc(s.cfg.encoder, s.fed, Block(b.data, t.inDone));
      var added := Encode(s.cfg.encoder, b.data, t.inDone);
      Assoc(Output(s.sent) + Data(s.writing), Data(s.que), added);
      Assoc(s.head, EncodeAll(s.cfg.encoder, s.fed), added);
    }
  }

  lemma FlowWriteNext(s: State)
    requires Flow(s) && !s.broken && s.que != []
    ensures Flow(WriteNext(s))
  {
    if !HoldsBack(s) {
      var t := WriteNext(s);
      var w := t.writing[|s.writing|];
      assert t.writing == s.writing + [w];
      DataAppend(s.writing, [w]);
      DataOne(w);
      assert w.data + Data(t.que) == Data(s.que) by { CondenseData(s.que[0], s.que[1..]); }
      Assoc(Output(s.sent), Data(s.writing), w.data);
      Assoc(Output(s.sent) + Data(s.writing), w.data, Data(t.que));
    }
  }

  lemma FlowAdvance(s: State)
    requires Flow(s) && !s.broken
    ensures Flow(Advance(s)) && !Advance(s).broken
  {
    var s1 := Exhaust(s);
    if !Drained(s1) {
      var s2 := PumpIn(s1);
      assert Flow(s2);
      if s2.que != [] && s2.writing == [] {
        FlowWriteNext(s2);
      }
    }
  }

  lemma FlowAccept(s: State, n: nat)
    requires Flow(s) && !s.broken && |s.writing| == 1 && n <= |s.writing[0].data|
    ensures Output(Accept(s, n).sent) + s.writing[0].data[n..] + Data(s.que) == Given(s)
  {
    var b := s.writing[0];
    OutputSnoc(s.sent, Write(b.pos, b.data[..n]));
    assert b.data == b.data[..n] + b.data[n..];
    assert s.writing == [b];
    DataOne(b);
  }

  lemma FlowResubmit(s: State, n: nat)
    requires Flow(s) && !s.broken && |s.writing| == 1 && n <= |s.writing[0].data|
    ensures Flow(Resubmit(s, n))
  {
    hide HashAll;
    FlowAccept(s, n);
    var t := Resubmit(s, n);
    assert t.writing == [t.writing[0]];
    DataOne(t.writing[0]);
  }

  lemma FlowPutOut(s: State)
    requires Flow(s) && !s.broken && |s.writing| == 1
    ensures Flow(PutOut(s)) && !PutOut(s).broken
  {
    hide HashAll, Condense;
    var n := |s.writing[0].data|;
    FlowAccept(s, n);
    var s1 := Accept(s, n).(writing := []);
    assert s.writing[0].data[n..] == [];
    assert Flow(s1);
    if s1.que != [] {
      FlowWriteNext(s1);
    }
  }

  lemma FlowQueueRaw(s: State, sz: nat, data: seq<byte>)
    requires Flow(s) && !s.broken && s.fed == []
    ensures Flow(QueueRaw(s, sz, data))
  {
    hide Output, Data;
    var b := Buf(s.nextId, sz, data, 0);
    DataAppend(s.que, [b]);
    DataOne(b);
    Assoc(Output(s.sent) + Data(s.writing), Data(s.que), data);
  }

  /** Conservation over one step, whichever way the kernel splits reads and writes. */
  lemma FlowStep(s: State, e: Event, src: seq<byte>)
    requires Flow(s) && Orderly(s) && Enabled(s, e, src)
    ensures Flow(Step(s, e, src))
  {
    hide Data, Encode, EncodeAll, Output, Input, Enqueue, Advance, PutOut, Resubmit;
    if s.broken {
      BrokenRead(s, e, src);
    } else {
      match e
      case Appended(sz, data) => FlowQueueRaw(s, sz, data);
      case Preloaded(data) =>
        FlowProcess(s.(nextId := s.nextId + 1), Buf(s.nextId, |data|, data, 0));
      case Started => FlowAdvance(Opened(s));
      case Fed(data) =>
        FlowProcess(s.(nextId := s.nextId + 1), Buf(s.nextId, |data|, data, 0));
        FlowAdvance(Preload(s, data));
      case Finished =>
        FlowProcess(s.(inDone := true, nextId := s.nextId + 1), Buf(s.nextId, 0, [], 0));
        FlowAdvance(Conclude(s));
      case Read(bytes) =>
        var r := s.reading[0];
        FlowProcess(s.(inDone := s.inDone || bytes == [], reading := s.reading[1..]), Buf(r.id, r.sz, bytes, r.pos));
        FlowAdvance(TakeIn(s, bytes));
      case Wrote(n) =>
        if n < |s.writing[0].data| {
          FlowResubmit(s, n);
        } else {
          FlowPutOut(s);
          FlowAdvance(PutOut(s));
        }
      case WriteError =>
    }
  }

  /** A pipe closed by a failed write only waits for the read in flight. */
  lemma BrokenRead(s: State, e: Event, src: seq<byte>)
    requires s.broken && Orderly(s) && Enabled(s, e, src)
    ensures e.Read? && var t := Step(s, e, src);
            t == s.(reading := [], freed := s.freed + [s.reading[0].id])
  {
    hide Enqueue, Input;
    assert s.freed + [s.reading[0].id] + [] == s.freed + [s.reading[0].id];
  }
}
