/** How much a pipe reads: every read continues the input where the last one stopped, asks for
    at least one byte and at most the budget left, and backs off while the output is slow. */
module PipeBudget {
  import opened Bytes
  import opened Encoders
  import opened PipeSpec
  import opened PipeFlow

  /** The blocks processed so far are a prefix of the input; the budget and the input offset
      account for exactly those bytes; only the last block is flushed, and the input is done
      exactly when it was, or when the budget was empty from the start. */
  ghost predicate Sourced(s: State, src: seq<byte>)
  {
    && Input(s.fed) <= src
    && (s.cfg.inCount ==> s.left == s.cfg.left0 - Taken(s))
    && (s.cfg.inOffsets ==> s.inPos == s.cfg.inPos0 + Taken(s))
    && (forall i :: 0 <= i < |s.fed| - 1 ==> !s.fed[i].flush)
    && (!s.broken ==> (s.inDone <==> Flushed(s) || EmptyBudget(s)))
    && (s.cfg.inCount && s.fed != [] && s.left <= 0 ==> s.inDone)
    && (s.cfg.inCount && s.cfg.left0 <= 0 && s.fed != [] ==> Flushed(s))
    && (s.inDone && !s.broken ==> Taken(s) == |src| || (s.cfg.inCount && s.left <= 0))
  }

  predicate Flushed(s: State) { s.fed != [] && s.fed[|s.fed| - 1].flush }

  /** A counted pipe with nothing to move, which never processes a block. */
  predicate EmptyBudget(s: State) { s.started && s.cfg.inCount && s.cfg.left0 <= 0 }

  /** The read in flight fits its buffer and the budget, continues at the right offset, and was
      only asked for with less than two blocks queued. */
  predicate ReadInBounds(s: State)
  {
    s.reading != [] ==>
      var r := s.reading[0];
      && r.sz == READ_SZ && 1 <= r.want <= READ_SZ
      && (!s.closed ==> (s.cfg.inCount ==> r.want <= s.left) && r.pos == s.inPos && Queued(s.que) < 2 * READ_SZ)
  }

  lemma WantInBounds(s: State)
    requires s.cfg.inCount ==> 0 < s.left
    ensures 1 <= Want(s) <= READ_SZ
    ensures s.cfg.inCount ==> Want(s) <= s.left
  {
  }

  /** Handing a buffer to the output never adds to the queue. */
  lemma WriteNextShrinks(s: State)
    requires s.que != []
    ensures Queued(WriteNext(s).que) <= Queued(s.que)
  {
    if !HoldsBack(s) {
      CondenseData(s.que[0], s.que[1..]);
      var h := Condense(s.que[0], s.que[1..]).0;
      assert |h.data + Data(Condense(s.que[0], s.que[1..]).1)| == |s.que[0].data + Data(s.que[1..])|;
    }
  }

  lemma PumpOutShrinks(s: State)
    ensures var t := PumpOut(s);
            Queued(t.que) <= Queued(s.que) && t.reading == s.reading && t.cfg == s.cfg
            && t.left == s.left && t.inPos == s.inPos && t.closed == s.closed
  {
    hide Data, Condense;
    if s.que != [] && s.writing == [] {
      WriteNextShrinks(s);
    }
  }

  lemma AdvanceInBounds(s: State)
    requires ReadInBounds(s) && !s.closed && |s.reading| <= 1
    requires s.reading != [] ==> s.cfg.inCount ==> 0 < s.left
    ensures ReadInBounds(Advance(s))
  {
    hide Data, Condense, WriteNext, Want;
    var s1 := Exhaust(s);
    if !Drained(s1) {
      if !s1.inDone {
        WantInBounds(s1);
      }
      var s2 := PumpIn(s1);
      assert ReadInBounds(s2);
      PumpOutShrinks(s2);
    }
  }

  /** The fields that say how much input was consumed. */
  predicate SameInput(s: State, t: State)
  {
    && t.cfg == s.cfg && t.fed == s.fed && t.left == s.left && t.inPos == s.inPos
    && t.broken == s.broken && t.started == s.started
  }

  lemma PumpOutConsumesNothing(s: State)
    ensures SameInput(s, PumpOut(s)) && PumpOut(s).inDone == s.inDone
  {
    hide Data, Condense;
  }

  lemma PumpInConsumesNothing(s: State)
    ensures SameInput(s, PumpIn(s)) && PumpIn(s).inDone == s.inDone
  {
    hide Data, Want, Queued;
  }

  /** hin_pipe_advance consumes no input; it only notices an exhausted budget. */
  lemma AdvanceConsumesNothing(s: State)
    ensures SameInput(s, Advance(s))
    ensures Advance(s).inDone == (s.inDone || (s.cfg.inCount && s.left <= 0))
  {
    hide PumpIn, PumpOut, Ids;
    PumpInConsumesNothing(Exhaust(s));
    PumpOutConsumesNothing(PumpIn(Exhaust(s)));
  }

  lemma SourcedAdvance(s: State, src: seq<byte>)
    requires Sourced(s, src) && s.started && !s.broken
    ensures Sourced(Advance(s), src)
  {
    hide Advance;
    AdvanceConsumesNothing(s);
    assert s.fed == [] ==> Taken(s) == 0;
    SourcedSame(s, Advance(s), src);
  }

  lemma NextExtends(a: seq<byte>, b: seq<byte>, src: seq<byte>)
    requires a <= src && b <= src[|a|..]
    ensures a + b <= src
  {
    assert src == a + src[|a|..];
  }

  lemma SourcedProcess(s: State, b: Buf, src: seq<byte>)
    requires Sourced(s.(inDone := Flushed(s) || EmptyBudget(s)), src) && !s.broken && !s.outInactive
    requires !Flushed(s) && !EmptyBudget(s)
    requires Next(s, src, b.data)
    requires s.inDone ==> Taken(s) == |src| && b.data == []
    ensures Sourced(Process(s, b), src)
    ensures var t := Process(s, b); t.started == s.started && !t.broken && t.fed != []
  {
    ProcessTakes(s, b);
    hide Process, EncodeAll, Encode, Input;
    EncodeAllSnoc(s.cfg.encoder, s.fed, Block(b.data, Process(s, b).inDone));
    NextExtends(Input(s.fed), b.data, src);
  }

  /** What processing a buffer does to the input side */
  lemma ProcessTakes(s: State, b: Buf)
    requires !s.outInactive
    ensures var t := Process(s, b);
            && t.cfg == s.cfg && t.started == s.started && t.broken == s.broken
            && t.left == (if s.cfg.inCount then s.left - |b.data| else s.left)
            && t.inPos == (if s.cfg.inOffsets then s.inPos + |b.data| else s.inPos)
            && t.inDone == (s.inDone || (s.cfg.inCount && t.left <= 0))
            && t.fed == s.fed + [Block(b.data, t.inDone)]
  {
    hide Data, Encode, EncodedSize, Product;
  }

  lemma SourcedTakeIn(s: State, bytes: seq<byte>, src: seq<byte>)
    requires Sourced(s, src) && Orderly(s) && ReadInBounds(s) && !s.closed
    requires Enabled(s, Read(bytes), src)
    ensures Sourced(ReadDone(s, bytes), src)
  {
    hide Process, Advance, Input;
    var r := s.reading[0];
    var s1 := s.(inDone := s.inDone || bytes == [], reading := s.reading[1..]);
    var b := Buf(r.id, r.sz, bytes, r.pos);
    assert !s.inDone && !Flushed(s) && !EmptyBudget(s) && !s.broken && !s.outInactive;
    SourcedProcess(s1, b, src);
    OutDoneAside(Process(s1, b), TakeIn(s, bytes), src);
    SourcedAdvance(TakeIn(s, bytes), src);
  }

  lemma OutDoneAside(s: State, t: State, src: seq<byte>)
    requires Sourced(s, src) && t == s.(outDone := t.outDone)
    ensures Sourced(t, src)
  {
    hide Input;
  }

  lemma SourcedSame(s: State, t: State, src: seq<byte>)
    requires Sourced(s, src) && SameInput(s, t)
    requires t.inDone == (s.inDone || (s.cfg.inCount && s.left <= 0 && s.started))
    ensures Sourced(t, src)
  {
    hide Input;
    assert s.fed == [] ==> Taken(s) == 0 by { InputEmpty(s.fed); }
  }

  lemma InputEmpty(blocks: seq<Block>)
    ensures blocks == [] ==> Input(blocks) == []
  {
  }

  lemma WritingConsumesNothing(s: State, n: nat)
    requires s.writing != [] && n <= |s.writing[0].data|
    ensures SameInput(s, PutOut(s)) && PutOut(s).inDone == s.inDone
    ensures SameInput(s, Resubmit(s, n)) && Resubmit(s, n).inDone == s.inDone
  {
    hide Data, Condense, HashAll;
  }

  lemma SourcedWrote(s: State, n: nat, src: seq<byte>)
    requires Sourced(s, src) && s.started && s.writing != [] && !s.broken && n <= |s.writing[0].data|
    ensures Sourced(WriteDone(s, n), src)
  {
    hide Data, PutOut, Resubmit, Advance;
    WritingConsumesNothing(s, n);
    if n < |s.writing[0].data| {
      SourcedSame(s, Resubmit(s, n), src);
    } else {
      SourcedSame(s, PutOut(s), src);
      SourcedAdvance(PutOut(s), src);
      AdvanceConsumesNothing(PutOut(s));
      SourcedSame(Advance(PutOut(s)), WriteDone(s, n), src);
    }
  }

  lemma SourcedConclude(s: State, src: seq<byte>)
    requires Sourced(s, src) && Orderly(s) && Enabled(s, Finished, src) && !s.closed
    ensures Sourced(Finish(s), src)
  {
    hide Data, Encode, EncodedSize, Enqueue, Advance;
    SourcedProcess(s.(inDone := true, nextId := s.nextId + 1), Buf(s.nextId, 0, [], 0), src);
    SourcedAdvance(Conclude(s), src);
  }

  lemma SourcedFeed(s: State, data: seq<byte>, src: seq<byte>)
    requires Sourced(s, src) && Orderly(s) && !s.closed && !s.inDone
    requires Next(s, src, data)
    ensures Sourced(Preload(s, data), src)
    ensures s.started ==> Sourced(Feed(s, data), src)
  {
    hide Data, Encode, EncodedSize, Enqueue, Advance;
    SourcedProcess(s.(nextId := s.nextId + 1), Buf(s.nextId, |data|, data, 0), src);
    if s.started {
      SourcedAdvance(Preload(s, data), src);
    }
  }

  lemma SourcedStart(s: State, src: seq<byte>)
    requires Sourced(s, src) && Orderly(s) && !s.started
    ensures Sourced(Start(s), src)
  {
    hide Advance;
    assert s.fed == [] ==> Taken(s) == 0;
    AdvanceConsumesNothing(Opened(s));
  }

  /** Every step keeps the account of the input. */
  lemma SourcedStep(s: State, e: Event, src: seq<byte>)
    requires Sourced(s, src) && Orderly(s) && ReadInBounds(s) && Enabled(s, e, src)
    ensures Sourced(Step(s, e, src), src)
  {
    if s.broken {
      BrokenRead(s, e, src);
    } else {
      hide ReadDone, Preload, Feed, Finish, Start, WriteDone, Input, Next;
      match e
      case Appended(sz, data) => SourcedSame(s, QueueRaw(s, sz, data), src);
      case Preloaded(data) => SourcedFeed(s, data, src);
      case Started => SourcedStart(s, src);
      case Fed(data) => SourcedFeed(s, data, src);
      case Finished => SourcedConclude(s, src);
      case Read(bytes) => SourcedTakeIn(s, bytes, src);
      case Wrote(n) => SourcedWrote(s, n, src);
      case WriteError =>
    }
  }

  lemma InBoundsPutOut(s: State)
    requires ReadInBounds(s) && Orderly(s) && s.writing != [] && !s.closed
    ensures ReadInBounds(Advance(PutOut(s)))
  {
    hide Data, Advance, Condense, HashAll;
    PumpOutShrinks(Accept(s, |s.writing[0].data|).(writing := []));
    AdvanceInBounds(PutOut(s));
  }

  /** Every step keeps the read in flight within its bounds. */
  lemma InBoundsStep(s: State, e: Event, src: seq<byte>)
    requires ReadInBounds(s) && Orderly(s) && Enabled(s, e, src)
    ensures ReadInBounds(Step(s, e, src))
  {
    hide Data, Advance, Encode, EncodedSize, Input, PutOut, HashAll;
    if s.broken {
      BrokenRead(s, e, src);
    } else {
      match e
      case Appended(sz, data) =>
      case Preloaded(data) =>
      case Started => AdvanceInBounds(Opened(s));
      case Fed(data) => AdvanceInBounds(Preload(s, data));
      case Finished => AdvanceInBounds(Conclude(s));
      case Read(bytes) => AdvanceInBounds(TakeIn(s, bytes));
      case Wrote(n) =>
        if n == |s.writing[0].data| {
          InBoundsPutOut(s);
        }
      case WriteError =>
    }
  }

  // ---- backpressure

  /** For a raw pipe that reads for itself: nothing is queued beyond `base` bytes once three
      blocks' worth or more is queued, and a read in flight leaves room for what it brings. */
  predicate Backpressure(s: State, base: nat)
  {
    && (s.reading != [] && !s.closed ==> Queued(s.que) + s.reading[0].want < 3 * READ_SZ)
    && Queued(s.que) <= Max(base, 3 * READ_SZ - 1)
  }

  function Max(a: int, b: int): int { if a < b then b else a }

  lemma BackpressureAdvance(s: State, base: nat)
    requires !s.closed && |s.reading| <= 1 && Backpressure(s, base)
    requires s.cfg.inCount && s.reading != [] ==> 0 < s.left
    ensures Backpressure(Advance(s), base)
  {
    hide Data, Condense, PumpOut, Want;
    var s1 := Exhaust(s);
    if !Drained(s1) {
      PumpOutShrinks(PumpIn(s1));
      WantAtMostBlock(s1);
    }
  }

  lemma WantAtMostBlock(s: State)
    ensures Want(s) <= READ_SZ
  {
  }

  lemma BackpressureTakeIn(s: State, bytes: seq<byte>, base: nat)
    requires Backpressure(s, base) && Orderly(s) && s.reading != [] && !s.closed
    requires s.cfg.encoder.Raw? && |bytes| <= s.reading[0].want
    ensures Backpressure(ReadDone(s, bytes), base)
  {
    hide Data, Want, Advance, Enqueue, EncodedSize;
    var r := s.reading[0];
    ProcessShape(s.(inDone := s.inDone || bytes == [], reading := s.reading[1..]), Buf(r.id, r.sz, bytes, r.pos));
    BackpressureAdvance(TakeIn(s, bytes), base);
  }

  lemma BackpressurePutOut(s: State, base: nat)
    requires Backpressure(s, base) && Orderly(s) && s.writing != [] && !s.closed
    ensures Backpressure(WriteDone(s, |s.writing[0].data|), base)
  {
    hide Data, Want, Advance, HashAll, Condense;
    var s1 := Accept(s, |s.writing[0].data|).(writing := []);
    if s1.que != [] {
      WriteNextShrinks(s1);
    }
    BackpressureAdvance(PutOut(s), base);
  }

  /** While a raw pipe that reads for itself runs, its queue never holds three blocks or more
      beyond what was queued when it started. */
  lemma BackpressureStep(s: State, e: Event, src: seq<byte>, base: nat)
    requires Backpressure(s, base) && Orderly(s) && Enabled(s, e, src)
    requires s.cfg.encoder.Raw? && s.started && (s.inInactive ==> s.closed)
    ensures Backpressure(Step(s, e, src), base)
  {
    if s.broken {
      BrokenRead(s, e, src);
    } else {
      hide ReadDone, PutOut, Advance, Data, HashAll;
      match e
      case Read(bytes) => BackpressureTakeIn(s, bytes, base);
      case Wrote(n) =>
        if n == |s.writing[0].data| {
          BackpressurePutOut(s, base);
        }
      case WriteError =>
    }
  }
}
