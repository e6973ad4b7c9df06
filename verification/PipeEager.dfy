/** What a running pipe does with its input and output at every moment: it has a write in flight
    whenever it has something to write, hands over full buffers if it condenses, asks for as much
    input as it may, and never puts more into a buffer than it holds. All of it is said of the fields of
    the states a run goes through, whoever feeds the pipe. */
module PipeEager {
  import opened Bytes
  import opened Encoders
  import opened PipeSpec
  import opened PipeFlow
  import opened PipeBudget
  import opened PipeLive
  import opened PipeTheorems
  import opened PipeRuns
  import opened Delivery
  import CT = ChunkedTrip

  // ---- steps that end in hin_pipe_advance

  /** Every event of a started pipe but a partial or a failed write ends in an advance. */
  predicate EndsInAdvance(s: State, e: Event)
  {
    match e
    case Started => true
    case Fed(_) => true
    case Finished => true
    case Read(_) => true
    case Wrote(n) => s.writing != [] && n == |s.writing[0].data|
    case _ => false
  }

  /** The state that is advanced */
  function Before(s: State, e: Event, src: seq<byte>): State
    requires Enabled(s, e, src) && EndsInAdvance(s, e)
  {
    match e
    case Started => Opened(s)
    case Fed(data) => Preload(s, data)
    case Finished => Conclude(s)
    case Read(bytes) => TakeIn(s, bytes)
    case Wrote(n) => PutOut(s)
  }

  lemma StepAdvances(s: State, e: Event, src: seq<byte>)
    requires Enabled(s, e, src) && EndsInAdvance(s, e)
    ensures var t, u := Step(s, e, src), Advance(Before(s, e, src)); t == u.(freed := t.freed)
  {
    hide Advance, Preload, Conclude, TakeIn, PutOut, Opened, Input;
  }

  /** What is still running before the advance */
  lemma BeforeRuns(s: State, e: Event, src: seq<byte>)
    requires Orderly(s) && !s.closed && Enabled(s, e, src) && EndsInAdvance(s, e)
    ensures var u := Before(s, e, src); u.started && !u.closed && u.cfg == s.cfg
  {
    hide Input, Process, PutOut, Resubmit;
    match e
    case Started =>
    case Fed(data) => ProcessShape(s.(nextId := s.nextId + 1), Buf(s.nextId, |data|, data, 0));
    case Finished => ProcessShape(s.(inDone := true, nextId := s.nextId + 1), Buf(s.nextId, 0, [], 0));
    case Read(bytes) =>
      var r := s.reading[0];
      ProcessShape(s.(inDone := s.inDone || bytes == [], reading := s.reading[1..]), Buf(r.id, r.sz, bytes, r.pos));
    case Wrote(n) => OwnerWriting(s, n);
  }

  // ---- the output

  /** A running pipe with something queued has a write in flight, unless it condenses and holds back a
      lone buffer that is not full while its input goes on. */
  predicate KeepsWriting(s: State)
  {
    s.started && !s.closed && s.que != [] && s.writing == [] ==>
      s.cfg.condense && |s.que| == 1 && |s.que[0].data| < s.que[0].sz && !s.inDone
  }

  lemma AdvanceKeepsWriting(s: State)
    requires !s.closed
    ensures KeepsWriting(Advance(s))
  {
    hide Data, Condense, Want, Ids;
  }

  lemma WritingStep(s: State, e: Event, src: seq<byte>)
    requires Orderly(s) && KeepsWriting(s) && Enabled(s, e, src)
    ensures KeepsWriting(Step(s, e, src))
  {
    if s.closed {
      ClosedStays(s, e, src);
    } else if EndsInAdvance(s, e) {
      BeforeRuns(s, e, src);
      StepAdvances(s, e, src);
      AdvanceKeepsWriting(Before(s, e, src));
    } else {
      match e
      case Wrote(n) => StillWriting(s, n);
      case _ => OwnerOnly(s, e, src);
    }
  }

  lemma {:induction false} WritingRun(s: State, events: seq<Event>, src: seq<byte>)
    requires Orderly(s) && KeepsWriting(s) && IsRun(s, events, src)
    ensures KeepsWriting(Run(s, events, src))
    decreases |events|
  {
    if events != [] {
      hide Step, Enabled, Orderly, KeepsWriting;
      WritingStep(s, events[0], src);
      OrderlyStep(s, events[0], src);
      WritingRun(Step(s, events[0], src), events[1..], src);
    }
  }

  /** From creation, for every pipe, fed or not, and every schedule: a pipe that runs has a write in
      flight whenever something is queued, or holds back a lone buffer that is not full; so one that
      does not condense never has anything waiting while the output is idle. */
  lemma OutputIsKeptBusy(cfg: Config, inInactive: bool, events: seq<Event>, src: seq<byte>)
    requires IsRun(New(cfg, inInactive), events, src)
    ensures var s := Run(New(cfg, inInactive), events, src);
            s.started && !s.closed && s.que != [] ==>
              s.writing != []
              || (cfg.condense && |s.que| == 1 && |s.que[0].data| < s.que[0].sz && !s.inDone)
  {
    hide Run, IsRun, Orderly;
    var n := New(cfg, inInactive);
    assert Orderly(n) by { SoundNew(cfg, inInactive, src); SoundParts(n, src); }
    WritingRun(n, events, src);
    HeadRun(n, events, src);
  }

  /** The buffer in flight is full, or it took everything that was queued. */
  predicate FullOrLast(s: State)
  {
    s.writing != [] ==> s.writing[0].sz <= |s.writing[0].data| || s.que == []
  }

  lemma {:induction false} CondenseFills(head: Buf, rest: seq<Buf>)
    ensures var (h, r, _) := Condense(head, rest); h.sz <= |h.data| || r == []
    decreases |rest|
  {
    if rest != [] && |head.data| < head.sz {
      var len := Min(head.sz - |head.data|, |rest[0].data|);
      CondenseFills(head.(data := head.data + rest[0].data[..len]), rest[1..]);
    }
  }

  lemma HandsOverFull(s: State)
    requires s.que != [] && s.writing == [] && s.cfg.condense
    ensures FullOrLast(WriteNext(s))
  {
    hide Condense;
    CondenseFills(s.que[0], s.que[1..]);
  }

  lemma AdvanceHandsOver(s: State)
    requires s.cfg.condense && (s.writing == [] || FullOrLast(s))
    ensures FullOrLast(Advance(s))
  {
    hide Data, WriteNext, ReadNext, Ids;
    var t := PumpIn(Exhaust(s));
    assert t.writing == s.writing && t.que == s.que && t.cfg == s.cfg by { ReadNextWritesNothing(Exhaust(s)); }
    if t.que != [] && t.writing == [] {
      HandsOverFull(t);
    }
  }

  lemma ReadNextWritesNothing(s: State)
    ensures var t := ReadNext(s); t.writing == s.writing && t.que == s.que && t.cfg == s.cfg
  {
    hide Want;
  }

  lemma PutOutHandsOver(s: State)
    requires s.cfg.condense && |s.writing| == 1
    ensures FullOrLast(PutOut(s)) && PutOut(s).cfg == s.cfg
  {
    hide WriteNext, HashAll;
    var s1 := Accept(s, |s.writing[0].data|).(writing := []);
    assert s.writing[1..] == [];
    if s1.que != [] {
      HandsOverFull(s1);
      WriteNextKeeps(s1);
    }
  }

  lemma WriteNextKeeps(s: State)
    requires s.que != []
    ensures WriteNext(s).cfg == s.cfg
  {
    hide Condense, HoldsBack;
  }

  /** Whenever a condensing pipe begins to write a buffer, that buffer is full or has taken everything
      that was queued. */
  lemma BuffersAreFull(s: State, e: Event, src: seq<byte>)
    requires Orderly(s) && Enabled(s, e, src) && s.cfg.condense
    requires s.writing == [] || e == Wrote(|s.writing[0].data|)
    ensures var t := Step(s, e, src);
            t.writing != [] ==> t.writing[0].sz <= |t.writing[0].data| || t.que == []
  {
    if s.closed {
      ClosedStays(s, e, src);
      OrderlyStep(s, e, src);
    } else if EndsInAdvance(s, e) {
      StepAdvances(s, e, src);
      BeforeRuns(s, e, src);
      var u := Before(s, e, src);
      if e.Wrote? { PutOutHandsOver(s); } else { NotWritten(s, e, src); }
      AdvanceHandsOver(u);
    } else {
      hide Data, Encode, EncodedSize, Product, Input, Ids;
    }
  }

  lemma NotWritten(s: State, e: Event, src: seq<byte>)
    requires Orderly(s) && !s.closed && Enabled(s, e, src) && EndsInAdvance(s, e) && !e.Wrote?
    ensures Before(s, e, src).writing == s.writing
  {
    hide Input, Data, Encode, EncodedSize, Product;
  }

  // ---- the input

  /** The read that an advance of `s` may add */
  lemma AdvanceReads(s: State)
    requires !s.closed
    ensures var t := Advance(s);
            && (t.closed || t.inDone || t.inInactive || t.reading != [] || 2 * 4096 <= Queued(s.que))
            && (!t.closed && s.reading == [] && t.reading != [] ==>
                  && Queued(s.que) < 2 * 4096 && |t.reading| == 1
                  && t.reading[0].want == Asked(s, Queued(s.que)))
            && (s.reading != [] ==> t.reading == s.reading)
  {
    hide Data, WriteNext, Ids;
    var u := PumpIn(Exhaust(s));
    if !Drained(Exhaust(s)) && u.que != [] && u.writing == [] {
      WriteNextReadsNothing(u);
    }
  }

  lemma WriteNextReadsNothing(s: State)
    requires s.que != []
    ensures var t := WriteNext(s);
            t.reading == s.reading && t.inDone == s.inDone && t.inInactive == s.inInactive && t.closed == s.closed
  {
    hide Condense, HoldsBack;
  }

  /** A whole block, or what is left of the budget, or, if the pipe condenses, what a block lacks of
      which `queued` bytes are queued. */
  function Asked(s: State, queued: nat): int
  {
    if s.cfg.inCount && s.left < 4096 then s.left
    else if s.cfg.condense && 0 < queued < 4096 then 4096 - queued
    else 4096
  }

  /** What is queued before an advance is queued or being written after it. */
  lemma AdvanceLosesNothing(s: State)
    requires |s.writing| <= 1
    ensures var t := Advance(s); !t.closed ==> Queued(s.que) <= Queued(t.que) + |Data(t.writing)|
    ensures var t := Advance(s); !t.closed && t.writing == [] ==> t.que == s.que
  {
    hide ReadNext, Ids, Data;
    var u := PumpIn(Exhaust(s));
    assert u.que == s.que && u.writing == s.writing by { ReadNextWritesNothing(Exhaust(s)); }
    if u.que != [] && u.writing == [] {
      WriteNextLosesNothing(u);
    }
  }

  lemma WriteNextLosesNothing(s: State)
    requires s.que != [] && s.writing == []
    ensures var t := WriteNext(s); Queued(s.que) == Queued(t.que) + |Data(t.writing)|
    ensures var t := WriteNext(s); t.writing == [] ==> t.que == s.que
  {
    hide Condense;
    if HoldsBack(s) {
      NoData();
    } else {
      CondenseData(s.que[0], s.que[1..]);
      var t := WriteNext(s);
      assert t.writing == [t.writing[0]];
      DataOne(t.writing[0]);
      var c := Condense(s.que[0], s.que[1..]);
      assert |c.0.data + Data(c.1)| == |s.que[0].data + Data(s.que[1..])|;
    }
  }

  /** A pipe that reads for itself asks for input on every event but a partial write: if less than two
      blocks are then queued or being written, a read is in flight. */
  lemma InputIsKeptBusy(s: State, e: Event, src: seq<byte>)
    requires Orderly(s) && Enabled(s, e, src) && EndsInAdvance(s, e)
    ensures var t := Step(s, e, src);
            !t.closed && !t.inDone && !t.inInactive && Queued(t.que) + |Data(t.writing)| < 2 * 4096 ==> t.reading != []
  {
    if s.closed {
      ClosedStays(s, e, src);
    } else {
      hide Advance, Before, Data, Queued;
      StepAdvances(s, e, src);
      BeforeRuns(s, e, src);
      BeforeIsOrderly(s, e, src);
      AdvanceReads(Before(s, e, src));
      AdvanceLosesNothing(Before(s, e, src));
    }
  }

  lemma BeforeIsOrderly(s: State, e: Event, src: seq<byte>)
    requires Orderly(s) && !s.closed && Enabled(s, e, src) && EndsInAdvance(s, e)
    ensures |Before(s, e, src).writing| <= 1
    ensures e.Read? || s.reading == [] ==> Before(s, e, src).reading == []
  {
    hide Input, Process, PutOut;
    match e
    case Started =>
    case Fed(data) => ProcessShape(s.(nextId := s.nextId + 1), Buf(s.nextId, |data|, data, 0));
    case Finished => ProcessShape(s.(inDone := true, nextId := s.nextId + 1), Buf(s.nextId, 0, [], 0));
    case Read(bytes) =>
      var r := s.reading[0];
      ProcessShape(s.(inDone := s.inDone || bytes == [], reading := s.reading[1..]), Buf(r.id, r.sz, bytes, r.pos));
    case Wrote(n) =>
      WritingReads(s, n);
      PutOutWritesOne(s);
  }

  lemma PutOutWritesOne(s: State)
    requires |s.writing| == 1
    ensures |PutOut(s).writing| <= 1
  {
    hide Condense, HoldsBack, HashAll;
  }

  /** What a new read asks for: a whole block, or what is left of the budget if that is less; and a
      condensing pipe that holds back less than a block asks for what is missing, so that the next
      write is of a whole one. */
  lemma AsksForAll(s: State, e: Event, src: seq<byte>)
    requires Orderly(s) && Enabled(s, e, src) && EndsInAdvance(s, e) && (e.Read? || s.reading == [])
    ensures var t := Step(s, e, src);
            t.reading != [] && !t.closed ==>
              var budget := if t.cfg.inCount && t.left < 4096 then t.left else 4096;
              && (!t.cfg.condense ==> t.reading[0].want == budget)
              && (t.cfg.condense && t.writing == [] && t.que != [] && Queued(t.que) < 4096 && budget == 4096 ==>
                    0 < Queued(t.que) ==> Queued(t.que) + t.reading[0].want == 4096)
  {
    if s.closed {
      ClosedStays(s, e, src);
    } else {
      hide Advance, Before, Data, Queued;
      StepAdvances(s, e, src);
      BeforeRuns(s, e, src);
      BeforeIsOrderly(s, e, src);
      var u := Before(s, e, src);
      AdvanceReads(u);
      AdvanceLosesNothing(u);
      AdvanceConsumesNothing(u);
    }
  }

  // ---- what buffers hold

  predicate AllFit(q: seq<Buf>) { forall i :: 0 <= i < |q| ==> |q[i].data| <= q[i].sz }

  /** No buffer holds more than its capacity. */
  predicate BuffersFit(s: State) { AllFit(s.que) && AllFit(s.writing) }

  /** The capacity an encoding callback allocates is enough, for blocks of less than 2^31 bytes. */
  lemma EncodingFits(e: Encoder, data: seq<byte>, flush: bool)
    requires |data| < 0x8000_0000
    ensures |Encode(e, data, flush)| <= EncodedSize(e, data, flush)
  {
    hide Hex;
    if e.Chunked? && data != [] {
      assert CT.Pow16(8) == 0x1_0000_0000;
      CT.HexLength(|data|, 8);
    }
  }

  lemma {:induction false} CondenseFits(head: Buf, rest: seq<Buf>)
    requires |head.data| <= head.sz && AllFit(rest)
    ensures var (h, r, _) := Condense(head, rest); |h.data| <= h.sz && AllFit(r)
    decreases |rest|
  {
    if rest != [] && |head.data| < head.sz {
      var len := Min(head.sz - |head.data|, |rest[0].data|);
      CondenseFits(head.(data := head.data + rest[0].data[..len]), rest[1..]);
    }
  }

  lemma WriteNextFits(s: State)
    requires s.que != [] && BuffersFit(s)
    ensures BuffersFit(WriteNext(s))
  {
    hide Condense, Data;
    CondenseFits(s.que[0], s.que[1..]);
  }

  lemma AdvanceFits(s: State)
    requires BuffersFit(s)
    ensures BuffersFit(Advance(s))
  {
    hide Data, WriteNext, ReadNext, Ids;
    var t := PumpIn(Exhaust(s));
    assert t.writing == s.writing && t.que == s.que by { ReadNextWritesNothing(Exhaust(s)); }
    if t.que != [] {
      WriteNextFits(t);
    }
  }

  lemma ProcessFits(s: State, b: Buf)
    requires BuffersFit(s) && |b.data| <= b.sz && |b.data| < 0x8000_0000
    ensures BuffersFit(Process(s, b))
  {
    hide Encode, EncodedSize;
    var done := s.inDone || (s.cfg.inCount && s.left - |b.data| <= 0);
    EncodingFits(s.cfg.encoder, b.data, done);
  }

  lemma PutOutFits(s: State, n: nat)
    requires BuffersFit(s) && |s.writing| == 1 && n <= |s.writing[0].data|
    ensures BuffersFit(PutOut(s)) && BuffersFit(Resubmit(s, n))
  {
    hide WriteNext, HashAll;
    var s1 := Accept(s, |s.writing[0].data|).(writing := s.writing[1..]);
    if s1.que != [] {
      WriteNextFits(s1);
    }
  }

  lemma FitStep(s: State, e: Event, src: seq<byte>)
    requires Orderly(s) && ReadInBounds(s) && BuffersFit(s) && Enabled(s, e, src) && EventWithin(e, 0x7fff_ffff)
    ensures BuffersFit(Step(s, e, src))
  {
    if s.broken {
      BrokenRead(s, e, src);
    } else {
      hide Advance, Process, Data, Input, PutOut, Resubmit, Ids, BuffersFit;
      match e
      case Appended(sz, data) => assert BuffersFit(QueueRaw(s, sz, data)) by { QueueFits(s, sz, data); }
      case Preloaded(data) => ProcessAnyFits(s, Buf(s.nextId, |data|, data, 0), s.nextId + 1, s.inDone, s.reading);
      case Started => OpenedFits(s); AdvanceFits(Opened(s));
      case Fed(data) =>
        ProcessAnyFits(s, Buf(s.nextId, |data|, data, 0), s.nextId + 1, s.inDone, s.reading);
        AdvanceFits(Preload(s, data));
      case Finished =>
        ProcessAnyFits(s, Buf(s.nextId, 0, [], 0), s.nextId + 1, true, s.reading);
        ConcludeFits(s);
        AdvanceFits(Conclude(s));
      case Read(bytes) =>
        var r := s.reading[0];
        ProcessAnyFits(s, Buf(r.id, r.sz, bytes, r.pos), s.nextId, s.inDone || bytes == [], s.reading[1..]);
        TakeInFits(s, bytes);
        AdvanceFits(TakeIn(s, bytes));
      case Wrote(n) =>
        PutOutFits(s, n);
        if n == |s.writing[0].data| {
          AdvanceFits(PutOut(s));
          FreedFits(Advance(PutOut(s)), s.writing[0].id);
        }
      case WriteError => assert BuffersFit(WriteFailed(s)) by { FailedFits(s); }
    }
  }

  lemma QueueFits(s: State, sz: nat, data: seq<byte>)
    requires BuffersFit(s) && |data| <= sz
    ensures BuffersFit(QueueRaw(s, sz, data))
  {
  }

  lemma ProcessAnyFits(s: State, b: Buf, nextId: nat, inDone: bool, reading: seq<Req>)
    requires BuffersFit(s) && |b.data| <= b.sz && |b.data| < 0x8000_0000
    ensures BuffersFit(Process(s.(nextId := nextId, inDone := inDone, reading := reading), b))
  {
    hide Process;
    ProcessFits(s.(nextId := nextId, inDone := inDone, reading := reading), b);
  }

  lemma OpenedFits(s: State)
    requires BuffersFit(s)
    ensures BuffersFit(Opened(s))
  {
  }

  lemma ConcludeFits(s: State)
    requires BuffersFit(Preload(s.(inDone := true), []))
    ensures BuffersFit(Conclude(s))
  {
    hide Preload;
  }

  lemma TakeInFits(s: State, bytes: seq<byte>)
    requires s.reading != []
    requires var r := s.reading[0];
             BuffersFit(Process(s.(inDone := s.inDone || bytes == [], reading := s.reading[1..]),
                                Buf(r.id, r.sz, bytes, r.pos)))
    ensures BuffersFit(TakeIn(s, bytes))
  {
    hide Process;
  }

  lemma FreedFits(s: State, id: nat)
    requires BuffersFit(s)
    ensures BuffersFit(Free(s, id))
  {
  }

  lemma FailedFits(s: State)
    requires BuffersFit(s) && s.writing != []
    ensures BuffersFit(WriteFailed(s))
  {
    hide Ids;
  }

  lemma {:induction false} FitRun(s: State, events: seq<Event>, src: seq<byte>)
    requires Sound(s, src) && BuffersFit(s) && IsRun(s, events, src)
    requires forall i :: 0 <= i < |events| ==> EventWithin(events[i], 0x7fff_ffff)
    ensures BuffersFit(Run(s, events, src))
    decreases |events|
  {
    if events != [] {
      hide Sound, Step, Enabled, BuffersFit, EventWithin;
      SoundParts(s, src);
      FitStep(s, events[0], src);
      SoundStep(s, events[0], src);
      FitRun(Step(s, events[0], src), events[1..], src);
    }
  }

  /** From creation, no buffer of a pipe is ever given more bytes than it holds, if owners hand in at
      most 2^31 - 1 at a time. */
  lemma NothingOverflows(cfg: Config, inInactive: bool, events: seq<Event>, src: seq<byte>)
    requires IsRun(New(cfg, inInactive), events, src)
    requires forall i :: 0 <= i < |events| ==> EventWithin(events[i], 0x7fff_ffff)
    ensures var t := Run(New(cfg, inInactive), events, src);
            && (forall i :: 0 <= i < |t.que| ==> |t.que[i].data| <= t.que[i].sz)
            && (forall i :: 0 <= i < |t.writing| ==> |t.writing[i].data| <= t.writing[i].sz)
  {
    hide Run, IsRun, Sound;
    SoundNew(cfg, inInactive, src);
    FitRun(New(cfg, inInactive), events, src);
  }
}
