/** Whole runs of a pipe: something is always in flight until it closes, every run ends, and what
    the output has then received. */
module PipeLive {
  import opened Bytes
  import opened Encoders
  import opened PipeSpec
  import opened PipeFlow
  import opened PipeBudget

  // ---- progress

  /** An open pipe that reads for itself. */
  predicate Running(s: State) { s.started && !s.closed && !s.inInactive }

  predicate Idle(s: State) { s.reading == [] && s.writing == [] }

  /** Condensing holds back a lone buffer that is not full although it is too full to ask for
      more input. */
  predicate Stuck(s: State)
  {
    && s.cfg.condense && !s.inDone && s.writing == [] && |s.que| == 1
    && 2 * READ_SZ <= |s.que[0].data| < s.que[0].sz
  }

  /** A running pipe has no read and no write in flight exactly if it is stuck. */
  predicate Progressing(s: State) { Running(s) ==> (Idle(s) <==> Stuck(s)) }

  lemma AloneQueued(q: seq<Buf>)
    ensures q == [] ==> Queued(q) == 0
    ensures |q| == 1 ==> Queued(q) == |q[0].data|
  {
    if |q| == 1 {
      assert q == [q[0]];
      DataOne(q[0]);
    }
  }

  lemma ProgressAdvance(s: State)
    requires s.started && !s.closed && ReadInBounds(s)
    requires s.writing == [] ==> s.outDone
    requires |s.reading| <= 1 && (s.reading != [] && s.cfg.inCount ==> 0 < s.left)
    ensures Progressing(Advance(s))
  {
    hide Data, Condense, Want;
    AdvanceInBounds(s);
    var t := Advance(s);
    if !Drained(Exhaust(s)) {
      AloneQueued(Exhaust(s).que);
      AloneQueued(t.que);
    }
  }

  /** Progress after every step: the exact condition under which a pipe can stall. */
  lemma ProgressStep(s: State, e: Event, src: seq<byte>)
    requires Progressing(s) && Orderly(s) && ReadInBounds(s) && Enabled(s, e, src)
    ensures Progressing(Step(s, e, src))
  {
    hide Data, Advance, Encode, EncodedSize, Input, Condense, HashAll, ReadInBounds;
    OrderlyStep(s, e, src);
    if s.broken {
      BrokenRead(s, e, src);
    } else {
      match e
      case Appended(sz, data) =>
      case Preloaded(data) =>
      case Started => ProgressStarted(s);
      case Fed(data) => ProgressFed(s, data);
      case Finished => ProgressFed(s, []);
      case Read(bytes) => ProgressRead(s, bytes);
      case Wrote(n) =>
        if n == |s.writing[0].data| {
          ProgressWrote(s);
        }
      case WriteError =>
    }
  }

  lemma ProgressStarted(s: State)
    requires Orderly(s) && !s.started
    ensures Progressing(Start(s))
  {
    hide Advance;
    ProgressAdvance(Opened(s));
  }

  lemma ProgressFed(s: State, data: seq<byte>)
    requires Orderly(s) && s.started && s.inInactive && !s.closed && s.reading == []
    ensures Progressing(Feed(s, data)) && Progressing(Finish(s))
  {
    hide Advance, Data, Encode, EncodedSize;
    ProgressAdvance(Preload(s, data));
    ProgressAdvance(Conclude(s));
  }

  lemma ProgressRead(s: State, bytes: seq<byte>)
    requires Orderly(s) && s.reading != [] && !s.closed
    ensures Progressing(ReadDone(s, bytes))
  {
    hide Advance, Data, Encode, EncodedSize;
    ProgressAdvance(TakeIn(s, bytes));
  }

  lemma ProgressWrote(s: State)
    requires Orderly(s) && ReadInBounds(s) && s.writing != [] && !s.closed
    ensures Progressing(WriteDone(s, |s.writing[0].data|))
  {
    hide Advance, Data, Condense, HashAll;
    PumpOutShrinks(Accept(s, |s.writing[0].data|).(writing := []));
    ProgressAdvance(PutOut(s));
  }

  /** A pipe can stall: one buffer of three blocks holding two, and nothing else, is kept waiting
      for input that is never asked for. */
  lemma CanStall(body: seq<byte>, src: seq<byte>)
    requires |body| == 2 * READ_SZ
    ensures var cfg := Config(true, false, Raw, true, true, false, 0, 0, 1);
            var events := [Appended(3 * READ_SZ, body), Started];
            IsRun(New(cfg, false), events, src) && Stuck(Run(New(cfg, false), events, src))
  {
    var s := New(Config(true, false, Raw, true, true, false, 0, 0, 1), false);
    var t := QueueRaw(s, 3 * READ_SZ, body);
    AloneQueued(t.que);
    RunTwo(s, Appended(3 * READ_SZ, body), Started, src);
    assert Stuck(Start(t));
  }

  lemma RunTwo(s: State, a: Event, b: Event, src: seq<byte>)
    requires Enabled(s, a, src) && Enabled(Step(s, a, src), b, src)
    ensures IsRun(s, [a, b], src) && Run(s, [a, b], src) == Step(Step(s, a, src), b, src)
  {
    hide Enabled, Step;
    var t := Step(s, a, src);
    var two, one, none: seq<Event> := [a, b], [b], [];
    assert two[0] == a && two[1..] == one;
    assert one[0] == b && one[1..] == none;
    assert IsRun(Step(t, b, src), none, src) && Run(Step(t, b, src), none, src) == Step(t, b, src);
    assert IsRun(t, one, src) && Run(t, one, src) == Run(Step(t, b, src), none, src);
    assert IsRun(s, two, src) && Run(s, two, src) == Run(t, one, src);
  }

  // ---- no stall for small buffers

  predicate AllSmall(q: seq<Buf>) { forall i :: 0 <= i < |q| ==> q[i].sz <= 2 * READ_SZ }

  /** Owners that only queue buffers of at most two blocks, as hin9 does on pipes that condense. */
  predicate SmallEvent(e: Event)
  {
    match e
    case Appended(sz, data) => sz <= 2 * READ_SZ
    case Preloaded(data) => |data| <= READ_SZ
    case Fed(data) => |data| <= READ_SZ
    case _ => true
  }

  lemma {:induction false} CondenseSmall(head: Buf, rest: seq<Buf>)
    requires AllSmall(rest)
    ensures AllSmall(Condense(head, rest).1)
    decreases |rest|
  {
    if rest != [] && |head.data| < head.sz {
      var len := Min(head.sz - |head.data|, |rest[0].data|);
      CondenseSmall(head.(data := head.data + rest[0].data[..len]), rest[1..]);
    }
  }

  lemma SmallPumpOut(s: State)
    requires AllSmall(s.que)
    ensures AllSmall(PumpOut(s).que)
  {
    hide Data;
    if s.que != [] {
      CondenseSmall(s.que[0], s.que[1..]);
    }
  }

  lemma SmallAdvance(s: State)
    requires AllSmall(s.que)
    ensures AllSmall(Advance(s).que)
  {
    hide Data, Want, Queued, PumpOut;
    SmallPumpOut(PumpIn(Exhaust(s)));
  }

  lemma SmallProcess(s: State, b: Buf)
    requires AllSmall(s.que) && b.sz <= 2 * READ_SZ && |b.data| <= READ_SZ
    ensures AllSmall(Process(s, b).que)
  {
    hide Encode;
  }

  lemma SmallFed(s: State, data: seq<byte>)
    requires AllSmall(s.que) && |data| <= READ_SZ
    ensures AllSmall(Preload(s, data).que) && AllSmall(Feed(s, data).que) && AllSmall(Finish(s).que)
  {
    hide Advance, Process;
    SmallProcess(s.(nextId := s.nextId + 1), Buf(s.nextId, |data|, data, 0));
    SmallAdvance(Preload(s, data));
    SmallProcess(s.(inDone := true, nextId := s.nextId + 1), Buf(s.nextId, 0, [], 0));
    SmallAdvance(Conclude(s));
  }

  lemma SmallTakeIn(s: State, bytes: seq<byte>)
    requires AllSmall(s.que) && s.reading != [] && s.reading[0].sz == READ_SZ && |bytes| <= READ_SZ
    ensures AllSmall(ReadDone(s, bytes).que)
  {
    hide Advance, Process;
    var r := s.reading[0];
    SmallProcess(s.(inDone := s.inDone || bytes == [], reading := s.reading[1..]), Buf(r.id, r.sz, bytes, r.pos));
    SmallAdvance(TakeIn(s, bytes));
  }

  lemma SmallPutOut(s: State)
    requires AllSmall(s.que) && |s.writing| == 1
    ensures AllSmall(WriteDone(s, |s.writing[0].data|).que)
  {
    hide Advance, Data, WriteNext, HashAll;
    assert s.writing[1..] == [];
    SmallPumpOut(Accept(s, |s.writing[0].data|).(writing := []));
    SmallAdvance(PutOut(s));
  }

  lemma SmallStep(s: State, e: Event, src: seq<byte>)
    requires AllSmall(s.que) && Orderly(s) && ReadInBounds(s) && Enabled(s, e, src) && SmallEvent(e)
    ensures AllSmall(Step(s, e, src).que)
  {
    if s.broken {
      BrokenRead(s, e, src);
    } else {
      hide Data, Advance, Input, Feed, Finish, Preload, ReadDone, PutOut, HashAll;
      match e
      case Appended(sz, data) =>
      case Preloaded(data) => SmallFed(s, data);
      case Started => SmallAdvance(Opened(s));
      case Fed(data) => SmallFed(s, data);
      case Finished => SmallFed(s, []);
      case Read(bytes) => SmallTakeIn(s, bytes);
      case Wrote(n) =>
        if n == |s.writing[0].data| {
          SmallPutOut(s);
        }
      case WriteError =>
    }
  }

  // ---- termination

  function Unread(s: State, src: seq<byte>): int
  {
    (if Taken(s) < |src| then |src| - Taken(s) else 0) + (if s.inDone then 0 else 1)
  }

  /** What a pipe still has to do; every completion lowers it. */
  function Energy(s: State, src: seq<byte>): int
  {
    100 * Unread(s, src) + |Data(s.que)| + |Data(s.writing)| + 2 * (|s.que| + |s.writing|) + |s.reading|
  }

  lemma HexShort(n: nat)
    ensures |Hex(n)| <= n + 1
  {
    if 16 <= n {
      HexShort(n / 16);
    }
  }

  lemma EncodeShort(e: Encoder, data: seq<byte>, flush: bool)
    ensures |Encode(e, data, flush)| <= 2 * |data| + 24
  {
    HexShort(|data|);
  }

  /** Asking for more input or output does not add to what is left, beyond one read. */
  lemma EnergyPumpOut(s: State, src: seq<byte>)
    ensures Energy(PumpOut(s), src) <= Energy(s, src)
    ensures PumpOut(s).reading == s.reading
  {
    hide Input, Condense;
    if s.que != [] && s.writing == [] && !HoldsBack(s) {
      CondenseData(s.que[0], s.que[1..]);
      var w := PumpOut(s).writing;
      assert w == [w[0]];
      DataOne(w[0]);
      var h := Condense(s.que[0], s.que[1..]);
      assert |h.0.data + Data(h.1)| == |s.que[0].data + Data(s.que[1..])|;
    }
  }

  lemma EnergyAdvance(s: State, src: seq<byte>)
    ensures Energy(Advance(s), src) <= Energy(s, src) + (if s.reading == [] then 1 else 0)
  {
    hide Data, Input, Want, PumpOut;
    var s1 := Exhaust(s);
    if Drained(s1) {
    } else {
      EnergyPumpOut(PumpIn(s1), src);
    }
  }

  lemma EnergyTakeIn(s: State, bytes: seq<byte>, src: seq<byte>)
    requires Orderly(s) && !s.closed && Input(s.fed) <= src && Enabled(s, Read(bytes), src)
    ensures Energy(ReadDone(s, bytes), src) < Energy(s, src)
  {
    hide Data, Encode, Enqueue, Advance;
    var r := s.reading[0];
    var b := Buf(r.id, r.sz, bytes, r.pos);
    var s1 := s.(inDone := s.inDone || bytes == [], reading := s.reading[1..]);
    ProcessShape(s1, b);
    var t := Process(s1, b);
    EncodeShort(s.cfg.encoder, bytes, t.inDone);
    EncodeAllSnoc(s.cfg.encoder, s.fed, Block(bytes, t.inDone));
    assert Taken(t) == Taken(s) + |bytes|;
    NextExtends(Input(s.fed), bytes, src);
    EnergyAdvance(TakeIn(s, bytes), src);
  }

  lemma EnergyResubmit(s: State, n: nat, src: seq<byte>)
    requires |s.writing| == 1 && 0 < n < |s.writing[0].data|
    ensures Energy(Resubmit(s, n), src) < Energy(s, src)
  {
    hide Input, HashAll, Data;
    assert s.writing == [s.writing[0]];
    DataOne(s.writing[0]);
    var t := Resubmit(s, n);
    assert t.writing == [t.writing[0]];
    DataOne(t.writing[0]);
  }

  lemma EnergyPutOut(s: State, src: seq<byte>)
    requires |s.writing| == 1
    ensures Energy(PutOut(s), src) <= Energy(s, src) - 2
  {
    hide Input, HashAll, Data, WriteNext;
    assert s.writing[1..] == [];
    NoData();
    EnergyPumpOut(Accept(s, |s.writing[0].data|).(writing := []), src);
  }

  lemma EnergyWrote(s: State, n: nat, src: seq<byte>)
    requires Orderly(s) && !s.closed && Enabled(s, Wrote(n), src)
    ensures Energy(WriteDone(s, n), src) < Energy(s, src)
  {
    hide Input, Advance, PutOut, Resubmit, HashAll, Data;
    if n < |s.writing[0].data| {
      EnergyResubmit(s, n, src);
    } else {
      EnergyPutOut(s, src);
      EnergyAdvance(PutOut(s), src);
    }
  }

  predicate Completion(e: Event) { e.Read? || e.Wrote? || e.WriteError? }

  /** Every completion, successful or not, brings a pipe closer to its end. */
  lemma EnergyStep(s: State, e: Event, src: seq<byte>)
    requires Orderly(s) && Input(s.fed) <= src && Enabled(s, e, src) && Completion(e)
    ensures 0 <= Energy(Step(s, e, src), src) < Energy(s, src)
  {
    hide Input, ReadDone, WriteDone, Data;
    if s.broken {
      BrokenRead(s, e, src);
    } else {
      match e
      case Read(bytes) => EnergyTakeIn(s, bytes, src);
      case Wrote(n) => EnergyWrote(s, n, src);
      case WriteError => assert Data([]) == [] by { NoData(); }
    }
  }

  // ---- runs

  /** What every step of every run keeps. */
  ghost predicate Sound(s: State, src: seq<byte>)
  {
    Orderly(s) && Flow(s) && Sourced(s, src) && ReadInBounds(s) && Progressing(s)
  }

  lemma SoundNew(cfg: Config, inInactive: bool, src: seq<byte>)
    ensures Sound(New(cfg, inInactive), src)
  {
  }

  lemma SoundStep(s: State, e: Event, src: seq<byte>)
    requires Sound(s, src) && Enabled(s, e, src)
    ensures Sound(Step(s, e, src), src)
  {
    hide *;
    SoundParts(s, src);
    OrderlyStep(s, e, src);
    FlowStep(s, e, src);
    SourcedStep(s, e, src);
    InBoundsStep(s, e, src);
    ProgressStep(s, e, src);
    PartsSound(Step(s, e, src), src);
  }

  lemma SoundParts(s: State, src: seq<byte>)
    requires Sound(s, src)
    ensures Orderly(s) && Flow(s) && Sourced(s, src) && ReadInBounds(s) && Progressing(s)
  {
  }

  lemma PartsSound(s: State, src: seq<byte>)
    requires Orderly(s) && Flow(s) && Sourced(s, src) && ReadInBounds(s) && Progressing(s)
    ensures Sound(s, src)
  {
  }

  /** Every reachable state is sound, for every schedule. */
  lemma {:induction false} SoundRun(s: State, events: seq<Event>, src: seq<byte>)
    requires Sound(s, src) && IsRun(s, events, src)
    ensures Sound(Run(s, events, src), src)
    decreases |events|
  {
    hide Sound, Step, Enabled;
    if events != [] {
      SoundStep(s, events[0], src);
      SoundRun(Step(s, events[0], src), events[1..], src);
    }
  }

  /** No schedule keeps a pipe busy for ever: the completions it can see are bounded in number. */
  lemma {:induction false} RunsEnd(s: State, events: seq<Event>, src: seq<byte>)
    requires Sound(s, src) && IsRun(s, events, src)
    requires forall i :: 0 <= i < |events| ==> Completion(events[i])
    ensures |events| <= Energy(s, src)
    decreases |events|
  {
    hide Sound, Step, Enabled, Energy;
    SoundParts(s, src);
    if events == [] {
      assert 0 <= Energy(s, src) by { EnergyPositive(s, src); }
    } else {
      var t := Step(s, events[0], src);
      assert Input(s.fed) <= src by { SourcedPrefix(s, src); }
      EnergyStep(s, events[0], src);
      SoundStep(s, events[0], src);
      RunsEnd(t, events[1..], src);
    }
  }

  lemma EnergyPositive(s: State, src: seq<byte>)
    ensures 0 <= Energy(s, src)
  {
  }

  lemma SourcedPrefix(s: State, src: seq<byte>)
    requires Sourced(s, src)
    ensures Input(s.fed) <= src
  {
  }
}
