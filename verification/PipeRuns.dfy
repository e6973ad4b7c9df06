/** Whole runs of a pipe, from its creation to the point where the kernel can drive it no further:
    one that reads for itself, and one that is fed and then finished by its owner. */
module PipeRuns {
  import opened Bytes
  import opened Encoders
  import opened PipeSpec
  import opened PipeFlow
  import opened PipeBudget
  import opened PipeLive
  import opened PipeTheorems

  lemma {:induction false} RunParts(s: State, a: seq<Event>, b: seq<Event>, src: seq<byte>)
    requires IsRun(s, a + b, src)
    ensures IsRun(s, a, src) && IsRun(Run(s, a, src), b, src)
    ensures Run(s, a + b, src) == Run(Run(s, a, src), b, src)
    decreases |a|
  {
    if a == [] {
      assert a + b == b;
    } else {
      hide Step, Enabled;
      assert (a + b)[0] == a[0] && (a + b)[1..] == a[1..] + b;
      RunParts(Step(s, a[0], src), a[1..], b, src);
    }
  }

  lemma {:induction false} RunJoin(s: State, a: seq<Event>, b: seq<Event>, src: seq<byte>)
    requires IsRun(s, a, src) && IsRun(Run(s, a, src), b, src)
    ensures IsRun(s, a + b, src) && Run(s, a + b, src) == Run(Run(s, a, src), b, src)
    decreases |a|
  {
    if a == [] {
      assert a + b == b;
    } else {
      hide Step, Enabled;
      assert (a + b)[0] == a[0] && (a + b)[1..] == a[1..] + b;
      RunJoin(Step(s, a[0], src), a[1..], b, src);
    }
  }

  lemma ClosedStays(s: State, e: Event, src: seq<byte>)
    requires Orderly(s) && s.closed && Enabled(s, e, src)
    ensures Step(s, e, src).closed
  {
    if s.broken {
      BrokenRead(s, e, src);
    }
  }

  /** The pipe reads for itself until it is closed. */
  predicate SelfReading(s: State) { s.inInactive ==> s.closed }

  lemma SelfReadingStep(s: State, e: Event, src: seq<byte>)
    requires Orderly(s) && SelfReading(s) && Enabled(s, e, src)
    ensures var t := Step(s, e, src); Orderly(t) && SelfReading(t) && (s.started ==> t.started)
  {
    hide Step, Enabled;
    OrderlyStep(s, e, src);
    HeadStep(s, e, src);
    if s.closed {
      ClosedStays(s, e, src);
    }
  }

  lemma {:induction false} SelfReadingRun(s: State, events: seq<Event>, src: seq<byte>)
    requires Orderly(s) && SelfReading(s) && IsRun(s, events, src)
    ensures var t := Run(s, events, src); Orderly(t) && SelfReading(t) && (s.started ==> t.started)
    decreases |events|
  {
    if events != [] {
      hide Step, Enabled, Orderly, SelfReading;
      SelfReadingStep(s, events[0], src);
      SelfReadingRun(Step(s, events[0], src), events[1..], src);
    }
  }

  /** Once it has started, only the kernel drives it. */
  lemma {:induction false} OnlyCompletions(s: State, events: seq<Event>, src: seq<byte>)
    requires Orderly(s) && SelfReading(s) && s.started && IsRun(s, events, src)
    ensures forall i :: 0 <= i < |events| ==> Completion(events[i])
    decreases |events|
  {
    if events != [] {
      hide Step;
      assert Completion(events[0]);
      SelfReadingStep(s, events[0], src);
      OnlyCompletions(Step(s, events[0], src), events[1..], src);
    }
  }

  /** The run up to the start and from there on */
  lemma AtStart(cfg: Config, before: seq<Event>, after: seq<Event>, src: seq<byte>) returns (s: State, t: State)
    requires IsRun(New(cfg, false), before + [Started] + after, src)
    ensures IsRun(New(cfg, false), before, src) && s == Run(New(cfg, false), before, src)
    ensures !s.started && !s.inInactive && Sound(s, src) && s.cfg == cfg
    ensures t == Start(s) && Sound(t, src) && t.started && SelfReading(t) && t.cfg == cfg
    ensures IsRun(New(cfg, false), before + [Started], src) && t == Run(New(cfg, false), before + [Started], src)
    ensures IsRun(t, after, src) && Run(New(cfg, false), before + [Started] + after, src) == Run(t, after, src)
    ensures forall i :: 0 <= i < |after| ==> Completion(after[i])
  {
    hide Sound, Run, IsRun, New, Start, Orderly, SelfReading, Completion;
    var n := New(cfg, false);
    RunParts(n, before + [Started], after, src);
    RunParts(n, before, [Started], src);
    s := Run(n, before, src);
    t := Start(s);
    OneStep(s, Started, src);
    FromNew(cfg, before, src);
    FromNew(cfg, before + [Started], src);
    BeforeStart(s, src);
    SoundParts(t, src);
    OnlyCompletions(t, after, src);
  }

  lemma FromNew(cfg: Config, events: seq<Event>, src: seq<byte>)
    requires IsRun(New(cfg, false), events, src)
    ensures var t := Run(New(cfg, false), events, src); Sound(t, src) && SelfReading(t) && t.cfg == cfg
  {
    hide Sound, Run, IsRun;
    SoundNew(cfg, false, src);
    SoundRun(New(cfg, false), events, src);
    HeadRun(New(cfg, false), events, src);
    SelfReadingRun(New(cfg, false), events, src);
  }

  lemma BeforeStart(s: State, src: seq<byte>)
    requires Sound(s, src) && SelfReading(s) && Enabled(s, Started, src)
    ensures !s.started && !s.inInactive && Start(s).started
  {
    hide Advance;
    OwnerAdvance(Opened(s));
  }

  lemma OneStep(s: State, e: Event, src: seq<byte>)
    requires IsRun(s, [e], src)
    ensures Enabled(s, e, src) && Run(s, [e], src) == Step(s, e, src)
  {
    hide Enabled, Step;
    assert [e][1..] == [];
  }

  lemma BackpressureStart(s: State)
    requires Orderly(s) && !s.started
    ensures Backpressure(Start(s), Queued(s.que))
  {
    hide Advance, Data;
    BackpressureAdvance(Opened(s), Queued(s.que));
  }

  /** The queue of a plain copy that reads for itself stays below three blocks, or what its owner
      had queued when it was started. */
  lemma QueueIsBounded(cfg: Config, before: seq<Event>, after: seq<Event>, src: seq<byte>)
    requires cfg.encoder.Raw? && IsRun(New(cfg, false), before + [Started] + after, src)
    ensures IsRun(New(cfg, false), before, src)
    ensures Queued(Run(New(cfg, false), before + [Started] + after, src).que)
            <= Max(Queued(Run(New(cfg, false), before, src).que), 3 * READ_SZ - 1)
  {
    hide Run, IsRun, New, Start, Backpressure, Sound, Queued;
    var s, t := AtStart(cfg, before, after, src);
    SoundParts(s, src);
    SoundParts(t, src);
    BackpressureStart(s);
    QueueStaysShort(t, after, src, Queued(s.que));
  }

  // ---- every run that goes on while it can

  lemma ClosedReadsNothing(s: State)
    requires Orderly(s)
    ensures s.closed ==> s.inInactive
  {
  }

  lemma {:induction false} BrokenRun(s: State, events: seq<Event>, src: seq<byte>)
    requires Orderly(s) && IsRun(s, events, src)
    ensures Run(s, events, src).broken == (s.broken || WriteError in events)
    decreases |events|
  {
    if events != [] {
      hide Step, Enabled, Orderly;
      assert s.closed ==> s.inInactive by { ClosedReadsNothing(s); }
      HeadStep(s, events[0], src);
      OrderlyStep(s, events[0], src);
      BrokenRun(Step(s, events[0], src), events[1..], src);
      assert events == [events[0]] + events[1..];
    }
  }

  /** A pipe that reads for itself, with buffers of at most two blocks if it condenses, as in hin9, from
      creation to the point where the kernel has nothing more to complete: that point comes after a
      bounded number of completions, the pipe is closed and has given back all its buffers, its finish
      callback has run once, and, if no write failed, the output is the headers and the encoded
      input, all of what was wanted or what owners handed in if that is more. */
  lemma EveryRunCompletes(cfg: Config, before: seq<Event>, after: seq<Event>, src: seq<byte>)
    requires IsRun(New(cfg, false), before + [Started] + after, src)
    requires cfg.condense ==> forall i :: 0 <= i < |before| ==> SmallEvent(before[i])
    ensures IsRun(New(cfg, false), before + [Started], src)
    ensures |after| <= Energy(Run(New(cfg, false), before + [Started], src), src)
    ensures var events := before + [Started] + after; var t := Run(New(cfg, false), events, src);
            (forall e: Event | e.Read? || e.Wrote? :: !Enabled(t, e, src)) ==>
              && Released(t) && t.finishes == 1 && t.que == []
              && (WriteError !in events ==>
                    && Output(t.sent) == Headers(events) + EncodeAll(cfg.encoder, t.fed)
                    && Input(t.fed) == Longer(Wanted(cfg, src), HandedIn(events)))
  {
    hide Run, IsRun, New, Start, Sound, Energy, Enabled, Completion, SmallEvent, Handed, Stuck, Released, Longer;
    hide Output, Wanted, EncodeAll, Input, HandedIn, Headers;
    var events := before + [Started] + after;
    var _, s := AtStart(cfg, before, after, src);
    RunsEnd(s, after, src);
    var t := Reached(cfg, false, events, src);
    NeverStuckFromNew(cfg, before, after, src);
    assert SelfReading(t) && t.started by {
      SoundParts(s, src);
      SelfReadingRun(s, after, src);
    }
    BrokenFromNew(cfg, false, events, src);
    if forall e: Event | e.Read? || e.Wrote? :: !Enabled(t, e, src) {
      AtTheEnd(t, src, HandedIn(events));
    }
  }

  lemma AtTheEnd(t: State, src: seq<byte>, handed: seq<byte>)
    requires Sound(t, src) && t.started && SelfReading(t) && !Stuck(t) && Handed(t, handed)
    requires forall e: Event | e.Read? || e.Wrote? :: !Enabled(t, e, src)
    ensures Released(t) && t.finishes == 1 && t.que == []
    ensures !t.broken ==> Output(t.sent) == t.head + EncodeAll(t.cfg.encoder, t.fed)
                          && Input(t.fed) == Longer(Wanted(t.cfg, src), handed)
  {
    hide Sound, Enabled, Stuck, Handed, Output, EncodeAll, Input, Longer, Wanted, Released;
    MaximalRunCloses(t, src);
    NothingInFlight(t, src);
    if !t.broken {
      CleanClose(t, src, handed);
    }
  }

  lemma NeverStuckFromNew(cfg: Config, before: seq<Event>, after: seq<Event>, src: seq<byte>)
    requires cfg.condense ==> forall i :: 0 <= i < |before| ==> SmallEvent(before[i])
    requires forall i :: 0 <= i < |after| ==> Completion(after[i])
    requires IsRun(New(cfg, false), before + [Started] + after, src)
    ensures !Stuck(Run(New(cfg, false), before + [Started] + after, src))
  {
    hide Sound, Run, IsRun;
    var events := before + [Started] + after;
    HeadRun(New(cfg, false), events, src);
    if !cfg.condense {
      return;
    }
    hide Stuck;
    forall i | 0 <= i < |events| ensures SmallEvent(events[i]) {
      var k := i - |before| - 1;
      assert events[i] == if i < |before| then before[i] else if i == |before| then Started else after[k];
    }
    SoundNew(cfg, false, src);
    SmallRunNeverStuck(New(cfg, false), events, src);
  }

  lemma BrokenFromNew(cfg: Config, inInactive: bool, events: seq<Event>, src: seq<byte>)
    requires IsRun(New(cfg, inInactive), events, src)
    ensures Run(New(cfg, inInactive), events, src).broken == (WriteError in events)
  {
    hide Run, IsRun;
    BrokenRun(New(cfg, inInactive), events, src);
  }

  lemma NothingInFlight(t: State, src: seq<byte>)
    requires Sound(t, src) && t.closed
    requires forall e: Event | e.Read? || e.Wrote? :: !Enabled(t, e, src)
    ensures Released(t) && t.finishes == 1 && t.que == []
  {
    if t.reading != [] {
      assert Enabled(t, Read([]), src);
    }
  }

  // ---- a pipe whose input is done

  /** As long as it runs, a pipe whose input is done has a write in flight. */
  predicate WritesOut(s: State)
  {
    s.started && !s.closed && s.inDone ==> s.writing != []
  }

  lemma WritesOutAdvance(s: State)
    requires s.started && !s.closed && (s.writing == [] ==> s.outDone)
    ensures WritesOut(Advance(s))
  {
    hide Data, Condense, Want, Ids;
  }

  lemma PutOutReady(s: State)
    requires s.writing != [] && s.writing[1..] == []
    ensures var t := PutOut(s); t.started == s.started && t.closed == s.closed && (t.writing == [] ==> t.outDone)
  {
    hide Data, Condense, HashAll;
  }

  lemma WritesOutStep(s: State, e: Event, src: seq<byte>)
    requires Orderly(s) && WritesOut(s) && Enabled(s, e, src)
    ensures WritesOut(Step(s, e, src))
  {
    if s.closed {
      ClosedStays(s, e, src);
    } else {
      hide Advance, Input, Encode, EncodedSize, Enqueue, PutOut, Resubmit;
      match e
      case Started => WritesOutAdvance(Opened(s));
      case Fed(data) =>
        ProcessShape(s.(nextId := s.nextId + 1), Buf(s.nextId, |data|, data, 0));
        WritesOutAdvance(Preload(s, data));
      case Finished =>
        ProcessShape(s.(inDone := true, nextId := s.nextId + 1), Buf(s.nextId, 0, [], 0));
        WritesOutAdvance(Conclude(s));
      case Read(bytes) =>
        var r := s.reading[0];
        ProcessShape(s.(inDone := s.inDone || bytes == [], reading := s.reading[1..]), Buf(r.id, r.sz, bytes, r.pos));
        WritesOutAdvance(TakeIn(s, bytes));
      case Wrote(n) =>
        if n < |s.writing[0].data| {
          StillWriting(s, n);
        } else {
          PutOutReady(s);
          WritesOutAdvance(PutOut(s));
        }
      case _ =>
        OwnerOnly(s, e, src);
    }
  }

  lemma StillWriting(s: State, n: nat)
    requires s.writing != [] && n <= |s.writing[0].data|
    ensures Resubmit(s, n).writing != []
  {
    hide HashAll;
  }

  lemma OwnerOnly(s: State, e: Event, src: seq<byte>)
    requires Enabled(s, e, src) && (e.Appended? || e.Preloaded? || e.WriteError?)
    ensures var t := Step(s, e, src); !t.started || t.closed
  {
    hide Data, Encode, EncodedSize, Input;
  }

  lemma {:induction false} WritesOutRun(s: State, events: seq<Event>, src: seq<byte>)
    requires Orderly(s) && WritesOut(s) && IsRun(s, events, src)
    ensures WritesOut(Run(s, events, src))
    decreases |events|
  {
    if events != [] {
      hide Step, Enabled, Orderly, WritesOut;
      WritesOutStep(s, events[0], src);
      OrderlyStep(s, events[0], src);
      WritesOutRun(Step(s, events[0], src), events[1..], src);
    }
  }

  /** The end of the input is final: from then on only the kernel drives the pipe. */
  lemma DoneStays(s: State, e: Event, src: seq<byte>)
    requires Orderly(s) && s.inDone && s.started && Enabled(s, e, src)
    ensures Completion(e) && var t := Step(s, e, src); t.inDone && t.started && Orderly(t)
  {
    OrderlyStep(s, e, src);
    if s.closed {
      ClosedStays(s, e, src);
    } else {
      hide Advance, Input, Encode, EncodedSize, Enqueue, PutOut, Resubmit;
      match e
      case Wrote(n) =>
        WritingConsumesNothing(s, n);
        AdvanceConsumesNothing(PutOut(s));
      case _ =>
    }
    HeadStep(s, e, src);
  }

  lemma {:induction false} DoneRun(s: State, events: seq<Event>, src: seq<byte>)
    requires Orderly(s) && s.inDone && s.started && IsRun(s, events, src)
    ensures forall i :: 0 <= i < |events| ==> Completion(events[i])
    ensures var t := Run(s, events, src); t.inDone && t.started
    decreases |events|
  {
    if events != [] {
      hide Step, Enabled, Orderly, Completion;
      DoneStays(s, events[0], src);
      DoneRun(Step(s, events[0], src), events[1..], src);
    }
  }

  /** Once its input is done, whoever it came from, a pipe sees a bounded number of completions, and
      when the kernel has nothing more to complete it is closed and has given back all its buffers,
      its finish callback has run once, and, if no write failed, the output is the headers and the
      encoded input. */
  lemma DoneMeansCloses(cfg: Config, inInactive: bool, before: seq<Event>, after: seq<Event>, src: seq<byte>)
    requires IsRun(New(cfg, inInactive), before + after, src)
    ensures IsRun(New(cfg, inInactive), before, src)
    ensures var s := Run(New(cfg, inInactive), before, src);
            var t := Run(New(cfg, inInactive), before + after, src);
            s.started && s.inDone ==>
              && |after| <= Energy(s, src)
              && ((forall e: Event | e.Read? || e.Wrote? :: !Enabled(t, e, src)) ==>
                    && Released(t) && t.finishes == 1 && t.que == []
                    && (WriteError !in before + after ==>
                          && Output(t.sent) == Headers(before + after) + EncodeAll(cfg.encoder, t.fed)
                          && Input(t.fed) == Longer(Wanted(cfg, src), HandedIn(before + after))))
  {
    hide Run, IsRun, New, Sound, Energy, Enabled, Completion, Handed, Released, Longer, WritesOut, Orderly;
    hide Output, Wanted, EncodeAll, Input, HandedIn, Headers;
    var n := New(cfg, inInactive);
    RunParts(n, before, after, src);
    var s := Reached(cfg, inInactive, before, src);
    var t := Reached(cfg, inInactive, before + after, src);
    SoundParts(s, src);
    SoundParts(t, src);
    if s.started && s.inDone {
      DoneRun(s, after, src);
      RunsEnd(s, after, src);
      NewWritesOut(cfg, inInactive, before + after, src);
      if forall e: Event | e.Read? || e.Wrote? :: !Enabled(t, e, src) {
        NothingToWrite(t, src);
        NothingInFlight(t, src);
        BrokenFromNew(cfg, inInactive, before + after, src);
        if !t.broken {
          CleanClose(t, src, HandedIn(before + after));
        }
      }
    }
  }

  lemma NewWritesOut(cfg: Config, inInactive: bool, events: seq<Event>, src: seq<byte>)
    requires IsRun(New(cfg, inInactive), events, src)
    ensures WritesOut(Run(New(cfg, inInactive), events, src))
  {
    hide Run, IsRun;
    WritesOutRun(New(cfg, inInactive), events, src);
  }

  lemma NothingToWrite(t: State, src: seq<byte>)
    requires Orderly(t) && WritesOut(t) && t.started && t.inDone
    requires forall e: Event | e.Read? || e.Wrote? :: !Enabled(t, e, src)
    ensures t.closed
  {
    if !t.closed {
      assert Enabled(t, Wrote(|t.writing[0].data|), src);
    }
  }

  // ---- a run that ends well

  /** A pipe that only the kernel drives has no headers and is handed nothing. */
  predicate OnlyKernel(events: seq<Event>)
  {
    forall i :: 0 <= i < |events| ==> events[i].Started? || Completion(events[i])
  }

  /** A pipe that reads for itself and is not stalled can be brought to a clean close. */
  lemma {:induction false} CanCloseCleanly(s: State, src: seq<byte>) returns (events: seq<Event>)
    requires Sound(s, src) && s.started && SelfReading(s) && !s.broken && AllSmall(s.que)
    ensures IsRun(s, events, src) && OnlyKernel(events)
    ensures var t := Run(s, events, src); t.closed && !t.broken
    decreases Energy(s, src)
  {
    if s.closed {
      events := [];
    } else {
      hide Step, Sound, Energy;
      SoundParts(s, src);
      assert !Idle(s);
      SourcedPrefix(s, src);
      var e := CanComplete(s, src);
      hide Enabled;
      KernelStep(s, e, src);
      var more := CanCloseCleanly(Step(s, e, src), src);
      events := [e] + more;
      assert events[1..] == more;
    }
  }

  lemma KernelStep(s: State, e: Event, src: seq<byte>)
    requires Sound(s, src) && s.started && SelfReading(s) && !s.broken && AllSmall(s.que)
    requires Enabled(s, e, src) && (e.Read? || e.Wrote?)
    ensures var t := Step(s, e, src);
            && Sound(t, src) && t.started && SelfReading(t) && !t.broken && AllSmall(t.que)
            && 0 <= Energy(t, src) < Energy(s, src)
  {
    hide Step, Enabled, Sound, Energy, AllSmall, Orderly, ReadInBounds;
    SoundParts(s, src);
    SourcedPrefix(s, src);
    SoundStep(s, e, src);
    SelfReadingStep(s, e, src);
    HeadStep(s, e, src) by { ClosedReadsNothing(s); }
    SmallStep(s, e, src);
    EnergyStep(s, e, src);
  }

  /** From creation, whatever the pipe is to read and write */
  lemma ClosingRun(cfg: Config, src: seq<byte>) returns (events: seq<Event>)
    ensures IsRun(New(cfg, false), events, src) && OnlyKernel(events)
    ensures var t := Run(New(cfg, false), events, src); t.closed && !t.broken
  {
    var s := New(cfg, false);
    JustStarted(cfg, src);
    hide Sound, AllSmall, Step, Enabled, New, SelfReading;
    var more := CanCloseCleanly(Step(s, Started, src), src);
    events := [Started] + more;
    assert events[1..] == more;
  }

  lemma JustStarted(cfg: Config, src: seq<byte>)
    ensures var s := New(cfg, false);
            && Enabled(s, Started, src)
            && var t := Step(s, Started, src);
            && Sound(t, src) && t.started && SelfReading(t) && !t.broken && AllSmall(t.que)
  {
    var s := New(cfg, false);
    SoundNew(cfg, false, src);
    assert Orderly(s) && ReadInBounds(s) && AllSmall(s.que) && SelfReading(s);
    hide Sound, AllSmall, Orderly, ReadInBounds, Start, SelfReading;
    SoundStep(s, Started, src);
    SelfReadingStep(s, Started, src);
    HeadStep(s, Started, src);
    SmallStep(s, Started, src);
    AdvanceStarted(s);
  }

  lemma AdvanceStarted(s: State)
    requires s.closed ==> s.inInactive
    ensures Start(s).started
  {
    hide Advance;
    OwnerAdvance(Opened(s));
  }
}
