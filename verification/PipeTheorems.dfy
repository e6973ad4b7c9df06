/** What a pipe promises its owner, for every way the kernel can split reads and writes. */
module PipeTheorems {
  import opened Bytes
  import opened Encoders
  import opened PipeSpec
  import opened PipeFlow
  import opened PipeBudget
  import opened PipeLive

  /** What a pipe is to move: its whole input, or as much as its budget allows. */
  function Wanted(cfg: Config, src: seq<byte>): seq<byte>
  {
    if cfg.inCount then src[..Min(if cfg.left0 < 0 then 0 else cfg.left0, |src|)] else src
  }

  /** The header buffers queued in the course of a run. */
  function Headers(events: seq<Event>): seq<byte>
  {
    if events == [] then []
    else (if events[0].Appended? then events[0].data else []) + Headers(events[1..])
  }

  /** The input that owners hand in over a run, rather than let the pipe read it. */
  function HandedIn(events: seq<Event>): seq<byte>
  {
    if events == [] then [] else HandedBy(events[0]) + HandedIn(events[1..])
  }

  function HandedBy(e: Event): seq<byte>
  {
    match e
    case Preloaded(data) => data
    case Fed(data) => data
    case _ => []
  }

  function Longer(a: seq<byte>, b: seq<byte>): seq<byte> { if |b| > |a| then b else a }

  /** What only the owner of a pipe decides: its headers and whether it reads for itself. And no
      write has failed. */
  predicate SameOwner(s: State, t: State)
  {
    && t.head == s.head && t.cfg == s.cfg && t.started == s.started && t.inInactive == (s.inInactive || t.closed)
    && t.broken == s.broken
  }

  lemma OwnerPump(s: State)
    requires s.closed ==> s.inInactive
    ensures SameOwner(s, PumpIn(s)) && PumpIn(s).closed == s.closed
    ensures SameOwner(s, PumpOut(s)) && PumpOut(s).closed == s.closed
  {
    hide Data, Condense, Want, Queued;
  }

  lemma OwnerAdvance(s: State)
    requires s.closed ==> s.inInactive
    ensures SameOwner(s, Advance(s))
  {
    hide PumpIn, PumpOut, Ids;
    OwnerPump(Exhaust(s));
    OwnerPump(PumpIn(Exhaust(s)));
  }

  lemma OwnerWriting(s: State, n: nat)
    requires s.writing != [] && n <= |s.writing[0].data| && (s.closed ==> s.inInactive)
    ensures SameOwner(s, Resubmit(s, n)) && Resubmit(s, n).closed == s.closed
    ensures SameOwner(s, PutOut(s)) && PutOut(s).closed == s.closed
  {
    hide Data, Condense, HashAll;
  }

  /** The queued headers grow by what an owner appends; nothing else touches them. */
  lemma HeadStep(s: State, e: Event, src: seq<byte>)
    requires Enabled(s, e, src) && (s.closed ==> s.inInactive)
    ensures var t := Step(s, e, src);
            && t.head == s.head + (if e.Appended? then e.data else [])
            && t.cfg == s.cfg && t.inInactive == (s.inInactive || t.closed)
            && (s.started ==> t.started) && t.broken == (s.broken || e.WriteError?)
  {
    hide Advance, Input, Data, Encode, EncodedSize, HashAll, PutOut, Resubmit;
    match e
    case Appended(sz, data) =>
    case Preloaded(data) =>
    case Started => OwnerAdvance(Opened(s));
    case Fed(data) => OwnerAdvance(Preload(s, data));
    case Finished => OwnerAdvance(Conclude(s));
    case Read(bytes) => OwnerAdvance(TakeIn(s, bytes));
    case Wrote(n) =>
      OwnerWriting(s, n);
      if n == |s.writing[0].data| {
        OwnerAdvance(PutOut(s));
      }
    case WriteError =>
  }

  lemma {:induction false} HeadRun(s: State, events: seq<Event>, src: seq<byte>)
    requires IsRun(s, events, src) && (s.closed ==> s.inInactive)
    ensures Run(s, events, src).head == s.head + Headers(events)
    ensures Run(s, events, src).cfg == s.cfg
    decreases |events|
  {
    hide Step, Enabled;
    if events != [] {
      HeadStep(s, events[0], src);
      HeadRun(Step(s, events[0], src), events[1..], src);
      Assoc(s.head, if events[0].Appended? then events[0].data else [], Headers(events[1..]));
    }
  }

  // ---- what owners hand in

  /** `handed` was handed in. A pipe that has not started, or does not read for itself, has no other
      input, and neither has one that was given more than its budget. */
  ghost predicate Handed(s: State, handed: seq<byte>)
  {
    && handed <= Input(s.fed)
    && (!s.started || (s.inInactive && !s.closed) ==> Input(s.fed) == handed && s.reading == [])
    && (s.cfg.inCount && s.left < Min(0, s.cfg.left0) ==> Input(s.fed) == handed)
  }

  lemma AdvanceReads(s: State)
    requires s.inInactive
    ensures Advance(s).reading == s.reading
  {
    hide Data, Condense, Ids;
  }

  lemma HandedSame(s: State, t: State, handed: seq<byte>)
    requires Handed(s, handed) && SameInput(s, t) && (t.inInactive ==> s.inInactive || t.closed)
    requires s.inInactive && !s.closed && !t.closed ==> t.reading == s.reading
    requires s.closed ==> t.closed
    requires !s.started ==> t.reading == s.reading
    ensures Handed(t, handed)
  {
    hide Input;
  }

  lemma HandedAdvance(s: State, handed: seq<byte>)
    requires Handed(s, handed) && s.started && !s.closed
    ensures Handed(Advance(s), handed)
  {
    hide Handed, Advance;
    AdvanceConsumesNothing(s);
    OwnerAdvance(s);
    if s.inInactive { AdvanceReads(s); }
    HandedSame(s, Advance(s), handed);
  }

  /** A block that an owner hands in, or that a read brings. */
  lemma HandedProcess(s: State, b: Buf, handed: seq<byte>, given: bool)
    requires Handed(s, handed) && !s.outInactive && !s.closed
    requires given ==> Input(s.fed) == handed && s.reading == []
    requires !given ==> s.started && !s.inInactive && (s.cfg.inCount ==> |b.data| <= s.left)
    ensures Handed(Process(s, b), handed + (if given then b.data else []))
  {
    ProcessTakes(s, b);
    var t := Process(s, b);
    ProcessShape(s, b);
    assert t.inInactive == s.inInactive by { ProcessKeepsOwner(s, b); }
    hide Process;
    EncodeAllSnoc(s.cfg.encoder, s.fed, Block(b.data, t.inDone));
    hide Input;
    assert handed + [] == handed;
  }

  lemma ProcessKeepsOwner(s: State, b: Buf)
    ensures Process(s, b).inInactive == s.inInactive
  {
    hide Data, Encode, EncodedSize;
  }

  lemma HandedFeed(s: State, data: seq<byte>, handed: seq<byte>)
    requires Handed(s, handed) && Orderly(s) && !s.closed && s.reading == [] && (!s.started || s.inInactive)
    ensures Handed(Preload(s, data), handed + data)
    ensures Preload(s, data).started == s.started && !Preload(s, data).closed
  {
    hide Handed, Process;
    HandedParts(s, handed);
    var s1 := s.(nextId := s.nextId + 1);
    HandedSame(s, s1, handed);
    ProcessShape(s1, Buf(s.nextId, |data|, data, 0));
    HandedProcess(s1, Buf(s.nextId, |data|, data, 0), handed, true);
  }

  lemma HandedParts(s: State, handed: seq<byte>)
    requires Handed(s, handed)
    ensures !s.started || (s.inInactive && !s.closed) ==> Input(s.fed) == handed && s.reading == []
  {
  }

  lemma HandedStart(s: State, handed: seq<byte>)
    requires Handed(s, handed) && Orderly(s) && !s.started
    ensures Handed(Start(s), handed)
  {
    hide Advance;
    HandedAdvance(Opened(s), handed);
  }

  lemma HandedFinish(s: State, handed: seq<byte>)
    requires Handed(s, handed) && Orderly(s) && s.started && !s.closed && s.inInactive
    ensures Handed(Finish(s), handed)
  {
    hide Handed, Process, Advance;
    HandedParts(s, handed);
    var s1 := s.(inDone := true);
    HandedSame(s, s1, handed);
    HandedFeed(s1, [], handed);
    assert handed + [] == handed;
    HandedSame(Preload(s1, []), Conclude(s), handed);
    HandedAdvance(Conclude(s), handed);
  }

  lemma HandedRead(s: State, bytes: seq<byte>, src: seq<byte>, handed: seq<byte>)
    requires Handed(s, handed) && Orderly(s) && ReadInBounds(s) && !s.closed && Enabled(s, Read(bytes), src)
    ensures Handed(ReadDone(s, bytes), handed)
  {
    hide Process, Advance, Data, Input;
    var r := s.reading[0];
    var s1 := s.(inDone := s.inDone || bytes == [], reading := s.reading[1..]);
    var b := Buf(r.id, r.sz, bytes, r.pos);
    HandedSame(s, s1, handed);
    ProcessShape(s1, b);
    assert s.started && !s.inInactive;
    HandedProcess(s1, b, handed, false);
    assert handed + [] == handed;
    HandedSame(Process(s1, b), TakeIn(s, bytes), handed);
    HandedAdvance(TakeIn(s, bytes), handed);
  }

  lemma HandedWrote(s: State, n: nat, handed: seq<byte>)
    requires Handed(s, handed) && Orderly(s) && !s.closed && s.writing != [] && n <= |s.writing[0].data|
    ensures Handed(WriteDone(s, n), handed)
  {
    hide Handed, Advance, PutOut, Resubmit, Data;
    WritingConsumesNothing(s, n);
    OwnerWriting(s, n);
    WritingReads(s, n);
    if n < |s.writing[0].data| {
      HandedSame(s, Resubmit(s, n), handed);
    } else {
      HandedSame(s, PutOut(s), handed);
      HandedAdvance(PutOut(s), handed);
      HandedSame(Advance(PutOut(s)), WriteDone(s, n), handed);
    }
  }

  lemma HandedFailed(s: State, handed: seq<byte>)
    requires Handed(s, handed) && Orderly(s) && s.writing != []
    ensures Handed(WriteFailed(s), handed)
  {
    hide Input, Ids;
  }

  lemma WritingReads(s: State, n: nat)
    requires s.writing != [] && n <= |s.writing[0].data|
    ensures PutOut(s).reading == s.reading && Resubmit(s, n).reading == s.reading
  {
    hide Data, Condense, HashAll;
  }

  lemma HandedStep(s: State, e: Event, src: seq<byte>, handed: seq<byte>)
    requires Handed(s, handed) && Sound(s, src) && Enabled(s, e, src)
    ensures Handed(Step(s, e, src), handed + HandedBy(e))
  {
    SoundParts(s, src);
    assert HandedBy(e) == [] ==> handed + HandedBy(e) == handed;
    if s.broken {
      BrokenRead(s, e, src);
    } else {
      hide Handed, Sound, Flow, Sourced, Process, Advance, Data, Input, PutOut, Resubmit, Condense;
      match e
      case Appended(sz, data) => HandedSame(s, QueueRaw(s, sz, data), handed);
      case Preloaded(data) => HandedFeed(s, data, handed);
      case Started => HandedStart(s, handed);
      case Fed(data) =>
        HandedFeed(s, data, handed);
        HandedAdvance(Preload(s, data), handed + data);
      case Finished => HandedFinish(s, handed);
      case Read(bytes) => HandedRead(s, bytes, src, handed);
      case Wrote(n) => HandedWrote(s, n, handed);
      case WriteError => HandedFailed(s, handed);
    }
  }

  lemma {:induction false} HandedRun(s: State, events: seq<Event>, src: seq<byte>, handed: seq<byte>)
    requires Handed(s, handed) && Sound(s, src) && IsRun(s, events, src)
    ensures Handed(Run(s, events, src), handed + HandedIn(events))
    decreases |events|
  {
    hide Step, Enabled, Handed, Sound;
    if events == [] {
      assert handed + HandedIn(events) == handed;
    } else {
      HandedStep(s, events[0], src, handed);
      SoundStep(s, events[0], src);
      HandedRun(Step(s, events[0], src), events[1..], src, handed + HandedBy(events[0]));
      Assoc(handed, HandedBy(events[0]), HandedIn(events[1..]));
    }
  }

  /** A pipe that closed without a failed write has moved everything it was to move: the output
      is the queued headers and then every block of the input, encoded; the input is what was
      wanted, or what owners handed in if that is more; and the last block was flushed unless the
      budget was empty from the start. */
  lemma CleanClose(s: State, src: seq<byte>, handed: seq<byte>)
    requires Sound(s, src) && s.closed && !s.broken && Handed(s, handed)
    ensures Output(s.sent) == s.head + EncodeAll(s.cfg.encoder, s.fed)
    ensures Input(s.fed) == Longer(Wanted(s.cfg, src), handed)
    ensures Flushed(s) || EmptyBudget(s)
    ensures s.reading == [] && s.writing == [] && s.que == [] && s.finishes == 1
  {
    assert Data(s.writing) == [] && Data(s.que) == [];
  }

  lemma {:induction false} RawBlocks(blocks: seq<Block>)
    ensures EncodeAll(Raw, blocks) == Input(blocks)
  {
    if blocks != [] {
      RawBlocks(blocks[..|blocks| - 1]);
    }
  }

  /** The main result for a plain copy: from creation to a clean close, whatever the schedule, the
      output receives the headers and then the counted part of the input, or what owners handed in
      if that is more; so it receives exactly the counted part unless an owner overshoots it. */
  lemma RawPipeCopies(cfg: Config, inInactive: bool, events: seq<Event>, src: seq<byte>)
    requires cfg.encoder.Raw? && IsRun(New(cfg, inInactive), events, src)
    ensures var t := Run(New(cfg, inInactive), events, src); var out := Output(t.sent);
            t.closed && !t.broken ==>
              && out == Headers(events) + Longer(Wanted(cfg, src), HandedIn(events))
              && (out == Headers(events) + Wanted(cfg, src) <==> |HandedIn(events)| <= |Wanted(cfg, src)|)
  {
    hide Sound, Step, Enabled, Output, EncodeAll, Input, Handed, Wanted;
    var t := Reached(cfg, inInactive, events, src);
    if t.closed && !t.broken {
      CleanClose(t, src, HandedIn(events));
      RawBlocks(t.fed);
      var h, w, more := Headers(events), Wanted(cfg, src), HandedIn(events);
      assert |more| > |w| ==> |h + more| != |h + w|;
    }
  }

  /** A request whose first read brings more than its body, as httpd_client_handle_post hands it in:
      all of it goes to the output. */
  lemma OvershootIsCopied(data: seq<byte>, budget: nat)
    requires 0 < budget < |data|
    ensures var cfg := Config(false, false, Raw, false, true, true, 0, 0, budget);
            var events := [Preloaded(data), Started, Wrote(|data|)];
            && IsRun(New(cfg, false), events, data)
            && var t := Run(New(cfg, false), events, data);
               t.closed && !t.broken && Output(t.sent) == data && t.left == budget - |data|
  {
    hide Preload, Start, WriteDone, Output, Input;
    var s := New(Config(false, false, Raw, false, true, true, 0, 0, budget), false);
    assert data[0..] == data && Input([]) == [] by { InputEmpty([]); }
    var b := Buf(0, |data|, data, 0);
    OvershootPreloaded(s, data);
    var s1 := Preload(s, data);
    OvershootStarted(s1, b);
    var s2 := Start(s1);
    OvershootWritten(s2, b.(pos := s1.outPos));
    assert Enabled(s, Preloaded(data), data);
    hide Next;
    RunThree(s, Preloaded(data), Started, Wrote(|data|), data);
  }

  lemma OvershootPreloaded(s: State, data: seq<byte>)
    requires s == New(s.cfg, false) && s.cfg.encoder.Raw? && s.cfg.inCount && data != [] && s.cfg.left0 < |data|
    ensures var t := Preload(s, data);
            && t.cfg == s.cfg && t.que == [Buf(0, |data|, data, 0)] && t.left == s.cfg.left0 - |data| && t.inDone
            && !t.started && t.writing == [] && t.reading == [] && t.sent == [] && !t.closed && !t.broken
  {
    hide Encode, Data;
  }

  lemma OvershootStarted(s: State, b: Buf)
    requires s.que == [b] && s.writing == [] && s.reading == [] && s.inDone && !s.cfg.condense
    requires !s.closed && !s.broken && s.sent == []
    ensures var t := Start(s);
            && t.cfg == s.cfg && t.que == [] && t.writing == [b.(pos := s.outPos)] && t.reading == [] && t.inDone
            && t.started && t.sent == [] && t.left == s.left && !t.closed && !t.broken
  {
    hide Data, Condense;
  }

  lemma OvershootWritten(s: State, b: Buf)
    requires s.que == [] && s.writing == [b] && s.reading == [] && s.inDone && !s.closed && !s.broken && s.sent == []
    ensures var t := WriteDone(s, |b.data|);
            && t.closed && !t.broken && t.left == s.left && Output(t.sent) == b.data
  {
    hide Data, HashAll;
    assert [Write(b.pos, b.data)][..0] == [];
  }

  lemma RunThree(s: State, a: Event, b: Event, c: Event, src: seq<byte>)
    requires Enabled(s, a, src) && Enabled(Step(s, a, src), b, src)
    requires Enabled(Step(Step(s, a, src), b, src), c, src)
    ensures IsRun(s, [a, b, c], src) && Run(s, [a, b, c], src) == Step(Step(Step(s, a, src), b, src), c, src)
  {
    hide Enabled, Step;
    RunTwo(Step(s, a, src), b, c, src);
    assert [a, b, c][1..] == [b, c];
  }

  /** The state a run from creation reaches. */
  lemma Reached(cfg: Config, inInactive: bool, events: seq<Event>, src: seq<byte>) returns (t: State)
    requires IsRun(New(cfg, inInactive), events, src)
    ensures t == Run(New(cfg, inInactive), events, src)
    ensures Sound(t, src) && t.head == Headers(events) && t.cfg == cfg && Handed(t, HandedIn(events))
  {
    hide Sound, Step, Enabled;
    t := Run(New(cfg, inInactive), events, src);
    SoundNew(cfg, inInactive, src);
    SoundRun(New(cfg, inInactive), events, src);
    HeadRun(New(cfg, inInactive), events, src);
    HandedRun(New(cfg, inInactive), events, src, []);
    assert [] + Headers(events) == Headers(events) && [] + HandedIn(events) == HandedIn(events);
  }

  /** At any moment of any run, even after a failed write, the output is a prefix of the headers
      and the input: nothing is invented, repeated or reordered. */
  lemma RawPipeNeverInvents(cfg: Config, inInactive: bool, events: seq<Event>, src: seq<byte>)
    requires cfg.encoder.Raw? && IsRun(New(cfg, inInactive), events, src)
    ensures Output(Run(New(cfg, inInactive), events, src).sent) <= Headers(events) + src
  {
    hide Sound, Step, Enabled, Output, EncodeAll, Input;
    var t := Reached(cfg, inInactive, events, src);
    RawBlocks(t.fed);
    OutputIsPrefix(t, src);
    assert src == Input(t.fed) + src[|Input(t.fed)|..];
    Assoc(Headers(events), Input(t.fed), src[|Input(t.fed)|..]);
  }

  lemma OutputIsPrefix(t: State, src: seq<byte>)
    requires Sound(t, src)
    ensures Output(t.sent) <= t.head + EncodeAll(t.cfg.encoder, t.fed)
    ensures Input(t.fed) <= src
  {
    hide Output, EncodeAll, Input, Data;
  }

  /** While something is in flight, the kernel can complete it without an error. */
  lemma CanComplete(s: State, src: seq<byte>) returns (e: Event)
    requires Orderly(s) && ReadInBounds(s) && Input(s.fed) <= src && !Idle(s) && !s.closed
    ensures (e.Read? || e.Wrote?) && Enabled(s, e, src)
  {
    if s.writing != [] {
      e := Wrote(|s.writing[0].data|);
    } else {
      var rest := src[Taken(s)..];
      e := Read(rest[..Min(s.reading[0].want, |rest|)]);
    }
  }

  /** A run that the kernel cannot continue has closed the pipe, unless condensing stalled it:
      with RunsEnd, every run of completions that goes on while it can ends in a close. */
  lemma MaximalRunCloses(s: State, src: seq<byte>)
    requires Sound(s, src) && s.started && (s.inInactive ==> s.closed)
    requires forall e: Event | e.Read? || e.Wrote? :: !Enabled(s, e, src)
    ensures s.closed || Stuck(s)
  {
    if !s.closed && !Idle(s) {
      var e := CanComplete(s, src);
    }
  }

  /** hin9 only condenses buffers of at most two blocks, so none of its runs stalls. */
  lemma {:induction false} SmallRunNeverStuck(s: State, events: seq<Event>, src: seq<byte>)
    requires Sound(s, src) && AllSmall(s.que) && IsRun(s, events, src)
    requires forall i :: 0 <= i < |events| ==> SmallEvent(events[i])
    ensures !Stuck(Run(s, events, src))
    decreases |events|
  {
    if events != [] {
      hide Sound, Step, Enabled, Stuck;
      SoundParts(s, src);
      SmallStep(s, events[0], src);
      SoundStep(s, events[0], src);
      SmallRunNeverStuck(Step(s, events[0], src), events[1..], src);
    }
  }

  /** The queue of a plain copy stays below three blocks, or what it held at the start. */
  lemma {:induction false} QueueStaysShort(s: State, events: seq<Event>, src: seq<byte>, base: nat)
    requires Orderly(s) && Backpressure(s, base) && IsRun(s, events, src)
    requires s.cfg.encoder.Raw? && s.started && (s.inInactive ==> s.closed)
    ensures Queued(Run(s, events, src).que) <= Max(base, 3 * READ_SZ - 1)
    decreases |events|
  {
    if events != [] {
      var t := Step(s, events[0], src);
      BackpressureStep(s, events[0], src, base);
      OrderlyStep(s, events[0], src);
      HeadStep(s, events[0], src);
      QueueStaysShort(t, events[1..], src, base);
    }
  }
}
