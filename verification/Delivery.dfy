/** End to end: what the receiver at the far side of an encoding pipe decodes, for every schedule
    of reads and writes and every way the stream arrives. */
module Delivery {
  import opened Bytes
  import opened Encoders
  import opened PipeSpec
  import opened PipeFlow
  import opened PipeBudget
  import opened PipeLive
  import opened PipeTheorems
  import C = Chunked
  import CT = ChunkedTrip

  // ---- the size of the blocks a pipe encodes

  predicate BlocksWithin(blocks: seq<Block>, max: nat)
  {
    forall i :: 0 <= i < |blocks| ==> |blocks[i].data| <= max
  }

  /** Owners that process at most `max` bytes at a time. */
  predicate EventWithin(e: Event, max: nat)
  {
    match e
    case Preloaded(data) => |data| <= max
    case Fed(data) => |data| <= max
    case _ => true
  }

  lemma BlocksWithinStep(s: State, e: Event, src: seq<byte>, max: nat)
    requires BlocksWithin(s.fed, max) && Orderly(s) && ReadInBounds(s) && Enabled(s, e, src)
    requires READ_SZ <= max && EventWithin(e, max)
    ensures BlocksWithin(Step(s, e, src).fed, max)
  {
    if s.broken {
      BrokenRead(s, e, src);
    } else {
      hide Advance, Input, Data, Enqueue, PutOut, Resubmit;
      match e
      case Appended(sz, data) =>
      case Preloaded(data) => FedGrows(s.(nextId := s.nextId + 1), Buf(s.nextId, |data|, data, 0));
      case Started => AdvanceConsumesNothing(Opened(s));
      case Fed(data) =>
        FedGrows(s.(nextId := s.nextId + 1), Buf(s.nextId, |data|, data, 0));
        AdvanceConsumesNothing(Preload(s, data));
      case Finished =>
        FedGrows(s.(inDone := true, nextId := s.nextId + 1), Buf(s.nextId, 0, [], 0));
        AdvanceConsumesNothing(Conclude(s));
      case Read(bytes) =>
        var r := s.reading[0];
        FedGrows(s.(inDone := s.inDone || bytes == [], reading := s.reading[1..]), Buf(r.id, r.sz, bytes, r.pos));
        AdvanceConsumesNothing(TakeIn(s, bytes));
      case Wrote(n) =>
        WritingConsumesNothing(s, n);
        if n == |s.writing[0].data| {
          AdvanceConsumesNothing(PutOut(s));
        }
      case WriteError =>
    }
  }

  lemma FedGrows(s: State, b: Buf)
    ensures Process(s, b).fed == s.fed || Process(s, b).fed == s.fed + [Block(b.data, Process(s, b).inDone)]
  {
    hide Encode, EncodedSize;
  }

  lemma {:induction false} BlocksWithinRun(s: State, events: seq<Event>, src: seq<byte>, max: nat)
    requires BlocksWithin(s.fed, max) && Sound(s, src) && IsRun(s, events, src)
    requires READ_SZ <= max && forall i :: 0 <= i < |events| ==> EventWithin(events[i], max)
    ensures BlocksWithin(Run(s, events, src).fed, max)
    decreases |events|
  {
    if events != [] {
      hide Sound, Step, Enabled, BlocksWithin;
      SoundParts(s, src);
      BlocksWithinStep(s, events[0], src, max);
      SoundStep(s, events[0], src);
      BlocksWithinRun(Step(s, events[0], src), events[1..], src, max);
    }
  }

  /** A clean close, with what is known of the blocks that were encoded. */
  lemma ClosedCleanly(cfg: Config, inInactive: bool, events: seq<Event>, src: seq<byte>) returns (t: State)
    requires IsRun(New(cfg, inInactive), events, src)
    requires Run(New(cfg, inInactive), events, src).closed && !Run(New(cfg, inInactive), events, src).broken
    ensures t == Run(New(cfg, inInactive), events, src) && t.cfg == cfg && t.started
    ensures Output(t.sent) == Headers(events) + EncodeAll(cfg.encoder, t.fed)
    ensures Input(t.fed) == Longer(Wanted(cfg, src), HandedIn(events))
    ensures forall i :: 0 <= i < |t.fed| - 1 ==> !t.fed[i].flush
    ensures Flushed(t) <==> !(cfg.inCount && cfg.left0 <= 0 && t.fed == [])
    ensures cfg.inCount && cfg.left0 <= 0 ==> Wanted(cfg, src) == []
  {
    hide Sound, Step, Enabled;
    t := Reached(cfg, inInactive, events, src);
    CleanClose(t, src, HandedIn(events));
    SoundParts(t, src);
  }

  // ---- pipes with nothing to move

  /** The owner hands in input, or ends it. */
  predicate Processes(e: Event) { e.Preloaded? || e.Fed? || e.Finished? }

  predicate AnyProcessed(events: seq<Event>) { exists i :: 0 <= i < |events| && Processes(events[i]) }

  /** A counted pipe with nothing to move does not read. */
  predicate Quiet(s: State)
  {
    s.cfg.inCount && s.left <= 0 && s.fed == [] && s.reading == []
  }

  lemma QuietAdvance(s: State)
    requires Quiet(s)
    ensures Quiet(Advance(s))
  {
    hide Data, Condense, Ids, Want;
  }

  lemma QuietPutOut(s: State)
    requires Quiet(s) && s.writing != []
    ensures Quiet(PutOut(s))
  {
    hide Data, Condense, HashAll;
  }

  lemma QuietStep(s: State, e: Event, src: seq<byte>)
    requires Quiet(s) && Enabled(s, e, src) && !Processes(e)
    ensures Quiet(Step(s, e, src))
  {
    hide Advance, PutOut, Input, HashAll, Ids;
    match e
    case Appended(sz, data) =>
    case Started => QuietAdvance(Opened(s));
    case Wrote(n) =>
      if n == |s.writing[0].data| {
        QuietPutOut(s);
        QuietAdvance(PutOut(s));
      }
    case WriteError =>
  }

  lemma {:induction false} QuietRun(s: State, events: seq<Event>, src: seq<byte>)
    requires Quiet(s) && IsRun(s, events, src)
    requires !AnyProcessed(events)
    ensures Quiet(Run(s, events, src))
    decreases |events|
  {
    if events != [] {
      hide Step, Enabled, Quiet;
      QuietStep(s, events[0], src);
      QuietRun(Step(s, events[0], src), events[1..], src);
    }
  }

  lemma ProcessedStep(s: State, e: Event, src: seq<byte>)
    requires Orderly(s) && Enabled(s, e, src) && (s.fed != [] || Processes(e))
    ensures Step(s, e, src).fed != []
  {
    if s.broken {
      BrokenRead(s, e, src);
    } else {
      hide Advance, Input, Data, Process, PutOut, Resubmit;
      match e
      case Appended(sz, data) =>
      case Preloaded(data) => ProcessShape(s.(nextId := s.nextId + 1), Buf(s.nextId, |data|, data, 0));
      case Started => AdvanceConsumesNothing(Opened(s));
      case Fed(data) =>
        ProcessShape(s.(nextId := s.nextId + 1), Buf(s.nextId, |data|, data, 0));
        AdvanceConsumesNothing(Preload(s, data));
      case Finished =>
        ProcessShape(s.(inDone := true, nextId := s.nextId + 1), Buf(s.nextId, 0, [], 0));
        AdvanceConsumesNothing(Conclude(s));
      case Read(bytes) =>
        var r := s.reading[0];
        FedGrows(s.(inDone := s.inDone || bytes == [], reading := s.reading[1..]), Buf(r.id, r.sz, bytes, r.pos));
        AdvanceConsumesNothing(TakeIn(s, bytes));
      case Wrote(n) =>
        WritingConsumesNothing(s, n);
        if n == |s.writing[0].data| {
          AdvanceConsumesNothing(PutOut(s));
        }
      case WriteError =>
    }
  }

  lemma {:induction false} ProcessedRun(s: State, events: seq<Event>, src: seq<byte>)
    requires Sound(s, src) && IsRun(s, events, src) && (s.fed != [] || AnyProcessed(events))
    ensures Run(s, events, src).fed != []
    decreases |events|
  {
    if events != [] {
      hide Sound, Step, Enabled;
      SoundParts(s, src);
      SoundStep(s, events[0], src);
      if s.fed != [] || Processes(events[0]) {
        ProcessedStep(s, events[0], src);
      } else {
        var i :| 0 <= i < |events| && Processes(events[i]);
        assert Processes(events[1..][i - 1]);
      }
      ProcessedRun(Step(s, events[0], src), events[1..], src);
    }
  }

  /** Nothing is to be moved, and no owner hands in or ends an input. */
  predicate Silent(cfg: Config, events: seq<Event>)
  {
    cfg.inCount && cfg.left0 <= 0 && !AnyProcessed(events)
  }

  /** A pipe that closed cleanly flushed its last block exactly if it was not silent; a silent one
      processed nothing. */
  lemma SilentOrFlushed(cfg: Config, inInactive: bool, events: seq<Event>, src: seq<byte>) returns (t: State)
    requires IsRun(New(cfg, inInactive), events, src)
    requires Run(New(cfg, inInactive), events, src).closed && !Run(New(cfg, inInactive), events, src).broken
    ensures t == Run(New(cfg, inInactive), events, src)
    ensures Flushed(t) <==> !Silent(cfg, events)
    ensures Silent(cfg, events) ==> t.fed == []
  {
    hide Sound, Step, Enabled;
    t := ClosedCleanly(cfg, inInactive, events, src);
    SoundNew(cfg, inInactive, src);
    if AnyProcessed(events) {
      ProcessedRun(New(cfg, inInactive), events, src);
    } else if cfg.inCount && cfg.left0 <= 0 {
      QuietRun(New(cfg, inInactive), events, src);
    }
  }

  // ---- chunked transfer coding

  /** A pipe that encodes chunks delivers its input: whatever the schedule, and for every good way of
      cutting what follows the headers, the decoder gets the counted input, or what owners handed in
      if that is more, and then one end signal. Only a silent pipe does not signal the end; all it
      sends is the headers. */
  lemma ChunkedPipeDelivers(cfg: Config, inInactive: bool, events: seq<Event>, src: seq<byte>,
                            pieces: seq<seq<byte>>, junk: (nat, nat) -> byte)
    requires cfg.encoder == Encoder.Chunked && IsRun(New(cfg, inInactive), events, src)
    requires forall i :: 0 <= i < |events| ==> EventWithin(events[i], 0x7fff_ffff)
    requires var t := Run(New(cfg, inInactive), events, src); t.closed && !t.broken
    ensures var out, h := Output(Run(New(cfg, inInactive), events, src).sent), Headers(events);
            && h <= out
            && (C.After(C.SizeStart, out[|h|..]) == C.Done <==> !Silent(cfg, events))
            && (Silent(cfg, events) ==> out == h)
            && (!Silent(cfg, events) && Join(pieces) == out[|h|..] && C.GoodCuts(C.SizeStart, pieces) ==>
                  C.DecodeAll(C.Decoder(0, 0), pieces, junk)
                  == (Longer(Wanted(cfg, src), HandedIn(events)), true))
  {
    hide Step, Enabled, Output, EncodeAll, Input, Sound, Silent, Wanted, IsRun, Run;
    var t := ClosedCleanly(cfg, inInactive, events, src);
    var _ := SilentOrFlushed(cfg, inInactive, events, src);
    SoundNew(cfg, inInactive, src);
    BlocksWithinRun(New(cfg, inInactive), events, src, 0x7fff_ffff);
    ChunksDecode(t.fed, pieces, junk);
    var body := EncodeAll(cfg.encoder, t.fed);
    assert (Headers(events) + body)[|Headers(events)|..] == body;
    assert Headers(events) + [] == Headers(events);
  }

  lemma ChunksDecode(fed: seq<Block>, pieces: seq<seq<byte>>, junk: (nat, nat) -> byte)
    requires BlocksWithin(fed, 0x7fff_ffff) && forall i :: 0 <= i < |fed| - 1 ==> !fed[i].flush
    ensures var body := EncodeAll(Encoder.Chunked, fed); var flushed := fed != [] && fed[|fed| - 1].flush;
            && (C.After(C.SizeStart, body) == C.Done <==> flushed)
            && (fed == [] ==> body == [])
            && (flushed && Join(pieces) == body && C.GoodCuts(C.SizeStart, pieces) ==>
                  C.DecodeAll(C.Decoder(0, 0), pieces, junk) == (Input(fed), true))
  {
    assert CT.FlushLast(fed);
    CT.EncoderWritesChunks(fed);
    hide C.After, C.DecodeAll, C.GoodCuts, Join;
    if Join(pieces) == EncodeAll(Encoder.Chunked, fed) && C.GoodCuts(C.SizeStart, pieces) && CT.Complete(fed) {
      CT.RoundTrip(fed, pieces, junk);
    }
  }
}
