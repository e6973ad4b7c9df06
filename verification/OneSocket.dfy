/** A buffer chain and a pipe that write to the same socket, as a POST request does: hin_fcgi_worker_run
    starts the pipe that streams the body before it submits the chain with the request, and submits
    only one buffer of the chain at a time. Nothing makes the pipe wait for the chain. */
module OneSocket {
  import opened Bytes
  import opened Encoders
  import opened PipeSpec
  import opened PipeFlow
  import opened PipeLive
  import opened PipeRuns
  import HC = HeaderChain
  import CS = ChainSend

  /** A byte on the wire, and who wrote it. */
  datatype Sent = ByChain(b: byte) | ByPipe(b: byte)

  datatype Joint = Joint(chain: CS.Sending, pipe: State, wire: seq<Sent>)

  /** A completed write of the chain, or anything that happens to the pipe */
  datatype SocketEvent = ChainWrote(ret: nat) | PipeDid(e: Event)

  function Begin(bufs: seq<HC.Buf>, cfg: Config): Joint
    requires bufs != []
  {
    Joint(CS.Begin(bufs), New(cfg, false), [])
  }

  predicate Possible(j: Joint, e: SocketEvent, src: seq<byte>)
  {
    match e
    case ChainWrote(ret) => CS.Legal(j.chain, ret)
    case PipeDid(e) => Enabled(j.pipe, e, src)
  }

  /** The bytes the socket accepts from the pipe */
  function Accepted(s: State, e: Event): seq<byte>
  {
    if e.Wrote? && s.writing != [] && e.n <= |s.writing[0].data| then s.writing[0].data[..e.n] else []
  }

  function FromChain(s: seq<byte>): seq<Sent> { seq(|s|, i requires 0 <= i < |s| => ByChain(s[i])) }

  function FromPipe(s: seq<byte>): seq<Sent> { seq(|s|, i requires 0 <= i < |s| => ByPipe(s[i])) }

  /** What the peer reads */
  function Read(wire: seq<Sent>): seq<byte> { seq(|wire|, i requires 0 <= i < |wire| => wire[i].b) }

  function SocketStep(j: Joint, e: SocketEvent, src: seq<byte>): Joint
    requires Possible(j, e, src)
  {
    match e
    case ChainWrote(ret) =>
      j.(chain := CS.Continue(j.chain, ret), wire := j.wire + FromChain(j.chain.unsent[..ret]))
    case PipeDid(e) => j.(pipe := Step(j.pipe, e, src), wire := j.wire + FromPipe(Accepted(j.pipe, e)))
  }

  predicate IsSocketRun(j: Joint, events: seq<SocketEvent>, src: seq<byte>)
    decreases |events|
  {
    events == [] || (Possible(j, events[0], src) && IsSocketRun(SocketStep(j, events[0], src), events[1..], src))
  }

  function SocketRun(j: Joint, events: seq<SocketEvent>, src: seq<byte>): Joint
    requires IsSocketRun(j, events, src)
    decreases |events|
  {
    if events == [] then j else SocketRun(SocketStep(j, events[0], src), events[1..], src)
  }

  /** Whenever the socket accepts something from the pipe, it has accepted all of the chain. */
  predicate ChainFirst(j: Joint, events: seq<SocketEvent>, src: seq<byte>)
    requires IsSocketRun(j, events, src)
    decreases |events|
  {
    events == []
    || ((events[0].PipeDid? && Accepted(j.pipe, events[0].e) != [] ==> j.chain.unsent == [])
        && ChainFirst(SocketStep(j, events[0], src), events[1..], src))
  }

  // ---- the two writers on their own

  function Rets(events: seq<SocketEvent>): seq<nat>
  {
    if events == [] then []
    else (if events[0].ChainWrote? then [events[0].ret] else []) + Rets(events[1..])
  }

  function PipeEvents(events: seq<SocketEvent>): seq<Event>
  {
    if events == [] then []
    else (if events[0].PipeDid? then [events[0].e] else []) + PipeEvents(events[1..])
  }

  /** Each writer does what it would do alone. */
  lemma {:induction false} EachOnItsOwn(j: Joint, events: seq<SocketEvent>, src: seq<byte>)
    requires IsSocketRun(j, events, src)
    ensures CS.IsRun(j.chain, Rets(events)) && IsRun(j.pipe, PipeEvents(events), src)
    ensures var t := SocketRun(j, events, src);
            t.chain == CS.Run(j.chain, Rets(events)) && t.pipe == Run(j.pipe, PipeEvents(events), src)
    decreases |events|
  {
    if events != [] {
      EachOnItsOwn(SocketStep(j, events[0], src), events[1..], src);
      hide Step, Enabled, CS.Continue, CS.Legal;
      assert [] + PipeEvents(events[1..]) == PipeEvents(events[1..]);
      assert [] + Rets(events[1..]) == Rets(events[1..]);
      match events[0] {
        case ChainWrote(ret) => assert ([ret] + Rets(events[1..]))[1..] == Rets(events[1..]);
        case PipeDid(e) => assert ([e] + PipeEvents(events[1..]))[1..] == PipeEvents(events[1..]);
      }
    }
  }

  // ---- what the wire holds

  lemma SentAppend(a: seq<byte>, b: seq<byte>)
    ensures FromChain(a + b) == FromChain(a) + FromChain(b) && FromPipe(a + b) == FromPipe(a) + FromPipe(b)
  {
  }

  lemma WriteNextSendsNothing(s: State)
    requires s.que != []
    ensures WriteNext(s).sent == s.sent
  {
    hide Condense, HoldsBack;
  }

  lemma AdvanceSendsNothing(s: State)
    ensures Advance(s).sent == s.sent
  {
    hide WriteNext, ReadNext, Ids, Queued, Drained;
    var t := PumpIn(Exhaust(s));
    assert t.sent == s.sent by { ReadNextSendsNothing(Exhaust(s)); }
    if t.que != [] {
      WriteNextSendsNothing(t);
    }
  }

  lemma ReadNextSendsNothing(s: State)
    ensures ReadNext(s).sent == s.sent
  {
    hide Want;
  }

  lemma WritingSends(s: State, n: nat)
    requires s.writing != [] && n <= |s.writing[0].data|
    ensures PutOut(s).sent == s.sent + [Write(s.writing[0].pos, s.writing[0].data)]
    ensures Resubmit(s, n).sent == s.sent + [Write(s.writing[0].pos, s.writing[0].data[..n])]
  {
    hide WriteNext, HashAll;
    var s1 := Accept(s, |s.writing[0].data|).(writing := s.writing[1..]);
    if s1.que != [] {
      WriteNextSendsNothing(s1);
    }
    assert s.writing[0].data[..|s.writing[0].data|] == s.writing[0].data;
  }

  /** The output grows by what the socket accepts. */
  lemma OutputGrows(s: State, e: Event, src: seq<byte>)
    requires Enabled(s, e, src)
    ensures Output(Step(s, e, src).sent) == Output(s.sent) + Accepted(s, e)
  {
    hide Output, Advance, PutOut, Resubmit, Input, Data, Encode, EncodedSize, Ids;
    assert Accepted(s, e) == [] ==> Output(s.sent) + Accepted(s, e) == Output(s.sent);
    match e
    case Appended(sz, data) =>
    case Preloaded(data) =>
    case Started => AdvanceSendsNothing(Opened(s));
    case Fed(data) => AdvanceSendsNothing(Preload(s, data));
    case Finished => AdvanceSendsNothing(Conclude(s));
    case Read(bytes) => AdvanceSendsNothing(TakeIn(s, bytes));
    case Wrote(n) =>
      WritingSends(s, n);
      AdvanceSendsNothing(PutOut(s));
      OutputSnoc(s.sent, Write(s.writing[0].pos, s.writing[0].data[..n]));
      assert n == |s.writing[0].data| ==> s.writing[0].data[..n] == s.writing[0].data;
    case WriteError =>
  }

  /** The chain's bytes, and then the pipe's */
  ghost predicate InOrder(j: Joint)
  {
    j.wire == FromChain(j.chain.sent) + FromPipe(Output(j.pipe.sent))
  }

  /** A byte of the chain stands behind one of the pipe. */
  ghost predicate Mixed(wire: seq<Sent>)
  {
    exists i, k :: 0 <= i < k < |wire| && wire[i].ByPipe? && wire[k].ByChain?
  }

  lemma MixedIsNotInOrder(j: Joint)
    requires Mixed(j.wire)
    ensures !InOrder(j)
  {
    hide Output;
  }

  lemma {:induction false} OrderedRun(j: Joint, events: seq<SocketEvent>, src: seq<byte>)
    requires IsSocketRun(j, events, src) && ChainFirst(j, events, src)
    requires InOrder(j) && (Output(j.pipe.sent) != [] ==> j.chain.unsent == [])
    ensures InOrder(SocketRun(j, events, src))
    decreases |events|
  {
    if events != [] {
      hide Output, Step, Enabled;
      var t := SocketStep(j, events[0], src);
      OrderedStep(j, events[0], src);
      OrderedRun(t, events[1..], src);
    }
  }

  lemma OrderedStep(j: Joint, e: SocketEvent, src: seq<byte>)
    requires Possible(j, e, src) && (e.PipeDid? && Accepted(j.pipe, e.e) != [] ==> j.chain.unsent == [])
    requires InOrder(j) && (Output(j.pipe.sent) != [] ==> j.chain.unsent == [])
    ensures var t := SocketStep(j, e, src); InOrder(t) && (Output(t.pipe.sent) != [] ==> t.chain.unsent == [])
  {
    hide Output, Step, Enabled;
    match e
    case ChainWrote(ret) =>
      SentAppend(j.chain.sent, j.chain.unsent[..ret]);
      if Output(j.pipe.sent) == [] {
        assert FromPipe([]) == [];
      } else {
        assert ret == 0;
      }
    case PipeDid(e) =>
      OutputGrows(j.pipe, e, src);
      SentAppend(Output(j.pipe.sent), Accepted(j.pipe, e));
  }

  /** The pipe has got in while the chain was not all sent. */
  ghost predicate Overtaken(j: Joint)
  {
    (exists i :: 0 <= i < |j.wire| && j.wire[i].ByPipe?) && j.chain.unsent != []
  }

  lemma OvertakenStep(j: Joint, e: SocketEvent, src: seq<byte>)
    requires Possible(j, e, src) && (Overtaken(j) || Mixed(j.wire))
    ensures var t := SocketStep(j, e, src); Overtaken(t) || Mixed(t.wire)
  {
    hide Step, Enabled;
    var t := SocketStep(j, e, src);
    if Mixed(j.wire) {
      var i, k :| 0 <= i < k < |j.wire| && j.wire[i].ByPipe? && j.wire[k].ByChain?;
      assert t.wire[i].ByPipe? && t.wire[k].ByChain?;
    } else {
      var i :| 0 <= i < |j.wire| && j.wire[i].ByPipe?;
      assert t.wire[i].ByPipe?;
      if e.ChainWrote? {
        assert t.wire[|j.wire|].ByChain?;
      }
    }
  }

  lemma {:induction false} OvertakenRun(j: Joint, events: seq<SocketEvent>, src: seq<byte>)
    requires IsSocketRun(j, events, src)
    requires Overtaken(j) || Mixed(j.wire) || !ChainFirst(j, events, src)
    ensures var t := SocketRun(j, events, src); Overtaken(t) || Mixed(t.wire)
    decreases |events|
  {
    if events != [] {
      hide Step, Enabled, Mixed, Overtaken;
      var t := SocketStep(j, events[0], src);
      if Overtaken(j) || Mixed(j.wire) {
        OvertakenStep(j, events[0], src);
      } else if ChainFirst(t, events[1..], src) {
        assert events[0].PipeDid? && Accepted(j.pipe, events[0].e) != [] && j.chain.unsent != [];
        Overtakes(j, t, Accepted(j.pipe, events[0].e));
      }
      OvertakenRun(t, events[1..], src);
    }
  }

  lemma Overtakes(j: Joint, t: Joint, more: seq<byte>)
    requires more != [] && t.wire == j.wire + FromPipe(more) && t.chain == j.chain && j.chain.unsent != []
    ensures Overtaken(t)
  {
    assert t.wire[|j.wire|].ByPipe?;
  }

  /** The exact condition, for every chain, every pipe and every schedule that gets all of the chain
      accepted: the wire holds the chain and then the pipe's output, each byte from its writer, if
      and only if the socket accepts nothing from the pipe before it has accepted all of the chain. The
      bytes alone would not tell a pipe from a part of the chain with the same bytes. */
  lemma InOrderExactly(bufs: seq<HC.Buf>, cfg: Config, events: seq<SocketEvent>, src: seq<byte>)
    requires HC.Sendable(bufs) && IsSocketRun(Begin(bufs, cfg), events, src)
    requires SocketRun(Begin(bufs, cfg), events, src).chain.done
    ensures var t := SocketRun(Begin(bufs, cfg), events, src);
            t.wire == FromChain(HC.Joined(bufs)) + FromPipe(Output(t.pipe.sent))
            <==> ChainFirst(Begin(bufs, cfg), events, src)
  {
    var j := Begin(bufs, cfg);
    var t := SocketRun(j, events, src);
    EachOnItsOwn(j, events, src);
    CS.ChainIsSent(bufs, Rets(events));
    ChainDone(bufs, Rets(events));
    if ChainFirst(j, events, src) {
      assert InOrder(j) by { assert Output([]) == [] && FromChain([]) + FromPipe([]) == []; }
      OrderedRun(j, events, src);
    } else {
      OvertakenRun(j, events, src);
      MixedIsNotInOrder(t);
    }
  }

  lemma ChainDone(bufs: seq<HC.Buf>, rets: seq<nat>)
    requires HC.Sendable(bufs) && CS.IsRun(CS.Begin(bufs), rets)
    ensures CS.Run(CS.Begin(bufs), rets).done ==> CS.Run(CS.Begin(bufs), rets).unsent == []
  {
    CS.BeginKeeps(bufs);
    CS.RunKeeps(CS.Begin(bufs), rets, bufs);
  }

  /** Then the peer reads the bytes of the chain, and behind them those of the pipe. */
  lemma ReadInOrder(chain: seq<byte>, pipe: seq<byte>)
    ensures Read(FromChain(chain) + FromPipe(pipe)) == chain + pipe
  {
  }

  // ---- when nothing can go wrong

  /** A chain of nothing is sent before it begins. */
  lemma {:induction false} EmptyChainFirst(j: Joint, events: seq<SocketEvent>, src: seq<byte>)
    requires IsSocketRun(j, events, src) && j.chain.unsent == [] && j.chain.next == []
    ensures ChainFirst(j, events, src)
    decreases |events|
  {
    if events != [] {
      hide Step, Enabled;
      EmptyChainFirst(SocketStep(j, events[0], src), events[1..], src);
    }
  }

  /** A pipe with nothing to move, before its start or after */
  predicate Unmoved(s: State)
  {
    && s.reading == [] && s.writing == []
    && (s.started || (s.que == [] && s.cfg.inCount && s.left <= 0))
  }

  lemma StaysUnmoved(s: State)
    requires Unmoved(s) && !s.started
    ensures Unmoved(Start(s))
  {
    hide Ids;
  }

  /** If no body is left to stream, the chain always comes first. */
  lemma {:induction false} NothingStreamed(j: Joint, events: seq<SocketEvent>, src: seq<byte>)
    requires IsSocketRun(j, events, src) && OnlyKernel(PipeEvents(events)) && Unmoved(j.pipe)
    ensures ChainFirst(j, events, src)
    decreases |events|
  {
    if events != [] {
      var t := SocketStep(j, events[0], src);
      assert events[0].ChainWrote? ==> [] + PipeEvents(events[1..]) == PipeEvents(events[1..]);
      assert OnlyKernel(PipeEvents(events[1..])) && Unmoved(t.pipe) by {
        if events[0].PipeDid? {
          var more := PipeEvents(events[1..]);
          assert PipeEvents(events) == [events[0].e] + more;
          assert PipeEvents(events)[0] == events[0].e;
          forall i | 0 <= i < |more| ensures more[i].Started? || Completion(more[i]) {
            assert more[i] == PipeEvents(events)[i + 1];
          }
          StaysUnmoved(j.pipe);
        }
      }
      hide Step, Enabled, Unmoved;
      NothingStreamed(t, events[1..], src);
    }
  }
}
