/** When a POST request is sure to reach the application whole. hin_fcgi_worker_run starts the pipe that
    streams the body before it submits the chain with the request, which goes out one buffer after the
    other; so whatever body is left to stream can overtake the request at any point. */
module Overtaking {
  import opened Bytes
  import opened Encoders
  import opened PipeSpec
  import opened PipeFlow
  import opened PipeTheorems
  import opened PipeRuns
  import opened Delivery
  import opened PostDelivery
  import HC = HeaderChain
  import CS = ChainSend
  import R = FcgiRecords
  import Q = FcgiRequest
  import NV = NameValue
  import opened OneSocket

  // ---- runs in parts

  lemma RunCons(j: Joint, e: SocketEvent, more: seq<SocketEvent>, src: seq<byte>)
    requires Possible(j, e, src) && IsSocketRun(SocketStep(j, e, src), more, src)
    ensures IsSocketRun(j, [e] + more, src)
    ensures SocketRun(j, [e] + more, src) == SocketRun(SocketStep(j, e, src), more, src)
  {
    hide Possible, SocketStep;
    assert ([e] + more)[1..] == more;
  }

  lemma {:induction false} SocketParts(j: Joint, a: seq<SocketEvent>, b: seq<SocketEvent>, src: seq<byte>)
    requires IsSocketRun(j, a, src) && IsSocketRun(SocketRun(j, a, src), b, src)
    ensures IsSocketRun(j, a + b, src) && SocketRun(j, a + b, src) == SocketRun(SocketRun(j, a, src), b, src)
    decreases |a|
  {
    if a == [] {
      assert a + b == b;
    } else {
      hide Possible, SocketStep;
      var t := SocketStep(j, a[0], src);
      assert IsSocketRun(t, a[1..], src) && SocketRun(j, a, src) == SocketRun(t, a[1..], src);
      SocketParts(t, a[1..], b, src);
      hide IsSocketRun, SocketRun;
      RunCons(j, a[0], a[1..] + b, src);
      assert a + b == [a[0]] + (a[1..] + b);
    }
  }

  lemma {:induction false} PipeEventsAppend(a: seq<SocketEvent>, b: seq<SocketEvent>)
    ensures PipeEvents(a + b) == PipeEvents(a) + PipeEvents(b)
    decreases |a|
  {
    if a == [] {
      assert a + b == b;
    } else {
      assert (a + b)[0] == a[0] && (a + b)[1..] == a[1..] + b;
      PipeEventsAppend(a[1..], b);
    }
  }

  function ChainSide(rets: seq<nat>): seq<SocketEvent>
  {
    if rets == [] then [] else [ChainWrote(rets[0])] + ChainSide(rets[1..])
  }

  function PipeSide(events: seq<Event>): seq<SocketEvent>
  {
    if events == [] then [] else [PipeDid(events[0])] + PipeSide(events[1..])
  }

  /** The chain on its own, and what it adds to the wire */
  lemma {:induction false} ChainOnly(j: Joint, rets: seq<nat>, src: seq<byte>) returns (more: seq<byte>)
    requires CS.IsRun(j.chain, rets)
    ensures IsSocketRun(j, ChainSide(rets), src) && PipeEvents(ChainSide(rets)) == []
    ensures SocketRun(j, ChainSide(rets), src) == Joint(CS.Run(j.chain, rets), j.pipe, j.wire + FromChain(more))
    ensures CS.Run(j.chain, rets).sent == j.chain.sent + more
    decreases |rets|
  {
    if rets == [] {
      more := [];
    } else {
      var now := j.chain.unsent[..rets[0]];
      var t := SocketStep(j, ChainWrote(rets[0]), src);
      var later := ChainOnly(t, rets[1..], src);
      more := now + later;
      SentAppend(now, later);
      hide CS.Continue, CS.Legal, FromChain;
      assert ChainSide(rets)[1..] == ChainSide(rets[1..]);
      Assoc(j.wire, FromChain(now), FromChain(later));
      Assoc(j.chain.sent, now, later);
    }
  }

  lemma {:induction false} PipeSideRuns(j: Joint, events: seq<Event>, src: seq<byte>)
    requires IsRun(j.pipe, events, src)
    ensures IsSocketRun(j, PipeSide(events), src)
    ensures PipeEvents(PipeSide(events)) == events && Rets(PipeSide(events)) == []
    decreases |events|
  {
    if events != [] {
      hide Step, Enabled;
      var t := SocketStep(j, PipeDid(events[0]), src);
      PipeSideRuns(t, events[1..], src);
      assert PipeSide(events)[1..] == PipeSide(events[1..]);
      assert [events[0]] + events[1..] == events;
    }
  }

  lemma {:induction false} PipeWire(j: Joint, events: seq<Event>, src: seq<byte>) returns (more: seq<byte>)
    requires IsSocketRun(j, PipeSide(events), src)
    ensures var t := SocketRun(j, PipeSide(events), src);
            t.wire == j.wire + FromPipe(more) && Output(t.pipe.sent) == Output(j.pipe.sent) + more
    decreases |events|
  {
    if events == [] {
      more := [];
    } else {
      hide Step, Enabled, Accepted, Output, FromPipe;
      var e, rest := PipeDid(events[0]), PipeSide(events[1..]);
      assert PipeSide(events) == [e] + rest && Possible(j, e, src);
      var t := SocketStep(j, e, src);
      assert IsSocketRun(t, rest, src) && SocketRun(j, [e] + rest, src) == SocketRun(t, rest, src) by {
        assert ([e] + rest)[1..] == rest;
      }
      hide IsSocketRun, SocketRun, PipeSide;
      var later := PipeWire(t, events[1..], src);
      var now := Accepted(j.pipe, events[0]);
      more := now + later;
      OutputGrows(j.pipe, events[0], src);
      SentAppend(now, later);
      Assoc(j.wire, FromPipe(now), FromPipe(later));
      Assoc(Output(j.pipe.sent), now, later);
    }
  }

  /** The pipe on its own, and what it adds to the wire */
  lemma PipeOnly(j: Joint, events: seq<Event>, src: seq<byte>) returns (more: seq<byte>)
    requires IsRun(j.pipe, events, src)
    ensures IsSocketRun(j, PipeSide(events), src) && PipeEvents(PipeSide(events)) == events
    ensures SocketRun(j, PipeSide(events), src)
            == Joint(j.chain, Run(j.pipe, events, src), j.wire + FromPipe(more))
    ensures Output(Run(j.pipe, events, src).sent) == Output(j.pipe.sent) + more
  {
    hide IsRun, Run, IsSocketRun, SocketRun, PipeSide, PipeEvents, Rets, Output, FromPipe;
    PipeSideRuns(j, events, src);
    EachOnItsOwn(j, PipeSide(events), src);
    more := PipeWire(j, events, src);
  }

  // ---- schedules

  /** A schedule that gets all of the chain accepted, and in which only the kernel drives the pipe */
  ghost predicate Sends(bufs: seq<HC.Buf>, cfg: Config, events: seq<SocketEvent>, src: seq<byte>)
    requires bufs != []
  {
    && IsSocketRun(Begin(bufs, cfg), events, src) && OnlyKernel(PipeEvents(events))
    && SocketRun(Begin(bufs, cfg), events, src).chain.done
  }

  /** One in which the pipe ends cleanly too */
  ghost predicate Completes(bufs: seq<HC.Buf>, cfg: Config, events: seq<SocketEvent>, src: seq<byte>)
    requires bufs != []
  {
    && Sends(bufs, cfg, events, src)
    && var t := SocketRun(Begin(bufs, cfg), events, src); t.pipe.closed && !t.pipe.broken
  }

  /** The wire holds the chain and then what the pipe has put out. */
  ghost predicate ArrivesInOrder(bufs: seq<HC.Buf>, cfg: Config, events: seq<SocketEvent>, src: seq<byte>)
    requires bufs != [] && IsSocketRun(Begin(bufs, cfg), events, src)
  {
    var t := SocketRun(Begin(bufs, cfg), events, src);
    t.wire == FromChain(HC.Joined(bufs)) + FromPipe(Output(t.pipe.sent))
  }

  /** The pipe can overtake the chain at any point: at every `cut` of every chain there is a schedule
      in which all of the pipe's output comes in, and chain and pipe both end cleanly. */
  lemma OvertakenAt(bufs: seq<HC.Buf>, cfg: Config, src: seq<byte>, cut: nat) returns (events: seq<SocketEvent>)
    requires HC.Sendable(bufs) && cut <= |HC.Joined(bufs)|
    ensures Completes(bufs, cfg, events, src)
    ensures var t := SocketRun(Begin(bufs, cfg), events, src); var w := HC.Joined(bufs);
            t.wire == FromChain(w[..cut]) + FromPipe(Output(t.pipe.sent)) + FromChain(w[cut..])
  {
    hide HC.Joined, CS.Keeps, CS.IsRun, CS.Run, IsRun, Run, FromChain, FromPipe, IsSocketRun, SocketRun, PipeEvents;
    hide Output;
    var j, w := Begin(bufs, cfg), HC.Joined(bufs);
    assert j.pipe.sent == [] && j.chain.sent == [] && j.wire == [];
    hide New;
    CS.BeginKeeps(bufs);
    var rets := CS.CanStopAfter(CS.Begin(bufs), bufs, cut);
    var first := ChainOnly(j, rets, src);
    var j1 := SocketRun(j, ChainSide(rets), src);
    var kernel := ClosingRun(cfg, src);
    var out := PipeOnly(j1, kernel, src);
    var j2 := SocketRun(j1, PipeSide(kernel), src);
    var last := CS.CanFinish(j2.chain, bufs);
    var rest := ChainOnly(j2, last, src);
    SocketParts(j1, PipeSide(kernel), ChainSide(last), src);
    SocketParts(j, ChainSide(rets), PipeSide(kernel) + ChainSide(last), src);
    events := ChainSide(rets) + (PipeSide(kernel) + ChainSide(last));
    PipeEventsAppend(PipeSide(kernel), ChainSide(last));
    PipeEventsAppend(ChainSide(rets), PipeSide(kernel) + ChainSide(last));
    assert [] + (kernel + []) == kernel;
    assert first + rest == w && w[..cut] == first && w[cut..] == rest;
    NothingSent(out);
    assert [] + FromChain(first) == FromChain(first);
  }

  lemma NothingSent(out: seq<byte>)
    ensures Output([]) == [] && [] + out == out
  {
  }

  // ---- the order of chain and pipe

  /** Of a body still to stream, the pipe writes something. */
  lemma SomethingStreamed(cfg: Config, events: seq<Event>, src: seq<byte>)
    requires cfg.encoder.Stdin? && 0 < cfg.left0 && IsRun(New(cfg, false), events, src)
    requires Run(New(cfg, false), events, src).closed && !Run(New(cfg, false), events, src).broken
    ensures Output(Run(New(cfg, false), events, src).sent) != []
  {
    hide Run, IsRun, Output, Input, Wanted, HandedIn, StdinBlock;
    var t := ClosedCleanly(cfg, false, events, src);
    var n := |t.fed| - 1;
    EndIsWritten(cfg.encoder.reqId, t.fed[n].data);
  }

  lemma EndIsWritten(id: nat, data: seq<byte>)
    ensures StdinBlock(id, data, true) != []
  {
  }

  /** In every schedule that sends the chain, it arrives before what the pipe puts out, if and only if
      no body is left to stream when the request is written, or the chain is empty. The same holds of
      the schedules in which both end cleanly. */
  lemma EveryScheduleInOrder(bufs: seq<HC.Buf>, cfg: Config, src: seq<byte>)
    requires HC.Sendable(bufs) && cfg.encoder.Stdin? && cfg.inCount
    ensures (forall events :: Sends(bufs, cfg, events, src) ==> ArrivesInOrder(bufs, cfg, events, src))
            <==> cfg.left0 <= 0 || HC.Joined(bufs) == []
    ensures (forall events :: Completes(bufs, cfg, events, src) ==> ArrivesInOrder(bufs, cfg, events, src))
            <==> cfg.left0 <= 0 || HC.Joined(bufs) == []
  {
    hide ArrivesInOrder, HC.Joined, IsSocketRun, SocketRun, OnlyKernel, PipeEvents;
    if cfg.left0 <= 0 || HC.Joined(bufs) == [] {
      forall events | Sends(bufs, cfg, events, src) ensures ArrivesInOrder(bufs, cfg, events, src) {
        AlwaysInOrder(bufs, cfg, events, src);
      }
    } else {
      var events := OvertakenAt(bufs, cfg, src, 0);
      PipeComesFirst(bufs, cfg, events, src);
    }
  }

  lemma AlwaysInOrder(bufs: seq<HC.Buf>, cfg: Config, events: seq<SocketEvent>, src: seq<byte>)
    requires HC.Sendable(bufs) && cfg.inCount && (cfg.left0 <= 0 || HC.Joined(bufs) == [])
    requires Sends(bufs, cfg, events, src)
    ensures ArrivesInOrder(bufs, cfg, events, src)
  {
    hide IsSocketRun, SocketRun, ChainFirst, OnlyKernel, PipeEvents, FromChain, FromPipe, Output;
    var j := Begin(bufs, cfg);
    if cfg.left0 <= 0 {
      NothingStreamed(j, events, src);
    } else {
      CS.BeginKeeps(bufs);
      NothingToSend(j.chain, bufs);
      EmptyChainFirst(j, events, src);
    }
    InOrderExactly(bufs, cfg, events, src);
  }

  lemma NothingToSend(c: CS.Sending, bufs: seq<HC.Buf>)
    requires CS.Keeps(c, bufs) && HC.Joined(bufs) == []
    ensures c.unsent == [] && c.next == []
  {
    assert |c.sent + c.unsent + HC.Joined(c.next)| == 0;
  }

  lemma PipeComesFirst(bufs: seq<HC.Buf>, cfg: Config, events: seq<SocketEvent>, src: seq<byte>)
    requires HC.Sendable(bufs) && cfg.encoder.Stdin? && 0 < cfg.left0 && HC.Joined(bufs) != []
    requires Completes(bufs, cfg, events, src)
    requires var t := SocketRun(Begin(bufs, cfg), events, src); var w := HC.Joined(bufs);
             t.wire == FromChain(w[..0]) + FromPipe(Output(t.pipe.sent)) + FromChain(w[0..])
    ensures Sends(bufs, cfg, events, src) && !ArrivesInOrder(bufs, cfg, events, src)
  {
    hide IsSocketRun, SocketRun, OnlyKernel, PipeEvents, Output, HC.Joined, IsRun, Run;
    var t, w := SocketRun(Begin(bufs, cfg), events, src), HC.Joined(bufs);
    EachOnItsOwn(Begin(bufs, cfg), events, src);
    SomethingStreamed(cfg, PipeEvents(events), src);
    assert t.wire[0].ByPipe?;
    assert (FromChain(w) + FromPipe(Output(t.pipe.sent)))[0].ByChain?;
  }

  // ---- what the application makes of it

  /** A record in front of the request, or in its parameters, is not read as part of the request. */
  lemma NotReadBack(id: nat, reuse: bool, ps: seq<NV.Pair>, stdin: Q.Stdin, x: seq<byte>, out: seq<byte>, y: seq<byte>)
    requires id < 65536 && |NV.Params(ps)| < 65536 && out != []
    requires R.WriteAll(Q.RequestRecords(id, reuse, ps, stdin)) == x + y
    requires Q.PARAMS_AT <= |x| < Q.PARAMS_AT + |NV.Params(ps)| && NV.Params(ps)[|x| - Q.PARAMS_AT] != out[0]
    ensures !(Q.RequestRecords(id, reuse, ps, stdin) <= R.Records(x + out + y))
  {
    hide NV.Params, R.WriteAll, R.Records;
    ReadAsParams(id, reuse, ps, stdin, |x|, out);
    assert (x + y)[..|x|] == x && (x + y)[|x|..] == y;
    assert Q.RequestRecords(id, reuse, ps, stdin)[1].content == NV.Params(ps);
  }

  /** Bytes that come in between while PARAMS is being sent are read as a part of PARAMS. */
  lemma ReadAsParams(id: nat, reuse: bool, ps: seq<NV.Pair>, stdin: Q.Stdin, cut: nat, out: seq<byte>)
    requires id < 65536 && |NV.Params(ps)| < 65536 && out != []
    requires Q.PARAMS_AT <= cut < Q.PARAMS_AT + |NV.Params(ps)|
    ensures var w := R.WriteAll(Q.RequestRecords(id, reuse, ps, stdin));
            && cut <= |w|
            && var rs := R.Records(w[..cut] + out + w[cut..]);
            && 2 <= |rs| && |rs[1].content| == |NV.Params(ps)|
            && rs[1].content[cut - Q.PARAMS_AT] == out[0]
  {
    hide NV.Params, R.WriteAll, R.Write, R.Records, RecordHeader, RoundToPad, Q.RequestRecords;
    var w := R.WriteAll(Q.RequestRecords(id, reuse, ps, stdin));
    var n := |NV.Params(ps)|;
    Q.ParamsStart(id, reuse, ps, stdin);
    var s := w[..cut] + out + w[cut..];
    assert s[..16] == w[..16] && s[16..Q.PARAMS_AT] == w[16..Q.PARAMS_AT];
    Q.SecondRecord(id, reuse, n, s);
    assert s[16..][8..8 + n][cut - Q.PARAMS_AT] == s[cut] == out[0];
  }

  /** The body first, and then the request */
  lemma BodyInFront(cfg: Config, events: seq<Event>, src: seq<byte>, out: seq<byte>, reuse: bool, ps: seq<NV.Pair>,
                    stdin: Q.Stdin, w: seq<byte>)
    requires cfg.encoder.Stdin? && cfg.encoder.reqId < 65536 && cfg.inCount && 0 < cfg.left0
    requires IsRun(New(cfg, false), events, src) && OnlyKernel(events)
    requires var t := Run(New(cfg, false), events, src); t.closed && !t.broken && out == Output(t.sent)
    ensures !(Q.RequestRecords(cfg.encoder.reqId, reuse, ps, stdin) <= R.Records(out + w))
  {
    hide R.Records, R.Rest, Run, IsRun, Output, Contents, Wanted, OnlyKernel, New;
    PostBodyDelivered(cfg, events, src, out);
    R.SplitAnywhere(out, w);
    assert R.Records(out + w)[0] == R.Records(out)[0];
    assert Q.RequestRecords(cfg.encoder.reqId, reuse, ps, stdin)[0].kind == Q.FCGI_BEGIN_REQUEST;
  }

  /** The bytes a schedule brings to the application */
  ghost function Arriving(bufs: seq<HC.Buf>, cfg: Config, events: seq<SocketEvent>, src: seq<byte>): seq<byte>
    requires bufs != [] && IsSocketRun(Begin(bufs, cfg), events, src)
  {
    OneSocket.Read(SocketRun(Begin(bufs, cfg), events, src).wire)
  }

  /** The exact condition for a POST request, whatever chain it is written into and whatever the client
      sends: every schedule in which chain and pipe end cleanly delivers it, if and only if the headers
      brought all of the body and the parameters are shorter than 65536 bytes. */
  lemma PostRequestExactly(bufs: seq<HC.Buf>, cfg: Config, src: seq<byte>, reuse: bool, ps: seq<NV.Pair>,
                           first: seq<byte>, postSz: nat)
    requires cfg.encoder.Stdin? && cfg.encoder.reqId < 65536 && cfg.inCount
    requires |first| <= postSz && cfg.left0 == postSz - |first| && |first| < 65536
    requires forall i :: 0 <= i < |ps| ==> |ps[i].value| < 0x80000000
    requires HC.Sendable(bufs)
    requires HC.Joined(bufs) == R.WriteAll(Q.RequestRecords(cfg.encoder.reqId, reuse, ps, Q.Body(first)))
    ensures (forall events :: Completes(bufs, cfg, events, src) ==>
               Delivered(Arriving(bufs, cfg, events, src), cfg.encoder.reqId, reuse, ps, first, src, postSz))
            <==> |first| == postSz && |NV.Params(ps)| < 65536
  {
    hide Delivered, HC.Joined, IsSocketRun, SocketRun, OnlyKernel, PipeEvents, R.WriteAll, Q.RequestRecords, NV.Params;
    var id := cfg.encoder.reqId;
    if |first| == postSz && |NV.Params(ps)| < 65536 {
      forall events | Completes(bufs, cfg, events, src)
        ensures Delivered(Arriving(bufs, cfg, events, src), id, reuse, ps, first, src, postSz)
      {
        PostRequestDelivered(bufs, cfg, events, src, reuse, ps, first, postSz);
      }
    } else {
      var events := OvertakenAt(bufs, cfg, src, 0);
      NotDelivered(bufs, cfg, events, src, reuse, ps, first, postSz);
    }
  }

  lemma NotDelivered(bufs: seq<HC.Buf>, cfg: Config, events: seq<SocketEvent>, src: seq<byte>, reuse: bool,
                     ps: seq<NV.Pair>, first: seq<byte>, postSz: nat)
    requires cfg.encoder.Stdin? && cfg.encoder.reqId < 65536 && cfg.inCount
    requires |first| <= postSz && cfg.left0 == postSz - |first|
    requires |first| < postSz || 65536 <= |NV.Params(ps)|
    requires bufs != [] && Completes(bufs, cfg, events, src)
    requires var t := SocketRun(Begin(bufs, cfg), events, src); var w := HC.Joined(bufs);
             t.wire == FromChain(w[..0]) + FromPipe(Output(t.pipe.sent)) + FromChain(w[0..])
    ensures !Delivered(Arriving(bufs, cfg, events, src), cfg.encoder.reqId, reuse, ps, first, src, postSz)
  {
    hide HC.Joined, IsSocketRun, SocketRun, OnlyKernel, PipeEvents, Output, R.Records, NV.Params, IsRun, Run;
    var bytes, id := Arriving(bufs, cfg, events, src), cfg.encoder.reqId;
    if |first| < postSz {
      var w, out := HC.Joined(bufs), Output(SocketRun(Begin(bufs, cfg), events, src).pipe.sent);
      EachOnItsOwn(Begin(bufs, cfg), events, src);
      ReadThree([], out, w);
      assert w[..0] == [] && w[0..] == w && [] + out + w == out + w;
      BodyInFront(cfg, PipeEvents(events), src, out, reuse, ps, Q.Body(first), w);
    } else {
      Q.ContentsAreShort(bytes);
      assert Q.RequestRecords(id, reuse, ps, Q.Body(first))[1].content == NV.Params(ps);
    }
  }

  lemma ReadThree(x: seq<byte>, out: seq<byte>, y: seq<byte>)
    ensures OneSocket.Read(FromChain(x) + FromPipe(out) + FromChain(y)) == x + out + y
  {
  }

  /** STDIN records begin with their version. */
  lemma {:induction false} StdinBegins(id: nat, blocks: seq<Block>)
    ensures EncodeAll(Encoder.Stdin(id), blocks) != [] ==> EncodeAll(Encoder.Stdin(id), blocks)[0] == FCGI_VERSION_1
  {
    if blocks != [] {
      var n := |blocks| - 1;
      StdinBegins(id, blocks[..n]);
      BlockBegins(id, blocks[n].data, blocks[n].flush);
    }
  }

  lemma BlockBegins(id: nat, data: seq<byte>, flush: bool)
    ensures StdinBlock(id, data, flush) != [] ==> StdinBlock(id, data, flush)[0] == FCGI_VERSION_1
  {
  }

  lemma OutputBegins(cfg: Config, events: seq<Event>, src: seq<byte>)
    requires cfg.encoder.Stdin? && 0 < cfg.left0 && IsRun(New(cfg, false), events, src) && OnlyKernel(events)
    requires Run(New(cfg, false), events, src).closed && !Run(New(cfg, false), events, src).broken
    ensures var out := Output(Run(New(cfg, false), events, src).sent); out != [] && out[0] == FCGI_VERSION_1
  {
    hide Run, IsRun, Output, Input, Wanted, HandedIn, StdinBlock, EncodeAll, OnlyKernel;
    var t := ClosedCleanly(cfg, false, events, src);
    NothingFromOwners(events);
    SomethingStreamed(cfg, events, src);
    StdinBegins(cfg.encoder.reqId, t.fed);
    assert [] + EncodeAll(cfg.encoder, t.fed) == EncodeAll(cfg.encoder, t.fed);
  }

  /** Nor need the body come first: at every byte of PARAMS other than 1, wherever the chain is cut into
      buffers, there is a schedule in which the body lands there, chain and pipe end cleanly, and the
      application does not read back the records of the request. */
  lemma OvertakenRequest(bufs: seq<HC.Buf>, cfg: Config, src: seq<byte>, reuse: bool, ps: seq<NV.Pair>,
                         first: seq<byte>, cut: nat) returns (events: seq<SocketEvent>)
    requires cfg.encoder.Stdin? && cfg.encoder.reqId < 65536 && 0 < cfg.left0
    requires HC.Sendable(bufs) && |NV.Params(ps)| < 65536
    requires HC.Joined(bufs) == R.WriteAll(Q.RequestRecords(cfg.encoder.reqId, reuse, ps, Q.Body(first)))
    requires Q.PARAMS_AT <= cut < Q.PARAMS_AT + |NV.Params(ps)|
    requires NV.Params(ps)[cut - Q.PARAMS_AT] != FCGI_VERSION_1
    ensures Completes(bufs, cfg, events, src)
    ensures !(Q.RequestRecords(cfg.encoder.reqId, reuse, ps, Q.Body(first))
              <= R.Records(Arriving(bufs, cfg, events, src)))
  {
    hide HC.Joined, IsSocketRun, SocketRun, PipeEvents, Output, R.Records, R.WriteAll, NV.Params, IsRun, Run;
    hide Q.RequestRecords, OnlyKernel;
    var id, w := cfg.encoder.reqId, HC.Joined(bufs);
    Q.ParamsStart(id, reuse, ps, Q.Body(first));
    events := OvertakenAt(bufs, cfg, src, cut);
    EachOnItsOwn(Begin(bufs, cfg), events, src);
    var out := Output(SocketRun(Begin(bufs, cfg), events, src).pipe.sent);
    OutputBegins(cfg, PipeEvents(events), src);
    ReadThree(w[..cut], out, w[cut..]);
    assert w == w[..cut] + w[cut..];
    NotReadBack(id, reuse, ps, Q.Body(first), w[..cut], out, w[cut..]);
  }
}
