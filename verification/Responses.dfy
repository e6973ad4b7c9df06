/** The answers of a FastCGI application, which come as the records of all requests on a socket mixed
    (src/http/cgi/fcgi_read.c): each request has a pipe to its client, which is fed what its STDOUT
    records hold and is finished by its END_REQUEST record (sections 3.3, 5.5 and 6 of the FastCGI
    Specification 1.0). */
module Responses {
  import opened Bytes
  import opened Encoders
  import opened PipeSpec
  import opened PipeFlow
  import opened PipeBudget
  import opened PipeLive
  import opened PipeTheorems
  import opened PipeRuns
  import opened PipeEager
  import R = FcgiRecords

  const FCGI_END_REQUEST: byte := 3
  const FCGI_STDOUT: byte := 6

  // ---- the machine

  /** The pipes of the requests whose response headers are complete, by request id */
  type Pipes = map<nat, State>

  /** A record is dispatched, or a write of a pipe completes. */
  datatype Event = Got(r: R.Rec) | Kernel(id: nat, e: PipeFlow.Event)

  predicate Concerns(r: R.Rec, id: nat) { r.reqId == id && (r.kind == FCGI_STDOUT || r.kind == FCGI_END_REQUEST) }

  /** An application sends nothing more for a request it has ended, or whose client is gone. */
  predicate Legal(pipes: Pipes, e: Event)
  {
    match e
    case Got(r) => r.reqId in pipes && Concerns(r, r.reqId) ==> !pipes[r.reqId].inDone
    case Kernel(id, e) => id in pipes && (e.Wrote? || e.WriteError?) && Enabled(pipes[id], e, [])
  }

  /** hin_fcgi_read_rec from its switch on, and the completions of the pipes */
  function Dispatch(pipes: Pipes, e: Event): Pipes
    requires Legal(pipes, e)
  {
    match e
    case Got(r) =>
      if r.reqId !in pipes then pipes
      else if r.kind == FCGI_STDOUT then pipes[r.reqId := Feed(pipes[r.reqId], r.content)]
      else if r.kind == FCGI_END_REQUEST then pipes[r.reqId := PipeSpec.Finish(pipes[r.reqId])]
      else pipes
    case Kernel(id, e) => pipes[id := PipeFlow.Step(pipes[id], e, [])]
  }

  predicate AllLegal(pipes: Pipes, es: seq<Event>)
    decreases |es|
  {
    es == [] || (Legal(pipes, es[0]) && AllLegal(Dispatch(pipes, es[0]), es[1..]))
  }

  function DispatchAll(pipes: Pipes, es: seq<Event>): Pipes
    requires AllLegal(pipes, es)
    decreases |es|
  {
    if es == [] then pipes else DispatchAll(Dispatch(pipes, es[0]), es[1..])
  }

  // ---- one request among them

  /** The contents of the STDOUT records of one request, joined */
  function Stdout(id: nat, rs: seq<R.Rec>): seq<byte>
  {
    if rs == [] then []
    else (if rs[0].reqId == id && rs[0].kind == FCGI_STDOUT then rs[0].content else []) + Stdout(id, rs[1..])
  }

  predicate Ended(id: nat, rs: seq<R.Rec>)
  {
    exists i :: 0 <= i < |rs| && rs[i].reqId == id && rs[i].kind == FCGI_END_REQUEST
  }

  function Recs(es: seq<Event>): seq<R.Rec>
  {
    if es == [] then [] else (if es[0].Got? then [es[0].r] else []) + Recs(es[1..])
  }

  /** The types of records by their numbers: STDOUT is 6 and END_REQUEST is 3. */
  lemma TypesByNumber(id: nat, r: R.Rec)
    ensures Concerns(r, id) <==> r.reqId == id && (r.kind == 6 || r.kind == 3)
    ensures Stdout(id, [r]) == if r.reqId == id && r.kind == 6 then r.content else []
    ensures Ended(id, [r]) <==> r.reqId == id && r.kind == 3
  {
    assert [r][1..] == [] && r.content + [] == r.content;
    assert [r][0] == r;
  }

  /** What an event is for the pipe of one request */
  function Own(id: nat, e: Event): seq<PipeFlow.Event>
  {
    match e
    case Got(r) =>
      if !Concerns(r, id) then [] else if r.kind == FCGI_STDOUT then [Fed(r.content)] else [Finished]
    case Kernel(k, e) => if k == id then [e] else []
  }

  function OwnAll(id: nat, es: seq<Event>): seq<PipeFlow.Event>
  {
    if es == [] then [] else Own(id, es[0]) + OwnAll(id, es[1..])
  }

  lemma OthersUntouched(pipes: Pipes, e: Event, id: nat)
    requires Legal(pipes, e) && id in pipes && Own(id, e) == []
    ensures id in Dispatch(pipes, e) && Dispatch(pipes, e)[id] == pipes[id]
    ensures e.Got? ==> Stdout(id, [e.r]) == [] && !Ended(id, [e.r])
  {
    hide Feed, PipeSpec.Finish, Step, Enabled;
  }

  /** A pipe that has been started and is fed, with no count of what is to come */
  predicate IsFed(p: State) { Orderly(p) && p.started && p.inInactive && !p.cfg.inCount }

  lemma FeedTakes(p: State, data: seq<byte>)
    requires IsFed(p) && !p.inDone
    ensures Input(Feed(p, data).fed) == Input(p.fed) + data
  {
    hide Advance, Input, Encode, EncodedSize, Enqueue, Data;
    var b := Buf(p.nextId, |data|, data, 0);
    ProcessShape(p.(nextId := p.nextId + 1), b);
    EncodeAllSnoc(p.cfg.encoder, p.fed, Block(data, Preload(p, data).inDone));
    AdvanceConsumesNothing(Preload(p, data));
  }

  lemma FinishTakes(p: State)
    requires IsFed(p) && !p.inDone
    ensures Input(PipeSpec.Finish(p).fed) == Input(p.fed) && PipeSpec.Finish(p).inDone
  {
    hide Advance, Input, Encode, EncodedSize, Enqueue, Data;
    var q := p.(inDone := true);
    ProcessShape(q.(nextId := p.nextId + 1), Buf(p.nextId, 0, [], 0));
    EncodeAllSnoc(p.cfg.encoder, p.fed, Block([], true));
    assert Input(p.fed) + [] == Input(p.fed);
    AdvanceConsumesNothing(Conclude(p));
  }

  lemma WriteTakesNothing(p: State, e: PipeFlow.Event, src: seq<byte>)
    requires IsFed(p) && Enabled(p, e, src) && (e.Wrote? || e.WriteError?)
    ensures var t := Step(p, e, src); t.fed == p.fed && (t.inDone <==> p.inDone || e.WriteError?)
  {
    if e.Wrote? {
      hide Advance, PutOut, Resubmit, Data, HashAll;
      WritingConsumesNothing(p, e.n);
      AdvanceConsumesNothing(PutOut(p));
    } else {
      hide Ids;
    }
  }

  /** What the bytes of an event are to the input of the pipe */
  function Hears(id: nat, e: Event): seq<byte>
  {
    if e.Got? && e.r.reqId == id && e.r.kind == FCGI_STDOUT then e.r.content else []
  }

  predicate Ends(id: nat, e: Event) { e.Got? && e.r.reqId == id && e.r.kind == FCGI_END_REQUEST }

  lemma OwnStep(pipes: Pipes, e: Event, id: nat, o: PipeFlow.Event, src: seq<byte>)
    requires Legal(pipes, e) && id in pipes && IsFed(pipes[id]) && Own(id, e) == [o]
    requires Input(pipes[id].fed) + Hears(id, e) <= src
    requires o.Finished? ==> Input(pipes[id].fed) == src
    ensures id in Dispatch(pipes, e) && Enabled(pipes[id], o, src)
    ensures var t := Dispatch(pipes, e)[id];
            && t == Step(pipes[id], o, src) && IsFed(t) && Input(t.fed) == Input(pipes[id].fed) + Hears(id, e)
            && (t.inDone <==> pipes[id].inDone || o.Finished? || o.WriteError?)
  {
    var p := pipes[id];
    assert Enabled(p, o, src) by {
      var x := Input(p.fed);
      assert Hears(id, e) <= src[|x|..] by { assert (x + Hears(id, e))[|x|..] == Hears(id, e); }
    }
    hide Feed, PipeSpec.Finish, Input, WriteDone, WriteFailed;
    assert Dispatch(pipes, e)[id] == Step(p, o, src);
    match o {
      case Fed(data) => FeedTakes(p, data); FeedGoesOn(p, data);
      case Finished => FinishTakes(p);
      case _ => WriteTakesNothing(p, o, src);
    }
    assert Input(p.fed) + [] == Input(p.fed);
    hide Step, Enabled;
    OrderlyStep(p, o, src);
    HeadStep(p, o, src);
  }

  lemma FeedGoesOn(p: State, data: seq<byte>)
    requires IsFed(p) && !p.inDone
    ensures !Feed(p, data).inDone
  {
    hide Advance, Product, Data;
    AdvanceConsumesNothing(Preload(p, data));
  }

  /** Nothing is heard of a request that has ended. */
  lemma {:induction false} DoneHearsNothing(pipes: Pipes, es: seq<Event>, id: nat)
    requires AllLegal(pipes, es) && id in pipes && IsFed(pipes[id]) && pipes[id].inDone
    ensures Stdout(id, Recs(es)) == [] && !Ended(id, Recs(es))
    decreases |es|
  {
    if es != [] {
      hide IsFed, Dispatch, Legal, Own, Stdout, Ended, Ends, Hears;
      var t := Dispatch(pipes, es[0]);
      OneRecord(id, es);
      DoneNow(pipes, es[0], id);
      DoneHearsNothing(t, es[1..], id);
    }
  }

  lemma OneRecord(id: nat, es: seq<Event>)
    requires es != []
    ensures Stdout(id, Recs(es)) == Hears(id, es[0]) + Stdout(id, Recs(es[1..]))
    ensures Ended(id, Recs(es)) <==> Ends(id, es[0]) || Ended(id, Recs(es[1..]))
  {
    var e, more := es[0], Recs(es[1..]);
    if e.Got? {
      assert Recs(es) == [e.r] + more && ([e.r] + more)[1..] == more;
      if Ended(id, more) {
        var i :| 0 <= i < |more| && more[i].reqId == id && more[i].kind == FCGI_END_REQUEST;
        assert Recs(es)[i + 1] == more[i];
      }
      if Ends(id, e) { assert Recs(es)[0] == e.r; }
      if Ended(id, Recs(es)) && !Ends(id, e) {
        var i :| 0 <= i < |Recs(es)| && Recs(es)[i].reqId == id && Recs(es)[i].kind == FCGI_END_REQUEST;
        assert i != 0 && more[i - 1] == Recs(es)[i];
      }
    } else {
      assert Recs(es) == [] + more == more;
      assert [] + Stdout(id, more) == Stdout(id, more);
    }
  }

  lemma DoneNow(pipes: Pipes, e: Event, id: nat)
    requires Legal(pipes, e) && id in pipes && IsFed(pipes[id]) && pipes[id].inDone
    ensures Hears(id, e) == [] && !Ends(id, e)
    ensures var t := Dispatch(pipes, e); id in t && IsFed(t[id]) && t[id].inDone
  {
    if Own(id, e) == [] {
      OthersUntouched(pipes, e, id);
    } else {
      var o := Own(id, e)[0];
      assert Own(id, e) == [o] && !o.Finished?;
      assert Input(pipes[id].fed) + [] == Input(pipes[id].fed);
      OwnStep(pipes, e, id, o, Input(pipes[id].fed));
    }
  }

  /** However the requests are mixed, each pipe does what it would do alone: it is fed the contents of
      its own STDOUT records, in order, and finished by its own END_REQUEST. */
  lemma {:induction false} EachPipeAlone(pipes: Pipes, es: seq<Event>, id: nat, src: seq<byte>)
    requires AllLegal(pipes, es) && id in pipes && IsFed(pipes[id])
    requires src == Input(pipes[id].fed) + Stdout(id, Recs(es))
    ensures id in DispatchAll(pipes, es) && IsRun(pipes[id], OwnAll(id, es), src)
    ensures DispatchAll(pipes, es)[id] == Run(pipes[id], OwnAll(id, es), src)
    decreases |es|
  {
    if es != [] {
      hide IsFed, Dispatch, Legal, Own, Stdout, Ended, Recs, Hears, Input;
      var e := es[0];
      var t := Dispatch(pipes, e);
      OneRecord(id, es);
      if Own(id, e) == [] {
        OthersUntouched(pipes, e, id);
        NothingHeard(id, e);
        assert [] + Stdout(id, Recs(es[1..])) == Stdout(id, Recs(es[1..]));
        EachPipeAlone(t, es[1..], id, src);
        assert OwnAll(id, es) == [] + OwnAll(id, es[1..]) == OwnAll(id, es[1..]);
      } else {
        var o := OwnOne(pipes, es, id, src);
        EachPipeAlone(t, es[1..], id, src);
        Assoc(Input(pipes[id].fed), Hears(id, e), Stdout(id, Recs(es[1..])));
        assert ([o] + OwnAll(id, es[1..]))[1..] == OwnAll(id, es[1..]);
      }
    }
  }

  lemma NothingHeard(id: nat, e: Event)
    requires Own(id, e) == []
    ensures Hears(id, e) == []
  {
  }

  lemma OwnOne(pipes: Pipes, es: seq<Event>, id: nat, src: seq<byte>) returns (o: PipeFlow.Event)
    requires AllLegal(pipes, es) && id in pipes && IsFed(pipes[id]) && es != [] && Own(id, es[0]) != []
    requires src == Input(pipes[id].fed) + Stdout(id, Recs(es))
    ensures Own(id, es[0]) == [o] && Enabled(pipes[id], o, src)
    ensures var t := Dispatch(pipes, es[0]);
            && id in t && t[id] == Step(pipes[id], o, src) && IsFed(t[id])
            && src == Input(t[id].fed) + Stdout(id, Recs(es[1..]))
  {
    var e, later := es[0], Stdout(id, Recs(es[1..]));
    var was := Input(pipes[id].fed);
    o := Own(id, e)[0];
    assert Own(id, e) == [o] && (o.Finished? ==> Hears(id, e) == []) by { OwnIs(pipes, id, e); }
    OneRecord(id, es);
    hide Recs, Stdout, Input, IsFed, Legal, Dispatch, Enabled, Step, Own, Hears;
    Assoc(was, Hears(id, e), later);
    if o.Finished? {
      assert was + [] == was;
      OwnStep(pipes, e, id, o, was);
      DoneHearsNothing(Dispatch(pipes, e), es[1..], id);
      assert src == was;
    }
    OwnStep(pipes, e, id, o, src);
  }

  lemma OwnIs(pipes: Pipes, id: nat, e: Event)
    requires Legal(pipes, e) && Own(id, e) != []
    ensures |Own(id, e)| == 1 && (Own(id, e)[0].Finished? ==> Hears(id, e) == [])
  {
  }

  /** A fed pipe is done when its request has ended, or its client is gone. */
  lemma {:induction false} DoneWhenEnded(pipes: Pipes, es: seq<Event>, id: nat)
    requires AllLegal(pipes, es) && id in pipes && IsFed(pipes[id])
    ensures id in DispatchAll(pipes, es) && IsFed(DispatchAll(pipes, es)[id])
    ensures DispatchAll(pipes, es)[id].inDone
            <==> pipes[id].inDone || Ended(id, Recs(es)) || WriteError in OwnAll(id, es)
    ensures HandedIn(OwnAll(id, es)) == Stdout(id, Recs(es)) && Headers(OwnAll(id, es)) == []
    decreases |es|
  {
    if es == [] {
      assert Recs(es) == [];
    } else {
      hide IsFed, Dispatch, Legal, Stdout, Ended, Recs, Input, Own, Ends, Hears;
      var t := Dispatch(pipes, es[0]);
      OneRecord(id, es);
      DoneStep(pipes, es[0], id);
      DoneWhenEnded(t, es[1..], id);
      OwnHanded(pipes, id, es[0], OwnAll(id, es[1..]));
    }
  }

  lemma DoneStep(pipes: Pipes, e: Event, id: nat)
    requires Legal(pipes, e) && id in pipes && IsFed(pipes[id])
    ensures var t := Dispatch(pipes, e);
            && id in t && IsFed(t[id])
            && (t[id].inDone <==> pipes[id].inDone || Ends(id, e) || WriteError in Own(id, e))
  {
    hide Dispatch, Legal, IsFed, Input;
    if Own(id, e) == [] {
      OthersUntouched(pipes, e, id);
    } else {
      var o := Own(id, e)[0];
      assert Own(id, e) == [o];
      if o.Finished? {
        OwnLegal(pipes, id, e);
      }
      OwnStep(pipes, e, id, o, Input(pipes[id].fed) + Hears(id, e));
    }
  }

  lemma OwnLegal(pipes: Pipes, id: nat, e: Event)
    requires Legal(pipes, e) && Own(id, e) == [Finished] && id in pipes
    ensures Ends(id, e) && Input(pipes[id].fed) + Hears(id, e) == Input(pipes[id].fed)
  {
    assert Hears(id, e) == [];
  }

  lemma OwnHanded(pipes: Pipes, id: nat, e: Event, more: seq<PipeFlow.Event>)
    requires Legal(pipes, e)
    ensures HandedIn(Own(id, e) + more) == Hears(id, e) + HandedIn(more)
    ensures Headers(Own(id, e) + more) == Headers(more)
    ensures WriteError in Own(id, e) + more <==> WriteError in Own(id, e) || WriteError in more
  {
    var own := Own(id, e);
    assert own == [] ==> own + more == more;
    assert own != [] ==> own == [own[0]] && (own + more)[0] == own[0] && (own + more)[1..] == more;
    assert [] + HandedIn(more) == HandedIn(more) && [] + Headers(more) == Headers(more);
  }

  // ---- the socket

  /** A read brings some bytes, or a write of a pipe completes. */
  datatype Arrival = Received(bytes: seq<byte>) | Completed(id: nat, e: PipeFlow.Event)

  function Gots(rs: seq<R.Rec>): seq<Event>
  {
    if rs == [] then [] else [Got(rs[0])] + Gots(rs[1..])
  }

  /** What hin_fcgi_socket_read_callback makes of what arrives: after every read the records that are
      complete by then are dispatched, and the rest is kept. */
  function Dispatched(left: seq<byte>, arrivals: seq<Arrival>): seq<Event>
    decreases |arrivals|
  {
    if arrivals == [] then []
    else
      match arrivals[0]
      case Received(bytes) =>
        Gots(R.Records(left + bytes)) + Dispatched(R.Rest(left + bytes), arrivals[1..])
      case Completed(id, e) => [Kernel(id, e)] + Dispatched(left, arrivals[1..])
  }

  function Reads(arrivals: seq<Arrival>): seq<seq<byte>>
  {
    if arrivals == [] then []
    else (if arrivals[0].Received? then [arrivals[0].bytes] else []) + Reads(arrivals[1..])
  }

  lemma GotFirst(r: R.Rec, es: seq<Event>)
    ensures Recs([Got(r)] + es) == [r] + Recs(es)
  {
    assert ([Got(r)] + es)[1..] == es;
  }

  lemma {:induction false} RecsOfGots(rs: seq<R.Rec>, es: seq<Event>)
    ensures Recs(Gots(rs) + es) == rs + Recs(es)
    decreases |rs|
  {
    if rs == [] {
      assert Gots(rs) + es == es && rs + Recs(es) == Recs(es);
    } else {
      RecsOfGots(rs[1..], es);
      GotFirst(rs[0], Gots(rs[1..]) + es);
      hide Recs;
      Assoc([Got(rs[0])], Gots(rs[1..]), es);
      Assoc([rs[0]], rs[1..], Recs(es));
      assert rs == [rs[0]] + rs[1..];
    }
  }

  lemma {:induction false} RecsOfReads(left: seq<byte>, arrivals: seq<Arrival>)
    ensures Recs(Dispatched(left, arrivals)) == R.Incremental(left, Reads(arrivals)).0
    decreases |arrivals|
  {
    if arrivals != [] {
      hide R.Records, R.Rest;
      var more := arrivals[1..];
      match arrivals[0]
      case Received(bytes) =>
        var s := left + bytes;
        RecsOfReads(R.Rest(s), more);
        RecsOfGots(R.Records(s), Dispatched(R.Rest(s), more));
        assert Reads(arrivals)[0] == bytes && Reads(arrivals)[1..] == Reads(more);
      case Completed(id, e) =>
        RecsOfReads(left, more);
        assert Reads(arrivals) == Reads(more);
        var es := Dispatched(left, more);
        assert ([Kernel(id, e)] + es)[1..] == es;
    }
  }

  /** The records dispatched are those of all bytes, however they were split into reads. */
  lemma RecordsOfAll(left: seq<byte>, arrivals: seq<Arrival>)
    requires !R.HasRecord(left)
    ensures Recs(Dispatched(left, arrivals)) == R.Records(left + Join(Reads(arrivals)))
  {
    RecsOfReads(left, arrivals);
    R.IncrementalIsWhole(left, Reads(arrivals));
  }

  // ---- a whole response

  /** How hin_cgi_headers_read_callback opens a pipe: the response headers, unless it fills a cache
      item, and the part of the body that came with them. */
  function Opening(cached: bool, sz: nat, head: seq<byte>, rest: seq<byte>): seq<PipeFlow.Event>
  {
    (if cached then [] else [Appended(sz, head)]) + (if rest == [] then [] else [Preloaded(rest)]) + [Started]
  }

  function Answering(cfg: Config, cached: bool, sz: nat, head: seq<byte>, rest: seq<byte>): State
  {
    var p := if cached then New(cfg, true) else QueueRaw(New(cfg, true), sz, head);
    PipeSpec.Start(if rest == [] then p else Preload(p, rest))
  }

  /** A pipe for a fed input that has not been started, and has processed `x` */
  predicate Fresh(p: State, x: seq<byte>)
  {
    && Orderly(p) && !p.started && p.inInactive && !p.inDone && !p.closed && !p.broken && !p.cfg.inCount
    && Input(p.fed) == x
  }

  lemma OneEvent(s: State, e: PipeFlow.Event, src: seq<byte>)
    requires Enabled(s, e, src)
    ensures IsRun(s, [e], src) && Run(s, [e], src) == Step(s, e, src)
  {
    hide Enabled, Step;
    assert [e][1..] == [];
  }

  lemma Queueing(cfg: Config, cached: bool, sz: nat, head: seq<byte>, src: seq<byte>)
    requires !cfg.inCount && |head| <= sz
    ensures var n := New(cfg, true);
            var p := if cached then n else QueueRaw(n, sz, head);
            var es: seq<PipeFlow.Event> := if cached then [] else [Appended(sz, head)];
            && IsRun(n, es, src) && Run(n, es, src) == p && Fresh(p, [])
  {
    var n := New(cfg, true);
    if !cached {
      OneEvent(n, Appended(sz, head), src);
    }
  }

  lemma Preloading(p: State, rest: seq<byte>, src: seq<byte>)
    requires Fresh(p, []) && rest <= src
    ensures var q := if rest == [] then p else Preload(p, rest);
            var es: seq<PipeFlow.Event> := if rest == [] then [] else [Preloaded(rest)];
            && IsRun(p, es, src) && Run(p, es, src) == q && Fresh(q, rest)
  {
    if rest != [] {
      assert src[0..] == src;
      OneEvent(p, Preloaded(rest), src);
      OrderlyStep(p, Preloaded(rest), src);
      assert [] + rest == rest;
      PreloadTakes(p, rest);
    }
  }

  lemma PreloadTakes(p: State, data: seq<byte>)
    requires Fresh(p, Input(p.fed))
    ensures var q := Preload(p, data);
            && Input(q.fed) == Input(p.fed) + data && !q.inDone && !q.started && q.inInactive && q.cfg == p.cfg
            && !q.closed && !q.broken
  {
    hide Input, Encode, EncodedSize, Data, Product;
    ProcessShape(p.(nextId := p.nextId + 1), Buf(p.nextId, |data|, data, 0));
    EncodeAllSnoc(p.cfg.encoder, p.fed, Block(data, Preload(p, data).inDone));
  }

  lemma Starting(p: State, x: seq<byte>, src: seq<byte>)
    requires Fresh(p, x)
    ensures var q := Start(p);
            && IsRun(p, [Started], src) && Run(p, [Started], src) == q
            && IsFed(q) && !q.inDone && Input(q.fed) == x
  {
    OneEvent(p, Started, src);
    hide Advance, Input;
    OrderlyStep(p, Started, src);
    AdvanceConsumesNothing(Opened(p));
    OwnerAdvance(Opened(p));
  }

  lemma {:induction false} OwnersParts(a: seq<PipeFlow.Event>, b: seq<PipeFlow.Event>)
    ensures Headers(a + b) == Headers(a) + Headers(b) && HandedIn(a + b) == HandedIn(a) + HandedIn(b)
    decreases |a|
  {
    if a == [] {
      assert a + b == b && [] + Headers(b) == Headers(b) && [] + HandedIn(b) == HandedIn(b);
    } else {
      assert (a + b)[0] == a[0] && (a + b)[1..] == a[1..] + b;
      OwnersParts(a[1..], b);
      Assoc(if a[0].Appended? then a[0].data else [], Headers(a[1..]), Headers(b));
      Assoc(HandedBy(a[0]), HandedIn(a[1..]), HandedIn(b));
    }
  }

  lemma OpeningRuns(cfg: Config, cached: bool, sz: nat, head: seq<byte>, rest: seq<byte>, src: seq<byte>)
    requires !cfg.inCount && |head| <= sz && rest <= src
    ensures var es, p := Opening(cached, sz, head, rest), Answering(cfg, cached, sz, head, rest);
            && IsRun(New(cfg, true), es, src) && Run(New(cfg, true), es, src) == p
            && IsFed(p) && !p.inDone && Input(p.fed) == rest
  {
    var n := New(cfg, true);
    var p := if cached then n else QueueRaw(n, sz, head);
    var q := if rest == [] then p else Preload(p, rest);
    var e1: seq<PipeFlow.Event> := if cached then [] else [Appended(sz, head)];
    var e2: seq<PipeFlow.Event> := if rest == [] then [] else [Preloaded(rest)];
    Queueing(cfg, cached, sz, head, src);
    Preloading(p, rest, src);
    Starting(q, rest, src);
    hide New, QueueRaw, Preload, Start, IsRun, Run, Input, IsFed, Fresh;
    RunJoin(n, e1, e2, src);
    RunJoin(n, e1 + e2, [Started], src);
  }

  lemma OpeningHands(cached: bool, sz: nat, head: seq<byte>, rest: seq<byte>)
    ensures var es := Opening(cached, sz, head, rest);
            Headers(es) == (if cached then [] else head) && HandedIn(es) == rest && WriteError !in es
  {
    var e1: seq<PipeFlow.Event> := if cached then [] else [Appended(sz, head)];
    var e2: seq<PipeFlow.Event> := if rest == [] then [] else [Preloaded(rest)];
    OwnersParts(e1, e2);
    OwnersParts(e1 + e2, [Started]);
    OneHands(Appended(sz, head));
    OneHands(Preloaded(rest));
    OneHands(Started);
    var h := Headers(e1);
    assert h + [] + [] == h && [] + rest + [] == rest;
  }

  lemma OneHands(e: PipeFlow.Event)
    ensures Headers([e]) == (if e.Appended? then e.data else []) && HandedIn([e]) == HandedBy(e)
  {
    assert [e][1..] == [];
    assert HandedBy(e) + [] == HandedBy(e) && Headers([]) == [];
    assert e.Appended? ==> e.data + [] == e.data;
  }

  /** The main result for responses: whatever else is on the socket, however its bytes are split into
      reads, and in every order of reads and completed writes, the input of a request's pipe is the
      body that came with the headers and then the contents of the STDOUT records that carry its id,
      in order. The pipe is done exactly if END_REQUEST came or its client went; if it closes and no
      write failed, END_REQUEST has come and the client has got the headers and that input, encoded;
      and if END_REQUEST came and the kernel has nothing more to complete, the pipe has closed. While
      the pipe runs, nothing waits for END_REQUEST: what was received is sent, being written, or queued
      behind a write in flight, but for a lone buffer that a condensing pipe holds back. */
  lemma ResponseDelivered(pipes: Pipes, left: seq<byte>, arrivals: seq<Arrival>, id: nat,
                          cfg: Config, cached: bool, sz: nat, head: seq<byte>, rest: seq<byte>)
    requires !R.HasRecord(left) && AllLegal(pipes, Dispatched(left, arrivals))
    requires !cfg.inCount && |head| <= sz && id in pipes && pipes[id] == Answering(cfg, cached, sz, head, rest)
    ensures id in DispatchAll(pipes, Dispatched(left, arrivals))
    ensures var p := DispatchAll(pipes, Dispatched(left, arrivals))[id];
            var rs := R.Records(left + Join(Reads(arrivals)));
            var src := rest + Stdout(id, rs);
            && Input(p.fed) == src
            && (p.inDone <==> Ended(id, rs) || p.broken)
            && (cfg.encoder.Raw? ==> EncodeAll(cfg.encoder, p.fed) == src)
            && p.started
            && (!p.closed ==>
                  && Output(p.sent) + Data(p.writing) + Data(p.que)
                     == (if cached then [] else head) + EncodeAll(cfg.encoder, p.fed)
                  && (p.que == [] || p.writing != []
                      || (cfg.condense && !p.inDone && |p.que| == 1 && |p.que[0].data| < p.que[0].sz)))
            && (p.closed && !p.broken ==>
                  Ended(id, rs) && Output(p.sent) == (if cached then [] else head) + EncodeAll(cfg.encoder, p.fed))
            && (Ended(id, rs) && (forall e: PipeFlow.Event | e.Read? || e.Wrote? :: !Enabled(p, e, src)) ==>
                  Released(p) && p.finishes == 1)
  {
    hide IsRun, Run, New, Answering, Opening, Dispatched, DispatchAll, AllLegal, OwnAll, Recs, Stdout, Ended, Reads;
    hide R.Records, R.HasRecord, Input, Output, EncodeAll, Enabled, Released, Headers, HandedIn, Handed, Sound, Longer;
    hide Wanted, Energy, Orderly;
    var es := Dispatched(left, arrivals);
    var rs := R.Records(left + Join(Reads(arrivals)));
    var src := rest + Stdout(id, rs);
    var opening, own := Opening(cached, sz, head, rest), OwnAll(id, es);
    RecordsOfAll(left, arrivals);
    OpeningRuns(cfg, cached, sz, head, rest, src);
    OpeningHands(cached, sz, head, rest);
    EachPipeAlone(pipes, es, id, src);
    DoneWhenEnded(pipes, es, id);
    RunJoin(New(cfg, true), opening, own, src);
    OwnersParts(opening, own);
    var all := opening + own;
    var h := Headers(opening);
    assert h + [] == h;
    BrokenFromNew(cfg, true, all, src);
    FedPipe(cfg, all, src);
    RawBlocks(DispatchAll(pipes, es)[id].fed);
  }

  /** A fed pipe from creation, whose input is what its owner has handed in */
  lemma FedPipe(cfg: Config, events: seq<PipeFlow.Event>, src: seq<byte>)
    requires IsRun(New(cfg, true), events, src) && !cfg.inCount && HandedIn(events) == src
    requires Run(New(cfg, true), events, src).started
    ensures var p := Run(New(cfg, true), events, src);
            && Input(p.fed) == src && (p.closed ==> p.inDone)
            && (!p.closed ==>
                  && Output(p.sent) + Data(p.writing) + Data(p.que) == Headers(events) + EncodeAll(cfg.encoder, p.fed)
                  && (p.que == [] || p.writing != []
                      || (cfg.condense && !p.inDone && |p.que| == 1 && |p.que[0].data| < p.que[0].sz)))
            && (p.closed && !p.broken ==> Output(p.sent) == Headers(events) + EncodeAll(cfg.encoder, p.fed))
            && (p.inDone && (forall e: PipeFlow.Event | e.Read? || e.Wrote? :: !Enabled(p, e, src)) ==>
                  Released(p) && p.finishes == 1)
  {
    hide IsRun, Run, Input, Output, EncodeAll, Enabled, Released, Headers, HandedIn, Sound, Wanted, Energy;
    var p := Reached(cfg, true, events, src);
    SoundParts(p, src);
    SourcedPrefix(p, src);
    OutputIsKeptBusy(cfg, true, events, src);
    assert events + [] == events;
    DoneMeansCloses(cfg, true, events, [], src);
    if p.closed && !p.broken {
      CleanClose(p, src, src);
    }
  }
}
