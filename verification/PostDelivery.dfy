/** A POST request on its way to a FastCGI application: what the application reads back, for every
    schedule of reads and writes (sections 3.3 and 5.3 of the FastCGI Specification 1.0). */
module PostDelivery {
  import opened Bytes
  import opened Encoders
  import opened PipeSpec
  import opened PipeFlow
  import opened PipeLive
  import opened PipeTheorems
  import opened PipeRuns
  import opened Delivery
  import CT = ChunkedTrip
  import R = FcgiRecords
  import Q = FcgiRequest
  import HC = HeaderChain
  import OS = OneSocket
  import NV = NameValue

  // ---- FastCGI standard input

  /** The STDIN records of one block: its bytes if any, and an empty record if it is the last. */
  function BlockRecords(id: nat, b: Block): seq<R.Rec>
  {
    (if b.data == [] then [] else [R.Rec(FCGI_STDIN, id, b.data)])
    + (if b.flush then [R.Rec(FCGI_STDIN, id, [])] else [])
  }

  function StdinRecords(id: nat, blocks: seq<Block>): seq<R.Rec>
  {
    if blocks == [] then []
    else StdinRecords(id, blocks[..|blocks| - 1]) + BlockRecords(id, blocks[|blocks| - 1])
  }

  function Contents(rs: seq<R.Rec>): seq<byte>
  {
    if rs == [] then [] else Contents(rs[..|rs| - 1]) + rs[|rs| - 1].content
  }

  lemma {:induction false} WriteAllAppend(a: seq<R.Rec>, b: seq<R.Rec>)
    ensures R.WriteAll(a + b) == R.WriteAll(a) + R.WriteAll(b)
    decreases |a|
  {
    hide R.Write;
    if a == [] {
      assert a + b == b;
    } else {
      assert (a + b)[1..] == a[1..] + b;
      WriteAllAppend(a[1..], b);
    }
  }

  lemma {:induction false} ContentsAppend(a: seq<R.Rec>, b: seq<R.Rec>)
    ensures Contents(a + b) == Contents(a) + Contents(b)
    decreases |b|
  {
    if b == [] {
      assert a + b == a;
    } else {
      assert (a + b)[..|a + b| - 1] == a + b[..|b| - 1];
      ContentsAppend(a, b[..|b| - 1]);
    }
  }

  lemma BlockWrites(id: nat, b: Block)
    ensures R.WriteAll(BlockRecords(id, b)) == StdinBlock(id, b.data, b.flush)
    ensures Contents(BlockRecords(id, b)) == b.data
  {
    hide Record;
    var x, y := R.Rec(FCGI_STDIN, id, b.data), R.Rec(FCGI_STDIN, id, []);
    R.OneRecord(x);
    R.OneRecord(y);
    OneContent(x);
    OneContent(y);
    WriteAllAppend(if b.data == [] then [] else [x], if b.flush then [y] else []);
    ContentsAppend(if b.data == [] then [] else [x], if b.flush then [y] else []);
    assert R.WriteAll([]) == [] && Contents([]) == [];
  }

  lemma OneContent(r: R.Rec)
    ensures Contents([r]) == r.content
  {
    assert [r][..0] == [] && [] + r.content == r.content;
  }

  lemma {:induction false} StdinStream(id: nat, blocks: seq<Block>)
    ensures EncodeAll(Stdin(id), blocks) == R.WriteAll(StdinRecords(id, blocks))
    ensures Contents(StdinRecords(id, blocks)) == Input(blocks)
  {
    hide StdinBlock, BlockRecords;
    if blocks != [] {
      var n := |blocks| - 1;
      StdinStream(id, blocks[..n]);
      hide R.WriteAll, Contents;
      var rs, more := StdinRecords(id, blocks[..n]), BlockRecords(id, blocks[n]);
      WriteAllAppend(rs, more);
      ContentsAppend(rs, more);
      BlockWrites(id, blocks[n]);
    }
  }

  /** Records of standard input, the empty one only as the last and exactly if `complete`. */
  predicate StdinShape(id: nat, rs: seq<R.Rec>, complete: bool)
  {
    && (forall i :: 0 <= i < |rs| ==> rs[i].kind == 5 && rs[i].reqId == id && |rs[i].content| <= READ_SZ)
    && (forall i :: 0 <= i < |rs| ==> (rs[i].content == [] <==> complete && i == |rs| - 1))
    && (complete ==> rs != [])
  }

  lemma ShapeGrows(id: nat, rs: seq<R.Rec>, b: Block)
    requires StdinShape(id, rs, false) && |b.data| <= READ_SZ
    ensures StdinShape(id, rs + BlockRecords(id, b), b.flush)
  {
  }

  lemma {:induction false} StdinShaped(id: nat, blocks: seq<Block>)
    requires BlocksWithin(blocks, READ_SZ) && forall i :: 0 <= i < |blocks| - 1 ==> !blocks[i].flush
    ensures StdinShape(id, StdinRecords(id, blocks), CT.Complete(blocks))
  {
    if blocks != [] {
      hide StdinShape, BlockRecords;
      var n := |blocks| - 1;
      StdinShaped(id, blocks[..n]);
      assert !CT.Complete(blocks[..n]);
      ShapeGrows(id, StdinRecords(id, blocks[..n]), blocks[n]);
    }
  }

  /** What the STDIN encoder writes are records: their contents join to the input, they carry the
      request's id, and an empty one appears exactly once, as the last, if the blocks are complete,
      and otherwise not at all. */
  lemma StdinWritesRecords(id: nat, blocks: seq<Block>)
    requires BlocksWithin(blocks, READ_SZ) && forall i :: 0 <= i < |blocks| - 1 ==> !blocks[i].flush
    ensures var rs := StdinRecords(id, blocks);
            && EncodeAll(Stdin(id), blocks) == R.WriteAll(rs)
            && Contents(rs) == Input(blocks)
            && StdinShape(id, rs, CT.Complete(blocks))
  {
    StdinStream(id, blocks);
    StdinShaped(id, blocks);
  }

  /** A POST body streamed to a FastCGI application: whatever the schedule, the application reads
      back from the output `out` STDIN records of this request whose contents are exactly the part
      of the body that was still to come, and it gets the empty record that ends standard input
      exactly if some of the body was still to come when the pipe started. */
  lemma PostBodyDelivered(cfg: Config, events: seq<Event>, src: seq<byte>, out: seq<byte>)
    requires cfg.encoder.Stdin? && cfg.encoder.reqId < 65536 && cfg.inCount
    requires IsRun(New(cfg, false), events, src)
    requires OnlyKernel(events)
    requires var t := Run(New(cfg, false), events, src); t.closed && !t.broken && out == Output(t.sent)
    ensures var rs := R.Records(out);
            && R.Rest(out) == [] && R.VersionOne(out) && Contents(rs) == Wanted(cfg, src)
            && (forall i :: 0 <= i < |rs| ==> rs[i].kind == 5 && rs[i].reqId == cfg.encoder.reqId)
            && (forall i :: 0 <= i < |rs| ==> (rs[i].content == [] <==> 0 < cfg.left0 && i == |rs| - 1))
            && (0 < cfg.left0 ==> rs != [])
  {
    hide Step, Enabled, Output, EncodeAll, Input, StdinRecords, Contents, Wanted, Run, IsRun;
    hide R.WriteAll, R.Records, R.Rest, R.VersionOne;
    var t := ClosedCleanly(cfg, false, events, src);
    var _ := SilentOrFlushed(cfg, false, events, src);
    SoundNew(cfg, false, src);
    BlocksWithinRun(New(cfg, false), events, src, READ_SZ);
    NothingFromOwners(events);
    assert out == EncodeAll(cfg.encoder, t.fed);
    StdinWritesRecords(cfg.encoder.reqId, t.fed);
    R.WriteAllReadsBack(StdinRecords(cfg.encoder.reqId, t.fed));
    R.WrittenVersionOne(StdinRecords(cfg.encoder.reqId, t.fed));
  }

  lemma {:induction false} NothingFromOwners(events: seq<Event>)
    requires OnlyKernel(events)
    ensures Headers(events) == [] && HandedIn(events) == [] && !AnyProcessed(events)
  {
    if events != [] {
      NothingFromOwners(events[1..]);
    }
  }

  /** The STDIN contents among some records */
  function StdinContents(rs: seq<R.Rec>): seq<byte>
  {
    if rs == [] then []
    else StdinContents(rs[..|rs| - 1]) + (if rs[|rs| - 1].kind == FCGI_STDIN then rs[|rs| - 1].content else [])
  }

  lemma StdinContentsSnoc(rs: seq<R.Rec>, r: R.Rec)
    requires r.kind == FCGI_STDIN
    ensures StdinContents(rs + [r]) == StdinContents(rs) + r.content
  {
    assert (rs + [r])[..|rs|] == rs;
  }

  lemma {:induction false} StdinContentsAppend(a: seq<R.Rec>, b: seq<R.Rec>)
    requires forall i :: 0 <= i < |b| ==> b[i].kind == FCGI_STDIN
    ensures StdinContents(a + b) == StdinContents(a) + Contents(b)
    decreases |b|
  {
    if b == [] {
      assert a + b == a;
    } else {
      var n := |b| - 1;
      var c, d := b[..n], b[n];
      assert b == c + [d] && a + b == a + c + [d] && forall i :: 0 <= i < n ==> c[i] == b[i];
      StdinContentsAppend(a, c);
      StdinContentsSnoc(a + c, d);
      hide StdinContents;
      assert Contents(b) == Contents(c) + d.content;
    }
  }

  lemma HeadContents(id: nat, reuse: bool, ps: seq<NV.Pair>, first: seq<byte>)
    ensures StdinContents(Q.RequestRecords(id, reuse, ps, Q.Body(first))) == first
  {
    var rs := Q.RequestRecords(id, reuse, ps, Q.Body(first));
    var head := rs[..3];
    assert rs == head + Q.StdinPart(id, Q.Body(first));
    assert head[..2][..1][..0] == [];
    assert StdinContents(head) == [] by {
      assert StdinContents(head[..2][..1]) == [];
      assert StdinContents(head[..2]) == [];
    }
    StdinContentsAppend(head, Q.StdinPart(id, Q.Body(first)));
    OneContent(R.Rec(FCGI_STDIN, id, first));
  }

  /** What an application should read: the records of the request, and then STDIN records whose
      contents, with those among the first, are the first `postSz` bytes of the body; the record that
      ends standard input is the last one if the headers did not bring all of the body, and otherwise
      it does not come. */
  ghost predicate Delivered(bytes: seq<byte>, id: nat, reuse: bool, ps: seq<NV.Pair>, first: seq<byte>,
                            src: seq<byte>, postSz: nat)
  {
    var rs := R.Records(bytes);
    && Q.RequestRecords(id, reuse, ps, Q.Body(first)) <= rs && R.Rest(bytes) == []
    && StdinContents(rs) == (first + src)[..Min(postSz, |first + src|)]
    && (|first| < postSz <==> (exists i :: 0 <= i < |rs| && rs[i] == R.Rec(5, id, [])))
    && (|first| < postSz ==> rs[|rs| - 1] == R.Rec(5, id, []))
  }

  /** A request's records and then a clean pipe's output. */
  lemma ChainThenPipeReadsBack(cfg: Config, events: seq<Event>, src: seq<byte>, out: seq<byte>,
                               reuse: bool, ps: seq<NV.Pair>, first: seq<byte>, postSz: nat)
    requires cfg.encoder.Stdin? && cfg.encoder.reqId < 65536 && cfg.inCount
    requires |first| <= postSz && cfg.left0 == postSz - |first| && |first| < 65536
    requires |NV.Params(ps)| < 65536 && forall i :: 0 <= i < |ps| ==> |ps[i].value| < 0x80000000
    requires IsRun(New(cfg, false), events, src)
    requires OnlyKernel(events)
    requires var t := Run(New(cfg, false), events, src); t.closed && !t.broken && out == Output(t.sent)
    ensures var head := Q.RequestRecords(cfg.encoder.reqId, reuse, ps, Q.Body(first));
            Delivered(R.WriteAll(head) + out, cfg.encoder.reqId, reuse, ps, first, src, postSz)
  {
    hide Run, IsRun, New, Output, R.Records, R.Rest, R.WriteAll, NV.Params, NV.Decode, NV.Kept, Contents, StdinContents;
    var id := cfg.encoder.reqId;
    var head := Q.RequestRecords(id, reuse, ps, Q.Body(first));
    Q.RequestReadsBack(id, reuse, ps, Q.Body(first));
    PostBodyDelivered(cfg, events, src, out);
    R.SplitAnywhere(R.WriteAll(head), out);
    assert [] + out == out;
    var tail := R.Records(out);
    StdinContentsAppend(head, tail);
    HeadContents(id, reuse, ps, first);
    var rs := head + tail;
    assert rs == R.Records(R.WriteAll(head) + out);
    if |first| < postSz {
      assert rs[|rs| - 1] == tail[|tail| - 1];
    }
  }

  /** A whole POST request, its chain and its pipe on one socket: the application reads what it should
      if the headers brought all of the body, and otherwise if nothing of the pipe is accepted before
      all of the chain is, which nothing in the code sees to (`Overtaking.PostRequestExactly`). */
  lemma PostRequestDelivered(bufs: seq<HC.Buf>, cfg: Config, events: seq<OS.SocketEvent>, src: seq<byte>,
                             reuse: bool, ps: seq<NV.Pair>, first: seq<byte>, postSz: nat)
    requires cfg.encoder.Stdin? && cfg.encoder.reqId < 65536 && cfg.inCount
    requires |first| <= postSz && cfg.left0 == postSz - |first| && |first| < 65536
    requires |NV.Params(ps)| < 65536 && forall i :: 0 <= i < |ps| ==> |ps[i].value| < 0x80000000
    requires HC.Sendable(bufs)
    requires HC.Joined(bufs) == R.WriteAll(Q.RequestRecords(cfg.encoder.reqId, reuse, ps, Q.Body(first)))
    requires OS.IsSocketRun(OS.Begin(bufs, cfg), events, src) && OnlyKernel(OS.PipeEvents(events))
    requires var t := OS.SocketRun(OS.Begin(bufs, cfg), events, src);
             t.chain.done && t.pipe.closed && !t.pipe.broken
    requires |first| == postSz || OS.ChainFirst(OS.Begin(bufs, cfg), events, src)
    ensures var bytes := OS.Read(OS.SocketRun(OS.Begin(bufs, cfg), events, src).wire);
            Delivered(bytes, cfg.encoder.reqId, reuse, ps, first, src, postSz)
  {
    var j := OS.Begin(bufs, cfg);
    if |first| == postSz {
      OS.NothingStreamed(j, events, src);
    }
    hide OS.IsSocketRun, OS.SocketRun, OS.ChainFirst, OS.Rets, OS.PipeEvents, OS.Read, OS.FromChain, OS.FromPipe;
    hide HC.Joined, R.WriteAll, Q.RequestRecords, NV.Params, Delivered, Output, OnlyKernel, Run, IsRun;
    var t := OS.SocketRun(j, events, src);
    OS.InOrderExactly(bufs, cfg, events, src);
    OS.EachOnItsOwn(j, events, src);
    OS.ReadInOrder(HC.Joined(bufs), Output(t.pipe.sent));
    ChainThenPipeReadsBack(cfg, OS.PipeEvents(events), src, Output(t.pipe.sent), reuse, ps, first, postSz);
  }
}
