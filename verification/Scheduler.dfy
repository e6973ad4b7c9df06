/** The FastCGI scheduler as the source runs it: worker_run, write_post, stdin_done and
    socket_continue call each other while socket_continue walks its queue. It refines the plain
    queue of SchedulerSpec. */
module Scheduler {
  import opened Wrappers
  import opened SchedulerSpec

  /** The link of `w` in the queue; a node that was removed has none. */
  function Successor(q: seq<nat>, w: nat): Option<nat>
  {
    if q == [] then None
    else if q[0] == w then (if |q| > 1 then Some(q[1]) else None)
    else Successor(q[1..], w)
  }

  // ---- what a queue run leaves alone

  function Touch(s: State, w: nat, x: Worker, idle: seq<nat>): State
    requires w < |s.workers|
  {
    s.(workers := s.workers[w := x], idle := idle)
  }

  lemma LaunchCommutes(s: State, k: nat, w: nat, x: Worker, idle: seq<nat>)
    requires At(s, k) && Waiting(s, k) && w < |s.workers| && w !in Sock(s, k).que && Sock(s, k).que != []
    ensures var t := Touch(s, w, x, idle);
            && Waiting(t, k) && Launch(t, k) == Touch(Launch(s, k), w, x, idle)
            && Launch(s, k).workers[w] == s.workers[w] && Launch(s, k).idle == s.idle
            && |Launch(s, k).workers| == |s.workers|
  {
    var v := Sock(s, k).que[0];
    var t := Touch(s, w, x, idle);
    assert v != w;
    assert Launch(t, k).workers == Touch(Launch(s, k), w, x, idle).workers;
  }

  /** A worker that does not wait for socket `k`, and the idle list, can be changed before its queue
      runs or after. */
  lemma {:induction false} DrainCommutes(s: State, k: nat, w: nat, x: Worker, idle: seq<nat>)
    requires At(s, k) && Waiting(s, k) && w < |s.workers| && w !in Sock(s, k).que
    ensures var t := Touch(s, w, x, idle); var d := Drain(s, k);
            && Waiting(t, k) && |d.workers| == |s.workers| && d.workers[w] == s.workers[w] && d.idle == s.idle
            && Drain(t, k) == Touch(d, w, x, idle)
    decreases |Sock(s, k).que|
  {
    if !Sock(s, k).busy && Sock(s, k).que != [] {
      LaunchCommutes(s, k, w, x, idle);
      hide Launch;
      DrainCommutes(Launch(s, k), k, w, x, idle);
    }
  }

  /** Whoever waited has begun, or still waits. */
  lemma {:induction false} DrainRuns(s: State, k: nat)
    requires At(s, k) && Waiting(s, k)
    ensures var d := Drain(s, k);
            && |Sock(d, k).que| <= |Sock(s, k).que| && |d.workers| == |s.workers|
            && (forall v :: 0 <= v < |s.workers| && s.workers[v].data ==> d.workers[v].data)
            && (forall v :: v in Sock(s, k).que ==> v in Sock(d, k).que || d.workers[v].data)
    decreases |Sock(s, k).que|
  {
    if !Sock(s, k).busy && Sock(s, k).que != [] {
      var t := Launch(s, k);
      assert t.workers[Sock(s, k).que[0]].data;
      assert forall v :: v in Sock(s, k).que ==> v == Sock(s, k).que[0] || v in Sock(t, k).que;
      DrainRuns(t, k);
    }
  }

  /** Running the first of the queue, with the queue behind it, is running the queue. */
  lemma FirstRuns(s: State, k: nat)
    requires At(s, k) && Waiting(s, k) && !Sock(s, k).busy && Sock(s, k).que != []
    ensures var w, p := Sock(s, k).que[0], Pop(s, k);
            && Has(p, w) && p.workers[w].sock == k && Waiting(p, k) && w !in Sock(p, k).que
            && !Sock(p, k).busy && |Sock(p, k).que| < |Sock(s, k).que|
            && At(Begin(p, w), k) && Waiting(Begin(p, w), k)
            && var d := Drain(Begin(p, w), k);
            && d == Drain(s, k) && Drain(d, k) == d
            && |d.workers| == |s.workers| && |Sock(d, k).que| < |Sock(s, k).que|
            && (forall v :: v in Sock(s, k).que ==> v in Sock(d, k).que || d.workers[v].data)
  {
    DrainRuns(Launch(s, k), k);
    DrainRuns(s, k);
  }

  /** The link is that of the first in the queue; or nobody waits that could run, and it is none or
      that of a worker that has begun. */
  ghost predicate Walk(s: State, k: nat, link: Option<nat>)
  {
    && At(s, k) && Waiting(s, k)
    && (Sock(s, k).busy || Sock(s, k).que == [] || link == Some(Sock(s, k).que[0]))
    && (link.Some? && !Sock(s, k).busy ==>
          link.value < |s.workers| && (Sock(s, k).que == [] ==> s.workers[link.value].data))
  }

  lemma WalkOn(s: State, k: nat)
    requires At(s, k) && Waiting(s, k) && !Sock(s, k).busy && Sock(s, k).que != []
    ensures Walk(Drain(s, k), k, Successor(Sock(s, k).que, Sock(s, k).que[0]))
  {
    DrainRuns(s, k);
    assert |Sock(s, k).que| > 1 ==> Sock(s, k).que[1] in Sock(s, k).que;
  }

  class Group {
    var cur: nat
    var sockets: seq<Option<Socket>>
    var workers: seq<Worker>
    var idle: seq<nat>
    var next: nat

    ghost function Snapshot(): State
      reads this
    {
      State(cur, sockets, workers, idle, next)
    }

    constructor (max: nat)
      ensures Snapshot() == NewGroup(max)
    {
      cur, sockets, workers, idle, next := 0, seq(max, i => None), [], [], 0;
    }

    /** hin_fcgi_get_socket */
    method GetSocket() returns (k: nat)
      requires sockets != []
      modifies this
      ensures Snapshot() == TakeSocket(old(Snapshot())).0 && k == TakeSocket(old(Snapshot())).1
      ensures At(Snapshot(), k)
    {
      k := cur % |sockets|;
      cur := cur + 1;
      if sockets[k].None? {
        sockets := sockets[k := Some(Socket(false, true, [], [], 0, [], []))];
      }
    }

    /** hin_fcgi_get_worker */
    method GetWorker() returns (w: nat)
      requires sockets != [] && (idle != [] ==> idle[0] < |workers|)
      modifies this
      ensures Snapshot() == TakeWorker(old(Snapshot())).0 && w == TakeWorker(old(Snapshot())).1
    {
      if idle != [] {
        w := idle[0];
        idle := idle[1..];
        workers := workers[w := workers[w].(end := false)];
        return;
      }
      var k := GetSocket();
      var sock := sockets[k].value;
      var reqId := sock.last;
      var table := sock.table;
      while reqId + 1 > |table|
        invariant Grow(table, reqId + 1) == Grow(sock.table, reqId + 1)
        decreases reqId + 1 - |table|
      {
        table := table + [None, None, None, None, None];
      }
      w := |workers|;
      sockets := sockets[k := Some(sock.(last := reqId + 1, table := table[reqId := Some(w)]))];
      workers := workers + [Worker(k, reqId, None, false, false, false)];
    }

    /** hin_fcgi_worker_run with hin_fcgi_write_post. A body of which nothing is left is a pipe that
        closes as soon as it is started. */
    method WorkerRun(w: nat)
      requires Has(Snapshot(), w) && Waiting(Snapshot(), workers[w].sock)
      requires w !in Sock(Snapshot(), workers[w].sock).que
      modifies this
      ensures var s := old(Snapshot()); var k := s.workers[w].sock;
              if Sock(s, k).busy then Snapshot() == Enqueue(s, w)
              else Waiting(Begin(s, w), k) && Snapshot() == Drain(Begin(s, w), k)
      decreases |Sock(Snapshot(), workers[w].sock).que|, 3
    {
      ghost var s := Snapshot();
      var x := workers[w];
      var sock := sockets[x.sock].value;
      if sock.busy {
        sockets := sockets[x.sock := Some(sock.(que := sock.que + [w]))];
        return;
      }
      sockets := sockets[x.sock := Some(sock.(busy := true, started := sock.started + Number(x.req)))];
      workers := workers[w := x.(data := true, post := x.req.Some? && x.req.value.post)];
      BeginWaits(s, w);
      if x.req.None? || !x.req.value.post {
        UnbusyIsBegin(s, w, Snapshot());
        StdinDone(w);
      } else if x.req.value.left == 0 {
        UnbusyIsBegin(s, w, Snapshot());
        PostDone(w);
      } else {
        assert Snapshot() == Begin(s, w);
      }
    }

    /** hin_fcgi_stdin_done */
    method StdinDone(w: nat)
      requires Has(Snapshot(), w) && Waiting(Snapshot(), workers[w].sock)
      modifies this
      ensures var s := old(Snapshot()); var k := s.workers[w].sock; Snapshot() == Drain(Unbusy(s, k), k)
      decreases |Sock(Snapshot(), workers[w].sock).que|, 1
    {
      var k := workers[w].sock;
      sockets := sockets[k := Some(sockets[k].value.(busy := false))];
      assert Unbusy(Snapshot(), k).sockets == Snapshot().sockets;
      SocketContinue(k);
    }

    /** hin_fcgi_post_done_callback. The queue runs before the flag of this worker goes. */
    method PostDone(w: nat)
      requires Has(Snapshot(), w) && Waiting(Snapshot(), workers[w].sock)
      requires w !in Sock(Snapshot(), workers[w].sock).que
      modifies this
      ensures var s := old(Snapshot()); var k := s.workers[w].sock;
              Waiting(Settle(s, w), k) && Snapshot() == Drain(Settle(s, w), k)
      decreases |Sock(Snapshot(), workers[w].sock).que|, 2
    {
      ghost var s := Snapshot();
      ghost var k := workers[w].sock;
      ghost var after := Settle(s, w);
      DrainCommutes(Unbusy(s, k), k, w, after.workers[w], after.idle);
      assert Touch(Unbusy(s, k), w, after.workers[w], after.idle) == after;
      StdinDone(w);
      hide Drain, Waiting;
      workers := workers[w := workers[w].(post := false)];
      WorkerReset(w);
      assert Snapshot() == Touch(Drain(Unbusy(s, k), k), w, after.workers[w], after.idle);
    }

    /** hin_fcgi_worker_reset */
    method WorkerReset(w: nat)
      requires w < |workers|
      modifies this
      ensures Snapshot() == Reset(old(Snapshot()), w)
    {
      var x := workers[w];
      if x.post || x.data || x.end {
        return;
      }
      workers := workers[w := x.(end := true, req := None)];
      idle := idle + [w];
    }

    /** hin_fastcgi: a request gets a worker, which runs or is queued. */
    method Submit(post: bool, left: nat)
      requires Inv(Snapshot()) && sockets != []
      modifies this
      ensures Snapshot() == Step(old(Snapshot()), Event.Submit(post, left))
    {
      ghost var s := Snapshot();
      hide Inv;
      TakenHas(s);
      AcceptedWaits(s, post, left);
      hide TakeWorker, Assign, Begin, Enqueue, Launch, Waiting;
      var w := GetWorker();
      SetRequest(w, post, left);
      ghost var u := Snapshot();
      if Sock(u, workers[w].sock).que == [] { RunIsDrain(u, w); }
      WorkerRun(w);
    }

    /** The worker is given the next request, which is now the latest its socket was given. */
    method SetRequest(w: nat, post: bool, left: nat)
      requires Has(Snapshot(), w)
      modifies this
      ensures Snapshot() == Assign(old(Snapshot()), w, post, left)
    {
      var x := workers[w];
      var sock := sockets[x.sock].value;
      sockets := sockets[x.sock := Some(sock.(submitted := sock.submitted + [next]))];
      workers := workers[w := x.(req := Some(Req(next, post, left)))];
      next := next + 1;
    }

    /** hin_fcgi_connect_callback, when the connection is made */
    method Connect(k: nat)
      requires Inv(Snapshot()) && At(Snapshot(), k) && !sockets[k].value.connected
      modifies this
      ensures Snapshot() == Step(old(Snapshot()), Connected(k))
    {
      ghost var s := Snapshot();
      ChangeKeeps(s, Connected(k));
      sockets := sockets[k := Some(sockets[k].value.(connected := true))];
      assert Unbusy(Snapshot(), k).sockets == Change(s, Connected(k)).0.sockets;
      SocketContinue(k);
    }

    /** The pipe that streams the body of `w` closes. */
    method PostFinished(w: nat)
      requires Inv(Snapshot()) && w < |workers| && workers[w].post
      modifies this
      ensures Snapshot() == Step(old(Snapshot()), Event.PostDone(w))
    {
      ghost var s := Snapshot();
      CoreParts(s, w);
      assert SocketOk(s, workers[w].sock);
      NotWaiting(s, workers[w].sock, w);
      hide Inv;
      PostDone(w);
    }

    /** hin_fcgi_pipe_finish_callback: the response of `w` is complete. */
    method PipeFinished(w: nat)
      requires Inv(Snapshot()) && w < |workers| && workers[w].data
      modifies this
      ensures Snapshot() == Step(old(Snapshot()), ResponseDone(w))
    {
      hide Inv;
      workers := workers[w := workers[w].(data := false, req := None)];
      WorkerReset(w);
    }

    /** hin_fcgi_socket_continue. While a worker runs, the nested calls may empty the queue behind
        the walk; the link it holds then belongs to a worker that has begun, and is passed over. */
    method SocketContinue(k: nat)
      requires At(Snapshot(), k) && Waiting(Snapshot(), k)
      modifies this
      ensures Snapshot() == Drain(Unbusy(old(Snapshot()), k), k)
      decreases |Sock(Snapshot(), k).que|, 0
    {
      sockets := sockets[k := Some(sockets[k].value.(busy := false))];
      ghost var s := Snapshot();
      var link: Option<nat> := if sockets[k].value.que == [] then None else Some(sockets[k].value.que[0]);
      while link.Some? && !sockets[k].value.busy
        invariant Walk(Snapshot(), k, link) && Drain(Snapshot(), k) == Drain(s, k)
        invariant |sockets[k].value.que| <= |Sock(s, k).que|
        decreases |sockets[k].value.que|, link.Some?
      {
        var w := link.value;
        ghost var now := Snapshot();
        link := Successor(sockets[k].value.que, w);
        if !workers[w].data {
          FirstRuns(now, k);
          WalkOn(now, k);
          sockets := sockets[k := Some(sockets[k].value.(que := sockets[k].value.que[1..]))];
          assert Snapshot() == Pop(now, k);
          hide Pop, Begin, Drain, Waiting, Successor, Walk;
          WorkerRun(w);
        }
      }
    }
  }

  lemma AcceptedWaits(s: State, post: bool, left: nat)
    requires Inv(s) && s.sockets != []
    requires s.idle != [] ==> s.idle[0] < |s.workers|
    ensures var (t, w) := TakeWorker(s);
            && Has(t, w)
            && var u := Assign(t, w, post, left); var k := t.workers[w].sock;
            && Has(u, w) && u.workers[w].sock == k && Waiting(u, k) && w !in Sock(u, k).que
            && (Sock(u, k).busy || Sock(u, k).que == [])
            && Waiting(Enqueue(u, w), k) && Accept(s, post, left) == (Enqueue(u, w), w)
  {
    hide Inv, Grow, Core, Waiting;
    TakenHas(s);
    ChangeKeeps(s, Submit(post, left));
    var (t, w) := TakeWorker(s);
    NobodyWaits(s);
    BehindTheQueue(Assign(t, w, post, left), w);
  }

  lemma BehindTheQueue(u: State, w: nat)
    requires Has(u, w) && Waiting(Enqueue(u, w), u.workers[w].sock)
    ensures Waiting(u, u.workers[w].sock) && w !in Sock(u, u.workers[w].sock).que
  {
    var k := u.workers[w].sock;
    var q := Sock(Enqueue(u, w), k).que;
    assert q == Sock(u, k).que + [w];
    assert forall i :: 0 <= i < |Sock(u, k).que| ==> Sock(u, k).que[i] == q[i];
    assert q[|q| - 1] == w;
  }

  lemma NobodyWaits(s: State)
    requires Inv(s) && s.sockets != [] && (s.idle != [] ==> s.idle[0] < |s.workers|)
    ensures var (t, w) := TakeWorker(s); Has(t, w) ==> var x := Sock(t, t.workers[w].sock); x.busy || x.que == []
  {
    hide Core;
  }

  lemma RunIsDrain(u: State, w: nat)
    requires Has(u, w) && Waiting(u, u.workers[w].sock) && w !in Sock(u, u.workers[w].sock).que
    requires Waiting(Enqueue(u, w), u.workers[w].sock) && Sock(u, u.workers[w].sock).que == []
    ensures Launch(Enqueue(u, w), u.workers[w].sock) == Begin(u, w)
  {
    var k := u.workers[w].sock;
    assert Sock(Pop(Enqueue(u, w), k), k).que == [];
    assert Pop(Enqueue(u, w), k).sockets == u.sockets;
  }

  lemma BeginWaits(s: State, w: nat)
    requires Has(s, w) && Waiting(s, s.workers[w].sock) && w !in Sock(s, s.workers[w].sock).que
    ensures Waiting(Begin(s, w), s.workers[w].sock)
  {
  }

  /** When the socket is given back, the state is the one in which the next may begin. */
  lemma UnbusyIsBegin(s: State, w: nat, t: State)
    requires Has(s, w) && Has(t, w) && !Uploads(s.workers[w].req)
    requires var x := s.workers[w]; var k := Sock(s, x.sock);
             t == SetSock(SetWorker(s, w, x.(data := true, post := x.req.Some? && x.req.value.post)), x.sock,
                          k.(busy := true, started := k.started + Number(x.req)))
    ensures !t.workers[w].post ==> Unbusy(t, s.workers[w].sock) == Begin(s, w)
    ensures t.workers[w].post ==> Settle(t, w) == Begin(s, w)
  {
  }
}
