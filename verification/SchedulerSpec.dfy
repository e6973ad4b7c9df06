/** Scheduling FastCGI requests on the sockets of a group, as a state machine (src/http/cgi/
    fcgi_worker.c, fcgi_socket.c, fcgi_write.c and fcgi_post.c). Only one request may upload on a
    socket at a time; the others wait in its queue. */
module SchedulerSpec {
  import opened Wrappers

  /** Request number `no`; `left` is how much of a POST body is still to be read from the client. */
  datatype Req = Req(no: nat, post: bool, left: nat)

  /** The bits HIN_REQ_POST, HIN_REQ_DATA and HIN_REQ_END of io_state are `post`, `data`, `end`. */
  datatype Worker = Worker(sock: nat, reqId: nat, req: Option<Req>, post: bool, data: bool, end: bool)

  /** `table` and `last` are the worker array and last_worker. `submitted` and `started` record the
      numbers of the requests given to this socket and of those that have begun. */
  datatype Socket = Socket(connected: bool, busy: bool, que: seq<nat>, table: seq<Option<nat>>, last: nat,
                           submitted: seq<nat>, started: seq<nat>)

  /** A group that keeps its sockets; workers are numbered in the order they were created. */
  datatype State = State(cur: nat, sockets: seq<Option<Socket>>, workers: seq<Worker>, idle: seq<nat>, next: nat)

  function NewGroup(max: nat): (s: State)
    ensures Inv(s)
  {
    State(0, seq(max, i => None), [], [], 0)
  }

  /** There is a socket at place `k`. */
  predicate At(s: State, k: nat) { k < |s.sockets| && s.sockets[k].Some? }

  function Sock(s: State, k: nat): Socket
    requires At(s, k)
  {
    s.sockets[k].value
  }

  function SetSock(s: State, k: nat, x: Socket): (t: State)
    requires At(s, k)
    ensures At(t, k) && Sock(t, k) == x
  {
    s.(sockets := s.sockets[k := Some(x)])
  }

  /** A worker, and the socket it belongs to */
  predicate Has(s: State, w: nat) { w < |s.workers| && At(s, s.workers[w].sock) }

  function SetWorker(s: State, w: nat, x: Worker): State
    requires w < |s.workers|
  {
    s.(workers := s.workers[w := x])
  }

  // ---- starting requests

  function Uploads(r: Option<Req>): bool { r.Some? && r.value.post && 0 < r.value.left }

  function Number(r: Option<Req>): seq<nat> { if r.Some? then [r.value.no] else [] }

  /** hin_fcgi_worker_run on a free socket, up to the point where another may begin: without a body
      to stream the socket is free again at once. */
  function Begin(s: State, w: nat): State
    requires Has(s, w)
  {
    var x := s.workers[w];
    var k := Sock(s, x.sock);
    SetSock(SetWorker(s, w, x.(data := true, post := Uploads(x.req))), x.sock,
            k.(busy := Uploads(x.req), started := k.started + Number(x.req)))
  }

  function Pop(s: State, k: nat): State
    requires At(s, k) && Sock(s, k).que != []
  {
    SetSock(s, k, Sock(s, k).(que := Sock(s, k).que[1..]))
  }

  /** The workers that wait for socket `k` are its own, and have not begun. */
  predicate Waiting(s: State, k: nat)
    requires At(s, k)
  {
    var q := Sock(s, k).que;
    && (forall i :: 0 <= i < |q| ==> q[i] < |s.workers| && s.workers[q[i]].sock == k && !s.workers[q[i]].data)
    && (forall i, j :: 0 <= i < j < |q| ==> q[i] != q[j])
  }

  /** The first in the queue begins. */
  function Launch(s: State, k: nat): (t: State)
    requires At(s, k) && Waiting(s, k) && Sock(s, k).que != []
    ensures At(t, k) && Waiting(t, k) && Sock(t, k).que == Sock(s, k).que[1..]
  {
    var w := Sock(s, k).que[0];
    Begin(Pop(s, k), w)
  }

  /** hin_fcgi_socket_continue, told as a plain queue: start them in order until one uploads. */
  function Drain(s: State, k: nat): (t: State)
    requires At(s, k) && Waiting(s, k)
    ensures At(t, k) && Waiting(t, k) && (Sock(t, k).busy || Sock(t, k).que == [])
    decreases |Sock(s, k).que|
  {
    if Sock(s, k).busy || Sock(s, k).que == [] then s else Drain(Launch(s, k), k)
  }

  function Unbusy(s: State, k: nat): State
    requires At(s, k)
  {
    SetSock(s, k, Sock(s, k).(busy := false))
  }

  function Enqueue(s: State, w: nat): State
    requires Has(s, w)
  {
    var k := Sock(s, s.workers[w].sock);
    SetSock(s, s.workers[w].sock, k.(que := k.que + [w]))
  }

  // ---- taking a worker

  /** Five places at a time */
  function Grow(table: seq<Option<nat>>, last: nat): (t: seq<Option<nat>>)
    ensures last <= |t| && |table| <= |t| && t[..|table|] == table
    ensures forall i :: |table| <= i < |t| ==> t[i] == None
    decreases last - |table|
  {
    if last > |table| then Grow(table + [None, None, None, None, None], last) else table
  }

  /** hin_fcgi_get_socket: the places are used in turn, and a new socket is busy connecting. */
  function TakeSocket(s: State): (State, nat)
    requires s.sockets != []
  {
    var k := s.cur % |s.sockets|;
    var t := s.(cur := s.cur + 1);
    if s.sockets[k].Some? then (t, k)
    else (t.(sockets := s.sockets[k := Some(Socket(false, true, [], [], 0, [], []))]), k)
  }

  /** hin_fcgi_get_worker */
  function TakeWorker(s: State): (State, nat)
    requires s.sockets != [] && (s.idle != [] ==> s.idle[0] < |s.workers|)
  {
    if s.idle != [] then
      var w := s.idle[0];
      (SetWorker(s, w, s.workers[w].(end := false)).(idle := s.idle[1..]), w)
    else
      var (t, k) := TakeSocket(s);
      var x := Sock(t, k);
      var w := |s.workers|;
      var table := Grow(x.table, x.last + 1);
      (SetSock(t, k, x.(last := x.last + 1, table := table[x.last := Some(w)]))
         .(workers := s.workers + [Worker(k, x.last, None, false, false, false)]), w)
  }

  /** The request is handed to the worker: hin_fastcgi. */
  function Assign(s: State, w: nat, post: bool, left: nat): State
    requires Has(s, w)
  {
    var x := s.workers[w];
    var t := SetSock(s, x.sock, Sock(s, x.sock).(submitted := Sock(s, x.sock).submitted + [s.next]));
    SetWorker(t, w, x.(req := Some(Req(s.next, post, left)))).(next := s.next + 1)
  }

  // ---- finishing

  /** hin_fcgi_worker_reset */
  function Reset(s: State, w: nat): State
    requires w < |s.workers|
  {
    var x := s.workers[w];
    if x.post || x.data || x.end then s
    else SetWorker(s, w, x.(end := true, req := None)).(idle := s.idle + [w])
  }

  /** The body of `w` has been sent: its flag goes, the worker is reset, and the socket is free. */
  function Settle(s: State, w: nat): State
    requires Has(s, w)
  {
    Unbusy(Reset(SetWorker(s, w, s.workers[w].(post := false)), w), s.workers[w].sock)
  }

  /** The response of `w` is complete. */
  function Answered(s: State, w: nat): State
    requires w < |s.workers|
  {
    Reset(SetWorker(s, w, s.workers[w].(data := false, req := None)), w)
  }

  // ---- what every state keeps

  /** Worker `w` is in the table of its socket under its id; it is idle, waiting in the queue of its
      socket, or running, and its flags say which; and it uploads only on a busy socket. */
  predicate WorkerOk(s: State, w: nat)
  {
    && Has(s, w)
    && var x := s.workers[w]; var k := Sock(s, x.sock);
    && x.reqId < k.last <= |k.table| && k.table[x.reqId] == Some(w)
    && (x.end ==> w in s.idle && !x.post && !x.data)
    && (!x.end && !x.post && !x.data ==> w in k.que)
    && (x.post ==> k.busy)
    && (x.post || x.data ==> k.connected)
  }

  /** The queue of socket `k` holds workers of its own that have not begun; what has begun, and then
      what waits, is what was submitted, in order; and BUSY is set exactly while the socket
      connects or a worker uploads on it. */
  ghost predicate SocketOk(s: State, k: nat)
  {
    At(s, k) ==>
      && Waiting(s, k)
      && Ordered(s, Sock(s, k))
      && Sock(s, k).last <= |Sock(s, k).table|
      && (if Sock(s, k).connected then Sock(s, k).busy ==> Uploader(s, k) else Sock(s, k).busy)
  }

  predicate Ordered(s: State, x: Socket)
  {
    && |x.started| + |x.que| == |x.submitted|
    && x.started == x.submitted[..|x.started|]
    && (forall i :: 0 <= i < |x.que| ==> Queued(s, x.que[i], x.submitted[|x.started| + i]))
  }

  /** Worker `w` waits with request number `no`. */
  predicate Queued(s: State, w: nat, no: nat)
  {
    && w < |s.workers|
    && var x := s.workers[w];
    !x.post && !x.data && !x.end && x.req.Some? && x.req.value.no == no
  }

  ghost predicate Uploader(s: State, k: nat)
  {
    exists w :: 0 <= w < |s.workers| && UploadsOn(s, w, k)
  }

  predicate UploadsOn(s: State, w: nat, k: nat)
    requires w < |s.workers|
  {
    s.workers[w].sock == k && s.workers[w].post
  }

  predicate IdleOk(s: State, i: nat)
    requires i < |s.idle|
  {
    s.idle[i] < |s.workers| && s.workers[s.idle[i]].end
  }

  /** Two workers do not upload on one socket. */
  predicate Apart(s: State, w: nat, v: nat)
    requires w < |s.workers| && v < |s.workers|
  {
    s.workers[w].post && s.workers[v].post ==> s.workers[w].sock != s.workers[v].sock
  }

  ghost predicate Core(s: State)
  {
    && (forall w :: 0 <= w < |s.workers| ==> WorkerOk(s, w))
    && (forall k :: 0 <= k < |s.sockets| ==> SocketOk(s, k))
    && (forall i :: 0 <= i < |s.idle| ==> IdleOk(s, i))
    && (forall i, j :: 0 <= i < j < |s.idle| ==> s.idle[i] != s.idle[j])
    && (forall w, v :: 0 <= w < v < |s.workers| ==> Apart(s, w, v))
  }

  /** No request waits for a socket that is free. */
  predicate Waits(s: State)
  {
    forall k :: 0 <= k < |s.sockets| ==> s.sockets[k].None? || s.sockets[k].value.que == [] || s.sockets[k].value.busy
  }

  ghost predicate Inv(s: State) { Core(s) && Waits(s) }

  // ---- taking a worker keeps it

  /** A request is submitted: a worker is found for it, and queued. */
  function Accept(s: State, post: bool, left: nat): (State, nat)
    requires Inv(s) && s.sockets != []
  {
    TakenHas(s);
    var (t, w) := TakeWorker(s);
    (Enqueue(Assign(t, w, post, left), w), w)
  }

  lemma TakenHas(s: State)
    requires Inv(s) && s.sockets != []
    ensures (s.idle != [] ==> s.idle[0] < |s.workers|) && var (t, w) := TakeWorker(s); Has(t, w)
  {
    if s.idle != [] {
      assert IdleOk(s, 0);
      assert WorkerOk(s, s.idle[0]);
    }
  }

  lemma SocketTaken(s: State)
    requires Inv(s) && s.sockets != []
    ensures var (t, k) := TakeSocket(s);
            Core(t) && At(t, k) && t.workers == s.workers && t.idle == s.idle && t.next == s.next
  {
    var (t, k) := TakeSocket(s);
    forall w | 0 <= w < |t.workers| ensures WorkerOk(t, w) {
      assert WorkerOk(s, w);
    }
    forall i | 0 <= i < |t.sockets| ensures SocketOk(t, i) {
      assert SocketOk(s, i);
      if At(s, i) && Uploader(s, i) {
        var w :| 0 <= w < |s.workers| && UploadsOn(s, w, i);
        assert UploadsOn(t, w, i);
      }
    }
    forall i | 0 <= i < |t.idle| ensures IdleOk(t, i) {
      assert IdleOk(s, i);
    }
    forall w, v | 0 <= w < v < |t.workers| ensures Apart(t, w, v) {
      assert Apart(s, w, v);
    }
  }

  lemma IdleAcceptedWorker(s: State, post: bool, left: nat, v: nat)
    requires Inv(s) && s.sockets != [] && s.idle != [] && v < |s.workers|
    ensures WorkerOk(Accept(s, post, left).0, v)
  {
    TakenHas(s);
    assert IdleOk(s, 0) && WorkerOk(s, s.idle[0]) && WorkerOk(s, v);
    assert v in s.idle ==> v == s.idle[0] || v in s.idle[1..];
  }

  /** A change of worker `w` does not touch a socket that `w` does not wait for or upload on. */
  lemma SocketKept(s: State, t: State, k: nat, w: nat)
    requires SocketOk(s, k) && k < |s.sockets| && k < |t.sockets| && t.sockets[k] == s.sockets[k]
    requires |s.workers| <= |t.workers|
    requires forall v :: 0 <= v < |s.workers| && v != w ==> t.workers[v] == s.workers[v]
    requires At(s, k) ==> w !in Sock(s, k).que
    requires w < |s.workers| && UploadsOn(s, w, k) ==> UploadsOn(t, w, k)
    ensures SocketOk(t, k)
  {
    if At(s, k) {
      var x := Sock(s, k);
      forall i | 0 <= i < |x.que| ensures Queued(t, x.que[i], x.submitted[|x.started| + i]) {
        assert Queued(s, x.que[i], x.submitted[|x.started| + i]);
      }
      if Uploader(s, k) {
        var v :| 0 <= v < |s.workers| && UploadsOn(s, v, k);
        assert UploadsOn(t, v, k);
      }
    }
  }

  /** Worker `w` is given a request and joins the queue of its socket. */
  lemma SocketJoined(s: State, t: State, k: nat, w: nat, no: nat)
    requires At(s, k) && At(t, k) && SocketOk(s, k)
    requires |s.workers| <= |t.workers| && w < |t.workers| && w !in Sock(s, k).que
    requires forall v :: 0 <= v < |s.workers| && v != w ==> t.workers[v] == s.workers[v]
    requires w < |s.workers| ==> !UploadsOn(s, w, k)
    requires t.workers[w].sock == k && Queued(t, w, no)
    requires var x := Sock(s, k); var y := Sock(t, k);
             && y.que == x.que + [w] && y.submitted == x.submitted + [no] && y.started == x.started
             && y.busy == x.busy && y.connected == x.connected && y.last <= |y.table|
    ensures SocketOk(t, k)
  {
    var x, y := Sock(s, k), Sock(t, k);
    forall i | 0 <= i < |y.que| ensures Queued(t, y.que[i], y.submitted[|y.started| + i]) {
      if i < |x.que| {
        assert Queued(s, x.que[i], x.submitted[|x.started| + i]);
      }
    }
    if Uploader(s, k) {
      var v :| 0 <= v < |s.workers| && UploadsOn(s, v, k);
      assert UploadsOn(t, v, k);
    }
  }

  /** A worker that waits is not an idle one, and not one yet to be created. */
  lemma NotWaiting(s: State, k: nat, w: nat)
    requires At(s, k) && SocketOk(s, k) &&
             (w < |s.workers| ==> s.workers[w].end || s.workers[w].post || s.workers[w].data)
    ensures w !in Sock(s, k).que
  {
    var x := Sock(s, k);
    forall i | 0 <= i < |x.que| ensures x.que[i] != w {
      assert Queued(s, x.que[i], x.submitted[|x.started| + i]);
    }
  }

  lemma IdleAcceptedSocket(s: State, post: bool, left: nat, k: nat)
    requires Inv(s) && s.sockets != [] && s.idle != [] && k < |s.sockets|
    ensures SocketOk(Accept(s, post, left).0, k)
  {
    TakenHas(s);
    var (t, w) := Accept(s, post, left);
    assert IdleOk(s, 0) && WorkerOk(s, w) && SocketOk(s, k);
    hide SocketOk;
    if At(s, k) {
      NotWaiting(s, k, w);
    }
    if k == s.workers[w].sock {
      assert SocketOk(s, k) ==> Sock(s, k).last <= |Sock(s, k).table|;
      SocketJoined(s, t, k, w, s.next);
    } else {
      SocketKept(s, t, k, w);
    }
  }

  lemma IdleAccepted(s: State, post: bool, left: nat)
    requires Inv(s) && s.sockets != [] && s.idle != []
    ensures Core(Accept(s, post, left).0)
  {
    hide WorkerOk, SocketOk;
    TakenHas(s);
    var (t, w) := Accept(s, post, left);
    forall v | 0 <= v < |t.workers| ensures WorkerOk(t, v) { IdleAcceptedWorker(s, post, left, v); }
    forall k | 0 <= k < |t.sockets| ensures SocketOk(t, k) { IdleAcceptedSocket(s, post, left, k); }
    forall i | 0 <= i < |t.idle| ensures IdleOk(t, i) { assert IdleOk(s, i + 1); }
    forall u, v | 0 <= u < v < |t.workers| ensures Apart(t, u, v) { assert Apart(s, u, v); }
  }

  lemma NewAcceptedWorker(s: State, post: bool, left: nat, v: nat)
    requires Inv(s) && s.sockets != [] && s.idle == [] && v <= |s.workers|
    ensures WorkerOk(Accept(s, post, left).0, v)
  {
    TakenHas(s);
    SocketTaken(s);
    var (r, k) := TakeSocket(s);
    assert SocketOk(r, k);
    if v < |s.workers| { assert WorkerOk(r, v); }
  }

  lemma NewAcceptedSocket(s: State, post: bool, left: nat, j: nat)
    requires Inv(s) && s.sockets != [] && s.idle == [] && j < |s.sockets|
    ensures SocketOk(Accept(s, post, left).0, j)
  {
    TakenHas(s);
    SocketTaken(s);
    var (r, k) := TakeSocket(s);
    var (t, w) := Accept(s, post, left);
    assert SocketOk(r, j);
    hide SocketOk;
    if At(r, j) {
      NotWaiting(r, j, w);
    }
    if j == k {
      SocketJoined(r, t, j, w, s.next);
    } else {
      SocketKept(r, t, j, w);
    }
  }

  lemma NewAccepted(s: State, post: bool, left: nat)
    requires Inv(s) && s.sockets != [] && s.idle == []
    ensures Core(Accept(s, post, left).0)
  {
    hide WorkerOk, SocketOk, Grow;
    TakenHas(s);
    var (t, w) := Accept(s, post, left);
    assert |t.workers| == |s.workers| + 1 && t.idle == [] && |t.sockets| == |s.sockets|;
    forall v | 0 <= v < |t.workers| ensures WorkerOk(t, v) { NewAcceptedWorker(s, post, left, v); }
    forall k | 0 <= k < |t.sockets| ensures SocketOk(t, k) { NewAcceptedSocket(s, post, left, k); }
    forall u, v | 0 <= u < v < |t.workers| ensures Apart(t, u, v) {
      if v < |s.workers| { assert Apart(s, u, v); }
    }
  }

  // ---- starting, finishing and connecting keep it

  lemma LaunchedWorker(s: State, k: nat, v: nat)
    requires Core(s) && At(s, k) && Waiting(s, k) && Sock(s, k).que != [] && !Sock(s, k).busy && v < |s.workers|
    ensures WorkerOk(Launch(s, k), v)
  {
    assert WorkerOk(s, v) && SocketOk(s, k);
    var x := Sock(s, k);
    assert Queued(s, x.que[0], x.submitted[|x.started|]);
    assert v in x.que ==> v == x.que[0] || v in x.que[1..];
  }

  lemma LaunchedSocket(s: State, k: nat)
    requires Core(s) && At(s, k) && Waiting(s, k) && Sock(s, k).que != [] && !Sock(s, k).busy
    ensures SocketOk(Launch(s, k), k)
  {
    var t := Launch(s, k);
    var x, y := Sock(s, k), Sock(t, k);
    assert SocketOk(s, k);
    var w := x.que[0];
    assert Queued(s, w, x.submitted[|x.started|]);
    forall i | 0 <= i < |y.que| ensures Queued(t, y.que[i], y.submitted[|y.started| + i]) {
      assert Queued(s, x.que[i + 1], x.submitted[|x.started| + (i + 1)]);
    }
    assert y.started == y.submitted[..|y.started|];
    if y.busy {
      assert UploadsOn(t, w, k);
    }
  }

  lemma LaunchKeeps(s: State, k: nat)
    requires Core(s) && At(s, k) && Waiting(s, k) && Sock(s, k).que != [] && !Sock(s, k).busy
    ensures Core(Launch(s, k)) && Elsewhere(s, Launch(s, k), k)
  {
    hide WorkerOk, SocketOk, Waiting;
    var t := Launch(s, k);
    var w := Sock(s, k).que[0];
    assert Waiting(s, k) ==> w < |s.workers| && s.workers[w].sock == k && !s.workers[w].data by { WaitingHead(s, k); }
    assert !s.workers[w].post by { HeadQueued(s, k); }
    forall v | 0 <= v < |t.workers| ensures WorkerOk(t, v) { LaunchedWorker(s, k, v); }
    forall j | 0 <= j < |t.sockets| ensures SocketOk(t, j) {
      assert SocketOk(s, j);
      if j == k {
        LaunchedSocket(s, k);
      } else {
        if At(s, j) { OtherQueue(s, j, k, w); }
        SocketKept(s, t, j, w);
      }
    }
    forall i | 0 <= i < |t.idle| ensures IdleOk(t, i) { assert IdleOk(s, i); }
    forall u, v | 0 <= u < v < |t.workers| ensures Apart(t, u, v) {
      assert Apart(s, u, v);
      PostMeansBusy(s, u);
      PostMeansBusy(s, v);
    }
  }

  lemma WaitingHead(s: State, k: nat)
    requires At(s, k) && Waiting(s, k) && Sock(s, k).que != []
    ensures var w := Sock(s, k).que[0]; w < |s.workers| && s.workers[w].sock == k && !s.workers[w].data
  {
  }

  lemma HeadQueued(s: State, k: nat)
    requires At(s, k) && Core(s) && Sock(s, k).que != []
    ensures var w := Sock(s, k).que[0]; w < |s.workers| && !s.workers[w].post && !s.workers[w].end
  {
    assert SocketOk(s, k);
    var x := Sock(s, k);
    assert Queued(s, x.que[0], x.submitted[|x.started| + 0]);
  }

  lemma OtherQueue(s: State, j: nat, k: nat, w: nat)
    requires At(s, j) && SocketOk(s, j) && w < |s.workers| && s.workers[w].sock == k && j != k
    ensures w !in Sock(s, j).que
  {
  }

  lemma PostMeansBusy(s: State, w: nat)
    requires Core(s) && w < |s.workers|
    ensures Has(s, w)
    ensures s.workers[w].post ==> Sock(s, s.workers[w].sock).busy && Sock(s, s.workers[w].sock).connected
  {
    assert WorkerOk(s, w);
  }

  /** Only socket `k` and its own workers have changed. */
  ghost predicate Elsewhere(s: State, t: State, k: nat)
  {
    && |t.sockets| == |s.sockets| && (forall j :: 0 <= j < |s.sockets| && j != k ==> t.sockets[j] == s.sockets[j])
    && |t.workers| == |s.workers| && t.idle == s.idle && t.cur == s.cur && t.next == s.next
  }

  lemma {:induction false} DrainKeeps(s: State, k: nat)
    requires Core(s) && At(s, k) && Waiting(s, k)
    ensures Core(Drain(s, k)) && Elsewhere(s, Drain(s, k), k)
    decreases |Sock(s, k).que|
  {
    hide Core, Waiting, Launch;
    if !Sock(s, k).busy && Sock(s, k).que != [] {
      LaunchKeeps(s, k);
      DrainKeeps(Launch(s, k), k);
    }
  }

  lemma ConnectedKeeps(s: State, k: nat)
    requires Core(s) && At(s, k) && !Sock(s, k).connected
    ensures var t := Unbusy(SetSock(s, k, Sock(s, k).(connected := true)), k); Core(t) && Elsewhere(s, t, k)
  {
    var t := Unbusy(SetSock(s, k, Sock(s, k).(connected := true)), k);
    forall v | 0 <= v < |t.workers| ensures WorkerOk(t, v) { assert WorkerOk(s, v); }
    forall j | 0 <= j < |t.sockets| ensures SocketOk(t, j) {
      assert SocketOk(s, j);
      if j == k {
        var x := Sock(s, k);
        forall i | 0 <= i < |x.que| ensures Queued(t, x.que[i], x.submitted[|x.started| + i]) {
          assert Queued(s, x.que[i], x.submitted[|x.started| + i]);
        }
      } else {
        SocketKept(s, t, j, |s.workers|);
      }
    }
    forall i | 0 <= i < |t.idle| ensures IdleOk(t, i) { assert IdleOk(s, i); }
    forall u, v | 0 <= u < v < |t.workers| ensures Apart(t, u, v) { assert Apart(s, u, v); }
  }

  lemma SettledWorker(s: State, w: nat, v: nat)
    requires Core(s) && w < |s.workers| && Has(s, w) && s.workers[w].post && v < |s.workers|
    ensures WorkerOk(Settle(s, w), v)
  {
    assert WorkerOk(s, v) && WorkerOk(s, w);
    if v != w { assert if v < w then Apart(s, v, w) else Apart(s, w, v); }
    var t := Settle(s, w);
    assert forall u :: u in s.idle ==> u in t.idle;
    assert t.workers[w].end ==> t.idle[|s.idle|] == w;
  }

  lemma SettledSocket(s: State, w: nat, k: nat)
    requires Core(s) && w < |s.workers| && Has(s, w) && s.workers[w].post && k < |s.sockets|
    ensures SocketOk(Settle(s, w), k)
  {
    var t := Settle(s, w);
    assert SocketOk(s, k) && WorkerOk(s, w);
    if At(s, k) { NotWaiting(s, k, w); }
    if k == s.workers[w].sock {
      var x := Sock(s, k);
      forall i | 0 <= i < |x.que| ensures Queued(t, x.que[i], x.submitted[|x.started| + i]) {
        assert Queued(s, x.que[i], x.submitted[|x.started| + i]);
      }
    } else {
      SocketKept(s, t, k, w);
    }
  }

  lemma SettleKeeps(s: State, w: nat)
    requires Core(s) && w < |s.workers| && Has(s, w) && s.workers[w].post
    ensures Core(Settle(s, w))
  {
    hide SocketOk;
    var t := Settle(s, w);
    assert WorkerOk(s, w);
    hide WorkerOk;
    forall v | 0 <= v < |t.workers| ensures WorkerOk(t, v) { SettledWorker(s, w, v); }
    forall k | 0 <= k < |t.sockets| ensures SocketOk(t, k) { SettledSocket(s, w, k); }
    forall i | 0 <= i < |s.idle| ensures IdleOk(t, i) && s.idle[i] != w { assert IdleOk(s, i); }
    forall u, v | 0 <= u < v < |t.workers| ensures Apart(t, u, v) { assert Apart(s, u, v); }
  }

  lemma AnsweredWorker(s: State, w: nat, v: nat)
    requires Core(s) && w < |s.workers| && s.workers[w].data && v < |s.workers|
    ensures WorkerOk(Answered(s, w), v)
  {
    assert WorkerOk(s, v) && WorkerOk(s, w);
    var t := Answered(s, w);
    assert forall u :: u in s.idle ==> u in t.idle;
    assert t.workers[w].end ==> t.idle[|s.idle|] == w;
  }

  lemma AnsweredKeeps(s: State, w: nat)
    requires Core(s) && w < |s.workers| && s.workers[w].data
    ensures Core(Answered(s, w)) && Answered(s, w).sockets == s.sockets
  {
    hide SocketOk;
    var t := Answered(s, w);
    assert WorkerOk(s, w);
    hide WorkerOk;
    forall v | 0 <= v < |t.workers| ensures WorkerOk(t, v) { AnsweredWorker(s, w, v); }
    forall k | 0 <= k < |t.sockets| ensures SocketOk(t, k) {
      assert SocketOk(s, k);
      if At(s, k) { NotWaiting(s, k, w); }
      SocketKept(s, t, k, w);
    }
    forall i | 0 <= i < |s.idle| ensures IdleOk(t, i) && s.idle[i] != w { assert IdleOk(s, i); }
    forall u, v | 0 <= u < v < |t.workers| ensures Apart(t, u, v) { assert Apart(s, u, v); }
  }

  // ---- events

  datatype Event = Submit(post: bool, left: nat) | Connected(sock: nat)
    | PostDone(worker: nat) | ResponseDone(worker: nat)

  predicate Enabled(s: State, e: Event)
  {
    match e
    case Submit(_, _) => s.sockets != []
    case Connected(k) => At(s, k) && !Sock(s, k).connected
    case PostDone(w) => w < |s.workers| && s.workers[w].post
    case ResponseDone(w) => w < |s.workers| && s.workers[w].data
  }

  lemma CoreParts(s: State, w: nat)
    requires Core(s)
    ensures w < |s.workers| ==> Has(s, w)
    ensures forall k :: At(s, k) ==> Waiting(s, k)
  {
    if w < |s.workers| { assert WorkerOk(s, w); }
    forall k | At(s, k) ensures Waiting(s, k) { assert SocketOk(s, k); }
  }

  /** The change an event makes to the worker or socket it is about, and the socket whose queue is
      looked at after it, if any. */
  function Change(s: State, e: Event): (State, Option<nat>)
    requires Inv(s) && Enabled(s, e)
  {
    match e
    case Submit(post, left) =>
      var (t, w) := Accept(s, post, left);
      TakenHas(s);
      (t, Some(t.workers[w].sock))
    case Connected(k) => (Unbusy(SetSock(s, k, Sock(s, k).(connected := true)), k), Some(k))
    case PostDone(w) => CoreParts(s, w); (Settle(s, w), Some(s.workers[w].sock))
    case ResponseDone(w) => (Answered(s, w), None)
  }

  lemma ChangeKeeps(s: State, e: Event)
    requires Inv(s) && Enabled(s, e)
    ensures var (t, k) := Change(s, e);
            && Core(t) && |t.sockets| == |s.sockets|
            && (k.Some? ==> At(t, k.value) && Waiting(t, k.value))
            && (forall j :: 0 <= j < |t.sockets| && k != Some(j) ==> t.sockets[j] == s.sockets[j])
  {
    hide Core;
    var (t, k) := Change(s, e);
    match e
    case Submit(post, left) =>
      if s.idle != [] { IdleAccepted(s, post, left); } else { NewAccepted(s, post, left); }
      CoreParts(t, 0);
      TakenHas(s);
    case Connected(j) => ConnectedKeeps(s, j); CoreParts(t, 0);
    case PostDone(w) => CoreParts(s, w); SettleKeeps(s, w); CoreParts(t, 0);
    case ResponseDone(w) => AnsweredKeeps(s, w);
  }

  /** One event: the change, and then the requests that can begin because of it. */
  function Step(s: State, e: Event): State
    requires Inv(s) && Enabled(s, e)
  {
    var (t, k) := Change(s, e);
    ChangeKeeps(s, e);
    if k.Some? then Drain(t, k.value) else t
  }

  lemma StepKeeps(s: State, e: Event)
    requires Inv(s) && Enabled(s, e)
    ensures Inv(Step(s, e)) && |Step(s, e).sockets| == |s.sockets|
  {
    hide Core, Waiting, Change, Drain;
    ChangeKeeps(s, e);
    var (t, k) := Change(s, e);
    if k.Some? {
      DrainKeeps(t, k.value);
    }
  }

  ghost predicate IsRun(s: State, events: seq<Event>)
    requires Inv(s)
    decreases |events|
  {
    events == [] || (Enabled(s, events[0]) && (StepKeeps(s, events[0]); IsRun(Step(s, events[0]), events[1..])))
  }

  ghost function Run(s: State, events: seq<Event>): State
    requires Inv(s) && IsRun(s, events)
    decreases |events|
  {
    if events == [] then s
    else StepKeeps(s, events[0]); Run(Step(s, events[0]), events[1..])
  }

  lemma {:induction false} RunKeeps(s: State, events: seq<Event>)
    requires Inv(s) && IsRun(s, events)
    ensures Inv(Run(s, events))
    decreases |events|
  {
    hide Inv, Step;
    if events != [] {
      StepKeeps(s, events[0]);
      RunKeeps(Step(s, events[0]), events[1..]);
    }
  }
}
