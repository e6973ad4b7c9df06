/** What holds of FastCGI scheduling on every run: safety, order of service, and that every run comes
    to rest with every request served. */
module SchedulerTheorems {
  import opened Wrappers
  import opened SchedulerSpec

  // ---- safety

  predicate Idle(s: State, w: nat) { w in s.idle }

  predicate InQueue(s: State, w: nat)
    requires Has(s, w)
  {
    w in Sock(s, s.workers[w].sock).que
  }

  predicate Running(s: State, w: nat)
    requires w < |s.workers|
  {
    s.workers[w].data || s.workers[w].post
  }

  /** In every reachable state the table of a socket finds each of its workers by its id, so ids are
      distinct, and each worker is in exactly one of: the idle list, the queue of its socket (and
      of no other), and the running workers. */
  lemma WorkersAreInOnePlace(max: nat, events: seq<Event>, w: nat, v: nat)
    requires IsRun(NewGroup(max), events)
    requires var s := Run(NewGroup(max), events); w < |s.workers| && v < |s.workers|
    ensures var s := Run(NewGroup(max), events);
            && Has(s, w) && Has(s, v)
            && (w != v && s.workers[w].sock == s.workers[v].sock ==> s.workers[w].reqId != s.workers[v].reqId)
            && var x := s.workers[w]; var k := Sock(s, x.sock);
            && x.reqId < |k.table| && k.table[x.reqId] == Some(w)
            && (Idle(s, w) <==> !InQueue(s, w) && !Running(s, w))
            && (InQueue(s, w) <==> !Idle(s, w) && !Running(s, w))
            && (forall j :: At(s, j) && j != x.sock ==> w !in Sock(s, j).que)
  {
    hide Inv, IsRun, Run;
    RunKeeps(NewGroup(max), events);
    var s := Run(NewGroup(max), events);
    InvParts(s, w);
    InvParts(s, v);
    OnePlace(s, w);
    forall j | At(s, j) && j != s.workers[w].sock ensures w !in Sock(s, j).que {
      assert Inv(s) ==> SocketOk(s, j) by { InvSocket(s, j); }
    }
  }

  /** The first worker of every socket gets the id 0. */
  lemma FirstIdIsZero(s: State, post: bool, left: nat)
    requires Inv(s) && s.sockets != [] && s.idle == [] && s.sockets[s.cur % |s.sockets|].None?
    ensures var t := Step(s, Submit(post, left)); var w := |s.workers|;
            |t.workers| == w + 1 && t.workers[w].sock == s.cur % |s.sockets| && t.workers[w].reqId == 0
  {
    hide Inv, Core, Waiting;
  }

  lemma InvParts(s: State, w: nat)
    requires Inv(s) && w < |s.workers|
    ensures WorkerOk(s, w)
  {
  }

  lemma InvSocket(s: State, j: nat)
    requires Inv(s) && j < |s.sockets|
    ensures SocketOk(s, j)
  {
  }

  lemma OnePlace(s: State, w: nat)
    requires Inv(s) && w < |s.workers| && Has(s, w)
    ensures Idle(s, w) <==> s.workers[w].end
    ensures InQueue(s, w) <==> !s.workers[w].end && !Running(s, w)
    ensures Idle(s, w) ==> !Running(s, w)
  {
    assert WorkerOk(s, w);
    assert Idle(s, w) ==> s.workers[w].end by {
      if Idle(s, w) {
        var i :| 0 <= i < |s.idle| && s.idle[i] == w;
        assert IdleOk(s, i);
      }
    }
    var k := s.workers[w].sock;
    assert SocketOk(s, k);
    if InQueue(s, w) {
      var x := Sock(s, k);
      var i :| 0 <= i < |x.que| && x.que[i] == w;
      assert Queued(s, x.que[i], x.submitted[|x.started| + i]);
    }
  }

  /** In every reachable state a connected socket is busy exactly if a worker uploads on it, no two
      workers do, and nobody waits for a socket that is not busy. */
  lemma OneUpload(max: nat, events: seq<Event>, k: nat)
    requires IsRun(NewGroup(max), events)
    requires At(Run(NewGroup(max), events), k)
    ensures var s := Run(NewGroup(max), events); var x := Sock(s, k);
            && (x.busy <==> !x.connected || Uploader(s, k))
            && (x.que != [] ==> x.busy)
            && (forall w, v | 0 <= w < |s.workers| && 0 <= v < |s.workers| ::
                  UploadsOn(s, w, k) && UploadsOn(s, v, k) ==> w == v)
  {
    hide IsRun, Run;
    RunKeeps(NewGroup(max), events);
    var s := Run(NewGroup(max), events);
    assert SocketOk(s, k);
    if Uploader(s, k) {
      var w :| 0 <= w < |s.workers| && UploadsOn(s, w, k);
      assert WorkerOk(s, w);
    }
    forall w, v | 0 <= w < |s.workers| && 0 <= v < |s.workers| && UploadsOn(s, w, k) && UploadsOn(s, v, k)
      ensures w == v {
      assert w < v ==> Apart(s, w, v);
      assert v < w ==> Apart(s, v, w);
    }
  }

  // ---- order of service

  /** The numbers of the requests some workers carry */
  function Requests(s: State, q: seq<nat>): seq<nat>
    requires forall i :: 0 <= i < |q| ==> q[i] < |s.workers| && s.workers[q[i]].req.Some?
  {
    seq(|q|, i requires 0 <= i < |q| => s.workers[q[i]].req.value.no)
  }

  /** First come, first served: in every reachable state the requests that have begun on a socket, and
      then those that wait for it, are those it was given, in the order they came. A request has begun
      when its worker has found the socket free and set BUSY: from then on no other request holds it
      back. If it has nothing to upload the next ones begin within that call, before its own chain is
      handed to the kernel, so requests that begin in one turn are submitted last first. */
  lemma FirstComeFirstServed(max: nat, events: seq<Event>, k: nat)
    requires IsRun(NewGroup(max), events)
    requires At(Run(NewGroup(max), events), k)
    ensures var s := Run(NewGroup(max), events); var x := Sock(s, k);
            && (forall i :: 0 <= i < |x.que| ==> x.que[i] < |s.workers| && s.workers[x.que[i]].req.Some?)
            && x.started + Requests(s, x.que) == x.submitted
  {
    hide IsRun, Run;
    RunKeeps(NewGroup(max), events);
    var s := Run(NewGroup(max), events);
    assert SocketOk(s, k);
    var x := Sock(s, k);
    forall i | 0 <= i < |x.que|
      ensures x.que[i] < |s.workers| && s.workers[x.que[i]].req.Some?
      ensures s.workers[x.que[i]].req.value.no == x.submitted[|x.started| + i]
    {
      assert Queued(s, x.que[i], x.submitted[|x.started| + i]);
    }
    assert x.started + Requests(s, x.que) == x.submitted;
  }

  // ---- coming to rest

  /** No connection, upload or response is outstanding. */
  ghost predicate AtRest(s: State)
  {
    && (forall k :: At(s, k) ==> Sock(s, k).connected)
    && (forall w :: 0 <= w < |s.workers| ==> !s.workers[w].post && !s.workers[w].data)
  }

  /** At rest every request has been served, and every worker can be used again. */
  lemma RestMeansServed(max: nat, events: seq<Event>)
    requires IsRun(NewGroup(max), events)
    ensures var s := Run(NewGroup(max), events);
            AtRest(s) ==>
              && (forall k :: At(s, k) ==> Sock(s, k).que == [] && Sock(s, k).started == Sock(s, k).submitted)
              && (forall w :: 0 <= w < |s.workers| ==> Idle(s, w))
  {
    hide IsRun, Run, Inv;
    RunKeeps(NewGroup(max), events);
    var s := Run(NewGroup(max), events);
    if AtRest(s) {
      forall k | At(s, k) ensures Sock(s, k).que == [] && Sock(s, k).started == Sock(s, k).submitted {
        OneUpload(max, events, k);
        FirstComeFirstServed(max, events, k);
      }
      forall w | 0 <= w < |s.workers| ensures Idle(s, w) {
        InvParts(s, w);
        OnePlace(s, w);
      }
    }
  }

  /** What is outstanding: connections, uploads, responses, and two for each request that waits. */
  function WorkerCost(x: Worker): nat { (if x.post then 1 else 0) + (if x.data then 1 else 0) }

  function SocketCost(x: Option<Socket>): nat
  {
    if x.None? then 1 else (if x.value.connected then 0 else 1) + 2 * |x.value.que|
  }

  function WorkersCost(ws: seq<Worker>): nat
  {
    if ws == [] then 0 else WorkersCost(ws[..|ws| - 1]) + WorkerCost(ws[|ws| - 1])
  }

  function SocketsCost(ks: seq<Option<Socket>>): nat
  {
    if ks == [] then 0 else SocketsCost(ks[..|ks| - 1]) + SocketCost(ks[|ks| - 1])
  }

  function Cost(s: State): nat { WorkersCost(s.workers) + SocketsCost(s.sockets) }

  lemma {:induction false} WorkersCostSet(ws: seq<Worker>, w: nat, x: Worker)
    requires w < |ws|
    ensures WorkersCost(ws[w := x]) == WorkersCost(ws) - WorkerCost(ws[w]) + WorkerCost(x)
    decreases |ws|
  {
    var n := |ws| - 1;
    if w == n {
      assert ws[w := x][..n] == ws[..n];
    } else {
      assert ws[w := x][..n] == ws[..n][w := x];
      WorkersCostSet(ws[..n], w, x);
    }
  }

  lemma {:induction false} SocketsCostSet(ks: seq<Option<Socket>>, k: nat, x: Option<Socket>)
    requires k < |ks|
    ensures SocketsCost(ks[k := x]) == SocketsCost(ks) - SocketCost(ks[k]) + SocketCost(x)
    decreases |ks|
  {
    var n := |ks| - 1;
    if k == n {
      assert ks[k := x][..n] == ks[..n];
    } else {
      assert ks[k := x][..n] == ks[..n][k := x];
      SocketsCostSet(ks[..n], k, x);
    }
  }

  lemma LaunchCosts(s: State, k: nat)
    requires At(s, k) && Waiting(s, k) && Sock(s, k).que != []
    requires WorkerCost(s.workers[Sock(s, k).que[0]]) == 0
    ensures Cost(Launch(s, k)) <= Cost(s)
  {
    var w := Sock(s, k).que[0];
    var t := Launch(s, k);
    WorkersCostSet(s.workers, w, t.workers[w]);
    SocketsCostSet(s.sockets, k, t.sockets[k]);
    assert t.workers == s.workers[w := t.workers[w]];
    assert t.sockets == s.sockets[k := t.sockets[k]];
  }

  lemma {:induction false} DrainCosts(s: State, k: nat)
    requires Core(s) && At(s, k) && Waiting(s, k)
    ensures Cost(Drain(s, k)) <= Cost(s)
    decreases |Sock(s, k).que|
  {
    hide Core, Waiting, Launch, Cost;
    if !Sock(s, k).busy && Sock(s, k).que != [] {
      HeadQueued(s, k);
      WaitingHead(s, k);
      LaunchCosts(s, k);
      LaunchKeeps(s, k);
      DrainCosts(Launch(s, k), k);
    }
  }

  lemma AcceptCosts(s: State, post: bool, left: nat)
    requires Inv(s) && s.sockets != []
    ensures Cost(Accept(s, post, left).0) == Cost(s) + 2
  {
    hide Inv, Grow;
    TakenHas(s);
    var (t, w) := Accept(s, post, left);
    if s.idle != [] {
      var k := s.workers[w].sock;
      WorkersCostSet(s.workers, w, t.workers[w]);
      SocketsCostSet(s.sockets, k, t.sockets[k]);
      assert t.workers == s.workers[w := t.workers[w]] && t.sockets == s.sockets[k := t.sockets[k]];
    } else {
      var k := TakeSocket(s).1;
      SocketsCostSet(s.sockets, k, t.sockets[k]);
      assert t.sockets == s.sockets[k := t.sockets[k]];
      assert t.workers == s.workers + [t.workers[w]] && t.workers[..w] == s.workers;
    }
  }

  /** Every completion uses up some of what is outstanding, and only a submission adds to it. */
  lemma StepCosts(s: State, e: Event)
    requires Inv(s) && Enabled(s, e)
    ensures Cost(Step(s, e)) <= (if e.Submit? then Cost(s) + 2 else Cost(s) - 1)
  {
    hide Core, Drain, Waiting, Cost;
    ChangeKeeps(s, e);
    var (t, k) := Change(s, e);
    ChangeCosts(s, e);
    if k.Some? {
      DrainCosts(t, k.value);
    }
  }

  lemma ChangeCosts(s: State, e: Event)
    requires Inv(s) && Enabled(s, e)
    ensures Cost(Change(s, e).0) == (if e.Submit? then Cost(s) + 2 else Cost(s) - 1)
  {
    hide Inv;
    var t := Change(s, e).0;
    match e
    case Submit(post, left) => AcceptCosts(s, post, left);
    case Connected(k) =>
      SocketsCostSet(s.sockets, k, t.sockets[k]);
      assert t.sockets == s.sockets[k := t.sockets[k]];
    case PostDone(w) =>
      InvParts(s, w);
      var k := s.workers[w].sock;
      SocketsCostSet(s.sockets, k, t.sockets[k]);
      WorkersCostSet(s.workers, w, t.workers[w]);
      assert t.workers == s.workers[w := t.workers[w]] && t.sockets == s.sockets[k := t.sockets[k]];
    case ResponseDone(w) =>
      WorkersCostSet(s.workers, w, t.workers[w]);
      assert t.workers == s.workers[w := t.workers[w]];
  }

  function Submissions(events: seq<Event>): nat
  {
    if events == [] then 0 else (if events[0].Submit? then 1 else 0) + Submissions(events[1..])
  }

  lemma {:induction false} RunCosts(s: State, events: seq<Event>)
    requires Inv(s) && IsRun(s, events)
    ensures Cost(Run(s, events)) + |events| <= Cost(s) + 3 * Submissions(events)
    decreases |events|
  {
    hide Inv, Cost, Step;
    if events != [] {
      StepKeeps(s, events[0]);
      StepCosts(s, events[0]);
      RunCosts(Step(s, events[0]), events[1..]);
    }
  }

  lemma {:induction false} NothingYet(ks: seq<Option<Socket>>)
    requires forall i :: 0 <= i < |ks| ==> ks[i] == None
    ensures SocketsCost(ks) == |ks|
  {
    if ks != [] {
      NothingYet(ks[..|ks| - 1]);
    }
  }

  lemma NewGroupCost(max: nat)
    ensures Cost(NewGroup(max)) == max
  {
    hide Inv;
    NothingYet(NewGroup(max).sockets);
  }

  /** A run has at most one connection for each place and two completions for each request; so once
      no more requests come a group comes to rest, unless a peer keeps it waiting. */
  lemma RunsComeToRest(max: nat, events: seq<Event>)
    requires IsRun(NewGroup(max), events)
    ensures |events| - Submissions(events) <= max + 2 * Submissions(events)
    ensures var s := Run(NewGroup(max), events);
            AtRest(s) <==> !(exists e: Event :: !e.Submit? && Enabled(s, e))
  {
    hide IsRun, Run, Inv, Cost;
    RunKeeps(NewGroup(max), events);
    RunCosts(NewGroup(max), events);
    NewGroupCost(max);
    var s := Run(NewGroup(max), events);
    if !(exists e: Event :: !e.Submit? && Enabled(s, e)) {
      forall k | At(s, k) ensures Sock(s, k).connected { assert !Enabled(s, Connected(k)); }
      forall w | 0 <= w < |s.workers| ensures !s.workers[w].post && !s.workers[w].data {
        assert !Enabled(s, PostDone(w)) && !Enabled(s, ResponseDone(w));
      }
    }
  }
}
