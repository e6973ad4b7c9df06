/** Where FastCGI requests go: which worker takes a request, which socket a worker belongs to and under
    which id, and which requests begin at once. All of it is said of the fields of the states. */
module SchedulerPlaces {
  import opened Arithmetic
  import opened Wrappers
  import opened SchedulerSpec
  import T = SchedulerTheorems

  // ---- what most steps leave alone

  /** Workers keep their places and ids, and sockets their tables. */
  predicate SameTables(s: State, t: State)
  {
    && t.cur == s.cur && |t.workers| == |s.workers| && |t.sockets| == |s.sockets|
    && (forall w :: 0 <= w < |s.workers| ==>
          t.workers[w].sock == s.workers[w].sock && t.workers[w].reqId == s.workers[w].reqId)
    && (forall k :: 0 <= k < |s.sockets| ==> SameTable(s.sockets[k], t.sockets[k]))
  }

  predicate SameTable(a: Option<Socket>, b: Option<Socket>)
  {
    && (a.Some? <==> b.Some?)
    && (a.Some? ==> b.value.table == a.value.table && b.value.last == a.value.last)
  }

  /** Sockets are given nothing. */
  predicate SameRequests(s: State, t: State)
  {
    && t.next == s.next && |t.sockets| == |s.sockets|
    && (forall k :: 0 <= k < |s.sockets| ==>
          (s.sockets[k].Some? <==> t.sockets[k].Some?)
          && (s.sockets[k].Some? ==> t.sockets[k].value.submitted == s.sockets[k].value.submitted))
  }

  predicate SamePlaces(s: State, t: State) { SameTables(s, t) && SameRequests(s, t) }

  lemma SameTrans(s: State, t: State, u: State)
    requires SamePlaces(s, t) && SamePlaces(t, u)
    ensures SamePlaces(s, u)
  {
    forall k | 0 <= k < |s.sockets| ensures SameTable(s.sockets[k], u.sockets[k]) {
      assert SameTable(s.sockets[k], t.sockets[k]) && SameTable(t.sockets[k], u.sockets[k]);
    }
  }

  lemma LaunchSame(s: State, k: nat)
    requires At(s, k) && Waiting(s, k) && Sock(s, k).que != []
    ensures SamePlaces(s, Launch(s, k))
  {
  }

  lemma {:induction false} DrainSame(s: State, k: nat)
    requires At(s, k) && Waiting(s, k)
    ensures SamePlaces(s, Drain(s, k))
    decreases |Sock(s, k).que|
  {
    if !Sock(s, k).busy && Sock(s, k).que != [] {
      LaunchSame(s, k);
      hide Waiting, Launch, SamePlaces;
      DrainSame(Launch(s, k), k);
      SameTrans(s, Launch(s, k), Drain(s, k));
    }
  }

  lemma ChangeSame(s: State, e: Event)
    requires Inv(s) && Enabled(s, e) && !e.Submit?
    ensures SamePlaces(s, Change(s, e).0)
  {
    hide Inv;
    match e
    case Connected(k) =>
    case PostDone(w) => assert Has(s, w) by { InvHas(s, w); }
    case ResponseDone(w) =>
  }

  lemma InvHas(s: State, w: nat)
    requires Inv(s) && w < |s.workers|
    ensures Has(s, w)
  {
    assert WorkerOk(s, w);
  }

  // ---- places and ids

  /** How many of the first `m` numbers leave the remainder `k` by `n` */
  function CountAt(n: nat, m: nat, k: nat): nat
    requires 0 < n
  {
    if m == 0 then 0 else CountAt(n, m - 1, k) + (if (m - 1) % n == k then 1 else 0)
  }

  lemma NextRemainder(m: nat, n: nat)
    requires 0 < n
    ensures if m % n == n - 1 then (m + 1) % n == 0 && (m + 1) / n == m / n + 1
            else (m + 1) % n == m % n + 1 && (m + 1) / n == m / n
  {
    var q, r := m / n, m % n;
    assert m == n * q + r;
    if r == n - 1 {
      assert m + 1 == n * (q + 1);
      Division(m + 1, n, q + 1, 0);
    } else {
      Division(m + 1, n, q, r + 1);
    }
  }

  lemma {:induction false} CountIsEven(n: nat, m: nat, k: nat)
    requires k < n
    ensures CountAt(n, m, k) == m / n + (if k < m % n then 1 else 0)
  {
    if m == 0 {
      Division(0, n, 0, 0);
    } else {
      CountIsEven(n, m - 1, k);
      NextRemainder(m - 1, n);
    }
  }

  /** Worker number `w` belongs to place `w % n`, under the number of workers the place had before it. */
  predicate WorkerPlaced(s: State, w: nat)
    requires w < |s.workers| && s.sockets != []
  {
    var n := |s.sockets|;
    s.workers[w].sock == w % n && s.workers[w].reqId == CountAt(n, w, w % n)
  }

  /** The places of the first workers have a socket, and the others none. */
  predicate PlaceUsed(s: State, k: nat)
    requires k < |s.sockets|
  {
    var n, m := |s.sockets|, |s.workers|;
    && (s.sockets[k].Some? <==> k < m)
    && (k < m ==> s.sockets[k].value.last == CountAt(n, m, k)
                  && Fives(|s.sockets[k].value.table|, s.sockets[k].value.last))
  }

  predicate Placed(s: State)
  {
    && s.cur == |s.workers| && (s.sockets == [] ==> s.workers == [])
    && (forall w :: 0 <= w < |s.workers| ==> s.sockets != [] && WorkerPlaced(s, w))
    && (forall k :: 0 <= k < |s.sockets| ==> PlaceUsed(s, k))
  }

  /** The table of a socket grows by five places at a time, when it has to. */
  predicate Fives(len: nat, last: nat) { len % 5 == 0 && last <= len < last + 5 }

  lemma PlacedStays(s: State, t: State)
    requires Placed(s) && SameTables(s, t)
    ensures Placed(t)
  {
    hide Fives;
    forall w | 0 <= w < |t.workers| ensures WorkerPlaced(t, w) {
      assert WorkerPlaced(s, w);
    }
    forall k | 0 <= k < |t.sockets| ensures PlaceUsed(t, k) {
      assert PlaceUsed(s, k) && SameTable(s.sockets[k], t.sockets[k]);
    }
  }

  lemma {:induction false} GrowsByFives(table: seq<Option<nat>>, last: nat)
    requires Fives(|table|, last)
    ensures Fives(|Grow(table, last + 1)|, last + 1)
  {
    if last + 1 > |table| {
      var t := table + [None, None, None, None, None];
      assert Grow(table, last + 1) == Grow(t, last + 1) == t;
    }
  }

  lemma {:induction false} NoneAt(n: nat, m: nat, k: nat)
    requires m <= k < n
    ensures CountAt(n, m, k) == 0
  {
    if m != 0 {
      NoneAt(n, m - 1, k);
      Division(m - 1, n, 0, m - 1);
    }
  }

  lemma AcceptPlaced(s: State, post: bool, left: nat)
    requires Inv(s) && s.sockets != [] && Placed(s)
    ensures Placed(Accept(s, post, left).0)
  {
    hide Inv;
    TakenHas(s);
    var t := Accept(s, post, left).0;
    if s.idle != [] {
      hide Placed;
      PlacedStays(s, t);
    } else {
      var n, m := |s.sockets|, |s.workers|;
      var k := m % n;
      assert PlaceUsed(s, k);
      if m <= k {
        Division(m, n, 0, m);
        NoneAt(n, m, k);
      }
      var was := if k < m then s.sockets[k].value else Socket(false, true, [], [], 0, [], []);
      GrowsByFives(was.table, was.last);
      NewPlaced(s, t, k);
    }
  }

  /** A new worker at its place */
  lemma NewPlaced(s: State, t: State, k: nat)
    requires Placed(s) && s.sockets != [] && k == |s.workers| % |s.sockets|
    requires |t.sockets| == |s.sockets| && t.cur == s.cur + 1 && |t.workers| == |s.workers| + 1
    requires t.workers[..|s.workers|] == s.workers && t.workers[|s.workers|].sock == k
    requires forall j :: 0 <= j < |s.sockets| && j != k ==> t.sockets[j] == s.sockets[j]
    requires var last := CountAt(|s.sockets|, |s.workers|, k);
             && t.workers[|s.workers|].reqId == last
             && t.sockets[k].Some? && t.sockets[k].value.last == last + 1 && Fives(|t.sockets[k].value.table|, last + 1)
    ensures Placed(t)
  {
    hide WorkerPlaced, PlaceUsed;
    forall w | 0 <= w < |t.workers| ensures WorkerPlaced(t, w) {
      if w < |s.workers| {
        assert WorkerPlaced(s, w) && t.workers[w] == t.workers[..|s.workers|][w];
      }
      NewWorkerPlaced(s, t, w);
    }
    forall j | 0 <= j < |t.sockets| ensures PlaceUsed(t, j) {
      assert PlaceUsed(s, j);
      NewPlaceUsed(s, t, k, j);
    }
  }

  lemma NewWorkerPlaced(s: State, t: State, w: nat)
    requires s.sockets != [] && |t.sockets| == |s.sockets| && w < |t.workers|
    requires w < |s.workers| ==> WorkerPlaced(s, w) && t.workers[w] == s.workers[w]
    requires w >= |s.workers| ==>
               t.workers[w].sock == w % |s.sockets| && t.workers[w].reqId == CountAt(|s.sockets|, w, w % |s.sockets|)
    ensures WorkerPlaced(t, w)
  {
  }

  lemma NewPlaceUsed(s: State, t: State, k: nat, j: nat)
    requires j < |s.sockets| && PlaceUsed(s, j) && k == |s.workers| % |s.sockets|
    requires |t.sockets| == |s.sockets| && |t.workers| == |s.workers| + 1
    requires j != k ==> t.sockets[j] == s.sockets[j]
    requires var last := CountAt(|s.sockets|, |s.workers|, k);
             j == k ==> t.sockets[k].Some? && t.sockets[k].value.last == last + 1
                        && Fives(|t.sockets[k].value.table|, last + 1)
    ensures PlaceUsed(t, j)
  {
    var n, m := |s.sockets|, |s.workers|;
    hide Fives;
    if m < n { Division(m, n, 0, m); }
    assert CountAt(n, m + 1, j) == CountAt(n, m, j) + (if m % n == j then 1 else 0);
  }

  // ---- requests

  predicate Rising(q: seq<nat>, below: nat)
  {
    && (forall i, j :: 0 <= i < j < |q| ==> q[i] < q[j])
    && (forall i :: 0 <= i < |q| ==> q[i] < below)
  }

  /** Socket `k` was given request number `no`. */
  predicate Given(s: State, k: nat, no: nat) { At(s, k) && no in Sock(s, k).submitted }

  predicate GivenOut(s: State, no: nat) { exists k :: 0 <= k < |s.sockets| && Given(s, k, no) }

  /** Every request was given to one socket, once, and each socket its requests in order. */
  ghost predicate Spread(s: State)
  {
    && (forall k :: At(s, k) ==> Rising(Sock(s, k).submitted, s.next))
    && (forall no :: 0 <= no < s.next ==> GivenOut(s, no))
    && (forall k, j, no :: Given(s, k, no) && Given(s, j, no) ==> k == j)
  }

  lemma GivenStays(s: State, t: State)
    requires SameRequests(s, t)
    ensures forall k, no :: Given(t, k, no) <==> Given(s, k, no)
  {
  }

  lemma SpreadStays(s: State, t: State)
    requires Spread(s) && SameRequests(s, t)
    ensures Spread(t)
  {
    GivenStays(s, t);
    forall no | 0 <= no < t.next ensures GivenOut(t, no) {
      assert GivenOut(s, no);
      var k :| 0 <= k < |s.sockets| && Given(s, k, no);
      assert Given(t, k, no);
    }
    forall k | At(t, k) ensures Rising(Sock(t, k).submitted, t.next) {
      assert At(s, k);
    }
  }

  /** A socket is given the next request. */
  lemma SpreadGrows(s: State, t: State, k: nat)
    requires Spread(s) && t.next == s.next + 1 && |t.sockets| == |s.sockets| && At(t, k)
    requires forall j :: 0 <= j < |s.sockets| && j != k ==> t.sockets[j] == s.sockets[j]
    requires Sock(t, k).submitted == (if At(s, k) then Sock(s, k).submitted else []) + [s.next]
    ensures Spread(t)
  {
    forall j, no ensures Given(t, j, no) <==> Given(s, j, no) || (j == k && no == s.next) {
      if j == k { assert Given(t, k, no) <==> Given(s, k, no) || no == s.next; }
    }
    forall no | 0 <= no < t.next ensures GivenOut(t, no) {
      if no < s.next {
        assert GivenOut(s, no);
        var j :| 0 <= j < |s.sockets| && Given(s, j, no);
        assert Given(t, j, no);
      } else {
        assert Given(t, k, no);
      }
    }
    forall j, i, no | Given(t, j, no) && Given(t, i, no) ensures j == i {
      if no == s.next { NotYetGiven(s, j); NotYetGiven(s, i); }
    }
    forall j | At(t, j) ensures Rising(Sock(t, j).submitted, t.next) {
      if At(s, j) { assert Rising(Sock(s, j).submitted, s.next); }
    }
  }

  lemma NotYetGiven(s: State, k: nat)
    requires Spread(s)
    ensures !Given(s, k, s.next)
  {
    if At(s, k) {
      assert Rising(Sock(s, k).submitted, s.next);
    }
  }

  lemma AcceptSpread(s: State, post: bool, left: nat)
    requires Inv(s) && s.sockets != [] && Spread(s)
    ensures Spread(Accept(s, post, left).0)
  {
    hide Inv, Spread, Grow;
    TakenHas(s);
    var (t, w) := Accept(s, post, left);
    if s.idle != [] { InvHas(s, s.idle[0]); }
    SpreadGrows(s, t, t.workers[w].sock);
  }

  lemma PlacesStep(s: State, e: Event)
    requires Inv(s) && Enabled(s, e) && Placed(s) && Spread(s)
    ensures var t := Step(s, e); Placed(t) && Spread(t) && t.next == s.next + (if e.Submit? then 1 else 0)
  {
    hide Placed, Spread, Drain, Waiting, Core, SameTables, SameRequests;
    ChangeKeeps(s, e);
    var (t, k) := Change(s, e);
    assert Placed(t) && Spread(t) && t.next == s.next + (if e.Submit? then 1 else 0) by {
      match e {
        case Submit(post, left) =>
          AcceptPlaced(s, post, left);
          AcceptSpread(s, post, left);
          AcceptNumbers(s, post, left);
        case _ =>
          ChangeSame(s, e);
          PlacedStays(s, t);
          SpreadStays(s, t);
          SameNext(s, t);
      }
    }
    if k.Some? {
      var u := Drain(t, k.value);
      DrainSame(t, k.value);
      PlacedStays(t, u);
      SpreadStays(t, u);
      SameNext(t, u);
    }
  }

  lemma SameNext(s: State, t: State)
    requires SameRequests(s, t)
    ensures t.next == s.next
  {
  }

  lemma AcceptNumbers(s: State, post: bool, left: nat)
    requires Inv(s) && s.sockets != []
    ensures Accept(s, post, left).0.next == s.next + 1
  {
    hide Inv, Grow;
    TakenHas(s);
  }

  lemma {:induction false} PlacesRun(s: State, events: seq<Event>)
    requires Inv(s) && IsRun(s, events) && Placed(s) && Spread(s)
    ensures var t := Run(s, events);
            Placed(t) && Spread(t) && t.next == s.next + T.Submissions(events) && |t.sockets| == |s.sockets|
    decreases |events|
  {
    if events != [] {
      hide Inv, Step, Enabled, Placed, Spread;
      StepKeeps(s, events[0]);
      PlacesStep(s, events[0]);
      PlacesRun(Step(s, events[0]), events[1..]);
    }
  }

  lemma StartPlaced(max: nat)
    ensures Placed(NewGroup(max)) && Spread(NewGroup(max))
  {
  }

  /** Places are used in turn: in a group of `n` places, in every reachable state, the worker that was
      created as number `w` belongs to place `w % n` and has the id `w / n`; the places of the first
      `n` workers have a socket; and no place has two more workers than another. */
  lemma PlacesInTurn(n: nat, events: seq<Event>)
    requires 0 < n && IsRun(NewGroup(n), events)
    ensures var s := Run(NewGroup(n), events); var m := |s.workers|;
            && |s.sockets| == n
            && (forall w :: 0 <= w < m ==> s.workers[w].sock == w % n && s.workers[w].reqId == w / n)
            && (forall k :: 0 <= k < n ==> (s.sockets[k].Some? <==> k < m))
            && (forall k :: 0 <= k < n && k < m ==>
                  && s.sockets[k].value.last == m / n + (if k < m % n then 1 else 0)
                  && |s.sockets[k].value.table| % 5 == 0
                  && s.sockets[k].value.last <= |s.sockets[k].value.table| < s.sockets[k].value.last + 5)
  {
    hide IsRun, Run;
    StartPlaced(n);
    PlacesRun(NewGroup(n), events);
    PlacedMeans(Run(NewGroup(n), events), n);
  }

  lemma PlacedMeans(s: State, n: nat)
    requires Placed(s) && |s.sockets| == n && 0 < n
    ensures var m := |s.workers|;
            && (forall w :: 0 <= w < m ==> s.workers[w].sock == w % n && s.workers[w].reqId == w / n)
            && (forall k :: 0 <= k < n ==> (s.sockets[k].Some? <==> k < m))
            && (forall k :: 0 <= k < n && k < m ==>
                  && s.sockets[k].value.last == m / n + (if k < m % n then 1 else 0)
                  && |s.sockets[k].value.table| % 5 == 0
                  && s.sockets[k].value.last <= |s.sockets[k].value.table| < s.sockets[k].value.last + 5)
  {
    var m := |s.workers|;
    forall w | 0 <= w < m ensures s.workers[w].sock == w % n && s.workers[w].reqId == w / n {
      assert WorkerPlaced(s, w);
      CountIsEven(n, w, w % n);
    }
    forall k | 0 <= k < n
      ensures (s.sockets[k].Some? <==> k < m)
      ensures k < m ==>
                && s.sockets[k].value.last == m / n + (if k < m % n then 1 else 0)
                && |s.sockets[k].value.table| % 5 == 0
                && s.sockets[k].value.last <= |s.sockets[k].value.table| < s.sockets[k].value.last + 5
    {
      assert PlaceUsed(s, k);
      CountIsEven(n, m, k);
    }
  }

  /** No request is lost or given twice: those submitted so far are numbered from 0, each was given to
      exactly one socket, and each socket got its own in the order they came. */
  lemma EveryRequestOnce(max: nat, events: seq<Event>)
    requires IsRun(NewGroup(max), events)
    ensures var s := Run(NewGroup(max), events);
            && s.next == T.Submissions(events)
            && (forall no :: 0 <= no < s.next ==> GivenOut(s, no))
            && (forall k, j, no :: Given(s, k, no) && Given(s, j, no) ==> k == j)
            && (forall k :: At(s, k) ==> forall i, j :: 0 <= i < j < |Sock(s, k).submitted| ==>
                  Sock(s, k).submitted[i] < Sock(s, k).submitted[j] < s.next)
  {
    hide IsRun, Run, Given;
    StartPlaced(max);
    PlacesRun(NewGroup(max), events);
    var s := Run(NewGroup(max), events);
    forall k | At(s, k)
      ensures forall i, j :: 0 <= i < j < |Sock(s, k).submitted| ==>
                Sock(s, k).submitted[i] < Sock(s, k).submitted[j] < s.next
    {
      assert Rising(Sock(s, k).submitted, s.next);
    }
  }

  // ---- who begins

  /** How many of a queue begin when its socket is free: all up to the first that has a body to upload */
  function Beginners(s: State, q: seq<nat>): nat
    requires forall i :: 0 <= i < |q| ==> q[i] < |s.workers|
  {
    if q == [] then 0
    else if HasBody(s.workers[q[0]].req) then 1
    else 1 + Beginners(s, q[1..])
  }

  /** A POST request of whose body something is left to send */
  predicate HasBody(r: Option<Req>) { r.Some? && r.value.post && r.value.left > 0 }

  lemma QueueMembers(s: State, k: nat)
    requires At(s, k) && Waiting(s, k)
    ensures forall i :: 0 <= i < |Sock(s, k).que| ==> Sock(s, k).que[i] < |s.workers|
  {
  }

  lemma LaunchMeans(s: State, k: nat)
    requires At(s, k) && Waiting(s, k) && Sock(s, k).que != [] && !Sock(s, k).busy
    ensures var q := Sock(s, k).que; var t := Launch(s, k); var x := s.workers[q[0]];
            && q[0] < |s.workers| && |t.workers| == |s.workers|
            && t.workers == s.workers[q[0] := x.(data := true, post := HasBody(x.req))]
            && (Sock(t, k).busy <==> HasBody(x.req)) && Sock(t, k).que == q[1..]
  {
  }

  lemma {:induction false} BeginnersSame(s: State, t: State, q: seq<nat>)
    requires forall i :: 0 <= i < |q| ==> q[i] < |s.workers|
    requires |t.workers| == |s.workers| && forall i :: 0 <= i < |q| ==> t.workers[q[i]] == s.workers[q[i]]
    ensures Beginners(t, q) == Beginners(s, q)
  {
    if q != [] {
      BeginnersSame(s, t, q[1..]);
    }
  }

  /** Of the workers `q`, the first `n` have begun on the socket `k`, where the others wait on; no other
      worker has changed; and only the last to begin has a body to upload, and makes the socket busy. */
  predicate Begun(s: State, t: State, k: nat, q: seq<nat>, n: nat)
  {
    && |t.workers| == |s.workers| && (forall i :: 0 <= i < |q| ==> q[i] < |s.workers|)
    && n <= |q| && At(t, k) && Sock(t, k).que == q[n..]
    && (forall i :: 0 <= i < n ==>
          t.workers[q[i]] == s.workers[q[i]].(data := true, post := HasBody(s.workers[q[i]].req)))
    && (forall w :: 0 <= w < |s.workers| && w !in q[..n] ==> t.workers[w] == s.workers[w])
    && (forall i :: 0 <= i < n - 1 ==> !HasBody(s.workers[q[i]].req))
    && (Sock(t, k).busy <==> 0 < n && HasBody(s.workers[q[n - 1]].req))
  }

  lemma OneMoreBegun(s: State, u: State, t: State, k: nat, q: seq<nat>, n: nat)
    requires q != [] && q[0] < |s.workers| && !HasBody(s.workers[q[0]].req)
    requires u.workers == s.workers[q[0] := s.workers[q[0]].(data := true, post := false)]
    requires forall i :: 1 <= i < |q| ==> q[i] != q[0]
    requires Begun(u, t, k, q[1..], n)
    ensures Begun(s, t, k, q, n + 1)
  {
    hide HasBody;
    var rest := q[1..];
    assert forall i :: 1 <= i < |q| ==> q[i] == rest[i - 1];
    assert q[n + 1..] == rest[n..] && q[..n + 1] == [q[0]] + rest[..n];
    forall i | 0 <= i < n + 1
      ensures t.workers[q[i]] == s.workers[q[i]].(data := true, post := HasBody(s.workers[q[i]].req))
    {
      if i == 0 {
        assert q[0] !in rest[..n];
      } else {
        assert q[i] == rest[i - 1] && u.workers[q[i]] == s.workers[q[i]];
      }
    }
    forall i | 0 <= i < n ensures !HasBody(s.workers[q[i]].req) {
      if i != 0 { assert q[i] == rest[i - 1] && u.workers[q[i]] == s.workers[q[i]]; }
    }
    if 0 < n { assert q[n] == rest[n - 1] && u.workers[q[n]] == s.workers[q[n]]; }
  }

  /** When a socket is free, the requests in its queue begin, in order, up to the first that has a body
      to upload. */
  lemma {:induction false} QueueBegins(s: State, k: nat)
    requires At(s, k) && Waiting(s, k) && !Sock(s, k).busy
    ensures forall i :: 0 <= i < |Sock(s, k).que| ==> Sock(s, k).que[i] < |s.workers|
    ensures Begun(s, Drain(s, k), k, Sock(s, k).que, Beginners(s, Sock(s, k).que))
    decreases |Sock(s, k).que|
  {
    hide Begun, HasBody;
    var q := Sock(s, k).que;
    QueueMembers(s, k);
    if q == [] {
      NoneBegun(s, k);
    } else {
      var t := Launch(s, k);
      LaunchMeans(s, k);
      Distinct(s, k);
      hide Launch, Waiting;
      if HasBody(s.workers[q[0]].req) {
        assert Drain(s, k) == t;
        FirstBegun(s, t, k, q);
      } else {
        assert Drain(s, k) == Drain(t, k);
        assert forall i :: 1 <= i < |q| ==> q[i] == q[1..][i - 1];
        BeginnersSame(s, t, q[1..]);
        QueueBegins(t, k);
        OneMoreBegun(s, t, Drain(t, k), k, q, Beginners(t, q[1..]));
      }
    }
  }

  lemma NoneBegun(s: State, k: nat)
    requires At(s, k) && !Sock(s, k).busy && Sock(s, k).que == []
    ensures Begun(s, s, k, [], 0)
  {
  }

  lemma FirstBegun(s: State, t: State, k: nat, q: seq<nat>)
    requires q != [] && (forall i :: 0 <= i < |q| ==> q[i] < |s.workers|) && HasBody(s.workers[q[0]].req)
    requires t.workers == s.workers[q[0] := s.workers[q[0]].(data := true, post := true)]
    requires At(t, k) && Sock(t, k).que == q[1..] && Sock(t, k).busy
    ensures Begun(s, t, k, q, 1)
  {
    assert q[..1] == [q[0]];
  }

  lemma Distinct(s: State, k: nat)
    requires At(s, k) && Waiting(s, k) && Sock(s, k).que != []
    ensures var q := Sock(s, k).que; forall i :: 0 <= i < |q[1..]| ==> q[1..][i] != q[0]
  {
  }

  /** A request is given to the worker that has been idle for longest, or else to a new one; it begins at
      once if the socket of the worker is free, and otherwise waits as the last in its queue. */
  lemma SubmitAnswers(s: State, post: bool, left: nat)
    requires Inv(s) && s.sockets != []
    ensures var t := Step(s, Submit(post, left));
            var w := if s.idle != [] then s.idle[0] else |s.workers|;
            && |t.workers| == |s.workers| + (if s.idle == [] then 1 else 0)
            && t.idle == (if s.idle == [] then [] else s.idle[1..])
            && w < |t.workers| && t.workers[w].req == Some(Req(s.next, post, left)) && !t.workers[w].end
            && var k := t.workers[w].sock;
               && At(t, k)
               && var free := At(s, k) && !Sock(s, k).busy;
                  && t.workers[w].data == free && t.workers[w].post == (free && post && left > 0)
                  && Sock(t, k).que == (if free then [] else (if At(s, k) then Sock(s, k).que else []) + [w])
                  && (Sock(t, k).busy <==> !free || (post && left > 0))
  {
    hide Core, Waits, Drain, Grow, Accept, Waiting;
    var e := Submit(post, left);
    ChangeKeeps(s, e);
    TakenHas(s);
    AcceptMeans(s, post, left);
    var (u, w) := Accept(s, post, left);
    var k := u.workers[w].sock;
    assert Step(s, e) == Drain(u, k);
    if Sock(u, k).busy {
      DrainBusy(u, k);
    } else {
      DrainOne(u, k, w);
      DrainIdle(u, k);
    }
  }

  lemma DrainOne(s: State, k: nat, w: nat)
    requires At(s, k) && Waiting(s, k) && !Sock(s, k).busy && Sock(s, k).que == [w]
    ensures w < |s.workers| && At(Drain(s, k), k)
    ensures var t, x := Drain(s, k), s.workers[w];
            && t.workers == s.workers[w := x.(data := true, post := HasBody(x.req))]
            && Sock(t, k).que == [] && (Sock(t, k).busy <==> HasBody(x.req))
  {
    LaunchMeans(s, k);
    hide Launch;
    assert [w][1..] == [];
  }

  lemma DrainBusy(s: State, k: nat)
    requires At(s, k) && Waiting(s, k) && Sock(s, k).busy
    ensures Drain(s, k) == s
  {
  }

  lemma {:induction false} DrainIdle(s: State, k: nat)
    requires At(s, k) && Waiting(s, k)
    ensures Drain(s, k).idle == s.idle
    decreases |Sock(s, k).que|
  {
    if !Sock(s, k).busy && Sock(s, k).que != [] {
      LaunchIdle(s, k);
      hide Launch;
      DrainIdle(Launch(s, k), k);
    }
  }

  lemma LaunchIdle(s: State, k: nat)
    requires At(s, k) && Waiting(s, k) && Sock(s, k).que != []
    ensures Launch(s, k).idle == s.idle
  {
  }

  /** The worker found, before its socket looks at its queue */
  lemma AcceptMeans(s: State, post: bool, left: nat)
    requires Inv(s) && s.sockets != []
    ensures var (u, w) := Accept(s, post, left);
            && w == (if s.idle != [] then s.idle[0] else |s.workers|)
            && |u.workers| == |s.workers| + (if s.idle == [] then 1 else 0)
            && u.idle == (if s.idle == [] then [] else s.idle[1..]) && w < |u.workers|
            && var x := u.workers[w];
               && x.req == Some(Req(s.next, post, left)) && !x.end && !x.data && !x.post
               && At(u, x.sock)
               && Sock(u, x.sock).busy == (At(s, x.sock) ==> Sock(s, x.sock).busy)
               && Sock(u, x.sock).que == (if At(s, x.sock) then Sock(s, x.sock).que else []) + [w]
               && (At(s, x.sock) && !Sock(s, x.sock).busy ==> Sock(s, x.sock).que == [])
  {
    TakenHas(s);
    if s.idle != [] {
      assert IdleOk(s, 0);
      assert WorkerOk(s, s.idle[0]);
    }
    hide Grow, Core, WorkerOk;
  }

  /** A connection that stands lets the queue of its socket begin, and nothing else. */
  lemma ConnectAnswers(s: State, k: nat)
    requires Inv(s) && Enabled(s, Connected(k))
    ensures var t := Step(s, Connected(k));
            && (forall i :: 0 <= i < |Sock(s, k).que| ==> Sock(s, k).que[i] < |s.workers|)
            && Begun(s, t, k, Sock(s, k).que, Beginners(s, Sock(s, k).que)) && t.idle == s.idle
  {
    hide Core, Waits, Drain, Waiting;
    ChangeKeeps(s, Connected(k));
    var u := Change(s, Connected(k)).0;
    QueueBegins(u, k);
    DrainIdle(u, k);
    BeginnersSame(s, u, Sock(s, k).que);
    hide Begun, Beginners;
    BegunSame(u, s, Step(s, Connected(k)), k);
  }

  lemma BegunSame(u: State, s: State, t: State, k: nat)
    requires u.workers == s.workers
    ensures forall q, n :: Begun(u, t, k, q, n) ==> Begun(s, t, k, q, n)
  {
  }

  /** The end of an upload frees the socket, whose queue begins; the worker is idle, behind the others
      that are, if its response is complete too. */
  lemma UploadAnswers(s: State, w: nat)
    requires Inv(s) && Enabled(s, PostDone(w)) && Has(s, w)
    ensures var x := s.workers[w]; var k := x.sock; var t := Step(s, PostDone(w));
            var u := s.(workers := s.workers[w := if x.data then x.(post := false)
                                                  else x.(post := false, end := true, req := None)]);
            && (forall i :: 0 <= i < |Sock(s, k).que| ==> Sock(s, k).que[i] < |u.workers|)
            && Begun(u, t, k, Sock(s, k).que, Beginners(u, Sock(s, k).que))
            && t.idle == s.idle + (if x.data then [] else [w])
  {
    var x := s.workers[w];
    var k := x.sock;
    assert WorkerOk(s, w);
    hide Core, Waits, Drain, Waiting, WorkerOk;
    ChangeKeeps(s, PostDone(w));
    var v := Change(s, PostDone(w)).0;
    var u := s.(workers := s.workers[w := if x.data then x.(post := false)
                                          else x.(post := false, end := true, req := None)]);
    assert !x.end by { NotIdle(s, w); }
    assert v.workers == u.workers && Sock(v, k).que == Sock(s, k).que && !Sock(v, k).busy;
    QueueBegins(v, k);
    DrainIdle(v, k);
    BeginnersSame(u, v, Sock(s, k).que);
    hide Begun, Beginners;
    BegunSame(v, u, Step(s, PostDone(w)), k);
  }

  lemma NotIdle(s: State, w: nat)
    requires Inv(s) && w < |s.workers| && (s.workers[w].post || s.workers[w].data)
    ensures !s.workers[w].end
  {
    assert WorkerOk(s, w);
  }

  /** A complete response leaves the sockets alone; its worker is idle, behind the others that are, if it
      has nothing left to upload. */
  lemma ResponseAnswers(s: State, w: nat)
    requires Inv(s) && Enabled(s, ResponseDone(w))
    ensures var x, t := s.workers[w], Step(s, ResponseDone(w));
            && t.sockets == s.sockets && t.next == s.next && |t.workers| == |s.workers|
            && (forall v :: 0 <= v < |s.workers| && v != w ==> t.workers[v] == s.workers[v])
            && t.workers[w] == x.(data := false, req := None, end := !x.post)
            && t.idle == s.idle + (if x.post then [] else [w])
  {
    NotIdle(s, w);
    hide Core, Waits;
  }
}
