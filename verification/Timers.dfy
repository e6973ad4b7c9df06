/** The list of timers (src/system/timing.c), kept by deadline on an intrusive list. */
module Timers {
  import opened DList

  type Times = map<Link, int>

  /** The deadline of a timer, which is 0 until it is set. */
  function Due(times: Times, x: Link): int { if x in times then times[x] else 0 }

  function Set(times: Times, x: Link, t: int): Times { if Due(times, x) == t then times else times[x := t] }

  /** The deadlines of the nodes of `s` do not go down. */
  ghost predicate Sorted(s: seq<Link>, times: Times)
  {
    forall i, j :: 0 <= i < j < |s| ==> Due(times, s[i]) <= Due(times, s[j])
  }

  /** The first place from `from` on whose timer is not due before `t`, or the end. */
  function FirstAtLeast(s: seq<Link>, times: Times, from: nat, t: int): (j: nat)
    requires from <= |s|
    ensures from <= j <= |s| && (forall i :: from <= i < j ==> Due(times, s[i]) < t) &&
            (j < |s| ==> Due(times, s[j]) >= t)
    decreases |s| - from
  {
    if from == |s| || Due(times, s[from]) >= t then from else FirstAtLeast(s, times, from + 1, t)
  }

  /** The place behind the last timer before `upto` that is not due after `t`, or the start. */
  function BehindAtMost(s: seq<Link>, times: Times, upto: nat, t: int): (j: nat)
    requires upto <= |s|
    ensures j <= upto && (forall i :: j <= i < upto ==> Due(times, s[i]) > t) && (0 < j ==> Due(times, s[j - 1]) <= t)
  {
    if upto == 0 || Due(times, s[upto - 1]) <= t then upto else BehindAtMost(s, times, upto - 1, t)
  }

  /** The place a timer goes to in the list without it, found by walking from where it was; one that
      is in no list has nowhere to walk. */
  function Spot(s: seq<Link>, times: Times, x: Link, t: int): (p: nat)
    ensures p <= |s| && (Place(s, x) < |s| ==> p < |s|)
  {
    var i := Place(s, x);
    if Due(times, x) < t then (if i < |s| then FirstAtLeast(s, times, i + 1, t) - 1 else |s|)
    else (if i < |s| then BehindAtMost(s, times, i, t) else 0)
  }

  function Updated(s: seq<Link>, times: Times, x: Link, t: int): seq<Link>
  {
    if Due(times, x) == t then s
    else
      var r := Without(s, x);
      Inserted(r, Spot(s, times, x, t), [x])
  }

  /** The list without `x` */
  function Without(s: seq<Link>, x: Link): (r: seq<Link>)
    ensures |r| == (if Place(s, x) < |s| then |s| - 1 else |s|)
  {
    var i := Place(s, x);
    if i < |s| then s[..i] + s[i + 1..] else s
  }

  /** In a sorted list the spot splits the others into those not after and those not before. */
  ghost predicate Splits(r: seq<Link>, times: Times, p: nat, t: int)
  {
    && p <= |r|
    && (forall j :: 0 <= j < p ==> Due(times, r[j]) <= t)
    && (forall j :: p <= j < |r| ==> t <= Due(times, r[j]))
  }

  lemma WithoutSorted(s: seq<Link>, times: Times, x: Link)
    requires Distinct(s) && Sorted(s, times)
    ensures var r := Without(s, x); var i := Place(s, x);
            && x !in r && Distinct(r) && Sorted(r, times)
            && (forall j :: 0 <= j < |r| ==> r[j] == s[if j < i then j else j + 1])
  {
    hide Place, Due;
    var i, r := Place(s, x), Without(s, x);
    if i < |s| {
      CutDistinct(s, i);
      hide Distinct;
      forall j | 0 <= j < |r| ensures r[j] == s[if j < i then j else j + 1] {
      }
      forall j, k | 0 <= j < k < |r| ensures Due(times, r[j]) <= Due(times, r[k]) {
      }
    }
  }

  lemma SpotSplits(s: seq<Link>, times: Times, x: Link, t: int)
    requires Distinct(s) && x in s && Sorted(s, times) && Due(times, x) != t
    ensures Splits(Without(s, x), times, Spot(s, times, x, t), t)
  {
    hide *;
    WithoutSorted(s, times, x);
    var i, r := Place(s, x), Without(s, x);
    assert i < |s| && s[i] == x;
    SpotIs(s, times, x, t);
    if Due(times, x) < t {
      SplitsOn(s, times, i, r, t);
    } else {
      SplitsBack(s, times, i, r, t);
    }
  }

  lemma SpotIs(s: seq<Link>, times: Times, x: Link, t: int)
    requires Place(s, x) < |s|
    ensures Spot(s, times, x, t) == if Due(times, x) < t then FirstAtLeast(s, times, Place(s, x) + 1, t) - 1
                                    else BehindAtMost(s, times, Place(s, x), t)
  {
  }

  lemma SplitsOn(s: seq<Link>, times: Times, i: nat, r: seq<Link>, t: int)
    requires Sorted(s, times) && i < |s| && |r| == |s| - 1 && Due(times, s[i]) < t
    requires forall j :: 0 <= j < |r| ==> r[j] == s[if j < i then j else j + 1]
    ensures Splits(r, times, FirstAtLeast(s, times, i + 1, t) - 1, t)
  {
    hide FirstAtLeast, Due;
    var k := FirstAtLeast(s, times, i + 1, t);
    forall j | 0 <= j < k - 1 ensures Due(times, r[j]) <= t { assert j < i ==> Due(times, s[j]) <= Due(times, s[i]); }
    forall j | k - 1 <= j < |r| ensures t <= Due(times, r[j])
    { assert k < j + 1 ==> Due(times, s[k]) <= Due(times, s[j + 1]); }
  }

  lemma SplitsBack(s: seq<Link>, times: Times, i: nat, r: seq<Link>, t: int)
    requires Sorted(s, times) && i < |s| && |r| == |s| - 1 && Due(times, s[i]) > t
    requires forall j :: 0 <= j < |r| ==> r[j] == s[if j < i then j else j + 1]
    ensures Splits(r, times, BehindAtMost(s, times, i, t), t)
  {
    hide BehindAtMost, Due;
    var p := BehindAtMost(s, times, i, t);
    forall j | 0 <= j < p ensures Due(times, r[j]) <= t
    { assert j < p - 1 ==> Due(times, s[j]) <= Due(times, s[p - 1]); }
    forall j | p <= j < |r| ensures t <= Due(times, r[j])
    { assert i < j + 1 ==> Due(times, s[i]) <= Due(times, s[j + 1]); }
  }

  lemma InsertKeepsOrder(r: seq<Link>, times: Times, p: nat, x: Link, t: int)
    requires x !in r && Sorted(r, times) && Splits(r, times, p, t)
    ensures Sorted(Inserted(r, p, [x]), times[x := t])
  {
    var u := Inserted(r, p, [x]);
    assert forall j :: 0 <= j < |u| && j != p ==> u[j] == r[if j < p then j else j - 1] && u[j] in r;
    assert u[p] == x;
  }

  lemma InsertedRemoves(r: seq<Link>, p: nat, x: Link)
    requires x !in r && p <= |r|
    ensures Removed(Inserted(r, p, [x]), x) == r
  {
    var u := Inserted(r, p, [x]);
    assert u[p] == x && u[..p] == r[..p] && u[p + 1..] == r[p..];
    RemovedAt(u, p);
  }

  /** Updating a linked timer keeps the list sorted, and the order of the others. */
  lemma UpdateKeepsOrder(s: seq<Link>, times: Times, x: Link, t: int)
    requires Distinct(s) && x in s && Sorted(s, times)
    ensures var u := Updated(s, times, x, t);
            && Sorted(u, Set(times, x, t))
            && Removed(u, x) == Removed(s, x) && Distinct(u) && x in u
  {
    hide Removed, Place, Due, Sorted, Without, Spot;
    if Due(times, x) != t {
      var r, p := Without(s, x), Spot(s, times, x, t);
      WithoutIsRemoved(s, x);
      WithoutSorted(s, times, x);
      SpotSplits(s, times, x, t);
      InsertKeepsOrder(r, times, p, x, t);
      InsertedRemoves(r, p, x);
      InsertedDistinct(r, p, [x]);
      assert Updated(s, times, x, t)[p] == x;
    }
  }

  /** A new timer is put at the end, whatever its deadline; the list stays sorted exactly if no timer
      in it has a later one. */
  lemma NewTimer(s: seq<Link>, times: Times, x: Link, t: int)
    requires Distinct(s) && x !in s && Due(times, x) == 0 && 0 < t
    requires Sorted(s, times)
    ensures var u := Updated(s, times, x, t);
            && u == s + [x]
            && (Sorted(u, Set(times, x, t)) <==> s == [] || Due(times, s[|s| - 1]) <= t)
  {
    var u := Updated(s, times, x, t);
    assert u == s + [x];
    if s != [] && Due(times, s[|s| - 1]) > t {
      assert Due(times[x := t], u[|s| - 1]) > Due(times[x := t], u[|s|]);
    }
  }

  // ---- firing

  /** What a timer's callback does: only return 0, set its own timer to a later time, or remove it. */
  datatype Action = Nothing | Later(time: int) | Cancel

  type Actions = map<Link, Action>

  function Does(acts: Actions, x: Link): Action { if x in acts then acts[x] else Nothing }

  /** A time set by a callback lies ahead. */
  ghost predicate Ahead(acts: Actions, now: int)
  {
    0 <= now && forall x :: x in acts && acts[x].Later? ==> acts[x].time > now
  }

  /** The first `d` timers are due, and the others are not. */
  ghost predicate DueFirst(s: seq<Link>, times: Times, now: int, d: nat)
  {
    && d <= |s|
    && (forall i :: 0 <= i < d ==> Due(times, s[i]) <= now)
    && (forall i :: d <= i < |s| ==> Due(times, s[i]) > now)
  }

  /** The list, and the deadlines, after the first timer has fired */
  function Fired(s: seq<Link>, times: Times, acts: Actions): (r: (seq<Link>, Times))
    requires s != []
    ensures |s| - 1 <= |r.0|
  {
    var x := s[0];
    match Does(acts, x)
    case Later(t) => (Updated(s, times, x, t), Set(times, x, t))
    case _ => (s[1..], times[x := 0])
  }

  /** The head of the list goes behind the timers not due before `t`. */
  lemma HeadMoves(s: seq<Link>, times: Times, t: int) returns (p: nat)
    requires s != [] && t > Due(times, s[0])
    ensures p == FirstAtLeast(s, times, 1, t) - 1 && p < |s|
    ensures Updated(s, times, s[0], t) == s[1..p + 1] + [s[0]] + s[p + 1..]
  {
    p := FirstAtLeast(s, times, 1, t) - 1;
    hide FirstAtLeast, Due;
    HeadOut(s, p);
    assert Place(s, s[0]) == 0;
    assert Spot(s, times, s[0], t) == p;
    hide Spot, Place;
  }

  lemma HeadOut(s: seq<Link>, p: nat)
    requires p < |s|
    ensures Inserted(Without(s, s[0]), p, [s[0]]) == s[1..p + 1] + [s[0]] + s[p + 1..]
  {
    assert Place(s, s[0]) == 0;
    assert Without(s, s[0]) == s[1..];
    assert s[1..][..p] == s[1..p + 1] && s[1..][p..] == s[p + 1..];
  }

  /** A timer that set itself a later time is behind those still due, which have moved up. */
  lemma FiredLater(s: seq<Link>, times: Times, now: int, d: nat, t: int)
    requires DueFirst(s, times, now, d) && 0 < d && t > now && Distinct(s)
    ensures var u, v := Updated(s, times, s[0], t), Set(times, s[0], t);
            && DueFirst(u, v, now, d - 1) && u[..d - 1] == s[1..d]
            && (forall y :: y in u <==> y in s)
  {
    var p := HeadMoves(s, times, t);
    assert p >= d - 1;
    hide Updated, FirstAtLeast;
    MovedHeadDue(s, times, now, d, t, p);
    MovedHeadSame(s, p);
  }

  lemma MovedHeadDue(s: seq<Link>, times: Times, now: int, d: nat, t: int, p: nat)
    requires DueFirst(s, times, now, d) && 0 < d && t > now && Distinct(s) && d - 1 <= p < |s|
    ensures var u := s[1..p + 1] + [s[0]] + s[p + 1..];
            DueFirst(u, Set(times, s[0], t), now, d - 1) && u[..d - 1] == s[1..d]
  {
    var u, v := s[1..p + 1] + [s[0]] + s[p + 1..], Set(times, s[0], t);
    forall i | 0 <= i < |u| ensures if i < d - 1 then Due(v, u[i]) <= now else Due(v, u[i]) > now {
      var k := if i < p then i + 1 else if i == p then 0 else i;
      assert u[i] == s[k];
      assert Due(v, s[k]) == if k == 0 then t else Due(times, s[k]);
    }
  }

  lemma MovedHeadSame(s: seq<Link>, p: nat)
    requires p < |s|
    ensures forall y :: y in s[1..p + 1] + [s[0]] + s[p + 1..] <==> y in s
  {
    assert s == [s[0]] + s[1..p + 1] + s[p + 1..];
  }

  lemma FiredDue(s: seq<Link>, times: Times, acts: Actions, y: Link)
    requires s != []
    ensures Due(Fired(s, times, acts).1, y)
         == if y != s[0] then Due(times, y) else if Does(acts, y).Later? then Does(acts, y).time else 0
  {
  }

  lemma FiredStep(s: seq<Link>, times: Times, now: int, acts: Actions, d: nat)
    requires DueFirst(s, times, now, d) && 0 < d && Ahead(acts, now) && Distinct(s) && Sorted(s, times)
    ensures var (u, v) := Fired(s, times, acts);
            && Distinct(u) && Sorted(u, v) && DueFirst(u, v, now, d - 1) && u[..d - 1] == s[1..d]
            && (forall y :: y in u <==> y in s && (y != s[0] || Does(acts, y).Later?))
  {
    var x := s[0];
    var (u, v) := Fired(s, times, acts);
    match Does(acts, x)
    case Later(t) =>
      hide Sorted, Updated, Distinct;
      FiredLater(s, times, now, d, t);
      UpdateKeepsOrder(s, times, x, t);
    case _ =>
      FiredGone(s, times, now, d);
  }

  lemma FiredGone(s: seq<Link>, times: Times, now: int, d: nat)
    requires DueFirst(s, times, now, d) && 0 < d && Distinct(s) && Sorted(s, times)
    ensures var u, v := s[1..], times[s[0] := 0];
            && Distinct(u) && Sorted(u, v) && DueFirst(u, v, now, d - 1) && u[..d - 1] == s[1..d]
            && (forall y :: y in u <==> y in s && y != s[0])
  {
    var u, v := s[1..], times[s[0] := 0];
    forall i | 0 <= i < |u| ensures u[i] == s[i + 1] && u[i] != s[0] && Due(v, u[i]) == Due(times, s[i + 1]) {
    }
    hide Due;
    assert s == [s[0]] + u;
    assert u[..d - 1] == s[1..d];
    assert Sorted(u, v) by {
      forall i, j | 0 <= i < j < |u| ensures Due(v, u[i]) <= Due(v, u[j]) {
        assert Due(times, s[i + 1]) <= Due(times, s[j + 1]);
      }
    }
  }

  /** The list, and the deadlines, after the first `n` timers have fired */
  function FireAll(s: seq<Link>, times: Times, acts: Actions, n: nat): (seq<Link>, Times)
    requires n <= |s|
    decreases n
  {
    if n == 0 then (s, times)
    else var (u, v) := Fired(s, times, acts); FireAll(u, v, acts, n - 1)
  }

  /** On a sorted list firing leaves no timer due; those stay that were not due or set themselves a
      later time; and no other deadline changes. */
  lemma {:induction false} FireAllFires(s: seq<Link>, times: Times, now: int, acts: Actions, d: nat)
    requires DueFirst(s, times, now, d) && Ahead(acts, now) && Distinct(s) && Sorted(s, times)
    ensures var (u, v) := FireAll(s, times, acts, d);
            && Distinct(u) && Sorted(u, v) && DueFirst(u, v, now, 0)
            && (forall y :: y in u <==> y in s && (Due(times, y) > now || Does(acts, y).Later?))
            && (forall y :: Due(v, y) == if y in s && Due(times, y) <= now
                                         then (if Does(acts, y).Later? then Does(acts, y).time else 0)
                                         else Due(times, y))
    decreases d
  {
    if d == 0 {
      assert forall y :: y in s ==> Due(times, y) > now;
    } else {
      FiredStep(s, times, now, acts, d);
      var (u, v) := Fired(s, times, acts);
      forall y ensures Due(v, y) == if y != s[0] then Due(times, y)
          else if Does(acts, y).Later? then Does(acts, y).time else 0 {
        FiredDue(s, times, acts, y);
      }
      hide Fired, Sorted, Distinct;
      FireAllFires(u, v, now, acts, d - 1);
      assert Due(times, s[0]) <= now && s[0] in s;
    }
  }

  /** How many timers of a sorted list are due */
  function DueCount(s: seq<Link>, times: Times, now: int): nat { FirstAtLeast(s, times, 0, now + 1) }

  lemma DueCountIsDueFirst(s: seq<Link>, times: Times, now: int)
    requires Sorted(s, times)
    ensures DueFirst(s, times, now, DueCount(s, times, now))
  {
  }

  class TimerList {
    const list: List
    /** The deadline next to each link; hin_timer_list_ptr finds it from the link's address. */
    var times: Times

    ghost predicate Valid()
      reads list, list.nodes
    {
      list.Valid()
    }

    /** A timer that is in no list is linked to nothing. */
    ghost predicate Loose(x: Link)
      reads list, x
    {
      x !in list.nodes ==> x.next == null && x.prev == null
    }

    constructor ()
      ensures Valid() && list.nodes == [] && times == map[] && fresh(list)
    {
      list := new List();
      times := map[];
    }

    /** hin_timer_remove */
    method Remove(x: Link)
      requires Valid() && Loose(x)
      modifies this, list, list.nodes, x
      ensures Valid() && list.nodes == Removed(old(list.nodes), x) && times == old(times)[x := 0]
      ensures x !in list.nodes && Loose(x)
    {
      list.Remove(x);
      times := times[x := 0];
    }

    /** hin_timer_update */
    method Update(x: Link, t: int)
      requires Valid() && Loose(x)
      modifies this, list, list.nodes, x
      ensures Valid() && list.nodes == Updated(old(list.nodes), old(times), x, t)
      ensures times == Set(old(times), x, t)
    {
      if Due(times, x) == t {
        return;
      }
      if Due(times, x) < t {
        MoveOn(x, t);
      } else {
        MoveBack(x, t);
      }
      SetTime(x, t);
    }

    method SetTime(x: Link, t: int)
      requires Valid()
      modifies this
      ensures Valid() && times == old(times)[x := t] && list.nodes == old(list.nodes)
    {
      times := times[x := t];
    }

    /** hin_timer_check at the head of the list: the callback, and what is done if it returned 0 and
        the timer is still due */
    method Fire(x: Link, acts: Actions, now: int)
      requires Valid() && list.nodes != [] && x == list.nodes[0] && Ahead(acts, now) && Due(times, x) <= now
      modifies this, list, list.nodes
      ensures Valid()
      ensures var f := Fired(old(list.nodes), old(times), acts); list.nodes == f.0 && times == f.1
    {
      ghost var s, was := list.nodes, times;
      RemovedHead(s);
      match Does(acts, x) {
        case Nothing =>
        case Later(t) => Update(x, t);
        case Cancel => Remove(x);
      }
      if Due(times, x) <= now {
        RemovedTwice(s);
        ghost var gone: Times := was[x := 0];
        assert gone[x := 0] == gone;
        Remove(x);
      }
    }

    /** hin_timer_check: it returns the timers it fired. The next link is read before the callback
        runs, so a timer that was set behind it is not met again. */
    method Check(now: int, acts: Actions) returns (fired: seq<Link>)
      requires Valid() && Sorted(list.nodes, times) && Ahead(acts, now)
      modifies this, list, list.nodes
      ensures Valid() && fired == old(list.nodes)[..DueCount(old(list.nodes), old(times), now)]
      ensures var f := FireAll(old(list.nodes), old(times), acts, DueCount(old(list.nodes), old(times), now));
              list.nodes == f.0 && times == f.1
    {
      ghost var s, was := list.nodes, times;
      ghost var d := DueCount(s, was, now);
      ghost var left: nat := d;
      ProgressStart(s, was, now, acts);
      fired := [];
      var elem := list.next;
      hide Progress, Fired, FireAll, DueCount, Linked, NodeOk, Distinct, Due, Ahead, Sorted, DueFirst, Does;
      while elem != null && Due(times, elem) <= now
        invariant Valid() && Within(list.nodes, s)
        invariant left <= |list.nodes| && Progress(s, was, now, acts, d, list.nodes, times, left, fired)
        invariant if left > 0 then elem == list.nodes[0] else elem == null || Due(times, elem) > now
        decreases left
      {
        ghost var u := list.nodes;
        var timer: Link := elem;
        SecondLink(u);
        ProgressStep(s, was, now, acts, d, u, times, left, fired);
        elem := elem.next;
        fired := fired + [timer];
        Fire(timer, acts, now);
        WithinTrans(list.nodes, u, s);
        left := left - 1;
      }
      ProgressDue(s, was, now, acts, d, list.nodes, times, left, fired);
      ProgressEnd(s, was, now, acts, d, list.nodes, times, left, fired);
    }

    /** Behind the timers not due before `t` */
    method MoveOn(x: Link, t: int)
      requires Valid() && Loose(x) && Due(times, x) < t
      modifies list, list.nodes, x
      ensures Valid() && list.nodes == Updated(old(list.nodes), times, x, t)
    {
      hide Linked, Place, Without, Spot, FirstAtLeast, IsChain, Separate, Inserted;
      ghost var s, p := list.nodes, Spot(list.nodes, times, x, t);
      SpotOn(s, times, x, t);
      var base := WalkOn(x, Place(s, x), t);
      TakeOut(x);
      if base != null {
        list.AddBefore(base, p, x, [x]);
      } else {
        InsertedAtEnds(Without(s, x), x);
        list.Append(x, [x]);
      }
    }

    /** In front of the timers not due after `t` */
    method MoveBack(x: Link, t: int)
      requires Valid() && Loose(x) && Due(times, x) > t
      modifies list, list.nodes, x
      ensures Valid() && list.nodes == Updated(old(list.nodes), times, x, t)
    {
      hide Linked, Place, Without, Spot, BehindAtMost, IsChain, Separate, Inserted;
      ghost var s, p := list.nodes, Spot(list.nodes, times, x, t);
      SpotBack(s, times, x, t);
      var base := WalkBack(x, Place(s, x), t);
      TakeOut(x);
      if base != null {
        list.AddAfter(base, p - 1, x, [x]);
      } else {
        InsertedAtEnds(Without(s, x), x);
        list.Prepend(x, [x]);
      }
    }

    /** basic_dlist_remove, told by the place of `x` */
    method TakeOut(x: Link)
      requires Valid() && Loose(x)
      modifies list, list.nodes, x
      ensures Valid() && list.nodes == Without(old(list.nodes), x) && IsChain(x, [x]) && Separate([x], list.nodes)
      ensures forall i :: 0 <= i < |list.nodes| ==> list.nodes[i] in old(list.nodes)
    {
      WithoutIsRemoved(list.nodes, x);
      hide Removed, Without, Linked, Separate, IsChain, NodeOk;
      list.Remove(x);
      Single(x, list.nodes);
    }

    /** The first timer behind `x` that is not due before `t` */
    method WalkOn(x: Link, ghost i: nat, t: int) returns (base: Link?)
      requires Valid() && Loose(x) && i == Place(list.nodes, x)
      ensures var s := list.nodes;
              if i == |s| then base == null
              else var j := FirstAtLeast(s, times, i + 1, t); base == if j < |s| then s[j] else null
    {
      base := x.next;
      ghost var j := i + 1;
      if i < |list.nodes| { assert NodeOk(list.nodes, i); }
      while base != null && Due(times, base) < t
        invariant i == |list.nodes| ==> base == null
        invariant i < |list.nodes| ==> j <= |list.nodes| && base == if j < |list.nodes| then list.nodes[j] else null
        invariant i < |list.nodes| ==>
                    FirstAtLeast(list.nodes, times, j, t) == FirstAtLeast(list.nodes, times, i + 1, t)
        decreases |list.nodes| - j
      {
        assert NodeOk(list.nodes, j);
        base := base.next;
        j := j + 1;
      }
    }

    /** The last timer before `x` that is not due after `t` */
    method WalkBack(x: Link, ghost i: nat, t: int) returns (base: Link?)
      requires Valid() && Loose(x) && i == Place(list.nodes, x)
      ensures var s := list.nodes;
              if i == |s| then base == null
              else var j := BehindAtMost(s, times, i, t); base == if 0 < j then s[j - 1] else null
    {
      base := x.prev;
      ghost var j: nat := i;
      if i < |list.nodes| { assert NodeOk(list.nodes, i); }
      while base != null && Due(times, base) > t
        invariant i == |list.nodes| ==> base == null
        invariant i < |list.nodes| ==> j <= i && base == if 0 < j then list.nodes[j - 1] else null
        invariant i < |list.nodes| ==> BehindAtMost(list.nodes, times, j, t) == BehindAtMost(list.nodes, times, i, t)
        decreases j
      {
        assert NodeOk(list.nodes, j - 1);
        base := base.prev;
        j := j - 1;
      }
    }
  }

  /** The timer the walk ends at, in the list without `x` */
  lemma SpotOn(s: seq<Link>, times: Times, x: Link, t: int)
    requires Due(times, x) < t
    ensures var i, r, p := Place(s, x), Without(s, x), Spot(s, times, x, t);
            if i < |s| && FirstAtLeast(s, times, i + 1, t) < |s|
            then p < |r| && r[p] == s[FirstAtLeast(s, times, i + 1, t)]
            else p == |r|
  {
    hide Place, FirstAtLeast, Due;
    var i := Place(s, x);
    if i < |s| {
      assert Without(s, x) == s[..i] + s[i + 1..];
      assert Spot(s, times, x, t) == FirstAtLeast(s, times, i + 1, t) - 1;
    }
    hide Without, Spot;
  }

  lemma SpotBack(s: seq<Link>, times: Times, x: Link, t: int)
    requires Due(times, x) > t
    ensures var i, r, p := Place(s, x), Without(s, x), Spot(s, times, x, t);
            if i < |s| && 0 < BehindAtMost(s, times, i, t)
            then 0 < p <= |r| && r[p - 1] == s[BehindAtMost(s, times, i, t) - 1]
            else p == 0
  {
    hide Place, BehindAtMost, Due;
  }

  lemma InsertedAtEnds(r: seq<Link>, x: Link)
    ensures Inserted(r, |r|, [x]) == r + [x] && Inserted(r, 0, [x]) == [x] + r
  {
  }

  lemma SecondLink(s: seq<Link>)
    requires Linked(s) && s != []
    ensures s[0].next == if |s| > 1 then s[1] else null
  {
    assert NodeOk(s, 0);
  }

  lemma Single(x: Link, s: seq<Link>)
    requires x.next == null && x.prev == null && x !in s
    ensures IsChain(x, [x]) && Separate([x], s)
  {
    assert NodeOk([x], 0);
  }

  lemma WithoutIsRemoved(s: seq<Link>, x: Link)
    requires Distinct(s)
    ensures Removed(s, x) == Without(s, x) && x !in Without(s, x)
    ensures forall i :: 0 <= i < |Without(s, x)| ==> Without(s, x)[i] in s
  {
    hide Removed, Distinct;
    var i := Place(s, x);
    if i < |s| {
      RemovedAt(s, i);
      CutDistinct(s, i);
      var r := s[..i] + s[i + 1..];
      assert Without(s, x) == r;
      forall k | 0 <= k < |r| ensures r[k] in s {
        assert r[k] == s[if k < i then k else k + 1];
      }
    } else {
      RemovedAbsent(s, x);
      assert forall k :: 0 <= k < |s| ==> s[k] in s;
    }
  }

  lemma RemovedHead(s: seq<Link>)
    requires s != []
    ensures Removed(s, s[0]) == s[1..]
  {
  }

  lemma RemovedTwice(s: seq<Link>)
    requires s != [] && Distinct(s)
    ensures Removed(s[1..], s[0]) == s[1..]
  {
    RemovedAbsent(s[1..], s[0]);
  }

  /** `d - left` of the due timers have fired, and the others are at the front. */
  ghost predicate Progress(s: seq<Link>, was: Times, now: int, acts: Actions, d: nat,
                           u: seq<Link>, times: Times, left: nat, fired: seq<Link>)
  {
    && left <= d <= |s| && Distinct(u) && Sorted(u, times) && DueFirst(u, times, now, left)
    && u[..left] == s[d - left..d] && fired == s[..d - left]
    && FireAll(u, times, acts, left) == FireAll(s, was, acts, d)
  }

  lemma ProgressStart(s: seq<Link>, was: Times, now: int, acts: Actions)
    requires Linked(s) && Sorted(s, was)
    ensures var d := DueCount(s, was, now);
            && d <= |s| && Progress(s, was, now, acts, d, s, was, d, [])
            && (d == 0 && s != [] ==> Due(was, s[0]) > now)
  {
    DueCountIsDueFirst(s, was, now);
  }

  lemma ProgressDue(s: seq<Link>, was: Times, now: int, acts: Actions, d: nat,
                    u: seq<Link>, times: Times, left: nat, fired: seq<Link>)
    requires Progress(s, was, now, acts, d, u, times, left, fired)
    ensures 0 < left ==> u != [] && Due(times, u[0]) <= now
  {
  }

  lemma ProgressEnd(s: seq<Link>, was: Times, now: int, acts: Actions, d: nat,
                    u: seq<Link>, times: Times, left: nat, fired: seq<Link>)
    requires Progress(s, was, now, acts, d, u, times, left, fired) && left == 0
    ensures d <= |s| && fired == s[..d] && var f := FireAll(s, was, acts, d); u == f.0 && times == f.1
  {
  }

  lemma ProgressStep(s: seq<Link>, was: Times, now: int, acts: Actions, d: nat,
                     u: seq<Link>, times: Times, left: nat, fired: seq<Link>)
    requires Progress(s, was, now, acts, d, u, times, left, fired) && 0 < left && Ahead(acts, now)
    ensures u != [] && var f := Fired(u, times, acts);
            && left - 1 <= |f.0| && Progress(s, was, now, acts, d, f.0, f.1, left - 1, fired + [u[0]])
            && (left == 1 && |u| > 1 ==> Due(f.1, u[1]) > now)
            && (left > 1 ==> f.0[0] == u[1]) && (forall y :: y in f.0 ==> y in u)
  {
    NextAfter(u, times, now, acts, left);
    var f := Fired(u, times, acts);
    hide Sorted, Fired, Distinct, DueFirst;
    MovedUp(s, d, u, left, f.0);
  }

  lemma NextAfter(u: seq<Link>, times: Times, now: int, acts: Actions, left: nat)
    requires DueFirst(u, times, now, left) && 0 < left && Ahead(acts, now) && Distinct(u) && Sorted(u, times)
    ensures var f := Fired(u, times, acts);
            && Distinct(f.0) && Sorted(f.0, f.1) && DueFirst(f.0, f.1, now, left - 1) && f.0[..left - 1] == u[1..left]
            && (left == 1 && |u| > 1 ==> Due(f.1, u[1]) > now) && (forall y :: y in f.0 ==> y in u)
  {
    assert |u| > 1 ==> u[0] != u[1] && (left == 1 ==> Due(times, u[1]) > now);
    if |u| > 1 { FiredDue(u, times, acts, u[1]); }
    hide *;
    FiredStep(u, times, now, acts, left);
  }

  lemma MovedUp(s: seq<Link>, d: nat, u: seq<Link>, left: nat, w: seq<Link>)
    requires 0 < left <= d <= |s| && left <= |u| && left - 1 <= |w|
    requires u[..left] == s[d - left..d] && w[..left - 1] == u[1..left]
    ensures w[..left - 1] == s[d - (left - 1)..d] && s[..d - left] + [u[0]] == s[..d - (left - 1)]
    ensures left > 1 ==> w[0] == u[1]
  {
    assert u[0] == u[..left][0] == s[d - left];
    assert u[1..left] == u[..left][1..];
    assert left > 1 ==> w[0] == w[..left - 1][0];
  }

  ghost predicate Within(u: seq<Link>, s: seq<Link>) { forall i :: 0 <= i < |u| ==> u[i] in s }

  lemma WithinTrans(u: seq<Link>, r: seq<Link>, s: seq<Link>)
    requires Within(r, s) && forall y :: y in u ==> y in r
    ensures Within(u, s)
  {
    forall i | 0 <= i < |u| ensures u[i] in s {
      assert u[i] in u;
    }
  }
}
