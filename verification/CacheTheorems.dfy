/** The account of references that the cache keeps, and the two kinds of events that break it: expiry
    of an item that somebody else still holds, and a second failure of the pipe of an item that another
    one has replaced. */
module CacheTheorems {
  import opened CacheSpec

  // ---- sizes

  lemma {:induction false} TableSizeChanges(s: State, t: State, i: nat, n: nat)
    requires n <= |s.items| && |s.items| <= |t.items|
    requires forall j :: 0 <= j < n && j != i ==> Counted(t, j) == Counted(s, j)
    ensures TableSize(t, n) == TableSize(s, n) + (if i < n then Counted(t, i) - Counted(s, i) else 0)
  {
    if n != 0 {
      TableSizeChanges(s, t, i, n - 1);
    }
  }

  // ---- one item changes

  /** The rest of a state in which only item `i` changes, and the table entry for its key. */
  ghost predicate OnlyItem(s: State, t: State, i: nat)
  {
    && i < |s.items| && |t.items| == |s.items| && t.items[i].key == s.items[i].key
    && (forall j :: 0 <= j < |s.items| && j != i ==> t.items[j] == s.items[j])
    && (t.table == s.table || t.table == Delete(s, s.items[i].key).table)
  }

  /** An item changes, and leaves the table only if it was the one its key leads to. */
  lemma OneItemKeeps(s: State, t: State, i: nat)
    requires Inv(s) && OnlyItem(s, t, i) && ItemOk(t, i)
    requires t.table == s.table || Listed(s, i)
    requires t.size == s.size + Counted(t, i) - Counted(s, i)
    ensures Inv(t)
  {
    forall j | 0 <= j < |t.items| ensures ItemOk(t, j) && (j != i ==> Counted(t, j) == Counted(s, j)) {
      assert ItemOk(s, j);
    }
    TableSizeChanges(s, t, i, |s.items|);
  }

  lemma UnrefTo(s: State, i: nat)
    requires i < |s.items|
    ensures OnlyItem(s, Unref(s, i), i) && Unref(s, i).table == s.table && Unref(s, i).size == s.size
  {
  }

  lemma {:induction false} UnrefAllTo(s: State, i: nat, n: nat)
    requires i < |s.items| && n < s.items[i].refs
    ensures UnrefAll(s, i, n) == Set(s, i, s.items[i].(refs := s.items[i].refs - n))
    decreases n
  {
    if n == 0 {
      assert s.items[i := s.items[i]] == s.items;
    } else {
      UnrefAllTo(Unref(s, i), i, n - 1);
    }
  }

  /** Everyone who waited is served, and nothing else changes. */
  lemma {:induction false} ServeAllServes(x: Item, clients: seq<nat>, starts: set<nat>)
    ensures var y := ServeAll(x, clients, starts);
            && y == x.(sending := y.sending, leaked := y.leaked)
            && |y.sending| + |y.leaked| == |x.sending| + |x.leaked| + |clients|
            && multiset(y.sending) + multiset(y.leaked)
               == multiset(x.sending) + multiset(x.leaked) + multiset(clients)
            && (forall c :: c in y.leaked ==> c in x.leaked || (c in clients && c !in starts))
    decreases |clients|
  {
    if clients != [] {
      var c := clients[0];
      var z := Serve(x, c, c in starts);
      ServeAllServes(z, clients[1..], starts);
      assert clients == [c] + clients[1..];
    }
  }

  // ---- the events

  lemma SaveKeeps(s: State, key: Key, client: nat, disabled: bool)
    requires Inv(s)
    ensures Inv(Save(s, key, client, disabled).0)
  {
    var t := Save(s, key, client, disabled).0;
    if Cacheable(key, disabled) && s.size < s.maxSize {
      if key in s.table {
        var i := s.table[key];
        assert ItemOk(s, i);
        OneItemKeeps(s, t, i);
      } else {
        forall j | 0 <= j < |t.items| ensures ItemOk(t, j) && (j < |s.items| ==> Counted(t, j) == Counted(s, j)) {
          if j < |s.items| { assert ItemOk(s, j); }
        }
        TableSizeChanges(s, t, |s.items|, |s.items|);
      }
    }
  }

  lemma CheckKeeps(s: State, key: Key, client: nat, disabled: bool, starts: bool)
    requires Inv(s)
    ensures Inv(Check(s, key, client, disabled, starts).0)
  {
    if Cacheable(key, disabled) && key in s.table {
      var i := s.table[key];
      assert ItemOk(s, i);
      OneItemKeeps(s, Check(s, key, client, disabled, starts).0, i);
    }
  }

  lemma FinishKeeps(s: State, i: nat, count: nat, starts: set<nat>)
    requires Inv(s) && i < |s.items| && s.items[i].generating
    ensures Inv(Finish(s, i, count, starts))
  {
    assert ItemOk(s, i);
    var x := s.items[i].(generating := false);
    if x.error {
      UnrefTo(Set(s, i, x), i);
    } else {
      ServeAllServes(x.(size := count, done := true), x.waiting, starts);
    }
    OneItemKeeps(s, Finish(s, i, count, starts), i);
  }

  /** A failed generation keeps the invariant, and the account, except when the item has failed before
      and another has got its key: then that one leaves the table without losing a reference. */
  lemma FailKeeps(s: State, i: nat)
    requires Inv(s) && Possible(s, FailEvent(i))
    ensures Inv(Fail(s, i)) <==> !TakesEntry(s, FailEvent(i))
    ensures Harmless(s, FailEvent(i)) <==> !TakesEntry(s, FailEvent(i))
  {
    assert ItemOk(s, i);
    var x, t := s.items[i], Fail(s, i);
    UnrefAllTo(s, i, |x.waiting|);
    if TakesEntry(s, FailEvent(i)) {
      var j := s.table[x.key];
      assert ItemOk(s, j);
      assert !Accounted(t, j) && !ItemOk(t, j);
    } else {
      if x.error {
        assert t == s;
      } else {
        OneItemKeeps(s, t, i);
      }
      InvAccounts(t);
    }
  }

  lemma SentKeeps(s: State, i: nat, j: nat)
    requires Inv(s) && i < |s.items| && j < |s.items[i].sending|
    ensures Inv(Sent(s, i, j))
  {
    assert ItemOk(s, i);
    OneItemKeeps(s, Sent(s, i, j), i);
  }

  /** Expiry keeps the invariant exactly if it finds a completed item that nobody but the table holds.
      Otherwise the item is out of the table but not freed, with its timer still linked, or it is
      freed under a pipe that has still to finish. */
  lemma ExpiryKeeps(s: State, i: nat)
    requires Inv(s) && Possible(s, ExpireEvent(i))
    ensures Inv(Expire(s, i)) <==> Timely(s, ExpireEvent(i))
    ensures Timely(s, ExpireEvent(i)) <==> s.items[i].done && s.items[i].refs == 1
  {
    assert ItemOk(s, i);
    var t := Expire(s, i);
    if Timely(s, ExpireEvent(i)) {
      OneItemKeeps(s, t, i);
    } else {
      assert !ItemOk(t, i);
    }
  }

  /** The account of references alone: every count is the number of holders, an item has been freed
      once if its count is zero and else not at all, and the store's size is that of the table. */
  ghost predicate Account(s: State)
  {
    && (forall i :: 0 <= i < |s.items| ==> Accounted(s, i) && s.items[i].frees == B(s.items[i].refs == 0))
    && s.size == TableSize(s, |s.items|)
  }

  /** An event of item `i` itself: its pipe, its timer, or a client it is being sent to */
  predicate About(e: Event, i: nat)
  {
    match e
    case FinishEvent(j, _, _) => j == i
    case FailEvent(j) => j == i
    case SentEvent(j, _) => j == i
    case ExpireEvent(j) => j == i
    case _ => false
  }

  lemma InvAccounts(s: State)
    requires Inv(s)
    ensures Account(s)
  {
    forall i | 0 <= i < |s.items| ensures Accounted(s, i) && s.items[i].frees == B(s.items[i].refs == 0) {
      assert ItemOk(s, i);
    }
  }

  /** After the event the account holds, and no item was freed with clients still in its queue. */
  ghost predicate Harmless(s: State, e: Event)
    requires Possible(s, e)
  {
    var t := Step(s, e);
    && Account(t)
    && (forall i :: 0 <= i < |s.items| && i < |t.items| && t.items[i].frees != s.items[i].frees ==>
          s.items[i].waiting == [])
  }

  /** A second expiry of an item that is out of the table, and the expiry of one that has failed, take
      a reference away that is not the table's. */
  lemma UnlistedExpiryHarms(s: State, i: nat)
    requires Possible(s, ExpireEvent(i)) && Accounted(s, i) && !Listed(s, i) && s.items[i].refs != 0
    ensures !Harmless(s, ExpireEvent(i))
  {
    var t := Expire(s, i);
    assert Accounted(t, i) ==> t.items[i].frees != s.items[i].frees && s.items[i].waiting != [];
  }

  /** What is generated for an item out of the table is added to the size of the store all the same. */
  lemma LateFinishHarms(s: State, i: nat)
    requires Possible(s, FinishEvent(i, 1, {})) && !Listed(s, i) && !s.items[i].error && Account(s)
    ensures !Account(Finish(s, i, 1, {}))
  {
    var t := Finish(s, i, 1, {});
    var x := s.items[i].(generating := false, size := 1, done := true);
    ServeAllServes(x, x.waiting, {});
    TableSizeChanges(s, t, i, |s.items|);
  }

  /** An expiry, and whatever may happen to the item after it, is harmless if and only if the item is
      complete and only the table holds it. */
  lemma ExpiryMustBeTimely(s: State, i: nat)
    requires Inv(s) && Possible(s, ExpireEvent(i))
    ensures var t := Expire(s, i);
            (s.items[i].done && s.items[i].refs == 1)
            <==> Harmless(s, ExpireEvent(i)) && forall e :: Possible(t, e) && About(e, i) ==> Harmless(t, e)
  {
    var x, t := s.items[i], Expire(s, i);
    assert ItemOk(s, i);
    ExpiryKeeps(s, i);
    if x.done && x.refs == 1 {
      InvAccounts(t);
      assert forall e :: Possible(t, e) ==> !About(e, i);
    } else if x.error {
      UnlistedExpiryHarms(s, i);
    } else if x.done {
      UnlistedExpiryHarms(t, i);
      var e := ExpireEvent(i);
      assert Possible(t, e) && About(e, i);
    } else if Account(t) {
      LateFinishHarms(t, i);
      var e := FinishEvent(i, 1, {});
      assert Possible(t, e) && About(e, i);
    }
  }

  /** The events that keep the invariant are exactly the benign ones, and these are harmless. */
  lemma StepKeeps(s: State, e: Event)
    requires Inv(s) && Possible(s, e)
    ensures Inv(Step(s, e)) <==> Benign(s, e)
    ensures Benign(s, e) ==> Harmless(s, e)
  {
    hide Inv, Save, Check, Finish, Fail, Sent, Expire, Harmless;
    match e {
      case SaveEvent(key, client, disabled) => SaveKeeps(s, key, client, disabled);
      case CheckEvent(key, client, disabled, starts) => CheckKeeps(s, key, client, disabled, starts);
      case FinishEvent(i, count, served) => FinishKeeps(s, i, count, served);
      case FailEvent(i) => FailKeeps(s, i);
      case SentEvent(i, j) => SentKeeps(s, i, j);
      case ExpireEvent(i) => ExpiryKeeps(s, i);
    }
    if Benign(s, e) {
      BenignIsHarmless(s, e);
    }
  }

  lemma BenignIsHarmless(s: State, e: Event)
    requires Inv(s) && Possible(s, e) && Benign(s, e) && Inv(Step(s, e))
    ensures Harmless(s, e)
  {
    var t := Step(s, e);
    InvAccounts(t);
    forall i | 0 <= i < |s.items| && i < |t.items| && t.items[i].frees != s.items[i].frees
      ensures s.items[i].waiting == []
    {
      assert ItemOk(s, i) && ItemOk(t, i);
      hide Inv, Step, Account;
      FreesGrow(s, e, i);
      FreedWhenLetGo(s, e, i);
    }
  }

  lemma FreesGrow(s: State, e: Event, i: nat)
    requires Inv(s) && Possible(s, e) && i < |s.items| && i < |Step(s, e).items|
    ensures s.items[i].frees <= Step(s, e).items[i].frees
  {
    match e
    case FinishEvent(j, count, served) =>
      var x := s.items[j].(generating := false, size := count, done := true);
      ServeAllServes(x, x.waiting, served);
    case FailEvent(j) =>
      assert ItemOk(s, j);
      UnrefAllTo(s, j, |s.items[j].waiting|);
    case _ =>
  }

  // ---- runs

  predicate IsRun(s: State, events: seq<Event>)
    decreases |events|
  {
    events == [] || (Possible(s, events[0]) && Benign(s, events[0]) && IsRun(Step(s, events[0]), events[1..]))
  }

  function Run(s: State, events: seq<Event>): State
    requires IsRun(s, events)
    decreases |events|
  {
    if events == [] then s else Run(Step(s, events[0]), events[1..])
  }

  lemma {:induction false} RunKeeps(s: State, events: seq<Event>)
    requires Inv(s) && IsRun(s, events)
    ensures Inv(Run(s, events))
    decreases |events|
  {
    hide Inv, Step, Possible, Benign, Harmless;
    if events != [] {
      StepKeeps(s, events[0]);
      RunKeeps(Step(s, events[0]), events[1..]);
    }
  }

  /** On every run in which expiry is timely and no pipe takes the entry of another item away: the
      reference count of an item is the number of its holders; it is freed once, when that gets to
      zero, and nothing concerns it after that; the table leads to it under its key exactly as long
      as it lives and has not failed; and the size of the store is that of the completed items in the
      table. */
  lemma ReferencesAreCounted(maxSize: nat, events: seq<Event>, i: nat)
    requires IsRun(NewStore(maxSize), events) && i < |Run(NewStore(maxSize), events).items|
    ensures var s := Run(NewStore(maxSize), events); var x := s.items[i];
            && x.refs == B(Listed(s, i)) + |x.waiting| + |x.sending| + |x.leaked| + B(x.error && x.generating)
            && x.frees == B(x.refs == 0)
            && (Listed(s, i) <==> x.refs != 0 && !x.error)
            && (x.refs == 0 ==> !Concerned(s, i))
            && s.size == TableSize(s, |s.items|)
  {
    hide Run, IsRun;
    RunKeeps(NewStore(maxSize), events);
    assert ItemOk(Run(NewStore(maxSize), events), i);
  }

  /** Some event may still happen to item `i`. */
  predicate Concerned(s: State, i: nat)
    requires i < |s.items|
  {
    var x := s.items[i];
    x.generating || x.armed || x.sending != [] || x.waiting != [] || Listed(s, i)
  }

  /** An item is freed by the last to let go of it: by a timely expiry, or, if it has failed, by the
      end of its pipe or of the last client it is being sent to. */
  lemma FreedWhenLetGo(s: State, e: Event, i: nat)
    requires Inv(s) && Possible(s, e) && Timely(s, e) && i < |s.items| && s.items[i].frees == 0
    requires i < |Step(s, e).items| && Step(s, e).items[i].frees == 1
    ensures var x := s.items[i];
            && x.waiting == [] && x.leaked == [] && x.refs == 1
            && match e
               case ExpireEvent(j) => j == i && x.done && x.sending == []
               case SentEvent(j, _) => j == i && x.error && !x.generating && |x.sending| == 1
               case FinishEvent(j, _, _) => j == i && x.error && x.sending == []
               case _ => false
  {
    assert ItemOk(s, i);
    match e
    case FinishEvent(j, count, served) =>
      var x := s.items[j].(generating := false);
      ServeAllServes(x.(size := count, done := true), x.waiting, served);
    case FailEvent(j) =>
      assert ItemOk(s, j);
      UnrefAllTo(s, j, |s.items[j].waiting|);
    case _ =>
  }

  /** Expiry while a client is being sent the file: the timer stays linked and fires again, and the
      item is freed under that client, with the store's size counted off twice. */
  lemma UntimelyExpiry(maxSize: nat, key: Key, count: nat)
    requires 0 < maxSize && Cacheable(key, false) && 0 < count
    ensures var s := NewStore(maxSize);
            var t := Step(Step(s, SaveEvent(key, 7, false)), FinishEvent(0, count, {7}));
            && IsRun(s, [SaveEvent(key, 7, false), FinishEvent(0, count, {7})])
            && Possible(t, ExpireEvent(0)) && Possible(Expire(t, 0), ExpireEvent(0))
            && var u := Expire(Expire(t, 0), 0);
            && u.items[0].frees == 1 && u.items[0].sending == [7] && u.size + count == 0
  {
    var s := NewStore(maxSize);
    var e, f := SaveEvent(key, 7, false), FinishEvent(0, count, {7});
    var r := Step(s, e);
    var x := Item(key, 2, 0, false, false, true, true, [7], [], [], 0);
    assert r == State(map[key := 0], [x], 0, maxSize);
    var t := Step(r, f);
    var y := x.(generating := false, size := count, done := true);
    assert ServeAll(y, [7], {7}) == ServeAll(y.(sending := [7]), [], {7}) by { assert [7][1..] == []; }
    assert t.items == [y.(sending := [7], waiting := [])] && t.size == count;
    var u := Expire(t, 0);
    assert u.items == [y.(sending := [7], waiting := [], refs := 1)] && u.size == 0;
    assert [e, f][1..] == [f] && [f][1..] == [];
    assert Possible(s, e) && Benign(s, e) && Possible(r, f) && Benign(r, f);
    assert IsRun(t, []) && IsRun(r, [f]);
  }

  /** The pipe of an item fails to read, a new item gets the key, and the pipe fails to write: the table
      no longer has the new item, but its count still says so, so it is never freed by it. */
  lemma SecondFailure(maxSize: nat, key: Key)
    requires 0 < maxSize && Cacheable(key, false)
    ensures var s := NewStore(maxSize);
            var events := [SaveEvent(key, 1, false), FailEvent(0), SaveEvent(key, 2, false)];
            && IsRun(s, events)
            && var t := Run(s, events);
            && Possible(t, FailEvent(0)) && !Benign(t, FailEvent(0))
            && var u := Step(t, FailEvent(0));
            && |u.items| == 2 && !Listed(u, 1) && u.items[1].refs == 2 && u.items[1].waiting == [2] && !Account(u)
  {
    var s := NewStore(maxSize);
    var e, f, g := SaveEvent(key, 1, false), FailEvent(0), SaveEvent(key, 2, false);
    var r, x := Step(s, e), Item(key, 2, 0, false, false, true, true, [1], [], [], 0);
    assert r == State(map[key := 0], [x], 0, maxSize);
    var t := Step(r, f);
    UnrefAllTo(r, 0, 1);
    var y := x.(refs := 1, waiting := [], error := true);
    assert t == State(map[], [y], 0, maxSize);
    var u := Step(t, g);
    var z := Item(key, 2, 0, false, false, true, true, [2], [], [], 0);
    assert u == State(map[key := 1], [y, z], 0, maxSize);
    assert Inv(u) by {
      RunOfThree(s, e, f, g);
      RunKeeps(s, [e, f, g]);
    }
    RunOfThree(s, e, f, g);
    FailKeeps(u, 0);
    UnrefAllTo(u, 0, 0);
    assert !Accounted(Step(u, f), 1);
  }

  lemma RunOfThree(s: State, e: Event, f: Event, g: Event)
    requires Possible(s, e) && Benign(s, e)
    requires Possible(Step(s, e), f) && Benign(Step(s, e), f)
    requires Possible(Step(Step(s, e), f), g) && Benign(Step(Step(s, e), f), g)
    ensures IsRun(s, [e, f, g]) && Run(s, [e, f, g]) == Step(Step(Step(s, e), f), g)
  {
    hide Step, Possible, Benign;
    var three, two, one, none: seq<Event> := [e, f, g], [f, g], [g], [];
    assert three[1..] == two && two[1..] == one && one[1..] == none;
    var t := Step(s, e);
    var u := Step(t, f);
    assert IsRun(Step(u, g), none) && IsRun(u, one) && IsRun(t, two) && IsRun(s, three);
    assert Run(s, three) == Run(t, two) == Run(u, one) == Run(Step(u, g), none);
  }
}
