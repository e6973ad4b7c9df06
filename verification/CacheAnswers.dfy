/** What the cache answers, and to whom: which clients wait, are sent the file or are refused, and that a
    response that has been saved is served from the cache. */
module CacheAnswers {
  import opened CacheSpec
  import opened CacheTheorems

  /** Item `i` can be found: it has not been freed and its generation has not failed. */
  predicate Lives(s: State, i: nat)
    requires i < |s.items|
  {
    s.items[i].frees == 0 && !s.items[i].error
  }

  /** All but item `i`, the table and the size are as before. */
  predicate OnlyItemChanges(s: State, t: State, i: nat)
  {
    && |t.items| == |s.items| && (forall j :: 0 <= j < |s.items| && j != i ==> t.items[j] == s.items[j])
    && t.table == s.table && t.size == s.size && t.maxSize == s.maxSize
  }

  /** The table leads exactly to the items that live, so at most one lives under a key. */
  lemma FoundIfLives(s: State, key: Key)
    requires Inv(s)
    ensures key in s.table <==> exists i :: 0 <= i < |s.items| && s.items[i].key == key && Lives(s, i)
    ensures key in s.table ==>
              && s.table[key] < |s.items| && s.items[s.table[key]].key == key && Lives(s, s.table[key])
              && forall i :: 0 <= i < |s.items| && s.items[i].key == key && Lives(s, i) ==> i == s.table[key]
  {
    forall i | 0 <= i < |s.items| ensures Lives(s, i) <==> Listed(s, i) {
      assert ItemOk(s, i);
    }
    if key in s.table {
      var i := s.table[key];
      assert Listed(s, i) && Lives(s, i);
    }
  }

  /** A request is served from the cache if it may be cached and an item lives under its key: the answer
      is 1, the item gets one reference more, and the client is sent the file, or refused if it asked
      for a range outside of it. Otherwise nothing changes, and the answer is 0 if the request may be
      cached, and -1 if not. */
  lemma CheckAnswers(s: State, key: Key, client: nat, disabled: bool, starts: bool)
    requires Inv(s)
    ensures var (t, r) := Check(s, key, client, disabled, starts);
            var cacheable := !disabled && (key.key1 != 0 || key.key2 != 0);
            var found := exists i :: 0 <= i < |s.items| && s.items[i].key == key && Lives(s, i);
            && (r == -1 <==> !cacheable) && (r == 0 <==> cacheable && !found) && (r == 1 <==> cacheable && found)
            && (r != 1 ==> t == s)
    ensures var (t, r) := Check(s, key, client, disabled, starts);
            r == 1 ==> forall i :: 0 <= i < |s.items| && s.items[i].key == key && Lives(s, i) ==>
              && OnlyItemChanges(s, t, i)
              && t.items[i] == s.items[i].(refs := s.items[i].refs + 1,
                                           sending := s.items[i].sending + (if starts then [client] else []),
                                           leaked := s.items[i].leaked + (if starts then [] else [client]))
  {
    FoundIfLives(s, key);
    if key in s.table {
      var x := s.items[s.table[key]];
      assert x.sending + [] == x.sending && x.leaked + [] == x.leaked;
    }
  }

  /** A response is not cached if it may not be or the cache is full: the answer is -1 and nothing
      changes. If an item lives under the key the client waits for it, first in its queue: 0. Otherwise
      a new item comes to live under the key, with the table, and the pipe for whose client it is,
      holding a reference each: 1. */
  lemma SaveAnswers(s: State, key: Key, client: nat, disabled: bool)
    requires Inv(s)
    ensures var (t, r) := Save(s, key, client, disabled);
            var refused := disabled || (key.key1 == 0 && key.key2 == 0) || s.size >= s.maxSize;
            var found := exists i :: 0 <= i < |s.items| && s.items[i].key == key && Lives(s, i);
            && (r == -1 <==> refused) && (r == 0 <==> !refused && found) && (r == 1 <==> !refused && !found)
            && (r == -1 ==> t == s)
    ensures var (t, r) := Save(s, key, client, disabled);
            r == 0 ==> forall i :: 0 <= i < |s.items| && s.items[i].key == key && Lives(s, i) ==>
              && OnlyItemChanges(s, t, i)
              && t.items[i] == s.items[i].(refs := s.items[i].refs + 1, waiting := [client] + s.items[i].waiting)
    ensures var (t, r) := Save(s, key, client, disabled);
            r == 1 ==>
              && t.size == s.size && t.maxSize == s.maxSize && t.table == s.table[key := |s.items|]
              && |t.items| == |s.items| + 1 && t.items[..|s.items|] == s.items
              && var x := t.items[|s.items|];
                 && x.key == key && x.refs == 2 && x.waiting == [client] && x.sending == [] && x.leaked == []
                 && x.generating && x.armed && !x.done && !x.error && x.size == 0 && x.frees == 0
  {
    FoundIfLives(s, key);
  }

  /** The clients of a list that are, or are not, in a set, in order */
  function Those(clients: seq<nat>, which: set<nat>, inside: bool): seq<nat>
  {
    if clients == [] then []
    else (if (clients[0] in which) == inside then [clients[0]] else []) + Those(clients[1..], which, inside)
  }

  lemma {:induction false} ServedInOrder(x: Item, clients: seq<nat>, starts: set<nat>)
    ensures ServeAll(x, clients, starts) == x.(sending := x.sending + Those(clients, starts, true),
                                               leaked := x.leaked + Those(clients, starts, false))
    decreases |clients|
  {
    if clients == [] {
      assert x.sending + [] == x.sending && x.leaked + [] == x.leaked;
    } else {
      var c := clients[0];
      var y := Serve(x, c, c in starts);
      ServedInOrder(y, clients[1..], starts);
      var a, b := Those(clients[1..], starts, true), Those(clients[1..], starts, false);
      assert x.sending + [c] + a == x.sending + ([c] + a) && x.leaked + [c] + b == x.leaked + ([c] + b);
      assert [] + a == a && [] + b == b;
    }
  }

  /** When an item has been generated it has the size that was written, the size of the store grows by
      it, and every client that waited is sent the file, in the order of the queue, or refused. If its
      generation has failed, only a reference is dropped. */
  lemma FinishAnswers(s: State, i: nat, count: nat, starts: set<nat>)
    requires Inv(s) && Possible(s, FinishEvent(i, count, starts))
    ensures var t, x := Finish(s, i, count, starts), s.items[i];
            && |t.items| == |s.items| && (forall j :: 0 <= j < |s.items| && j != i ==> t.items[j] == s.items[j])
            && t.table == s.table && !t.items[i].generating
            && (!x.error ==>
                  && t.size == s.size + count
                  && t.items[i] == x.(generating := false, done := true, size := count, waiting := [],
                                      sending := x.sending + Those(x.waiting, starts, true),
                                      leaked := x.leaked + Those(x.waiting, starts, false)))
            && (x.error ==> t.size == s.size && t.items[i].refs == x.refs - 1 && t.items[i].sending == x.sending)
  {
    assert ItemOk(s, i);
    var x := s.items[i].(generating := false);
    ServedInOrder(x.(size := count, done := true), x.waiting, starts);
  }

  /** A failure tells every client that waits, takes their references and the item out of the table. */
  lemma FailAnswers(s: State, i: nat)
    requires Inv(s) && Possible(s, FailEvent(i))
    ensures var t, x := Fail(s, i), s.items[i];
            && |t.items| == |s.items| && (forall j :: 0 <= j < |s.items| && j != i ==> t.items[j] == s.items[j])
            && t.items[i] == x.(waiting := [], error := true, refs := x.refs - |x.waiting|)
            && x.key !in t.table
            && (forall k :: k in s.table && k != x.key ==> k in t.table && t.table[k] == s.table[k])
            && t.table.Keys == s.table.Keys - {x.key} && t.size == s.size
  {
    assert ItemOk(s, i);
    UnrefAllTo(s, i, |s.items[i].waiting|);
  }

  /** The end of sending to one client takes that one, and a reference. */
  lemma SentAnswers(s: State, i: nat, j: nat)
    requires Inv(s) && Possible(s, SentEvent(i, j))
    ensures var t, x := Sent(s, i, j), s.items[i];
            && OnlyItemChanges(s, t, i)
            && multiset(t.items[i].sending) + multiset{x.sending[j]} == multiset(x.sending)
            && t.items[i].refs == x.refs - 1
            && (1 < x.refs ==> t.items[i].waiting == x.waiting && t.items[i].leaked == x.leaked)
  {
    var q := s.items[i].sending;
    assert q == q[..j] + [q[j]] + q[j + 1..];
  }

  /** Expiry takes an item out of the table and its size off the store, and drops a reference. */
  lemma ExpireAnswers(s: State, i: nat)
    requires Inv(s) && Possible(s, ExpireEvent(i))
    ensures var t, x := Expire(s, i), s.items[i];
            && |t.items| == |s.items| && (forall j :: 0 <= j < |s.items| && j != i ==> t.items[j] == s.items[j])
            && t.table.Keys == s.table.Keys - {x.key} && (forall k :: k in t.table ==> t.table[k] == s.table[k])
            && t.size == s.size - x.size && t.items[i].refs == x.refs - 1
            && (x.refs == 1 <==> t.items[i].frees == x.frees + 1) && (x.refs != 1 <==> t.items[i].frees == x.frees)
  {
    assert ItemOk(s, i);
  }

  // ---- over runs

  /** The item is under its key, and stays there until it fails or expires. */
  lemma StaysListed(s: State, e: Event, i: nat)
    requires Inv(s) && Possible(s, e) && Benign(s, e) && i < |s.items| && Listed(s, i)
    requires e != FailEvent(i) && e != ExpireEvent(i)
    ensures var t := Step(s, e);
            && i < |t.items| && Listed(t, i) && t.items[i].key == s.items[i].key
            && (t.items[i].done <==> s.items[i].done || (e.FinishEvent? && e.item == i))
            && (s.items[i].done ==> t.items[i].size == s.items[i].size)
  {
    assert ItemOk(s, i);
    match e
    case FinishEvent(j, count, served) =>
      assert ItemOk(s, j);
      FinishAnswers(s, j, count, served);
    case FailEvent(j) =>
      assert ItemOk(s, j);
      FailAnswers(s, j);
    case ExpireEvent(j) => assert ItemOk(s, j);
    case _ =>
  }

  /** Among the events is the end of the item's generation. */
  predicate Generated(events: seq<Event>, i: nat)
  {
    exists k :: 0 <= k < |events| && events[k].FinishEvent? && events[k].item == i
  }

  lemma GeneratedCons(events: seq<Event>, i: nat)
    requires events != []
    ensures Generated(events, i) <==> (events[0].FinishEvent? && events[0].item == i) || Generated(events[1..], i)
  {
    if Generated(events[1..], i) {
      var k :| 0 <= k < |events[1..]| && events[1..][k].FinishEvent? && events[1..][k].item == i;
      assert events[k + 1] == events[1..][k];
    }
    if Generated(events, i) && !(events[0].FinishEvent? && events[0].item == i) {
      var k :| 0 <= k < |events| && events[k].FinishEvent? && events[k].item == i;
      assert events[1..][k - 1] == events[k];
    }
  }

  lemma {:induction false} StaysListedRun(s: State, events: seq<Event>, i: nat)
    requires Inv(s) && IsRun(s, events) && i < |s.items| && Listed(s, i)
    requires FailEvent(i) !in events && ExpireEvent(i) !in events
    ensures var t := Run(s, events);
            && Inv(t) && i < |t.items| && Listed(t, i) && t.items[i].key == s.items[i].key
            && (t.items[i].done <==> s.items[i].done || Generated(events, i))
    decreases |events|
  {
    if events != [] {
      hide Inv, Step, Possible, Benign, Listed, Generated;
      var e := events[0];
      GeneratedCons(events, i);
      StepKeeps(s, e);
      StaysListed(s, e, i);
      assert FailEvent(i) !in events[1..] && ExpireEvent(i) !in events[1..];
      StaysListedRun(Step(s, e), events[1..], i);
    } else {
      assert !Generated(events, i);
    }
  }

  /** The point of the cache: once a response has been saved as a new item and has been generated, and
      as long as it has not failed or expired, every request for it that may be cached is answered 1,
      and served by that item. */
  lemma SavedIsServed(maxSize: nat, before: seq<Event>, key: Key, client: nat, after: seq<Event>,
                      other: nat, starts: bool)
    requires IsRun(NewStore(maxSize), before)
    requires var s := Run(NewStore(maxSize), before); var save := SaveEvent(key, client, false);
             Possible(s, save) && |Step(s, save).items| > |s.items| && IsRun(Step(s, save), after)
    requires var i := |Run(NewStore(maxSize), before).items|;
             FailEvent(i) !in after && ExpireEvent(i) !in after && Generated(after, i)
    ensures var s := Run(NewStore(maxSize), before); var i := |s.items|;
            var t := Run(Step(s, SaveEvent(key, client, false)), after);
            && i < |t.items| && t.items[i].key == key && t.items[i].done
            && Possible(t, CheckEvent(key, other, false, starts))
            && var (u, r) := Check(t, key, other, false, starts);
               && r == 1 && i < |u.items| && u.items[i].refs == t.items[i].refs + 1
               && (starts ==> u.items[i].sending == t.items[i].sending + [other])
               && (!starts ==> u.items[i].leaked == t.items[i].leaked + [other])
  {
    RunKeeps(NewStore(maxSize), before);
    var s := Run(NewStore(maxSize), before);
    var i := |s.items|;
    var s1 := Step(s, SaveEvent(key, client, false));
    SaveKeeps(s, key, client, false);
    SaveAnswers(s, key, client, false);
    assert Listed(s1, i);
    StaysListedRun(s1, after, i);
    var t := Run(s1, after);
    hide Run, IsRun, Step;
    CheckAnswers(t, key, other, false, starts);
    assert ItemOk(t, i);
    FoundIfLives(t, key);
  }
}
