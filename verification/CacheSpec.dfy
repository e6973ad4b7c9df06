/** The reference counts of the response cache (src/http/cache/cache.c, and done_file in
    src/http/server/httpd_file.c) as a state machine: who holds a reference, and when it goes. */
module CacheSpec {
  import H = HashTable

  type Key = H.Key

  /** `waiting` are the clients queued for the item, `sending` those its file is being sent to, and
      `leaked` those that were refused a range after they had been given a reference. `generating`
      says that the pipe that fills the file has not finished, `armed` that the timer is linked,
      and `frees` how often the item has been freed. */
  datatype Item = Item(key: Key, refs: int, size: nat, done: bool, error: bool, generating: bool, armed: bool,
                       waiting: seq<nat>, sending: seq<nat>, leaked: seq<nat>, frees: nat)

  datatype State = State(table: map<Key, nat>, items: seq<Item>, size: int, maxSize: nat)

  function NewStore(maxSize: nat): State { State(map[], [], 0, maxSize) }

  function Set(s: State, i: nat, x: Item): State
    requires i < |s.items|
  {
    s.(items := s.items[i := x])
  }

  /** basic_ht_delete_pair */
  function Delete(s: State, key: Key): State
  {
    s.(table := map k | k in s.table && k != key :: s.table[k])
  }

  /** hin_cache_unref, with hin_cache_item_clean */
  function Unref(s: State, i: nat): State
    requires i < |s.items|
  {
    var x := s.items[i];
    Set(s, i, if x.refs == 1 then x.(refs := 0, armed := false, waiting := [], frees := x.frees + 1)
              else x.(refs := x.refs - 1))
  }

  /** Only keyed requests that may be cached get this far. */
  predicate Cacheable(key: Key, disabled: bool) { !disabled && !(key.key1 == 0 && key.key2 == 0) }

  /** hin_cache_save: -1 if the response is not to be cached, 0 if another request is filling the
      item and the client waits, 1 if the pipe is to fill a new item. */
  function Save(s: State, key: Key, client: nat, disabled: bool): (State, int)
    requires key in s.table ==> s.table[key] < |s.items|
  {
    if !Cacheable(key, disabled) || s.size >= s.maxSize then (s, -1)
    else if key in s.table then
      var x := s.items[s.table[key]];
      (Set(s, s.table[key], x.(waiting := [client] + x.waiting, refs := x.refs + 1)), 0)
    else
      var x := Item(key, 2, 0, false, false, true, true, [client], [], [], 0);
      (s.(table := s.table[key := |s.items|], items := s.items + [x]), 1)
  }

  /** A client is served: a pipe is started, which holds the reference until it is done, unless the
      client asked for a range outside the file. */
  function Serve(x: Item, client: nat, starts: bool): Item
  {
    if starts then x.(sending := x.sending + [client]) else x.(leaked := x.leaked + [client])
  }

  function ServeAll(x: Item, clients: seq<nat>, starts: set<nat>): Item
    decreases |clients|
  {
    if clients == [] then x else ServeAll(Serve(x, clients[0], clients[0] in starts), clients[1..], starts)
  }

  /** hin_cache_finish; `starts` are the clients whose range is in the file. */
  function Finish(s: State, i: nat, count: nat, starts: set<nat>): State
    requires i < |s.items|
  {
    var x := s.items[i].(generating := false);
    if x.error then Unref(Set(s, i, x), i)
    else
      var y := ServeAll(x.(size := count, done := true), x.waiting, starts);
      Set(s, i, y.(waiting := [])).(size := s.size + count)
  }

  /** hin_cache_pipe_error_callback */
  function Fail(s: State, i: nat): State
    requires i < |s.items|
  {
    var t := UnrefAll(s, i, |s.items[i].waiting|);
    Delete(Set(t, i, t.items[i].(waiting := [], error := true)), s.items[i].key)
  }

  function UnrefAll(s: State, i: nat, n: nat): (t: State)
    requires i < |s.items|
    ensures |t.items| == |s.items|
    decreases n
  {
    if n == 0 then s else UnrefAll(Unref(s, i), i, n - 1)
  }

  /** hin_cache_check: 0 if there is no such item, and otherwise the client is served from it. */
  function Check(s: State, key: Key, client: nat, disabled: bool, starts: bool): (State, int)
    requires key in s.table ==> s.table[key] < |s.items|
  {
    if !Cacheable(key, disabled) then (s, -1)
    else if key !in s.table then (s, 0)
    else
      var x := s.items[s.table[key]];
      (Set(s, s.table[key], Serve(x.(refs := x.refs + 1), client, starts)), 1)
  }

  /** done_file: the item's file has been sent to a client. */
  function Sent(s: State, i: nat, j: nat): State
    requires i < |s.items| && j < |s.items[i].sending|
  {
    var x := s.items[i];
    Unref(Set(s, i, x.(sending := x.sending[..j] + x.sending[j + 1..])), i)
  }

  /** hin_cache_timeout_callback with hin_cache_remove. It asks for the timer to stay linked. */
  function Expire(s: State, i: nat): State
    requires i < |s.items|
  {
    var x := s.items[i];
    Unref(Delete(s, x.key).(size := s.size - x.size), i)
  }

  // ---- what every state keeps

  function B(b: bool): nat { if b then 1 else 0 }

  /** The table has item `i`. */
  predicate Listed(s: State, i: nat)
    requires i < |s.items|
  {
    s.items[i].key in s.table && s.table[s.items[i].key] == i
  }

  /** One reference each: the table, a client that waits, one that is being sent the file, one that
      was refused, and a failed pipe that has still to finish. */
  predicate Accounted(s: State, i: nat)
    requires i < |s.items|
  {
    var x := s.items[i];
    x.refs == B(Listed(s, i)) + |x.waiting| + |x.sending| + |x.leaked| + B(x.error && x.generating)
  }

  predicate ItemOk(s: State, i: nat)
    requires i < |s.items|
  {
    var x := s.items[i];
    && Accounted(s, i)
    && x.frees == B(x.refs == 0)
    && x.armed == (x.refs != 0)
    && (Listed(s, i) <==> x.refs != 0 && !x.error)
    && (x.refs == 0 ==> !x.generating)
    && (x.done ==> !x.generating && !x.error)
    && (!x.done && !x.error ==> x.generating)
    && (x.error ==> x.waiting == [])
    && (!x.done ==> x.size == 0)
  }

  /** The total size of the completed items in the table */
  function TableSize(s: State, n: nat): int
    requires n <= |s.items|
  {
    if n == 0 then 0
    else TableSize(s, n - 1) + Counted(s, n - 1)
  }

  function Counted(s: State, i: nat): nat
    requires i < |s.items|
  {
    if Listed(s, i) && s.items[i].done then s.items[i].size else 0
  }

  ghost predicate Inv(s: State)
  {
    && (forall i :: 0 <= i < |s.items| ==> ItemOk(s, i))
    && (forall k :: k in s.table ==> s.table[k] < |s.items| && s.items[s.table[k]].key == k)
    && s.size == TableSize(s, |s.items|)
  }

  // ---- events

  datatype Event =
    | SaveEvent(key: Key, client: nat, disabled: bool)
    | CheckEvent(key: Key, client: nat, disabled: bool, starts: bool)
    | FinishEvent(item: nat, count: nat, served: set<nat>)
    | FailEvent(item: nat)
    | SentEvent(item: nat, j: nat)
    | ExpireEvent(item: nat)

  /** What can happen. The pipe that fills an item can fail until it finishes, and more than once: a
      failed read leaves it open, and then a write may fail. */
  predicate Possible(s: State, e: Event)
  {
    match e
    case SaveEvent(key, _, _) => key in s.table ==> s.table[key] < |s.items|
    case CheckEvent(key, _, _, _) => key in s.table ==> s.table[key] < |s.items|
    case FinishEvent(i, _, _) => i < |s.items| && s.items[i].generating
    case FailEvent(i) => i < |s.items| && s.items[i].generating
    case SentEvent(i, j) => i < |s.items| && j < |s.items[i].sending|
    case ExpireEvent(i) => i < |s.items| && s.items[i].armed
  }

  /** Expiry finds a completed item that no client is waiting for, being sent, or was refused. */
  predicate Timely(s: State, e: Event)
    requires Possible(s, e)
  {
    e.ExpireEvent? ==>
      var x := s.items[e.item];
      x.done && x.waiting == [] && x.sending == [] && x.leaked == []
  }

  /** A pipe fails again, after another item has got the table entry of its key. */
  predicate TakesEntry(s: State, e: Event)
    requires Possible(s, e)
  {
    e.FailEvent? && s.items[e.item].error && s.items[e.item].key in s.table
  }

  predicate Benign(s: State, e: Event)
    requires Possible(s, e)
  {
    Timely(s, e) && !TakesEntry(s, e)
  }

  function Step(s: State, e: Event): State
    requires Possible(s, e)
  {
    match e
    case SaveEvent(key, client, disabled) => Save(s, key, client, disabled).0
    case CheckEvent(key, client, disabled, starts) => Check(s, key, client, disabled, starts).0
    case FinishEvent(i, count, served) => Finish(s, i, count, served)
    case FailEvent(i) => Fail(s, i)
    case SentEvent(i, j) => Sent(s, i, j)
    case ExpireEvent(i) => Expire(s, i)
  }
}
