/** The response cache as src/http/cache/cache.c updates it. Every method does what the step of
    CacheSpec of the same name says. */
module Cache {
  import opened CacheSpec

  class Store {
    var table: map<Key, nat>
    var items: seq<Item>
    var size: int
    const maxSize: nat

    ghost function Snapshot(): State
      reads this
    {
      State(table, items, size, maxSize)
    }

    constructor (maxSize: nat)
      ensures Snapshot() == NewStore(maxSize)
    {
      table, items, size := map[], [], 0;
      this.maxSize := maxSize;
    }

    /** hin_cache_unref */
    method Unreference(i: nat)
      requires i < |items|
      modifies this
      ensures Snapshot() == Unref(old(Snapshot()), i)
    {
      var x := items[i];
      items := items[i := x.(refs := x.refs - 1)];
      if items[i].refs == 0 {
        items := items[i := items[i].(armed := false, waiting := [], frees := x.frees + 1)];
      }
    }

    /** basic_ht_delete_pair */
    method DeletePair(key: Key)
      modifies this
      ensures Snapshot() == Delete(old(Snapshot()), key)
    {
      table := map k | k in table && k != key :: table[k];
    }

    /** hin_cache_save */
    method SaveResponse(key: Key, client: nat, disabled: bool) returns (r: int)
      requires key in table ==> table[key] < |items|
      modifies this
      ensures (Snapshot(), r) == Save(old(Snapshot()), key, client, disabled)
    {
      if disabled || (key.key1 == 0 && key.key2 == 0) || size >= maxSize {
        return -1;
      }
      if key in table {
        var x := items[table[key]];
        items := items[table[key] := x.(waiting := [client] + x.waiting, refs := x.refs + 1)];
        return 0;
      }
      table := table[key := |items|];
      items := items + [Item(key, 2, 0, false, false, true, true, [client], [], [], 0)];
      return 1;
    }

    /** hin_cache_check */
    method CheckRequest(key: Key, client: nat, disabled: bool, starts: bool) returns (r: int)
      requires key in table ==> table[key] < |items|
      modifies this
      ensures (Snapshot(), r) == Check(old(Snapshot()), key, client, disabled, starts)
    {
      if disabled || (key.key1 == 0 && key.key2 == 0) {
        return -1;
      }
      if key !in table {
        return 0;
      }
      var x := items[table[key]];
      x := x.(refs := x.refs + 1);
      items := items[table[key] := Serve(x, client, starts)];
      return 1;
    }

    /** hin_cache_finish: the clients that wait are served in the order of the queue. */
    method FinishItem(i: nat, count: nat, starts: set<nat>)
      requires i < |items|
      modifies this
      ensures Snapshot() == Finish(old(Snapshot()), i, count, starts)
    {
      var x := items[i].(generating := false);
      items := items[i := x];
      if x.error {
        Unreference(i);
        return;
      }
      var y := x.(size := count, done := true);
      size := size + y.size;
      ghost var served := ServeAll(y, x.waiting, starts);
      var queue := x.waiting;
      while queue != []
        invariant ServeAll(y, queue, starts) == served
        decreases |queue|
      {
        y := Serve(y, queue[0], queue[0] in starts);
        queue := queue[1..];
      }
      items := items[i := y.(waiting := [])];
    }

    /** hin_cache_pipe_error_callback: every client that waits is told, and lets go of the item. */
    method FailItem(i: nat)
      requires i < |items|
      modifies this
      ensures Snapshot() == Fail(old(Snapshot()), i)
    {
      ghost var s := Snapshot();
      var n: nat := |items[i].waiting|;
      var key := items[i].key;
      while n != 0
        invariant |items| == |s.items| && items[i].key == key
        invariant UnrefAll(Snapshot(), i, n) == UnrefAll(s, i, |s.items[i].waiting|)
      {
        Unreference(i);
        n := n - 1;
      }
      items := items[i := items[i].(waiting := [], error := true)];
      DeletePair(key);
    }

    /** done_file */
    method SentFile(i: nat, j: nat)
      requires i < |items| && j < |items[i].sending|
      modifies this
      ensures Snapshot() == Sent(old(Snapshot()), i, j)
    {
      var x := items[i];
      items := items[i := x.(sending := x.sending[..j] + x.sending[j + 1..])];
      Unreference(i);
    }

    /** hin_cache_timeout_callback, through hin_cache_remove */
    method TimeOut(i: nat) returns (r: int)
      requires i < |items|
      modifies this
      ensures Snapshot() == Expire(old(Snapshot()), i) && r == 1
    {
      DeletePair(items[i].key);
      size := size - items[i].size;
      Unreference(i);
      return 1;
    }
  }
}
