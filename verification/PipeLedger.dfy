/** What a pipe keeps account of: which buffer is where, how much was written and its hash, and
    where in the output file each write went. */
module PipeLedger {
  import opened Bytes
  import opened Arithmetic
  import opened Encoders
  import opened PipeSpec
  import opened PipeFlow

  // ---- ownership of buffers

  function Times(ids: seq<nat>, id: nat): nat
  {
    if ids == [] then 0 else Times(ids[..|ids| - 1], id) + (if ids[|ids| - 1] == id then 1 else 0)
  }

  lemma {:induction false} TimesAppend(a: seq<nat>, b: seq<nat>, id: nat)
    ensures Times(a + b, id) == Times(a, id) + Times(b, id)
    decreases |b|
  {
    if b == [] {
      assert a + b == a;
    } else {
      assert (a + b)[..|a + b| - 1] == a + b[..|b| - 1];
      TimesAppend(a, b[..|b| - 1], id);
    }
  }

  lemma TimesOne(x: nat, id: nat)
    ensures Times([x], id) == (if x == id then 1 else 0)
  {
    assert [x][..0] == [];
  }

  /** How often a buffer occurs in a list of buffers. */
  function InQueue(q: seq<Buf>, id: nat): nat { Times(Ids(q), id) }

  function InReading(q: seq<Req>, id: nat): nat { Times(ReqIds(q), id) }

  /** In how many places a buffer is: queued, being read into, being written, or freed. */
  function Places(s: State, id: nat): nat
  {
    InQueue(s.que, id) + InReading(s.reading, id) + InQueue(s.writing, id) + Times(s.freed, id)
  }

  /** A buffer that was allocated is in exactly one place, counting the `hand` a callback has on
      it; one that was not is nowhere. */
  predicate Owned(s: State, id: nat, hand: nat)
  {
    Places(s, id) + hand == (if id < s.nextId then 1 else 0)
  }

  lemma {:induction false} IdsAppend(a: seq<Buf>, b: seq<Buf>)
    ensures Ids(a + b) == Ids(a) + Ids(b)
    decreases |a|
  {
    if a == [] {
      assert a + b == b;
    } else {
      assert (a + b)[1..] == a[1..] + b;
      IdsAppend(a[1..], b);
    }
  }

  lemma InQueueAppend(a: seq<Buf>, b: seq<Buf>, id: nat)
    ensures InQueue(a + b, id) == InQueue(a, id) + InQueue(b, id)
  {
    IdsAppend(a, b);
    TimesAppend(Ids(a), Ids(b), id);
  }

  lemma InQueueCons(q: seq<Buf>, id: nat)
    requires q != []
    ensures InQueue(q, id) == (if q[0].id == id then 1 else 0) + InQueue(q[1..], id)
  {
    TimesAppend([q[0].id], Ids(q[1..]), id);
    TimesOne(q[0].id, id);
  }

  lemma InQueueShort(q: seq<Buf>, id: nat)
    ensures q == [] ==> InQueue(q, id) == 0
    ensures |q| == 1 ==> InQueue(q, id) == (if q[0].id == id then 1 else 0)
  {
    if |q| == 1 {
      InQueueCons(q, id);
      assert Ids(q[1..]) == [];
    }
  }

  lemma InReadingShort(q: seq<Req>, id: nat)
    ensures q == [] ==> InReading(q, id) == 0
    ensures |q| == 1 ==> InReading(q, id) == (if q[0].id == id then 1 else 0)
  {
    if |q| == 1 {
      assert ReqIds(q[1..]) == [] && ReqIds(q) == [q[0].id];
      TimesOne(q[0].id, id);
    }
  }

  lemma FreedAppend(freed: seq<nat>, more: seq<nat>, id: nat)
    ensures Times(freed + more, id) == Times(freed, id) + Times(more, id)
    ensures |more| == 1 ==> Times(more, id) == (if more[0] == id then 1 else 0)
    ensures more == [] ==> Times(more, id) == 0
  {
    TimesAppend(freed, more, id);
    if |more| == 1 {
      assert more == [more[0]];
      TimesOne(more[0], id);
    }
  }

  /** Condensing frees exactly the buffers it empties. */
  lemma {:induction false} CondenseOwned(head: Buf, rest: seq<Buf>, id: nat)
    ensures var (h, r, f) := Condense(head, rest);
            InQueue(r, id) + Times(f, id) == InQueue(rest, id) && h.id == head.id
    decreases |rest|
  {
    hide InQueue;
    if rest != [] && |head.data| < head.sz {
      var len := Min(head.sz - |head.data|, |rest[0].data|);
      var full := head.(data := head.data + rest[0].data[..len]);
      InQueueCons(rest, id);
      if len == |rest[0].data| {
        CondenseOwned(full, rest[1..], id);
        FreedAppend([rest[0].id], Condense(full, rest[1..]).2, id);
        TimesOne(rest[0].id, id);
      } else {
        var q := [rest[0].(data := rest[0].data[len..])] + rest[1..];
        InQueueCons(q, id);
        assert q[1..] == rest[1..];
      }
    }
  }

  lemma OwnedWriteNext(s: State, id: nat)
    requires s.que != []
    ensures Places(WriteNext(s), id) == Places(s, id) && WriteNext(s).nextId == s.nextId
  {
    hide Data, InQueue, Times, InReading;
    if !HoldsBack(s) {
      CondenseOwned(s.que[0], s.que[1..], id);
      InQueueCons(s.que, id);
      var t := WriteNext(s);
      var w := t.writing[|s.writing|];
      InQueueAppend(s.writing, [w], id);
      InQueueShort([w], id);
      var f := if s.cfg.condense && |s.que[0].data| < s.que[0].sz
               then Condense(s.que[0], s.que[1..]).2 else [];
      FreedAppend(s.freed, f, id);
    }
  }

  lemma OwnedPumpIn(s: State, id: nat, hand: nat)
    requires Owned(s, id, hand)
    ensures Owned(PumpIn(s), id, hand)
  {
    hide Data, Want, InQueue, Times, InReading;
    if s.reading == [] {
      InReadingShort(s.reading, id);
      InReadingShort(ReadNext(s).reading, id);
    }
  }

  lemma OwnedPumpOut(s: State, id: nat, hand: nat)
    requires Owned(s, id, hand)
    ensures Owned(PumpOut(s), id, hand)
  {
    hide Data, WriteNext, InQueue, Times, InReading;
    if s.que != [] {
      OwnedWriteNext(s, id);
    }
  }

  lemma OwnedAdvance(s: State, id: nat, hand: nat)
    requires Owned(s, id, hand)
    ensures Owned(Advance(s), id, hand)
  {
    hide PumpIn, PumpOut, InQueue, Times, InReading;
    var s1 := Exhaust(s);
    if Drained(s1) {
      assert s.freed + Ids(s.que) == s.freed;
    } else {
      OwnedPumpIn(s1, id, hand);
      OwnedPumpOut(PumpIn(s1), id, hand);
    }
  }

  /** The buffer of a block is either queued or freed; what an encoder allocates is queued. */
  lemma OwnedProcess(s: State, b: Buf, id: nat)
    requires Owned(s, id, if b.id == id then 1 else 0)
    ensures Owned(Process(s, b), id, 0)
  {
    hide Encode, EncodedSize, InQueue, Times, InReading;
    FreedAppend(s.freed, [b.id], id);
    if !s.outInactive {
      var p := Product(s.cfg.encoder, s.nextId, b, Process(s, b).inDone);
      InQueueAppend(s.que, p, id);
      InQueueShort(p, id);
    }
  }

  lemma OwnedTakeIn(s: State, bytes: seq<byte>, id: nat)
    requires Owned(s, id, 0) && |s.reading| == 1
    ensures Owned(ReadDone(s, bytes), id, 0)
  {
    hide Advance, Process, InQueue, Times, InReading;
    var r := s.reading[0];
    InReadingShort(s.reading, id);
    InReadingShort(s.reading[1..], id);
    OwnedProcess(s.(inDone := s.inDone || bytes == [], reading := s.reading[1..]), Buf(r.id, r.sz, bytes, r.pos), id);
    OwnedAdvance(TakeIn(s, bytes), id, 0);
  }

  lemma OwnedPutOut(s: State, id: nat)
    requires Owned(s, id, 0) && |s.writing| == 1
    ensures Owned(PutOut(s), id, if s.writing[0].id == id then 1 else 0)
  {
    hide WriteNext, HashAll, InQueue, Times, InReading;
    var s1 := Accept(s, |s.writing[0].data|).(writing := s.writing[1..]);
    InQueueShort(s.writing, id);
    InQueueShort(s1.writing, id);
    if s1.que != [] {
      OwnedWriteNext(s1, id);
    }
  }

  lemma OwnedResubmit(s: State, n: nat, id: nat)
    requires Owned(s, id, 0) && |s.writing| == 1 && n <= |s.writing[0].data|
    ensures Owned(Resubmit(s, n), id, 0)
  {
    hide HashAll, InQueue, Times, InReading;
    InQueueShort(s.writing, id);
    InQueueShort(Resubmit(s, n).writing, id);
  }

  lemma OwnedWrote(s: State, n: nat, id: nat)
    requires Owned(s, id, 0) && |s.writing| == 1 && n <= |s.writing[0].data|
    ensures Owned(WriteDone(s, n), id, 0)
  {
    hide Advance, PutOut, Resubmit, InQueue, Times, InReading;
    OwnedResubmit(s, n, id);
    OwnedPutOut(s, id);
    OwnedAdvance(PutOut(s), id, if s.writing[0].id == id then 1 else 0);
    FreedAppend(Advance(PutOut(s)).freed, [s.writing[0].id], id);
  }

  lemma OwnedFed(s: State, data: seq<byte>, id: nat)
    requires Owned(s, id, 0)
    ensures Owned(Preload(s, data), id, 0) && Owned(Feed(s, data), id, 0) && Owned(Finish(s), id, 0)
  {
    hide Advance, Process, InQueue, Times, InReading;
    OwnedProcess(s.(nextId := s.nextId + 1), Buf(s.nextId, |data|, data, 0), id);
    OwnedAdvance(Preload(s, data), id, 0);
    OwnedProcess(s.(inDone := true, nextId := s.nextId + 1), Buf(s.nextId, 0, [], 0), id);
    OwnedAdvance(Conclude(s), id, 0);
  }

  /** After every step, failed writes included, each buffer allocated so far is in exactly one of
      the queue, the read, the write and the freed buffers; so none is lost or freed twice. */
  lemma OwnedStep(s: State, e: Event, src: seq<byte>, id: nat)
    requires Owned(s, id, 0) && Orderly(s) && Enabled(s, e, src)
    ensures Owned(Step(s, e, src), id, 0)
  {
    hide Data, Input, Advance, ReadDone, WriteDone, Preload, Feed, Finish, InQueue, Times, InReading;
    match e
    case Appended(sz, data) =>
      InQueueAppend(s.que, [Buf(s.nextId, sz, data, 0)], id);
      InQueueShort([Buf(s.nextId, sz, data, 0)], id);
    case Preloaded(data) => OwnedFed(s, data, id);
    case Started => OwnedAdvance(Opened(s), id, 0);
    case Fed(data) => OwnedFed(s, data, id);
    case Finished => OwnedFed(s, [], id);
    case Read(bytes) => OwnedTakeIn(s, bytes, id);
    case Wrote(n) => OwnedWrote(s, n, id);
    case WriteError => OwnedWriteError(s, id);
  }

  lemma OwnedWriteError(s: State, id: nat)
    requires Owned(s, id, 0) && |s.writing| == 1
    ensures Owned(WriteFailed(s), id, 0)
  {
    InQueueShort(s.writing, id);
    InQueueShort(s.writing[1..], id);
    FreedAppend(s.freed, Ids(s.que), id);
    FreedAppend(s.freed + Ids(s.que), [s.writing[0].id], id);
  }

  lemma {:induction false} OwnedRun(s: State, events: seq<Event>, src: seq<byte>, id: nat)
    requires Owned(s, id, 0) && Orderly(s) && IsRun(s, events, src)
    ensures Owned(Run(s, events, src), id, 0) && Orderly(Run(s, events, src))
    decreases |events|
  {
    if events != [] {
      hide Step, Enabled, Owned, Orderly;
      OwnedStep(s, events[0], src, id);
      OrderlyStep(s, events[0], src);
      OwnedRun(Step(s, events[0], src), events[1..], src, id);
    }
  }

  /** At every moment a buffer is in exactly one place, and when the structure of a pipe is
      released every buffer it ever had has been freed, once. */
  lemma BuffersFreedOnce(cfg: Config, inInactive: bool, events: seq<Event>, src: seq<byte>, id: nat)
    requires IsRun(New(cfg, inInactive), events, src)
    ensures var t := Run(New(cfg, inInactive), events, src);
            && Places(t, id) == (if id < t.nextId then 1 else 0)
            && (Released(t) ==> Times(t.freed, id) == (if id < t.nextId then 1 else 0))
  {
    var t := Run(New(cfg, inInactive), events, src);
    OwnedRun(New(cfg, inInactive), events, src, id);
    InQueueShort(t.que, id);
    InQueueShort(t.writing, id);
    InReadingShort(t.reading, id);
  }

  // ---- counters, hash and file offsets

  lemma {:induction false} HashAllAppend(h: nat, a: seq<byte>, b: seq<byte>)
    ensures HashAll(h, a + b) == HashAll(HashAll(h, a), b)
    decreases |a|
  {
    if a == [] {
      assert a + b == b;
    } else {
      assert (a + b)[1..] == a[1..] + b;
      HashAllAppend(HashStep(h, a[0]), a[1..], b);
    }
  }

  function Pow9(n: nat): nat { if n == 0 then 1 else 9 * Pow9(n - 1) }

  /** The bytes as the digits of a number to the base 9, the first the most significant */
  function Base9(s: seq<byte>): nat
  {
    if s == [] then 0 else s[0] * Pow9(|s| - 1) + Base9(s[1..])
  }

  /** A remainder can be taken early. */
  lemma ModEarly(x: nat, p: nat, q: nat, m: nat)
    requires 0 < m
    ensures (x % m * p + q) % m == (x * p + q) % m
  {
    var k, y := x / m, x % m * p + q;
    assert x * p == m * (k * p) + x % m * p by {
      assert x == m * k + x % m;
      assert (m * k + x % m) * p == m * (k * p) + x % m * p;
    }
    var n := y / m + k * p;
    assert x * p + q == m * n + y % m by {
      assert m * n == m * (y / m) + m * (k * p);
    }
    Division(x * p + q, m, n, y % m);
  }

  lemma Digits9(h: nat, c: nat, p: nat, q: nat)
    ensures (h * 9 + c) * p + q == h * (9 * p) + (c * p + q)
  {
  }

  /** The hash in closed form */
  lemma {:induction false} HashIsBase9(h: nat, s: seq<byte>)
    requires h < 0x1_0000_0000_0000_0000
    ensures HashAll(h, s) == (h * Pow9(|s|) + Base9(s)) % 0x1_0000_0000_0000_0000
    decreases |s|
  {
    if s == [] {
      assert h * Pow9(0) + Base9(s) == h;
    } else {
      var c, p, q := s[0], Pow9(|s| - 1), Base9(s[1..]);
      var x := h * 9 + c;
      assert HashStep(h, c) == x % WORD;
      HashIsBase9(x % WORD, s[1..]);
      ModEarly(x, p, q, WORD);
      Digits9(h, c, p, q);
    }
  }

  /** The counter and the hash are those of the output so far, however it was split. */
  predicate Tallied(s: State)
  {
    && s.count == |Output(s.sent)|
    && (!s.started ==> s.sent == [])
    && (s.started && s.cfg.hashing ==> s.hash == HashAll(HASH_SEED, Output(s.sent)))
    && (!s.started || !s.cfg.hashing ==> s.hash == 0)
  }

  /** Each write starts where the previous one ended. */
  ghost predicate Tiling(sent: seq<Write>, pos: int)
  {
    forall i :: 0 <= i < |sent| ==> sent[i].pos == pos + |Output(sent[..i])|
  }

  ghost predicate Tiled(s: State)
  {
    s.cfg.outOffsets ==>
      && Tiling(s.sent, s.cfg.outPos0)
      && (s.writing != [] ==> s.writing[0].pos == s.cfg.outPos0 + |Output(s.sent)|)
      && (!s.broken ==> s.outPos == s.cfg.outPos0 + |Output(s.sent)| + |Data(s.writing)|)
  }

  datatype Cell = Hole | Holds(b: byte)

  /** What positioned writes leave at offset `at` of a file that was empty. */
  function FileAt(sent: seq<Write>, at: int): Cell
  {
    if sent == [] then Hole
    else
      var w := sent[|sent| - 1];
      if w.pos <= at < w.pos + |w.data| then Holds(w.data[at - w.pos]) else FileAt(sent[..|sent| - 1], at)
  }

  /** Writes that tile leave exactly their stream in the file: no gap and no overlap. */
  lemma {:induction false} TilingIsStream(sent: seq<Write>, pos: int, at: int)
    requires Tiling(sent, pos)
    ensures FileAt(sent, at) == if pos <= at < pos + |Output(sent)| then Holds(Output(sent)[at - pos]) else Hole
  {
    if sent != [] {
      var n := |sent| - 1;
      forall i | 0 <= i < n
        ensures sent[..n][i].pos == pos + |Output(sent[..n][..i])|
      {
        assert sent[..n][..i] == sent[..i];
      }
      TilingIsStream(sent[..n], pos, at);
    }
  }

  lemma TilingSnoc(sent: seq<Write>, w: Write, pos: int)
    requires Tiling(sent, pos) && w.pos == pos + |Output(sent)|
    ensures Tiling(sent + [w], pos)
  {
    forall i | 0 <= i < |sent + [w]|
      ensures (sent + [w])[i].pos == pos + |Output((sent + [w])[..i])|
    {
      assert (sent + [w])[..i] == sent[..i];
      assert sent[..|sent|] == sent;
    }
  }

  /** The fields a write completion accounts in. */
  predicate SameAccount(s: State, t: State)
  {
    t.cfg == s.cfg && t.sent == s.sent && t.count == s.count && t.started == s.started
    && t.hash == s.hash && t.broken == s.broken
  }

  lemma AccountWriteNext(s: State)
    requires s.que != [] && s.writing == [] && Tiled(s) && !s.broken
    ensures SameAccount(s, WriteNext(s)) && Tiled(WriteNext(s))
  {
    hide Output, Tiling, Data;
    NoData();
    if !HoldsBack(s) {
      var t := WriteNext(s);
      assert t.writing == [t.writing[0]];
      DataOne(t.writing[0]);
    }
  }

  lemma AccountAdvance(s: State)
    requires Tiled(s) && !s.broken
    ensures SameAccount(s, Advance(s)) && Tiled(Advance(s))
  {
    hide Output, Tiling, WriteNext, Data;
    var s1 := Exhaust(s);
    if !Drained(s1) && PumpIn(s1).que != [] && s1.writing == [] {
      AccountWriteNext(PumpIn(s1));
    }
  }

  lemma AccountProcess(s: State, b: Buf)
    ensures SameAccount(s, Process(s, b)) && Process(s, b).writing == s.writing
    ensures Process(s, b).outPos == s.outPos
  {
    hide Encode, EncodedSize;
  }

  /** One accepted write continues the tally and the tiling. */
  lemma AccountAccept(s: State, n: nat)
    requires Tallied(s) && Tiled(s) && s.started && |s.writing| == 1 && n <= |s.writing[0].data|
    ensures Tallied(Accept(s, n))
    ensures s.cfg.outOffsets ==> Tiling(Accept(s, n).sent, s.cfg.outPos0)
    ensures |Output(Accept(s, n).sent)| == |Output(s.sent)| + n
  {
    var b := s.writing[0];
    var w := Write(b.pos, b.data[..n]);
    OutputSnoc(s.sent, w);
    HashAllAppend(HASH_SEED, Output(s.sent), w.data);
    if s.cfg.outOffsets {
      TilingSnoc(s.sent, w, s.cfg.outPos0);
    }
  }

  lemma AccountWrote(s: State, n: nat)
    requires Tallied(s) && Tiled(s) && s.started && |s.writing| == 1 && n <= |s.writing[0].data| && !s.broken
    ensures Tallied(WriteDone(s, n)) && Tiled(WriteDone(s, n))
  {
    hide Advance, WriteNext, Tiling, Output, HashAll, Data;
    var b := s.writing[0];
    assert s.writing == [b] && s.writing[1..] == [];
    DataOne(b);
    NoData();
    AccountAccept(s, n);
    if n < |b.data| {
      var t := Resubmit(s, n);
      assert t.writing == [t.writing[0]];
      DataOne(t.writing[0]);
    } else {
      var s1 := Accept(s, n).(writing := []);
      if s1.que != [] {
        AccountWriteNext(s1);
      }
      AccountAdvance(PutOut(s));
    }
  }

  lemma AccountFed(s: State, data: seq<byte>)
    requires Tallied(s) && Tiled(s) && !s.broken
    ensures Tallied(Preload(s, data)) && Tiled(Preload(s, data))
    ensures Tallied(Feed(s, data)) && Tiled(Feed(s, data))
    ensures Tallied(Finish(s)) && Tiled(Finish(s))
  {
    hide Advance, Process, Tiling, Output, HashAll, Data;
    AccountProcess(s.(nextId := s.nextId + 1), Buf(s.nextId, |data|, data, 0));
    AccountAdvance(Preload(s, data));
    AccountProcess(s.(inDone := true, nextId := s.nextId + 1), Buf(s.nextId, 0, [], 0));
    AccountAdvance(Conclude(s));
  }

  lemma AccountTakeIn(s: State, bytes: seq<byte>)
    requires Tallied(s) && Tiled(s) && s.reading != [] && !s.broken
    ensures Tallied(ReadDone(s, bytes)) && Tiled(ReadDone(s, bytes))
  {
    hide Advance, Process, Tiling, Output, HashAll, Data;
    var r := s.reading[0];
    AccountProcess(s.(inDone := s.inDone || bytes == [], reading := s.reading[1..]), Buf(r.id, r.sz, bytes, r.pos));
    AccountAdvance(TakeIn(s, bytes));
  }

  /** Every step keeps the counter, the hash and the offsets those of the output. */
  lemma AccountStep(s: State, e: Event, src: seq<byte>)
    requires Tallied(s) && Tiled(s) && Orderly(s) && Enabled(s, e, src)
    ensures Tallied(Step(s, e, src)) && Tiled(Step(s, e, src))
  {
    if s.broken {
      BrokenRead(s, e, src);
    } else {
      hide Advance, ReadDone, WriteDone, Preload, Feed, Finish, Tiling, Data, Input;
      match e
      case Appended(sz, data) =>
      case Preloaded(data) => AccountFed(s, data);
      case Started => AccountAdvance(Opened(s));
      case Fed(data) => AccountFed(s, data);
      case Finished => AccountFed(s, []);
      case Read(bytes) => AccountTakeIn(s, bytes);
      case Wrote(n) => AccountWrote(s, n);
      case WriteError =>
    }
  }

  lemma {:induction false} AccountRun(s: State, events: seq<Event>, src: seq<byte>)
    requires Tallied(s) && Tiled(s) && Orderly(s) && IsRun(s, events, src)
    ensures Tallied(Run(s, events, src)) && Tiled(Run(s, events, src)) && Orderly(Run(s, events, src))
    decreases |events|
  {
    if events != [] {
      hide Step, Enabled, Tallied, Tiled, Orderly;
      AccountStep(s, events[0], src);
      OrderlyStep(s, events[0], src);
      AccountRun(Step(s, events[0], src), events[1..], src);
    }
  }

  /** However writes were split, the counter is the length of the output, the hash is that of the
      whole output, and a file written at offsets holds the output and nothing else. */
  lemma ScheduleIndependent(cfg: Config, inInactive: bool, events: seq<Event>, src: seq<byte>, at: int)
    requires IsRun(New(cfg, inInactive), events, src)
    ensures var t := Run(New(cfg, inInactive), events, src);
            var out := Output(t.sent);
            && t.count == |out|
            && (t.started && t.cfg.hashing ==>
                  t.hash == (6883 * Pow9(|out|) + Base9(out)) % 0x1_0000_0000_0000_0000)
            && (!t.started || !t.cfg.hashing ==> t.hash == 0)
            && (t.cfg.outOffsets ==>
                  FileAt(t.sent, at) == if t.cfg.outPos0 <= at < t.cfg.outPos0 + |out|
                                        then Holds(out[at - t.cfg.outPos0]) else Hole)
  {
    var t := Run(New(cfg, inInactive), events, src);
    AccountRun(New(cfg, inInactive), events, src);
    HashIsBase9(HASH_SEED, Output(t.sent));
    if t.cfg.outOffsets {
      TilingIsStream(t.sent, t.cfg.outPos0, at);
    }
  }
}
