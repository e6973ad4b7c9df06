/** Sending a chain of buffers, one write in flight at a time (hin_buffer_continue_write in
    src/netcode/buffer.c). */
module ChainSend {
  import opened Bytes
  import opened HeaderChain

  /** The write in flight is of buffer number `at`, of which `unsent` has not been accepted; `next`
      is the chain behind it. `sent` is what the peer got and `freed` the buffers given back. */
  datatype Sending = Sending(unsent: seq<byte>, next: seq<Buf>, at: nat, sent: seq<byte>, freed: seq<nat>, done: bool)

  function Begin(bufs: seq<Buf>): Sending
    requires bufs != []
  {
    Sending(bufs[0].data, bufs[1..], 0, [], [], false)
  }

  /** A write of something accepts at least one byte, and a write of nothing accepts nothing. */
  predicate Legal(s: Sending, ret: nat)
  {
    !s.done && ret <= |s.unsent| && (ret == 0 ==> s.unsent == [])
  }

  /** One completion. With nothing accepted, or nothing left, the caller is told to stop. */
  function Continue(s: Sending, ret: nat): Sending
    requires Legal(s, ret)
  {
    var t := s.(sent := s.sent + s.unsent[..ret], unsent := s.unsent[ret..]);
    if ret == 0 then t.(done := true)
    else if ret != |s.unsent| then t
    else if s.next != [] then
      t.(unsent := s.next[0].data, next := s.next[1..], at := s.at + 1, freed := s.freed + [s.at])
    else t.(done := true)
  }

  /** The same on the buffer's own fields */
  class Writer {
    var unsent: seq<byte>
    var next: seq<Buf>
    var at: nat
    ghost var sent: seq<byte>
    ghost var freed: seq<nat>
    ghost var done: bool

    ghost function Snapshot(): Sending
      reads this
    {
      Sending(unsent, next, at, sent, freed, done)
    }

    constructor (bufs: seq<Buf>)
      requires bufs != []
      ensures Snapshot() == Begin(bufs)
    {
      unsent, next, at := bufs[0].data, bufs[1..], 0;
      sent, freed, done := [], [], false;
    }

    /** hin_buffer_continue_write, for a completion that is no error */
    method ContinueWrite(ret: nat) returns (r: nat)
      requires Legal(Snapshot(), ret)
      modifies this
      ensures Snapshot() == Continue(old(Snapshot()), ret) && (r == 0 <==> done)
    {
      sent := sent + unsent[..ret];
      if ret == 0 {
        done := true;
      } else if ret != |unsent| {
        unsent := unsent[ret..];
      } else if next != [] {
        freed := freed + [at];
        unsent, next, at := next[0].data, next[1..], at + 1;
      } else {
        unsent, done := [], true;
        return 0;
      }
      return ret;
    }
  }

  predicate IsRun(s: Sending, rets: seq<nat>)
    decreases |rets|
  {
    rets == [] || (Legal(s, rets[0]) && IsRun(Continue(s, rets[0]), rets[1..]))
  }

  function Run(s: Sending, rets: seq<nat>): Sending
    requires IsRun(s, rets)
    decreases |rets|
  {
    if rets == [] then s else Run(Continue(s, rets[0]), rets[1..])
  }

  /** Sent, unsent and the chain behind make up the whole; the buffers before this one are freed. */
  ghost predicate Keeps(s: Sending, bufs: seq<Buf>)
  {
    && bufs != []
    && s.at + 1 + |s.next| == |bufs|
    && s.sent + s.unsent + Joined(s.next) == Joined(bufs)
    && |s.freed| == s.at && (forall i :: 0 <= i < s.at ==> s.freed[i] == i)
    && (forall i :: 0 <= i < |s.next| - 1 ==> s.next[i].data != [])
    && (s.next != [] ==> s.unsent != [])
    && (s.done ==> s.next == [] && s.unsent == [])
  }

  lemma ContinueKeeps(s: Sending, ret: nat, bufs: seq<Buf>)
    requires Keeps(s, bufs) && Legal(s, ret)
    ensures Keeps(Continue(s, ret), bufs)
  {
    assert s.unsent == s.unsent[..ret] + s.unsent[ret..];
    if s.next != [] {
      assert s.next == [s.next[0]] + s.next[1..];
      JoinedCons(s.next[0], s.next[1..]);
    }
  }

  /** What is still to be accepted */
  function Left(s: Sending): nat { |s.unsent| + |Joined(s.next)| + (if s.done then 0 else 1) }

  lemma {:induction false} RunKeeps(s: Sending, rets: seq<nat>, bufs: seq<Buf>)
    requires Keeps(s, bufs) && IsRun(s, rets)
    ensures Keeps(Run(s, rets), bufs) && |rets| + Left(Run(s, rets)) <= Left(s)
    decreases |rets|
  {
    if rets != [] {
      ContinueKeeps(s, rets[0], bufs);
      var t := Continue(s, rets[0]);
      assert |s.sent + s.unsent + Joined(s.next)| == |t.sent + t.unsent + Joined(t.next)|;
      RunKeeps(t, rets[1..], bufs);
    }
  }

  lemma BeginKeeps(bufs: seq<Buf>)
    requires Sendable(bufs)
    ensures Keeps(Begin(bufs), bufs)
  {
    assert bufs == [bufs[0]] + bufs[1..];
    JoinedCons(bufs[0], bufs[1..]);
  }

  /** A schedule that sends `n` bytes more: one at a time */
  lemma {:induction false} CanStopAfter(s: Sending, bufs: seq<Buf>, n: nat) returns (rets: seq<nat>)
    requires Keeps(s, bufs) && |s.sent| + n <= |Joined(bufs)|
    ensures IsRun(s, rets) && Keeps(Run(s, rets), bufs) && |Run(s, rets).sent| == |s.sent| + n
    decreases n
  {
    if n == 0 {
      rets := [];
    } else {
      assert s.unsent != [] && !s.done by {
        assert |s.sent + s.unsent + Joined(s.next)| == |Joined(bufs)|;
        assert Joined([]) == [];
      }
      ContinueKeeps(s, 1, bufs);
      hide Keeps;
      var more := CanStopAfter(Continue(s, 1), bufs, n - 1);
      rets := [1] + more;
      assert rets[1..] == more;
    }
  }

  /** A schedule that sends the rest: one buffer at a time */
  lemma {:induction false} CanFinish(s: Sending, bufs: seq<Buf>) returns (rets: seq<nat>)
    requires Keeps(s, bufs)
    ensures IsRun(s, rets) && Run(s, rets).done && Run(s, rets).sent == Joined(bufs)
    decreases |s.next|, !s.done
  {
    if s.done {
      rets := [];
      assert s.sent + [] + Joined([]) == s.sent;
    } else {
      var ret := |s.unsent|;
      ContinueKeeps(s, ret, bufs);
      hide Keeps;
      var more := CanFinish(Continue(s, ret), bufs);
      rets := [ret] + more;
      assert rets[1..] == more;
    }
  }

  /** However the writes are accepted, the peer gets a prefix of the joined chain, and all of it
      when the writer stops; then every buffer but the last has been freed, once. A run that has
      not stopped can go on, and no run is longer than the bytes to send, and one. */
  lemma ChainIsSent(bufs: seq<Buf>, rets: seq<nat>)
    requires Sendable(bufs) && IsRun(Begin(bufs), rets)
    ensures var s := Run(Begin(bufs), rets);
            && s.sent <= Joined(bufs)
            && (s.done ==> s.sent == Joined(bufs) && s.freed == seq(|bufs| - 1, i => i))
            && (!s.done ==> Legal(s, |s.unsent|))
    ensures |rets| <= |Joined(bufs)| + 1
  {
    BeginKeeps(bufs);
    RunKeeps(Begin(bufs), rets, bufs);
  }
}
