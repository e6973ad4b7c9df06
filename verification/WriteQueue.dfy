/** The condensing loop of hin_pipe_write_next (src/netcode/pipe.c) on real memory: buffers are
    objects with an allocation each, bytes move by memmove and memcpy, and emptied buffers are
    removed from the list and freed. It is proved to do what PipeSpec.Condense says. */
module WriteQueue {
  import opened Bytes
  import opened Condensing
  import S = PipeSpec

  const INT_MAX: nat := 0x7fff_ffff

  /** A buffer: `mem` is its allocation, `ptr` and `count` the part of it in use. */
  class Buffer {
    const id: nat
    const mem: array<byte>
    var ptr: nat
    var count: nat
    var pos: int

    ghost predicate Valid()
      reads this
    {
      ptr + count <= mem.Length <= INT_MAX
    }

    ghost function Bytes(): (s: seq<byte>)
      requires Valid()
      reads this, mem
    {
      mem[ptr..ptr + count]
    }

    ghost function View(): S.Buf
      requires Valid()
      reads this, mem
    {
      S.Buf(id, mem.Length, Bytes(), pos)
    }

    constructor (id: nat, sz: nat)
      requires sz <= INT_MAX
      ensures Valid() && fresh(mem) && this.id == id && mem.Length == sz
      ensures ptr == 0 && count == 0 && pos == 0
    {
      this.id := id;
      mem := new byte[sz];
      ptr, count, pos := 0, 0, 0;
    }

    /** memmove of what the buffer holds to the start of its memory */
    method Compact()
      requires Valid()
      modifies this`ptr, mem
      ensures Valid() && ptr == 0 && Bytes() == old(Bytes())
    {
      if ptr != 0 {
        forall k | 0 <= k < count {
          mem[k] := mem[ptr + k];
        }
        ptr := 0;
      }
    }

    /** memcpy of `len` bytes from the front of `from` to the end of what the buffer holds */
    method Absorb(from: Buffer, len: nat)
      requires Valid() && from.Valid() && from != this && from.mem != mem
      requires len <= from.count && count + len <= mem.Length
      modifies this`ptr, this`count, mem, from`ptr, from`count
      ensures Valid() && from.Valid()
      ensures Bytes() == old(Bytes()) + old(from.Bytes())[..len]
      ensures from.Bytes() == old(from.Bytes())[len..]
      ensures count == old(count) + len && from.count == old(from.count) - len
    {
      Compact();
      forall k | 0 <= k < len {
        mem[count + k] := from.mem[from.ptr + k];
      }
      assert mem[..count] == old(Bytes());
      from.ptr := from.ptr + len;
      from.count := from.count - len;
      count := count + len;
    }
  }

  // ---- lists of buffers

  ghost predicate Apart(q: seq<Buffer>)
  {
    forall i, j :: 0 <= i < j < |q| ==> q[i] != q[j] && q[i].mem != q[j].mem
  }

  ghost function Mems(q: seq<Buffer>): set<array<byte>> { set b | b in q :: b.mem }

  /** The buffers of `q` hold what `v` says. */
  ghost predicate Holds(q: seq<Buffer>, v: seq<S.Buf>)
    reads q, Mems(q)
  {
    |q| == |v| && forall i :: 0 <= i < |q| ==> q[i].Valid() && q[i].View() == v[i]
  }

  /** The list `write_que`, and the buffers freed so far */
  class Queue {
    var writeQue: seq<Buffer>
    ghost var freed: seq<nat>

    /** `len` bytes of the second buffer move to the first. */
    method AbsorbNext(len: nat, ghost w: seq<S.Buf>)
      requires 2 <= |writeQue| && Apart(writeQue) && Holds(writeQue, w)
      requires len <= writeQue[1].count && writeQue[0].count + len <= writeQue[0].mem.Length
      modifies writeQue, Mems(writeQue)
      ensures Holds([writeQue[0]], [w[0].(data := w[0].data + w[1].data[..len])])
      ensures Holds([writeQue[1]], [w[1].(data := w[1].data[len..])])
      ensures Holds(writeQue[2..], w[2..])
      ensures writeQue[1].count == old(writeQue[1].count) - len
    {
      hide Buffer.Bytes;
      writeQue[0].Absorb(writeQue[1], len);
      forall j | 2 <= j < |writeQue|
        ensures writeQue[j].Valid() && writeQue[j].View() == w[j]
      {
        assert writeQue[j] != writeQue[0] && writeQue[j] != writeQue[1];
      }
    }

    /** One round of the condensing loop: the second buffer is removed and freed if giving `len`
        bytes to the first empties it. */
    method CondenseRound(len: nat, ghost w: seq<S.Buf>) returns (emptied: bool)
      requires 2 <= |writeQue| && Apart(writeQue) && Holds(writeQue, w)
      requires len == Min(w[0].sz - |w[0].data|, |w[1].data|)
      modifies this`writeQue, this`freed, writeQue, Mems(writeQue)
      ensures Holds(writeQue, Round(w).0)
      ensures freed == old(freed) + Round(w).1
      ensures emptied == (len == |w[1].data|)
      ensures writeQue == [old(writeQue)[0]] + old(writeQue)[if emptied then 2 else 1..]
    {
      hide Buffer.Bytes, Mems;
      ghost var q := writeQue;
      SizeAt(writeQue, w, 0);
      SizeAt(writeQue, w, 1);
      AbsorbNext(len, w);
      emptied := writeQue[1].count == 0;
      if emptied {
        freed := freed + [writeQue[1].id];
        writeQue := [writeQue[0]] + writeQue[2..];
        HoldsConcat([q[0]], q[2..], Round(w).0[..1], w[2..]);
      } else {
        RoundKeeps(w);
        HoldsConcat([q[1]], q[2..], Round(w).0[1..2], w[2..]);
        HoldsConcat([q[0]], [q[1]] + q[2..], Round(w).0[..1], Round(w).0[1..2] + w[2..]);
        assert q == [q[0]] + ([q[1]] + q[2..]);
        assert freed + [] == freed;
      }
    }

    /** The condensing loop of hin_pipe_write_next; the head and the last |old(writeQue)| - k
        buffers stay in the queue. */
    method CondenseHead(ghost v: seq<S.Buf>) returns (ghost k: nat)
      requires writeQue != [] && Apart(writeQue) && Holds(writeQue, v)
      modifies this`writeQue, this`freed, writeQue, Mems(writeQue)
      ensures 1 <= k <= |old(writeQue)| && writeQue == [old(writeQue)[0]] + old(writeQue)[k..]
      ensures var (h, r, f) := S.Condense(v[0], v[1..]);
              Holds(writeQue, [h] + r) && freed == old(freed) + f
    {
      var i := 1;
      ghost var w, q := v, writeQue;
      k := 1;
      assert SameResult(old(freed), v, freed, w) && IsCut(q, k, writeQue);
      hide *;
      while i < |writeQue|
        invariant i == 1 || (i == 2 <= |w| && w[0].sz == |w[0].data|)
        invariant IsCut(q, k, writeQue) && Holds(writeQue, w)
        invariant SameResult(old(freed), v, freed, w)
        decreases |writeQue| - i
      {
        CutApart(q, k, writeQue);
        SizeAt(writeQue, w, 0);
        SizeAt(writeQue, w, i);
        var len := writeQue[0].mem.Length - writeQue[0].count;
        if len > writeQue[i].count {
          len := writeQue[i].count;
        } else if len == 0 {
          break;
        }
        RoundCondenses(w, old(freed), v, freed);
        CutShorter(q, k, writeQue);
        var emptied := CondenseRound(len, w);
        if emptied {
          k := k + 1;
        } else {
          i := i + 1;
        }
        w := Round(w).0;
      }
      SizeAt(writeQue, w, 0);
      CutIs(q, k, writeQue);
      CondenseDone(old(freed), v, freed, w);
    }
  }

  /** `cur` is the head of `q` and what is behind its first `k`. */
  ghost predicate IsCut(q: seq<Buffer>, k: nat, cur: seq<Buffer>)
  {
    1 <= k <= |q| && cur == [q[0]] + q[k..]
  }

  lemma CutApart(q: seq<Buffer>, k: nat, cur: seq<Buffer>)
    requires IsCut(q, k, cur)
    ensures cur != [] && |cur| == 1 + |q| - k
    ensures Apart(q) ==> Apart(cur)
    ensures forall i :: 0 <= i < |cur| ==> cur[i] in q && cur[i].mem in Mems(q)
  {
  }

  lemma CutIs(q: seq<Buffer>, k: nat, cur: seq<Buffer>)
    requires IsCut(q, k, cur)
    ensures 1 <= k <= |q| && cur == [q[0]] + q[k..]
  {
  }

  lemma CutShorter(q: seq<Buffer>, k: nat, cur: seq<Buffer>)
    requires IsCut(q, k, cur) && 2 <= |cur|
    ensures IsCut(q, k + 1, [cur[0]] + cur[2..]) && [cur[0]] + cur[1..] == cur
  {
  }

  lemma SizeAt(q: seq<Buffer>, v: seq<S.Buf>, i: nat)
    requires Holds(q, v) && i < |q|
    ensures |q| == |v| && q[i].Valid() && q[i].View() == v[i]
    ensures q[i].count == |v[i].data| <= v[i].sz == q[i].mem.Length
  {
    assert q[i].View() == v[i];
  }

  lemma HoldsConcat(p: seq<Buffer>, q: seq<Buffer>, u: seq<S.Buf>, v: seq<S.Buf>)
    requires Holds(p, u) && Holds(q, v)
    ensures Holds(p + q, u + v)
  {
  }

  lemma RoundKeeps(w: seq<S.Buf>)
    requires 2 <= |w| && |w[0].data| <= w[0].sz
    requires w[0].sz - |w[0].data| < |w[1].data|
    ensures var r := Round(w).0;
            r == r[..1] + (r[1..2] + w[2..]) && r[1..2] == [w[1].(data := w[1].data[w[0].sz - |w[0].data|..])]
  {
  }
}
