/** The reading side of a FastCGI socket: the growing line buffer of src/netcode/buffer.c and the
    record loop of src/http/cgi/fcgi_read.c over it. */
module FcgiSocket {
  import opened Bytes
  import opened Encoders
  import opened FcgiRecords

  const MAX_CAPACITY: nat := 65797 + READ_SZ

  lemma SliceOfSlice(s: seq<byte>, a: nat, b: nat, i: nat, j: nat)
    requires a <= b <= |s| && i <= j <= b - a
    ensures s[a..b][i..j] == s[a + i..a + j]
  {
    forall k | 0 <= k < j - i ensures s[a..b][i..j][k] == s[a + i..a + j][k] {
      assert s[a..b][i + k] == s[a + i + k];
    }
  }

  class FcgiSocket {
    /** The memory of the line buffer */
    var base: array<byte>
    /** How many bytes have been received and not yet consumed */
    var count: nat
    /** How much the read in flight asks for; it goes behind those bytes. */
    var asked: nat
    ghost var received: seq<byte>
    ghost var dispatched: seq<Rec>

    /** Everything received has been dispatched in whole records, and what is left of it is in the
        buffer; the read in flight asks for at least one byte and fits the buffer. */
    ghost predicate Valid()
      reads this, base
    {
      && 1 <= asked && count + asked <= base.Length
      && READ_SZ <= base.Length <= MAX_CAPACITY
      && dispatched == Records(received) && base[..count] == Rest(received)
    }

    /** hin_lines_create_raw */
    constructor ()
      ensures Valid() && fresh(base) && received == [] && dispatched == []
    {
      base := new byte[READ_SZ];
      count, asked := 0, READ_SZ;
      received, dispatched := [], [];
    }

    /** hin_buffer_prepare */
    method Prepare(num: nat)
      requires count <= base.Length
      modifies this`base, this`asked
      ensures asked == num && count + num <= base.Length
      ensures base.Length == if old(base.Length) < count + num then count + num else old(base.Length)
      ensures base[..count] == old(base[..count]) && (base == old(base) || fresh(base))
    {
      var minSz := count + num;
      if minSz > base.Length {
        var grown := new byte[minSz];
        forall i | 0 <= i < base.Length {
          grown[i] := base[i];
        }
        base := grown;
      }
      asked := num;
    }

    /** hin_buffer_eat */
    method Eat(num: nat)
      requires num <= count <= base.Length
      modifies this`count, base
      ensures count == old(count) - num && base[..count] == old(base[num..count])
    {
      forall i | 0 <= i < count - num {
        base[i] := base[num + i];
      }
      count := count - num;
    }

    /** hin_lines_request with no minimum */
    method Request()
      requires READ_SZ <= base.Length <= MAX_CAPACITY && count <= 65797 && count <= base.Length
      modifies this`base, this`asked
      ensures 1 <= asked && count + asked <= base.Length && READ_SZ <= base.Length <= MAX_CAPACITY
      ensures base[..count] == old(base[..count]) && (base == old(base) || fresh(base))
      ensures asked == if old(base.Length) - count < old(base.Length) / 2 then 4096 else old(base.Length) - count
    {
      var left := base.Length - count;
      var more := if left < base.Length / 2 then READ_SZ else left;
      Prepare(more);
    }

    /** hin_fcgi_read_rec at `at`: 0 if the record is not complete, or its length when it has been
        dispatched, which swaps the two-byte fields of its header in place. */
    method ReadRec(at: nat) returns (total: nat)
      requires at <= count <= base.Length
      modifies base, this`dispatched
      ensures var s := old(base[at..count]);
              if HasRecord(s) then total == Total(s) && dispatched == old(dispatched) + [First(s)]
              else total == 0 && dispatched == old(dispatched)
      ensures at + total <= count
      ensures base[at + total..count] == old(base[at..count])[total..]
      ensures total != 0 ==>
                && base[at + 2] == old(base[at + 3]) && base[at + 3] == old(base[at + 2])
                && base[at + 4] == old(base[at + 5]) && base[at + 5] == old(base[at + 4])
      ensures forall i :: 0 <= i < base.Length && (total == 0 || i < at + 2 || at + 6 <= i) ==> base[i] == old(base[i])
    {
      ghost var s := base[at..count];
      total := 0;
      if count - at < FCGI_HEADER {
        return;
      }
      assert s[1] == base[at + 1] && s[2] == base[at + 2] && s[3] == base[at + 3];
      assert s[4] == base[at + 4] && s[5] == base[at + 5] && s[6] == base[at + 6];
      var len := Be16(base[at + 4], base[at + 5]);
      var all := len + FCGI_HEADER + base[at + 6];
      if count - at < all {
        return;
      }
      var kind, reqId := base[at + 1], Be16(base[at + 2], base[at + 3]);
      var content := base[at + FCGI_HEADER..at + FCGI_HEADER + len];
      SliceOfSlice(base[..], at, count, FCGI_HEADER, FCGI_HEADER + len);
      assert HasRecord(s) && all == Total(s) && First(s) == Rec(kind, reqId, content);
      dispatched := dispatched + [Rec(kind, reqId, content)];
      base[at + 2], base[at + 3] := base[at + 3], base[at + 2];
      base[at + 4], base[at + 5] := base[at + 5], base[at + 4];
      total := all;
    }

    /** The loop of hin_fcgi_socket_read_callback; the result is how many bytes it has used. */
    method ReadRecords() returns (used: nat)
      requires count <= base.Length
      modifies base, this`dispatched
      ensures dispatched == old(dispatched) + Records(old(base[..count]))
      ensures used <= count && base[used..count] == Rest(old(base[..count]))
    {
      hide Records, Rest, HasRecord, Total, First;
      ghost var all, before := base[..count], dispatched;
      used := 0;
      assert all[0..] == all;
      Peel(all, 0);
      var sz := ReadRec(0);
      while sz > 0
        invariant used + sz <= count && base[used + sz..count] == all[used + sz..]
        invariant if sz > 0 then dispatched + Records(all[used + sz..]) == before + Records(all)
                                 && Rest(all[used + sz..]) == Rest(all)
                  else dispatched == before + Records(all) && all[used..] == Rest(all)
        decreases count - used
      {
        used := used + sz;
        Peel(all, used);
        sz := ReadRec(used);
        assert all[used..][sz..] == all[used + sz..];
      }
    }

    /** One read: the kernel has put `data` behind what the buffer holds, and
        hin_lines_read_callback runs. */
    method ReadCompleted(data: seq<byte>)
      requires Valid() && 1 <= |data| <= asked
      modifies this, base
      ensures Valid() && received == old(received) + data
      ensures base == old(base) || fresh(base)
    {
      forall i | 0 <= i < |data| {
        base[count + i] := data[i];
      }
      count := count + |data|;
      asked := 0;
      SplitAnywhere(received, data);
      assert base[..count] == Rest(received) + data;
      var used := ReadRecords();
      received := received + data;
      RestIsShort(received);
      if used > 0 {
        Eat(used);
      }
      Request();
    }
  }

  /** Taking one record off the front of what is left. */
  lemma Peel(all: seq<byte>, at: nat)
    requires at <= |all|
    ensures var s := all[at..];
            if HasRecord(s) then
              0 < Total(s) <= |s| && Rest(all[at + Total(s)..]) == Rest(s)
              && Records(s) == [First(s)] + Records(all[at + Total(s)..])
            else Records(s) == [] && Rest(s) == s
  {
    var s := all[at..];
    if HasRecord(s) {
      assert s[Total(s)..] == all[at + Total(s)..];
    }
  }
}
