/** Building a response or request in a chain of buffers (src/netcode/header.c), and sending the
    chain piece by piece (hin_buffer_continue_write in src/netcode/buffer.c). */
module HeaderChain {
  import opened Bytes
  import opened Wrappers

  /** HIN_HTTPD_MAX_HEADER_LINE_SIZE */
  const MAX_LINE: nat := 4096

  /** A buffer of capacity `sz` and the `count` bytes appended to it. */
  datatype Buf = Buf(sz: nat, data: seq<byte>)

  function Joined(bufs: seq<Buf>): seq<byte>
  {
    if bufs == [] then [] else Joined(bufs[..|bufs| - 1]) + bufs[|bufs| - 1].data
  }

  lemma JoinedSnoc(bufs: seq<Buf>, b: Buf)
    ensures Joined(bufs + [b]) == Joined(bufs) + b.data
  {
    assert (bufs + [b])[..|bufs|] == bufs;
  }

  lemma {:induction false} JoinedCons(b: Buf, bufs: seq<Buf>)
    ensures Joined([b] + bufs) == b.data + Joined(bufs)
  {
    var s := [b] + bufs;
    if bufs == [] {
      assert s == [b] && s[..0] == [];
    } else {
      var n := |bufs| - 1;
      assert s[..|s| - 1] == [b] + bufs[..n];
      JoinedCons(b, bufs[..n]);
    }
  }

  /** No buffer holds more than its capacity, and those added have room for a block. */
  predicate Sound(bufs: seq<Buf>)
  {
    && bufs != []
    && (forall i :: 0 <= i < |bufs| ==> |bufs[i].data| <= bufs[i].sz)
    && (forall i :: 1 <= i < |bufs| ==> READ_SZ <= bufs[i].sz)
  }

  /** Only the last buffer may be empty: a write of nothing would be taken for the end of the chain. */
  predicate Sendable(bufs: seq<Buf>)
  {
    Sound(bufs) && forall i :: 0 <= i < |bufs| - 1 ==> bufs[i].data != []
  }

  /** The chain can be sent, and a line fits into any of its buffers if that is empty. */
  predicate Roomy(bufs: seq<Buf>) { Sendable(bufs) && READ_SZ <= bufs[0].sz }

  /** How many bytes the last buffer has room for */
  function Room(bufs: seq<Buf>): int
    requires bufs != []
  {
    bufs[|bufs| - 1].sz - |bufs[|bufs| - 1].data|
  }

  /** A place in the chain: a buffer and an offset in it. */
  datatype Place = Place(buf: nat, off: nat)

  predicate InChain(bufs: seq<Buf>, p: Place, len: nat)
  {
    p.buf < |bufs| && p.off + len <= |bufs[p.buf].data|
  }

  /** Overwriting bytes that were reserved. */
  function Patched(bufs: seq<Buf>, p: Place, bytes: seq<byte>): seq<Buf>
    requires InChain(bufs, p, |bytes|)
  {
    var b := bufs[p.buf];
    bufs[p.buf := b.(data := b.data[..p.off] + bytes + b.data[p.off + |bytes|..])]
  }

  /** The offset of a place in the joined bytes. */
  function Offset(bufs: seq<Buf>, p: Place): nat
    requires p.buf < |bufs|
  {
    |Joined(bufs[..p.buf])| + p.off
  }

  lemma EndOfChain(bufs: seq<Buf>)
    requires bufs != []
    ensures var last := |bufs| - 1; Offset(bufs, Place(last, |bufs[last].data|)) == |Joined(bufs)|
  {
  }

  lemma PutJoined(bufs: seq<Buf>, data: seq<byte>)
    requires bufs != []
    ensures var last := |bufs| - 1;
            Joined(bufs[last := bufs[last].(data := bufs[last].data + data)]) == Joined(bufs) + data
  {
    var last := |bufs| - 1;
    var r := bufs[last := bufs[last].(data := bufs[last].data + data)];
    assert r[..last] == bufs[..last];
  }

  class HeaderChain {
    var bufs: seq<Buf>

    ghost predicate Valid()
      reads this
    {
      Sound(bufs)
    }

    constructor (sz: nat)
      ensures Valid() && Joined(bufs) == [] && |bufs| == 1 && bufs[0].sz == sz
    {
      bufs := [Buf(sz, [])];
      new;
      assert bufs[..0] == [];
    }

    /** new_buffer, put behind the last buffer of the chain */
    method NewBuffer(minSz: nat)
      requires Valid()
      modifies this
      ensures Valid() && bufs == old(bufs) + [Buf(if READ_SZ > minSz then READ_SZ else minSz, [])]
      ensures Joined(bufs) == old(Joined(bufs)) && Extends(old(bufs), bufs)
      ensures old(Roomy(bufs)) && old(bufs)[|old(bufs)| - 1].data != [] ==> Roomy(bufs)
    {
      var sz := if READ_SZ > minSz then READ_SZ else minSz;
      JoinedSnoc(bufs, Buf(sz, []));
      bufs := bufs + [Buf(sz, [])];
    }

    /** The end of header_raw and header_ptr: bytes go behind those of the last buffer. */
    method Put(data: seq<byte>)
      requires Valid() && |data| <= bufs[|bufs| - 1].sz - |bufs[|bufs| - 1].data|
      modifies this
      ensures Valid() && Joined(bufs) == old(Joined(bufs)) + data && |bufs| == |old(bufs)|
      ensures Extends(old(bufs), bufs)
      ensures bufs[..|bufs| - 1] == old(bufs)[..|bufs| - 1]
      ensures bufs[|bufs| - 1] == old(bufs)[|bufs| - 1].(data := old(bufs)[|bufs| - 1].data + data)
      ensures old(Roomy(bufs)) ==> Roomy(bufs)
    {
      var last := |bufs| - 1;
      PutJoined(bufs, data);
      hide Joined;
      bufs := bufs[last := bufs[last].(data := bufs[last].data + data)];
    }

    /** header_raw, which recurses to the last buffer and adds one if the bytes do not fit: a line
        of at most 4096 bytes is appended, and a longer one is dropped. */
    method HeaderRaw(data: seq<byte>) returns (len: nat)
      requires Valid()
      modifies this
      ensures Valid() && (old(Roomy(bufs)) ==> Roomy(bufs))
      ensures if |data| <= MAX_LINE then len == |data| && Joined(bufs) == old(Joined(bufs)) + data
              else len == 0 && bufs == old(bufs)
      ensures |data| <= MAX_LINE ==> |bufs| == |old(bufs)| + (if |data| <= Room(old(bufs)) then 0 else 1)
      ensures Extends(old(bufs), bufs)
    {
      hide Joined, Extends;
      ExtendsItself(bufs);
      var last := |bufs| - 1;
      if |data| > MAX_LINE {
        return 0;
      }
      if |data| > bufs[last].sz - |bufs[last].data| {
        NewBuffer(|data|);
      }
      ghost var mid := bufs;
      Put(data);
      ExtendsTrans(old(bufs), mid, bufs);
      return |data|;
    }

    /** vheader, given what the format prints. Printing needs room for a final NUL, so a line of
        exactly 4096 bytes would never fit a new buffer; the source recurses for ever on it. */
    method Header(line: seq<byte>) returns (len: nat)
      requires Valid()
      requires |line| != MAX_LINE || |line| < bufs[|bufs| - 1].sz - |bufs[|bufs| - 1].data|
      modifies this
      ensures Valid() && (old(Roomy(bufs)) ==> Roomy(bufs))
      ensures if |line| <= MAX_LINE then len == |line| && Joined(bufs) == old(Joined(bufs)) + line
              else len == 0 && bufs == old(bufs)
      ensures |line| <= MAX_LINE ==> |bufs| == |old(bufs)| + (if |line| < Room(old(bufs)) then 0 else 1)
      ensures Extends(old(bufs), bufs)
    {
      hide Joined, Extends;
      ExtendsItself(bufs);
      var last := |bufs| - 1;
      if |line| > MAX_LINE {
        return 0;
      }
      if |line| >= bufs[last].sz - |bufs[last].data| {
        NewBuffer(|line|);
      }
      ghost var mid := bufs;
      Put(line);
      ExtendsTrans(old(bufs), mid, bufs);
      return |line|;
    }

    /** header_ptr: reserves `len` bytes in one buffer and says where they are, or nothing if they are
        too many for a line. */
    method HeaderPtr(len: nat) returns (r: Option<Place>)
      requires Valid()
      modifies this
      ensures Valid() && (old(Roomy(bufs)) ==> Roomy(bufs)) && Extends(old(bufs), bufs)
      ensures r.Some? <==> len <= MAX_LINE
      ensures len <= MAX_LINE ==> |bufs| == |old(bufs)| + (if len <= Room(old(bufs)) then 0 else 1)
      ensures match r
              case None => bufs == old(bufs)
              case Some(p) =>
                && InChain(bufs, p, len) && Offset(bufs, p) == |old(Joined(bufs))|
                && |Joined(bufs)| == |old(Joined(bufs))| + len && old(Joined(bufs)) <= Joined(bufs)
    {
      hide Joined, Extends;
      ExtendsItself(bufs);
      if len > MAX_LINE {
        return None;
      }
      var last := |bufs| - 1;
      if len > bufs[last].sz - |bufs[last].data| {
        NewBuffer(len);
      }
      last := |bufs| - 1;
      r := Some(Place(last, |bufs[last].data|));
      EndOfChain(bufs);
      ghost var mid := bufs;
      Put(seq(len, i => 0));
      ExtendsTrans(old(bufs), mid, bufs);
    }

    /** A write through a pointer header_ptr has returned */
    method Patch(p: Place, bytes: seq<byte>)
      requires Valid() && InChain(bufs, p, |bytes|)
      modifies this
      ensures Valid() && (old(Roomy(bufs)) ==> Roomy(bufs))
      ensures bufs == Patched(old(bufs), p, bytes) && Extends(old(bufs), bufs)
      ensures var at := old(Offset(bufs, p)); var s := old(Joined(bufs));
              at + |bytes| <= |s| && Joined(bufs) == s[..at] + bytes + s[at + |bytes|..]
    {
      PatchedJoined(bufs, p, bytes);
      bufs := Patched(bufs, p, bytes);
    }
  }

  /** Every place of the old chain is a place of the new one, at the same offset. */
  ghost predicate Extends(old_: seq<Buf>, new_: seq<Buf>)
  {
    && |old_| <= |new_|
    && (forall i :: 0 <= i < |old_| ==> |old_[i].data| <= |new_[i].data| && old_[i].sz == new_[i].sz)
    && (forall i :: 0 <= i < |old_| - 1 ==> |old_[i].data| == |new_[i].data|)
  }

  lemma ExtendsItself(bufs: seq<Buf>)
    ensures Extends(bufs, bufs)
  {
  }

  lemma ExtendsTrans(a: seq<Buf>, b: seq<Buf>, c: seq<Buf>)
    requires Extends(a, b) && Extends(b, c)
    ensures Extends(a, c)
  {
  }

  /** A place keeps its offset in a chain that grows. */
  lemma {:induction false} OffsetKept(a: seq<Buf>, b: seq<Buf>, p: Place)
    requires Extends(a, b) && p.buf < |a|
    ensures Offset(b, p) == Offset(a, p)
    decreases p.buf
  {
    if p.buf != 0 {
      var k := p.buf - 1;
      assert a[..p.buf][..k] == a[..k] && b[..p.buf][..k] == b[..k];
      OffsetKept(a, b, Place(k, p.off));
    }
  }

  /** A patch in one part of a joined sequence is a patch of the whole. */
  lemma PatchRight(j: seq<byte>, b: seq<byte>, o: nat, bytes: seq<byte>)
    requires o + |bytes| <= |b|
    ensures var s := j + b; var at := |j| + o;
            j + (b[..o] + bytes + b[o + |bytes|..]) == s[..at] + bytes + s[at + |bytes|..]
  {
  }

  lemma PatchLeft(j: seq<byte>, b: seq<byte>, at: nat, bytes: seq<byte>)
    requires at + |bytes| <= |j|
    ensures var s := j + b;
            (j[..at] + bytes + j[at + |bytes|..]) + b == s[..at] + bytes + s[at + |bytes|..]
  {
  }

  lemma {:induction false} PatchedJoined(bufs: seq<Buf>, p: Place, bytes: seq<byte>)
    requires InChain(bufs, p, |bytes|)
    ensures var at := Offset(bufs, p); var s := Joined(bufs);
            at + |bytes| <= |s| && Joined(Patched(bufs, p, bytes)) == s[..at] + bytes + s[at + |bytes|..]
    decreases |bufs|
  {
    var n := |bufs| - 1;
    var q := Patched(bufs, p, bytes);
    var j := Joined(bufs[..n]);
    if p.buf < n {
      assert bufs[..n][..p.buf] == bufs[..p.buf];
      PatchedJoined(bufs[..n], p, bytes);
      assert q[..n] == Patched(bufs[..n], p, bytes) && q[n] == bufs[n];
      hide Patched;
      PatchLeft(j, bufs[n].data, Offset(bufs, p), bytes);
    } else {
      assert q[..n] == bufs[..n] && q[n].data == bufs[n].data[..p.off] + bytes + bufs[n].data[p.off + |bytes|..];
      hide Patched;
      PatchRight(j, bufs[n].data, p.off, bytes);
    }
  }
}
