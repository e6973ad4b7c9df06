/** FastCGI records as a stream of bytes (section 3.3 of the FastCGI Specification 1.0): which
    records are complete in a prefix of the stream, and what is left of it. */
module FcgiRecords {
  import opened Bytes
  import opened Encoders

  datatype Rec = Rec(kind: byte, reqId: nat, content: seq<byte>)

  function Be16(hi: byte, lo: byte): nat { hi * 256 + lo }

  /** Header, content and padding of the record at the front of `s` */
  function Total(s: seq<byte>): nat
    requires FCGI_HEADER <= |s|
  {
    FCGI_HEADER + Be16(s[4], s[5]) + s[6]
  }

  /** hin_fcgi_read_rec has all of the record at the front of `s`. */
  predicate HasRecord(s: seq<byte>) { FCGI_HEADER <= |s| && Total(s) <= |s| }

  function First(s: seq<byte>): Rec
    requires HasRecord(s)
  {
    Rec(s[1], Be16(s[2], s[3]), s[FCGI_HEADER..FCGI_HEADER + Be16(s[4], s[5])])
  }

  function Records(s: seq<byte>): seq<Rec>
    decreases |s|
  {
    if HasRecord(s) then [First(s)] + Records(s[Total(s)..]) else []
  }

  /** The bytes behind the last complete record. */
  function Rest(s: seq<byte>): (r: seq<byte>)
    ensures !HasRecord(r)
    decreases |s|
  {
    if HasRecord(s) then Rest(s[Total(s)..]) else s
  }

  /** What is left is less than the longest record. */
  lemma RestIsShort(s: seq<byte>)
    ensures |Rest(s)| <= 65797
  {
    var r := Rest(s);
    if FCGI_HEADER <= |r| {
      assert Total(r) <= 8 + 65535 + 255;
    }
  }

  lemma FirstOfPrefix(a: seq<byte>, b: seq<byte>)
    requires HasRecord(a)
    ensures HasRecord(a + b) && Total(a + b) == Total(a) && First(a + b) == First(a)
    ensures (a + b)[Total(a)..] == a[Total(a)..] + b
  {
  }

  /** Records do not depend on how the stream is split: parsing the first part, and then what was
      left of it with the second part, is parsing the whole. */
  lemma {:induction false} SplitAnywhere(a: seq<byte>, b: seq<byte>)
    ensures Records(a + b) == Records(a) + Records(Rest(a) + b)
    ensures Rest(a + b) == Rest(Rest(a) + b)
    decreases |a|
  {
    if HasRecord(a) {
      FirstOfPrefix(a, b);
      SplitAnywhere(a[Total(a)..], b);
    }
  }

  /** The records got from a list of reads, each parsed with what was left before. */
  function Incremental(left: seq<byte>, parts: seq<seq<byte>>): (seq<Rec>, seq<byte>)
    decreases |parts|
  {
    if parts == [] then ([], left)
    else
      var s := left + parts[0];
      var (more, end) := Incremental(Rest(s), parts[1..]);
      (Records(s) + more, end)
  }

  lemma {:induction false} IncrementalIsWhole(left: seq<byte>, parts: seq<seq<byte>>)
    requires !HasRecord(left)
    ensures Incremental(left, parts) == (Records(left + Join(parts)), Rest(left + Join(parts)))
    decreases |parts|
  {
    if parts == [] {
      assert left + Join(parts) == left;
    } else {
      var s := left + parts[0];
      assert parts == [parts[0]] + parts[1..];
      JoinCons(parts[0], parts[1..]);
      assert left + Join(parts) == s + Join(parts[1..]);
      SplitAnywhere(s, Join(parts[1..]));
      IncrementalIsWhole(Rest(s), parts[1..]);
    }
  }

  /** However a stream is split into reads, the same records come out, and the same rest. */
  lemma FragmentationIndependent(parts1: seq<seq<byte>>, parts2: seq<seq<byte>>)
    requires Join(parts1) == Join(parts2)
    ensures Incremental([], parts1) == Incremental([], parts2)
  {
    IncrementalIsWhole([], parts1);
    IncrementalIsWhole([], parts2);
  }

  // ---- records that were written

  /** A record that fits the two-byte fields of its header. */
  predicate Fits(r: Rec) { r.reqId < 65536 && |r.content| < 65536 }

  function Write(r: Rec): seq<byte> { Record(r.kind, r.reqId, r.content) }

  function WriteAll(rs: seq<Rec>): seq<byte>
  {
    if rs == [] then [] else Write(rs[0]) + WriteAll(rs[1..])
  }

  /** The fields of a record as section 3.3 places them: version, type, two bytes of request id, two of
      content length, the padding length and a reserved byte, the higher byte first. */
  lemma FieldsInPlace(s: seq<byte>)
    ensures HasRecord(s) <==> 8 <= |s| && 8 + Be16(s[4], s[5]) + s[6] <= |s|
    ensures HasRecord(s) ==>
              && Total(s) == 8 + Be16(s[4], s[5]) + s[6]
              && First(s) == Rec(s[1], Be16(s[2], s[3]), s[8..8 + Be16(s[4], s[5])])
    ensures forall hi: byte, lo: byte :: Be16(hi, lo) % 256 == lo && Be16(hi, lo) / 256 == hi
  {
  }

  /** A record as it is written, byte by byte */
  lemma WrittenInPlace(r: Rec)
    requires Fits(r)
    ensures var s, n := Write(r), |r.content|;
            && 8 + n <= |s| < 8 + n + 8 && |s| % 8 == 0
            && s[0] == 1 && s[1] == r.kind && Be16(s[2], s[3]) == r.reqId && Be16(s[4], s[5]) == n
            && s[6] == |s| - 8 - n && s[7] == 0 && s[8..8 + n] == r.content
            && forall i :: 8 + n <= i < |s| ==> s[i] == 0
  {
    PaddingIsSmall(|r.content|);
  }

  /** Every record in a stream is of version 1, with the reserved byte zero. */
  predicate VersionOne(s: seq<byte>)
    decreases |s|
  {
    HasRecord(s) ==> s[0] == 1 && s[7] == 0 && VersionOne(s[Total(s)..])
  }

  lemma {:induction false} WrittenVersionOne(rs: seq<Rec>)
    requires forall i :: 0 <= i < |rs| ==> Fits(rs[i])
    ensures VersionOne(WriteAll(rs))
  {
    if rs != [] {
      WriteReadsBack(rs[0], WriteAll(rs[1..]));
      WrittenInPlace(rs[0]);
      WrittenVersionOne(rs[1..]);
    }
  }

  lemma PaddingIsSmall(n: nat)
    ensures n <= RoundToPad(n) < n + 8 && RoundToPad(n) % 8 == 0
  {
  }

  lemma OneRecord(r: Rec)
    ensures WriteAll([r]) == Write(r)
  {
    assert [r][1..] == [] && Write(r) + [] == Write(r);
  }

  /** A written record is complete, reads back, and ends on a multiple of eight bytes. */
  lemma WriteReadsBack(r: Rec, rest: seq<byte>)
    requires Fits(r)
    ensures var s := Write(r) + rest;
            && HasRecord(s) && First(s) == r && Total(s) == |Write(r)| && s[Total(s)..] == rest
            && |Write(r)| % 8 == 0 && |Write(r)| == FCGI_HEADER + RoundToPad(|r.content|)
  {
    PaddingIsSmall(|r.content|);
    var pad: byte := RoundToPad(|r.content|) - |r.content|;
    var h := RecordHeader(r.kind, r.reqId, |r.content|, pad);
    var s := Write(r) + rest;
    assert s == h + (r.content + (Zeros(pad) + rest));
    assert s[4] == |r.content| / 256 && s[5] == |r.content| % 256 && s[6] == pad;
    assert s[2] == r.reqId / 256 && s[3] == r.reqId % 256 && s[1] == r.kind;
    assert Be16(s[4], s[5]) == |r.content|;
    assert s[8..8 + |r.content|] == r.content;
  }

  /** The round trip: a list of records, written one behind the other, reads back. */
  lemma {:induction false} WriteAllReadsBack(rs: seq<Rec>)
    requires forall i :: 0 <= i < |rs| ==> Fits(rs[i])
    ensures Records(WriteAll(rs)) == rs && Rest(WriteAll(rs)) == []
  {
    if rs != [] {
      WriteReadsBack(rs[0], WriteAll(rs[1..]));
      WriteAllReadsBack(rs[1..]);
    }
  }
}
