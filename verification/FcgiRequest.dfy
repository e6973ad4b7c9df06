/** A FastCGI request as src/http/cgi/fcgi_write.c and fcgi_util.c write it into a chain of buffers:
    BEGIN_REQUEST, the parameters, and the first part of standard input (sections 3.3, 3.4 and 5 of
    the FastCGI Specification 1.0). */
module FcgiRequest {
  import opened Bytes
  import opened Encoders
  import opened HeaderChain
  import NV = NameValue
  import R = FcgiRecords

  const FCGI_BEGIN_REQUEST: byte := 1
  const FCGI_PARAMS: byte := 4
  const FCGI_RESPONDER: byte := 1
  /** The flag that asks the application to keep the connection */
  const SOCKET_REUSE: byte := 1

  /** A request without a body, or the bytes of the body that came with its headers. */
  datatype Stdin = NoBody | Body(first: seq<byte>)

  function BeginBody(reuse: bool): seq<byte>
  {
    [0, FCGI_RESPONDER, if reuse then SOCKET_REUSE else 0, 0, 0, 0, 0, 0]
  }

  /** The records of hin_fcgi_write_post: an empty one at once if there is no body. */
  function StdinPart(id: nat, stdin: Stdin): seq<R.Rec>
  {
    match stdin
    case NoBody => [R.Rec(FCGI_STDIN, id, [])]
    case Body(first) => if first == [] then [] else [R.Rec(FCGI_STDIN, id, first)]
  }

  /** The records a request should be. */
  function RequestRecords(id: nat, reuse: bool, ps: seq<NV.Pair>, stdin: Stdin): seq<R.Rec>
  {
    [R.Rec(FCGI_BEGIN_REQUEST, id, BeginBody(reuse)), R.Rec(FCGI_PARAMS, id, NV.Params(ps)),
     R.Rec(FCGI_PARAMS, id, [])] + StdinPart(id, stdin)
  }

  ghost predicate Ready(chain: HeaderChain)
    reads chain
  {
    chain.Valid() && Roomy(chain.bufs)
  }

  /** hin_fcgi_header. The pointer it returns is good for as long as the chain only grows. */
  method RecordHead(chain: HeaderChain, kind: byte, id: nat, sz: nat) returns (p: Place)
    requires Ready(chain)
    modifies chain
    ensures Ready(chain) && Extends(old(chain.bufs), chain.bufs) && InChain(chain.bufs, p, FCGI_HEADER)
    ensures Offset(chain.bufs, p) == |old(Joined(chain.bufs))|
    ensures Joined(chain.bufs) == old(Joined(chain.bufs)) + RecordHeader(kind, id, sz, 0)
  {
    hide Roomy, Sound, Room;
    var r := chain.HeaderPtr(FCGI_HEADER);
    p := r.value;
    ghost var b, at := chain.bufs, |old(Joined(chain.bufs))|;
    chain.Patch(p, RecordHeader(kind, id, sz, 0));
    ExtendsTrans(old(chain.bufs), b, chain.bufs);
    OffsetKept(b, chain.bufs, p);
  }

  /** param: the length bytes, the name and the value, each of which may open a new buffer. What it
      returns is the number of bytes it appended. */
  method Param(chain: HeaderChain, pair: NV.Pair) returns (num: nat)
    requires Ready(chain) && |pair.value| <= MAX_LINE
    modifies chain
    ensures Ready(chain) && Extends(old(chain.bufs), chain.bufs)
    ensures Joined(chain.bufs) == old(Joined(chain.bufs)) + NV.Param(pair) && num == |NV.Param(pair)|
  {
    hide Joined;
    if |pair.name| >= NV.LONG {
      assert old(Joined(chain.bufs)) + NV.Param(pair) == old(Joined(chain.bufs));
      return 0;
    }
    ghost var s := Joined(chain.bufs);
    var lengths := [|pair.name|] + NV.ValueLength(|pair.value|);
    AppendThrough(chain, lengths);
    ghost var b := chain.bufs;
    var _ := chain.HeaderRaw(pair.name);
    ExtendsTrans(old(chain.bufs), b, chain.bufs);
    b := chain.bufs;
    AppendThrough(chain, pair.value);
    ExtendsTrans(old(chain.bufs), b, chain.bufs);
    num := |lengths| + |pair.name| + |pair.value|;
    assert s + lengths + pair.name + pair.value == s + NV.Param(pair);
  }

  /** header_ptr and a write through the pointer */
  method AppendThrough(chain: HeaderChain, bytes: seq<byte>)
    requires Ready(chain) && |bytes| <= MAX_LINE
    modifies chain
    ensures Ready(chain) && Extends(old(chain.bufs), chain.bufs)
    ensures Joined(chain.bufs) == old(Joined(chain.bufs)) + bytes
  {
    hide Roomy, Sound, Room;
    var r := chain.HeaderPtr(|bytes|);
    var p := r.value;
    ghost var b := chain.bufs;
    chain.Patch(p, bytes);
    ExtendsTrans(old(chain.bufs), b, chain.bufs);
  }

  /** hin_fcgi_headers, given what it has found out about the request */
  method WriteParams(chain: HeaderChain, ps: seq<NV.Pair>) returns (sz: nat)
    requires Ready(chain) && forall i :: 0 <= i < |ps| ==> |ps[i].value| <= MAX_LINE
    modifies chain
    ensures Ready(chain) && Extends(old(chain.bufs), chain.bufs)
    ensures Joined(chain.bufs) == old(Joined(chain.bufs)) + NV.Params(ps) && sz == |NV.Params(ps)|
  {
    hide NV.Param, Joined, Roomy;
    sz := 0;
    ghost var s := Joined(chain.bufs);
    for i := 0 to |ps|
      invariant Ready(chain) && Extends(old(chain.bufs), chain.bufs)
      invariant Joined(chain.bufs) == s + NV.Params(ps[..i]) && sz == |NV.Params(ps[..i])|
    {
      ghost var b := chain.bufs;
      var num := Param(chain, ps[i]);
      ExtendsTrans(old(chain.bufs), b, chain.bufs);
      sz := sz + num;
      assert ps[..i + 1][..i] == ps[..i];
    }
    assert ps[..|ps|] == ps;
  }

  /** The PARAMS record: its header is written before its length is known, and completed through the
      pointer kept, which may lie in an earlier buffer by then. */
  method WriteParamsRecord(chain: HeaderChain, id: nat, ps: seq<NV.Pair>)
    requires Ready(chain) && forall i :: 0 <= i < |ps| ==> |ps[i].value| <= MAX_LINE
    modifies chain
    ensures Ready(chain) && Extends(old(chain.bufs), chain.bufs)
    ensures Joined(chain.bufs) == old(Joined(chain.bufs)) + Record(FCGI_PARAMS, id, NV.Params(ps))
  {
    hide Joined, Roomy, NV.Params;
    ghost var s := Joined(chain.bufs);
    var head := RecordHead(chain, FCGI_PARAMS, id, 0);
    ghost var b := chain.bufs;
    var sz := WriteParams(chain, ps);
    OffsetKept(b, chain.bufs, head);
    ExtendsTrans(old(chain.bufs), b, chain.bufs);
    b := chain.bufs;
    var pad: byte := RoundToPad(sz) - sz;
    chain.Patch(Place(head.buf, head.off + 4), LengthFields(sz, pad));
    ExtendsTrans(old(chain.bufs), b, chain.bufs);
    HeadCompleted(s, FCGI_PARAMS, id, NV.Params(ps), pad);
    b := chain.bufs;
    AppendThrough(chain, Zeros(pad));
    ExtendsTrans(old(chain.bufs), b, chain.bufs);
    assert Joined(chain.bufs) == s + Record(FCGI_PARAMS, id, NV.Params(ps));
  }

  function LengthFields(sz: nat, pad: byte): seq<byte> { [sz / 256 % 256, sz % 256, pad] }

  lemma HeadCompleted(s: seq<byte>, kind: byte, id: nat, content: seq<byte>, pad: byte)
    ensures var t := s + RecordHeader(kind, id, 0, 0) + content; var at := |s| + 4;
            t[..at] + LengthFields(|content|, pad) + t[at + 3..] == s + RecordHeader(kind, id, |content|, pad) + content
  {
    var h, g := RecordHeader(kind, id, 0, 0), RecordHeader(kind, id, |content|, pad);
    var t, at := s + h + content, |s| + 4;
    assert t[..at] == s + h[..4] && t[at + 3..] == h[7..] + content;
    assert g == h[..4] + LengthFields(|content|, pad) + h[7..];
  }

  /** hin_fcgi_write_post, as far as it writes into the chain */
  method WriteStdin(chain: HeaderChain, id: nat, stdin: Stdin)
    requires Ready(chain) && (stdin.Body? ==> |stdin.first| <= MAX_LINE)
    modifies chain
    ensures Ready(chain)
    ensures Joined(chain.bufs) == old(Joined(chain.bufs)) + R.WriteAll(StdinPart(id, stdin))
  {
    hide Joined, Roomy;
    ghost var s := Joined(chain.bufs);
    match stdin
    case NoBody =>
      var _ := RecordHead(chain, FCGI_STDIN, id, 0);
      R.OneRecord(R.Rec(FCGI_STDIN, id, []));
      assert RecordHeader(FCGI_STDIN, id, 0, 0) == Record(FCGI_STDIN, id, []);
    case Body(first) =>
      if first != [] {
        var head := RecordHead(chain, FCGI_STDIN, id, |first|);
        ghost var b := chain.bufs;
        var pad: byte := RoundToPad(|first|) - |first|;
        AppendThrough(chain, first + Zeros(pad));
        OffsetKept(b, chain.bufs, head);
        chain.Patch(Place(head.buf, head.off + 6), [pad]);
        PaddingCompleted(s, FCGI_STDIN, id, first, pad);
        R.OneRecord(R.Rec(FCGI_STDIN, id, first));
      }
  }

  lemma PaddingCompleted(s: seq<byte>, kind: byte, id: nat, content: seq<byte>, pad: byte)
    requires pad == RoundToPad(|content|) - |content|
    ensures var t := s + RecordHeader(kind, id, |content|, 0) + (content + Zeros(pad)); var at := |s| + 6;
            t[..at] + [pad] + t[at + 1..] == s + Record(kind, id, content)
  {
    var h, g := RecordHeader(kind, id, |content|, 0), RecordHeader(kind, id, |content|, pad);
    var t, at := s + h + (content + Zeros(pad)), |s| + 6;
    assert t[..at] == s + h[..6] && t[at + 1..] == h[7..] + (content + Zeros(pad));
    assert g == h[..6] + [pad] + h[7..];
  }

  /** The part of hin_fcgi_worker_run that writes: the chain it hands to the socket holds the
      records of the request, one behind the other. */
  method WriteRequest(id: nat, reuse: bool, ps: seq<NV.Pair>, stdin: Stdin) returns (chain: HeaderChain)
    requires forall i :: 0 <= i < |ps| ==> |ps[i].value| <= MAX_LINE
    requires stdin.Body? ==> |stdin.first| <= MAX_LINE
    ensures Sendable(chain.bufs) && Joined(chain.bufs) == R.WriteAll(RequestRecords(id, reuse, ps, stdin))
  {
    hide Joined, NV.Params, StdinPart, R.WriteAll, Record;
    chain := new HeaderChain(2 * READ_SZ);
    var _ := RecordHead(chain, FCGI_BEGIN_REQUEST, id, 8);
    AppendThrough(chain, BeginBody(reuse));
    WriteParamsRecord(chain, id, ps);
    var _ := RecordHead(chain, FCGI_PARAMS, id, 0);
    WriteStdin(chain, id, stdin);
    RequestInOrder(id, reuse, ps, stdin);
  }

  lemma RequestInOrder(id: nat, reuse: bool, ps: seq<NV.Pair>, stdin: Stdin)
    ensures R.WriteAll(RequestRecords(id, reuse, ps, stdin))
            == [] + RecordHeader(FCGI_BEGIN_REQUEST, id, 8, 0) + BeginBody(reuse)
               + Record(FCGI_PARAMS, id, NV.Params(ps)) + RecordHeader(FCGI_PARAMS, id, 0, 0)
               + R.WriteAll(StdinPart(id, stdin))
  {
    hide NV.Params, StdinPart, R.Write;
    var rs, more := RequestRecords(id, reuse, ps, stdin), StdinPart(id, stdin);
    assert rs[1..][1..][1..] == more;
    assert R.WriteAll(rs[1..][1..]) == R.Write(rs[2]) + R.WriteAll(more);
    assert R.WriteAll(rs[1..]) == R.Write(rs[1]) + (R.Write(rs[2]) + R.WriteAll(more));
    assert R.WriteAll(rs) == R.Write(rs[0]) + (R.Write(rs[1]) + (R.Write(rs[2]) + R.WriteAll(more)));
    WrittenUnpadded(FCGI_BEGIN_REQUEST, id, BeginBody(reuse));
    WrittenUnpadded(FCGI_PARAMS, id, []);
    WriteIsRecord(rs[1]);
  }

  lemma WrittenUnpadded(kind: byte, id: nat, content: seq<byte>)
    requires |content| % 8 == 0
    ensures R.Write(R.Rec(kind, id, content)) == RecordHeader(kind, id, |content|, 0) + content
  {
    assert RoundToPad(|content|) == |content|;
  }

  lemma WriteIsRecord(r: R.Rec)
    ensures R.Write(r) == Record(r.kind, r.reqId, r.content)
  {
  }

  // ---- what the application makes of it

  /** A content length has two bytes. */
  lemma {:induction false} ContentsAreShort(s: seq<byte>)
    ensures forall i :: 0 <= i < |R.Records(s)| ==> |R.Records(s)[i].content| < 65536
    decreases |s|
  {
    if R.HasRecord(s) {
      assert |R.First(s).content| < 65536;
      ContentsAreShort(s[R.Total(s)..]);
    }
  }

  lemma RecordIsAligned(r: R.Rec)
    ensures |R.Write(r)| % 8 == 0
  {
    R.PaddingIsSmall(|r.content|);
    assert |R.Write(r)| == 8 + RoundToPad(|r.content|);
  }

  lemma {:induction false} RecordsAreAligned(rs: seq<R.Rec>)
    ensures |R.WriteAll(rs)| % 8 == 0
  {
    hide R.Write;
    if rs != [] {
      RecordIsAligned(rs[0]);
      RecordsAreAligned(rs[1..]);
    }
  }

  /** The application reads back the records of the request exactly if the parameters fit the two
      bytes of a content length, and then it decodes the pairs that were given. */
  lemma RequestReadsBack(id: nat, reuse: bool, ps: seq<NV.Pair>, stdin: Stdin)
    requires id < 65536 && (stdin.Body? ==> |stdin.first| < 65536)
    requires forall i :: 0 <= i < |ps| ==> |ps[i].value| < 0x80000000
    ensures var rs := RequestRecords(id, reuse, ps, stdin); var s := R.WriteAll(rs);
            && (R.Records(s) == rs <==> |NV.Params(ps)| < 65536)
            && (|NV.Params(ps)| < 65536 ==> R.Rest(s) == [] && R.VersionOne(s))
            && NV.Decode(rs[1].content) == NV.Decoded(NV.Kept(ps))
            && |s| % 8 == 0
  {
    hide R.Records, R.Rest, R.WriteAll, R.VersionOne, NV.Params, NV.Decode, NV.Kept;
    var rs := RequestRecords(id, reuse, ps, stdin);
    NV.ParamsReadBack(ps);
    RecordsAreAligned(rs);
    ContentsAreShort(R.WriteAll(rs));
    assert rs[1].content == NV.Params(ps);
    if |NV.Params(ps)| < 65536 {
      R.WriteAllReadsBack(rs);
      R.WrittenVersionOne(rs);
    }
  }

  // ---- the request byte by byte (sections 3.3 and 5.1 of the FastCGI Specification 1.0)

  /** The first record, byte by byte: version 1, type BEGIN_REQUEST (1), the request's id, a content of
      eight bytes without padding: the role of a responder (1), the flag to keep the connection (1),
      and zeros. Behind it the header of PARAMS: version 1, type 4, the id, the length of the content
      and its padding to a multiple of eight. */
  lemma RequestInPlace(id: nat, reuse: bool, ps: seq<NV.Pair>, stdin: Stdin)
    requires id < 65536
    ensures var w := R.WriteAll(RequestRecords(id, reuse, ps, stdin)); var n := |NV.Params(ps)|;
            && 24 + n <= |w|
            && w[0] == 1 && w[1] == 1 && R.Be16(w[2], w[3]) == id && R.Be16(w[4], w[5]) == 8 && w[6] == 0 && w[7] == 0
            && R.Be16(w[8], w[9]) == 1 && w[10] == (if reuse then 1 else 0) && w[11..16] == [0, 0, 0, 0, 0]
            && w[16] == 1 && w[17] == 4 && R.Be16(w[18], w[19]) == id && R.Be16(w[20], w[21]) == n % 65536
            && w[22] < 8 && (n + w[22]) % 8 == 0 && w[23] == 0 && w[24..24 + n] == NV.Params(ps)
  {
    hide NV.Params, R.WriteAll, RequestRecords, RoundToPad;
    var w := R.WriteAll(RequestRecords(id, reuse, ps, stdin));
    var n := |NV.Params(ps)|;
    ParamsStart(id, reuse, ps, stdin);
    R.PaddingIsSmall(n);
    var begin := R.Rec(FCGI_BEGIN_REQUEST, id, BeginBody(reuse));
    R.WrittenInPlace(begin);
    BeginIsLong(begin);
    assert w[8..16] == w[..16][8..16] == BeginBody(reuse);
    forall i | 0 <= i < 8 ensures w[i] == R.Write(begin)[i] && w[8 + i] == BeginBody(reuse)[i] {
      assert w[i] == w[..16][i] && w[8 + i] == w[8..16][i];
    }
    HeaderInPlace(w[16..24], FCGI_PARAMS, id, n, RoundToPad(n) - n);
    forall i | 0 <= i < 8 ensures w[16 + i] == w[16..24][i] {
    }
  }

  lemma BeginIsLong(r: R.Rec)
    requires |r.content| == 8
    ensures |R.Write(r)| == 16 && R.Write(r)[8..16] == r.content
  {
  }

  lemma HeaderInPlace(h: seq<byte>, kind: byte, id: nat, n: nat, pad: byte)
    requires h == RecordHeader(kind, id, n, pad) && id < 65536
    ensures |h| == 8 && h[0] == 1 && h[1] == kind && R.Be16(h[2], h[3]) == id && h[6] == pad && h[7] == 0
    ensures R.Be16(h[4], h[5]) == n % 65536
  {
    TwoBytes(n);
    TwoBytes(id);
  }

  /** The records by their types: BEGIN_REQUEST (1), PARAMS (4), its end, and STDIN (5) */
  lemma TypesInOrder(id: nat, reuse: bool, ps: seq<NV.Pair>, stdin: Stdin)
    ensures var rs := RequestRecords(id, reuse, ps, stdin);
            && 3 <= |rs| <= 4 && rs[0].kind == 1 && rs[1].kind == 4 && rs[2] == R.Rec(4, id, [])
            && (forall i :: 0 <= i < |rs| ==> rs[i].reqId == id)
            && (|rs| == 4 ==> rs[3].kind == 5)
            && (stdin.NoBody? ==> rs[3..] == [R.Rec(5, id, [])])
            && (stdin.Body? ==> rs[3..] == if stdin.first == [] then [] else [R.Rec(5, id, stdin.first)])
  {
  }

  // ---- where PARAMS stands, and how much of it is read

  /** Where the content of the PARAMS record starts in a request */
  const PARAMS_AT: nat := 24

  lemma ParamsStart(id: nat, reuse: bool, ps: seq<NV.Pair>, stdin: Stdin)
    ensures var w := R.WriteAll(RequestRecords(id, reuse, ps, stdin));
            var n := |NV.Params(ps)|; var pad := RoundToPad(n) - n;
            && 0 <= pad < 8 && PARAMS_AT + n + pad <= |w|
            && w[..16] == R.Write(R.Rec(FCGI_BEGIN_REQUEST, id, BeginBody(reuse)))
            && w[16..PARAMS_AT] == RecordHeader(FCGI_PARAMS, id, n, pad)
            && w[PARAMS_AT..PARAMS_AT + n] == NV.Params(ps)
  {
    var n := |NV.Params(ps)|;
    R.PaddingIsSmall(n);
    RequestInOrder(id, reuse, ps, stdin);
    WrittenUnpadded(FCGI_BEGIN_REQUEST, id, BeginBody(reuse));
    HeaderLength(FCGI_BEGIN_REQUEST, id, 8, 0);
    hide NV.Params, StdinPart, R.Write, R.WriteAll, RecordHeader, RoundToPad, RequestRecords;
    var pad := RoundToPad(n) - n;
    HeaderLength(FCGI_PARAMS, id, n, pad);
    InThree(RecordHeader(FCGI_BEGIN_REQUEST, id, 8, 0), BeginBody(reuse), RecordHeader(FCGI_PARAMS, id, n, pad),
            NV.Params(ps), Zeros(pad), RecordHeader(FCGI_PARAMS, id, 0, 0), R.WriteAll(StdinPart(id, stdin)),
            R.WriteAll(RequestRecords(id, reuse, ps, stdin)));
  }

  lemma HeaderLength(kind: byte, id: nat, len: nat, pad: byte)
    ensures |RecordHeader(kind, id, len, pad)| == 8
  {
  }

  lemma InThree(a: seq<byte>, b: seq<byte>, c: seq<byte>, d: seq<byte>, e: seq<byte>, f: seq<byte>, g: seq<byte>,
                w: seq<byte>)
    requires |a| == |b| == |c| == 8 && w == [] + a + b + (c + d + e) + f + g
    ensures w[..16] == a + b && w[16..24] == c && w[24..24 + |d|] == d && 24 + |d| + |e| <= |w|
  {
    assert w == a + b + (c + (d + (e + f + g)));
  }

  lemma TwoBytes(n: nat)
    ensures R.Be16(n / 256 % 256, n % 256) == n % 65536
  {
    assert n == 65536 * (n / 65536) + 256 * (n / 256 % 256) + n % 256;
  }

  /** Of the length of a record two bytes are kept. */
  lemma ParamsRead(s: seq<byte>, id: nat, n: nat, pad: byte)
    requires 8 + n + pad <= |s| && s[..8] == RecordHeader(FCGI_PARAMS, id, n, pad)
    ensures R.Records(s) != [] && R.Records(s)[0].kind == FCGI_PARAMS
    ensures R.Records(s)[0].content == s[8..8 + n % 65536]
  {
    HeaderFields(s, FCGI_PARAMS, id, n, pad);
    TwoBytes(n);
    hide RecordHeader;
    assert R.Records(s) == [R.First(s)] + R.Records(s[R.Total(s)..]);
  }

  lemma HeaderFields(s: seq<byte>, kind: byte, id: nat, n: nat, pad: byte)
    requires 8 <= |s| && s[..8] == RecordHeader(kind, id, n, pad)
    ensures s[1] == kind && s[4] == n / 256 % 256 && s[5] == n % 256 && s[6] == pad
  {
    var h := RecordHeader(kind, id, n, pad);
    assert s[1] == h[1] && s[4] == h[4] && s[5] == h[5] && s[6] == h[6];
  }

  /** What the application takes for the parameters: only the first bytes of them, as many as the
      remainder of their length by 65536 says. */
  lemma ParamsCutOff(id: nat, reuse: bool, ps: seq<NV.Pair>, stdin: Stdin)
    requires id < 65536
    ensures var rs := R.Records(R.WriteAll(RequestRecords(id, reuse, ps, stdin)));
            && 2 <= |rs| && rs[1].kind == FCGI_PARAMS
            && rs[1].content == NV.Params(ps)[..|NV.Params(ps)| % 65536]
  {
    hide NV.Params, R.WriteAll, R.Write, RequestRecords, RecordHeader, R.Records, RoundToPad;
    var w := R.WriteAll(RequestRecords(id, reuse, ps, stdin));
    var n := |NV.Params(ps)|;
    ParamsStart(id, reuse, ps, stdin);
    SecondRecord(id, reuse, n, w);
    assert w[16..][8..8 + n % 65536] == w[PARAMS_AT..PARAMS_AT + n][..n % 65536];
  }

  /** Behind the record that begins a request, the next one is read from its header. */
  lemma SecondRecord(id: nat, reuse: bool, n: nat, w: seq<byte>)
    requires id < 65536 && PARAMS_AT + RoundToPad(n) <= |w|
    requires w[..16] == R.Write(R.Rec(FCGI_BEGIN_REQUEST, id, BeginBody(reuse)))
    requires n <= RoundToPad(n) < n + 8 && w[16..PARAMS_AT] == RecordHeader(FCGI_PARAMS, id, n, RoundToPad(n) - n)
    ensures var rs := R.Records(w);
            && 2 <= |rs| && rs[1].kind == FCGI_PARAMS && rs[1].content == w[16..][8..8 + n % 65536]
  {
    hide RecordHeader, RoundToPad, R.Records;
    var begin := R.Rec(FCGI_BEGIN_REQUEST, id, BeginBody(reuse));
    var s := w[16..];
    assert w == R.Write(begin) + s && s[..8] == w[16..PARAMS_AT];
    hide R.Write;
    R.WriteReadsBack(begin, s);
    PeelOne(w);
    ParamsRead(s, id, n, RoundToPad(n) - n);
  }

  lemma PeelOne(w: seq<byte>)
    requires R.HasRecord(w)
    ensures R.Records(w) == [R.First(w)] + R.Records(w[R.Total(w)..])
  {
  }

  /** Parameters that long exist: seventeen values of 4096 bytes, the longest that are handed on. */
  lemma ParamsCanBeLong(ps: seq<NV.Pair>)
    requires |ps| == 17 && forall i :: 0 <= i < |ps| ==> |ps[i].name| < NV.LONG && |ps[i].value| == MAX_LINE
    ensures 65536 <= |NV.Params(ps)|
  {
    ParamsAddUp(ps);
  }

  lemma {:induction false} ParamsAddUp(ps: seq<NV.Pair>)
    requires forall i :: 0 <= i < |ps| ==> |ps[i].name| < NV.LONG && |ps[i].value| == MAX_LINE
    ensures |ps| * (MAX_LINE + 5) <= |NV.Params(ps)|
  {
    if ps != [] {
      ParamsAddUp(ps[..|ps| - 1]);
    }
  }
}
