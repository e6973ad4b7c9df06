/** Name-value pairs of a FastCGI request: the encoder of src/http/cgi/fcgi_write.c, and the decoder
    that section 3.4 of the FastCGI Specification 1.0 describes. */
module NameValue {
  import opened Bytes

  datatype Pair = Pair(name: seq<byte>, value: seq<byte>)

  /** From this length on a name is refused, and the length of a value takes four bytes. */
  const LONG: nat := 127

  function ValueLength(n: nat): seq<byte>
  {
    if n >= LONG then [n / 0x1000000 % 128 + 128, n / 0x10000 % 256, n / 0x100 % 256, n % 256] else [n]
  }

  /** What `param` appends for a pair: nothing if the name is too long. */
  function Param(p: Pair): seq<byte>
  {
    if |p.name| >= LONG then [] else [|p.name|] + ValueLength(|p.value|) + p.name + p.value
  }

  function Params(ps: seq<Pair>): seq<byte>
  {
    if ps == [] then [] else Params(ps[..|ps| - 1]) + Param(ps[|ps| - 1])
  }

  function Kept(ps: seq<Pair>): seq<Pair>
  {
    if ps == [] then []
    else (if |ps[0].name| >= LONG then [] else [ps[0]]) + Kept(ps[1..])
  }

  /** A pair as it is written: lengths below 127 in one byte, that of a longer value in four with the
      high bit set, the most significant first; and nothing if the name is too long. */
  lemma PairInPlace(p: Pair)
    requires |p.value| < 0x80000000
    ensures var s, n := Param(p), |p.value|;
            && (|s| == 0 <==> 127 <= |p.name|)
            && (|p.name| < 127 && n < 127 ==>
                  |s| == 2 + |p.name| + n && s[0] == |p.name| && s[1] == n && s[2..] == p.name + p.value)
            && (|p.name| < 127 && 127 <= n ==>
                  && |s| == 5 + |p.name| + n && s[0] == |p.name| && 128 <= s[1]
                  && Be32(s[1] - 128, s[2], s[3], s[4]) == n
                  && s[5..] == p.name + p.value)
  {
    var z, c, b, a := Digits(|p.value|);
    DigitsAreBytes(z, c, b, a);
    hide ValueLength, Be32;
    assert Be32(z, c, b, a) == |p.value| by { InFour(z, c, b, a); }
    if |p.name| < 127 {
      var v := ValueLength(|p.value|);
      var s := Param(p);
      assert s == [|p.name|] + v + (p.name + p.value);
      if 127 <= |p.value| {
        assert v == [z + 128, c, b, a];
      } else {
        assert v == [|p.value|];
      }
    }
  }

  /** Four digits to the base 256, the most significant first */
  lemma InFour(a: nat, b: nat, c: nat, d: nat)
    ensures Be32(a, b, c, d) == a * 16777216 + b * 65536 + c * 256 + d
  {
  }

  // ---- the application's side

  function Be32(a: nat, b: nat, c: nat, d: nat): nat { a * 0x1000000 + b * 0x10000 + c * 0x100 + d }

  datatype Length = NoLength | Length(value: nat, rest: seq<byte>)

  /** One byte if its high bit is clear, otherwise four without that bit. */
  function TakeLength(s: seq<byte>): (l: Length)
    ensures l.Length? ==> |l.rest| < |s|
  {
    if s == [] then NoLength
    else if s[0] < 128 then Length(s[0], s[1..])
    else if |s| < 4 then NoLength
    else Length(Be32(s[0] - 128, s[1], s[2], s[3]), s[4..])
  }

  datatype Decoded = Malformed | Decoded(pairs: seq<Pair>)

  function Decode(s: seq<byte>): Decoded
    decreases |s|
  {
    if s == [] then Decoded([])
    else
      var n := TakeLength(s);
      if n.NoLength? then Malformed
      else
        var v := TakeLength(n.rest);
        if v.NoLength? || n.value + v.value > |v.rest| then Malformed
        else
          var rest := Decode(v.rest[n.value + v.value..]);
          if rest.Malformed? then Malformed
          else Decoded([Pair(v.rest[..n.value], v.rest[n.value..n.value + v.value])] + rest.pairs)
  }

  /** The four digits of a number to the base 256 */
  lemma Digits(n: nat) returns (z: nat, c: nat, b: nat, a: nat)
    requires n < 0x80000000
    ensures z < 0x80 && c < 0x100 && b < 0x100 && a < 0x100
    ensures n == z * 0x1000000 + c * 0x10000 + b * 0x100 + a
  {
    var x := n / 0x100;
    a := n % 0x100;
    var y := x / 0x100;
    b := x % 0x100;
    z := y / 0x100;
    c := y % 0x100;
  }

  lemma DigitsAreBytes(z: nat, c: nat, b: nat, a: nat)
    requires z < 0x80 && c < 0x100 && b < 0x100 && a < 0x100
    ensures ValueLength(z * 0x1000000 + c * 0x10000 + b * 0x100 + a)
         == if z * 0x1000000 + c * 0x10000 + b * 0x100 + a >= LONG then [z + 128, c, b, a] else [a]
  {
    var n := z * 0x1000000 + c * 0x10000 + b * 0x100 + a;
    assert n / 0x1000000 == z;
    assert n / 0x10000 == z * 0x100 + c;
    assert n / 0x100 == z * 0x10000 + c * 0x100 + b;
    assert n / 0x100 % 256 == b && n / 0x10000 % 256 == c && n % 256 == a && z % 128 == z;
  }

  lemma LengthReadsBack(n: nat, rest: seq<byte>)
    requires n < 0x80000000
    ensures TakeLength(ValueLength(n) + rest) == Length(n, rest)
  {
    var z, c, b, a := Digits(n);
    DigitsAreBytes(z, c, b, a);
    hide ValueLength;
    var s := ValueLength(n) + rest;
    if n >= LONG {
      assert s == [z + 128, c, b, a] + rest && s[4..] == rest;
    } else {
      assert s == [n] + rest && s[1..] == rest;
    }
  }

  lemma PairReadsBack(p: Pair, rest: seq<byte>)
    requires |p.name| < LONG && |p.value| < 0x80000000
    ensures Decode(Param(p) + rest) == (if Decode(rest).Malformed? then Malformed
                                        else Decoded([p] + Decode(rest).pairs))
  {
    hide ValueLength;
    var n, v := |p.name|, |p.value|;
    var body := p.name + p.value + rest;
    var s := Param(p) + rest;
    assert s == [n] + (ValueLength(v) + body);
    assert TakeLength(s) == Length(n, ValueLength(v) + body);
    LengthReadsBack(v, body);
    assert body[..n] == p.name && body[n..n + v] == p.value && body[n + v..] == rest;
  }

  lemma {:induction false} ParamsCons(ps: seq<Pair>)
    requires ps != []
    ensures Params(ps) == Param(ps[0]) + Params(ps[1..])
  {
    hide Param;
    var n := |ps| - 1;
    if n == 0 {
      assert ps[..0] == [] && ps[1..] == [];
    } else {
      ParamsCons(ps[..n]);
      assert ps[..n][1..] == ps[1..][..n - 1];
    }
  }

  /** The round trip: an application that decodes the content of the PARAMS records gets the pairs
      that were given, in order, without those whose name is too long. */
  lemma {:induction false} ParamsReadBack(ps: seq<Pair>)
    requires forall i :: 0 <= i < |ps| ==> |ps[i].value| < 0x80000000
    ensures Decode(Params(ps)) == Decoded(Kept(ps))
    decreases |ps|
  {
    hide Decode, Param;
    if ps == [] {
      assert Decode([]) == Decoded([]) by { DecodeNothing(); }
    } else {
      ParamsCons(ps);
      ParamsReadBack(ps[1..]);
      if |ps[0].name| < LONG {
        PairReadsBack(ps[0], Params(ps[1..]));
      } else {
        LongNameIsDropped(ps[0], Params(ps[1..]));
      }
    }
  }

  lemma DecodeNothing()
    ensures Decode([]) == Decoded([])
  {
  }

  lemma LongNameIsDropped(p: Pair, rest: seq<byte>)
    requires |p.name| >= LONG
    ensures Param(p) + rest == rest
  {
  }
}
