/** Bytes, and the few facts about sequences of them that every component needs. */
module Bytes {
  type byte = b: int | 0 <= b < 256

  const CR: byte := 13
  const LF: byte := 10
  const CRLF: seq<byte> := [CR, LF]

  /** The size of one read */
  const READ_SZ: nat := 4096

  /** The pieces of a stream, joined in order. */
  function Join(pieces: seq<seq<byte>>): seq<byte>
  {
    if pieces == [] then [] else Join(pieces[..|pieces| - 1]) + pieces[|pieces| - 1]
  }

  lemma {:induction false} JoinSplit(a: seq<seq<byte>>, b: seq<seq<byte>>)
    ensures Join(a + b) == Join(a) + Join(b)
  {
    if b == [] {
      assert a + b == a;
    } else {
      var n := |b| - 1;
      assert (a + b)[..|a + b| - 1] == a + b[..n];
      JoinSplit(a, b[..n]);
    }
  }

  lemma JoinCons(a: seq<byte>, rest: seq<seq<byte>>)
    ensures Join([a] + rest) == a + Join(rest)
  {
    JoinSplit([a], rest);
    assert Join([a]) == a by { assert [a][..0] == []; }
  }

  function Min(a: int, b: int): int { if a < b then a else b }
}
