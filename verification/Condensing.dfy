/** One round of the condensing loop of hin_pipe_write_next, and how rounds make up
    PipeSpec.Condense. */
module Condensing {
  import opened Bytes
  import opened PipeSpec

  /** Condensing `v` with `freed0` freed before is condensing `w` with `freed` freed before. */
  ghost predicate SameResult(freed0: seq<nat>, v: seq<Buf>, freed: seq<nat>, w: seq<Buf>)
    requires v != [] && w != []
  {
    var (h, r, f) := Condense(v[0], v[1..]);
    var (h2, r2, f2) := Condense(w[0], w[1..]);
    h == h2 && r == r2 && freed0 + f == freed + f2
  }

  /** What one round of the condensing loop does to the queue, and what it frees. */
  ghost function Round(w: seq<Buf>): (seq<Buf>, seq<nat>)
    requires 2 <= |w| && |w[0].data| <= w[0].sz
  {
    var len := Min(w[0].sz - |w[0].data|, |w[1].data|);
    var full := w[0].(data := w[0].data + w[1].data[..len]);
    if len == |w[1].data| then ([full] + w[2..], [w[1].id])
    else ([full] + ([w[1].(data := w[1].data[len..])] + w[2..]), [])
  }

  lemma RoundCondenses(w: seq<Buf>, freed0: seq<nat>, v: seq<Buf>, freed: seq<nat>)
    requires v != [] && 2 <= |w| && |w[0].data| < w[0].sz && SameResult(freed0, v, freed, w)
    ensures SameResult(freed0, v, freed + Round(w).1, Round(w).0)
    ensures var len := Min(w[0].sz - |w[0].data|, |w[1].data|);
            len < |w[1].data| ==> |Round(w).0| == |w| && Round(w).0[0].sz == |Round(w).0[0].data|
  {
    var (w2, g) := Round(w);
    assert w[1..][1..] == w[2..];
    assert w2[1..] == if g == [] then [w[1].(data := w[1].data[w[0].sz - |w[0].data|..])] + w[1..][1..] else w[2..];
  }

  lemma CondenseDone(freed0: seq<nat>, v: seq<Buf>, freed: seq<nat>, w: seq<Buf>)
    requires v != [] && w != [] && SameResult(freed0, v, freed, w)
    requires |w| == 1 || w[0].sz <= |w[0].data|
    ensures var (h, r, f) := Condense(v[0], v[1..]); w == [h] + r && freed == freed0 + f
  {
    assert Condense(w[0], w[1..]) == (w[0], w[1..], []);
    assert w == [w[0]] + w[1..] && freed + [] == freed;
  }
}
