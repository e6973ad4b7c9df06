/** The chained hash table of external/basic/basic_hashtable.c refines a map from pairs of keys. */
module HashTable {
  datatype Key = Key(key1: nat, key2: nat)
  datatype Value = Value(value1: nat, value2: nat)

  // ---- masking

  function Pow2(n: nat): nat { if n == 0 then 1 else 2 * Pow2(n - 1) }

  /** The bitwise `&` of two numbers */
  function And(a: nat, b: nat): nat
  {
    if a == 0 || b == 0 then 0 else 2 * And(a / 2, b / 2) + (a % 2) * (b % 2)
  }

  /** Masking with one less than a power of two is a remainder. */
  lemma {:induction false} MaskIsRemainder(a: nat, n: nat)
    ensures Pow2(n) >= 1 && And(a, Pow2(n) - 1) == a % Pow2(n)
    decreases n
  {
    if n != 0 {
      var p := Pow2(n - 1);
      MaskIsRemainder(a / 2, n - 1);
      HalfRemainder(a, p);
      assert (2 * p - 1) / 2 == p - 1 && (2 * p - 1) % 2 == 1;
    }
  }

  lemma HalfRemainder(a: nat, p: nat)
    requires p >= 1
    ensures a % (2 * p) == 2 * ((a / 2) % p) + a % 2
  {
    var h, b := a / 2, a % 2;
    var q, r := h / p, h % p;
    assert h == p * q + r;
    assert a == 2 * (p * q) + (2 * r + b);
    assert 2 * (p * q) == (2 * p) * q;
    SameRemainder(a, 2 * p, q, 2 * r + b);
  }

  lemma SameRemainder(a: nat, m: nat, q: nat, r: nat)
    requires r < m && a == m * q + r
    ensures a % m == r
  {
    var q2, r2 := a / m, a % m;
    assert a == m * q2 + r2;
    if q > q2 {
      AtLeastOnce(m, q, q2);
    } else if q < q2 {
      AtLeastOnce(m, q2, q);
    }
  }

  lemma {:induction false} AtLeastOnce(m: nat, x: nat, y: nat)
    requires x > y
    ensures m * x >= m * y + m
    decreases x
  {
    assert m * x == m * (x - 1) + m;
    if x > y + 1 {
      AtLeastOnce(m, x - 1, y);
    }
  }

  // ---- the table

  class Pair {
    const key: Key
    var value: Value
    var next: Pair?

    constructor (key: Key, value: Value)
      ensures this.key == key && this.value == value && next == null
    {
      this.key, this.value, next := key, value, null;
    }
  }

  type Contents = map<Key, Value>

  /** The pairs of a chain but for their links */
  ghost predicate Stored(s: seq<Pair>, bin: nat, mask: nat, m: Contents)
    reads s
  {
    && (forall j :: 0 <= j < |s| ==> And(s[j].key.key1, mask) == bin && s[j].key in m && m[s[j].key] == s[j].value)
    && NoTwice(s)
  }

  /** The chain of bin `bin` starts at `head`: it is linked, holds no key twice and only keys of this
      bin, and has the values of `m`. */
  ghost predicate ChainOk(s: seq<Pair>, head: Pair?, bin: nat, mask: nat, m: Contents)
    reads s
  {
    && head == (if s == [] then null else s[0])
    && (forall j {:trigger s[j].next} :: 0 <= j < |s| ==> s[j].next == if j + 1 < |s| then s[j + 1] else null)
    && Stored(s, bin, mask, m)
  }

  predicate NoTwice(s: seq<Pair>) { forall j, k :: 0 <= j < k < |s| ==> s[j].key != s[k].key }

  predicate NotIn(s: seq<Pair>, key: Key) { forall i :: 0 <= i < |s| ==> s[i].key != key }

  predicate HasKey(s: seq<Pair>, key: Key) { exists j :: 0 <= j < |s| && s[j].key == key }

  /** The chains are made of these pairs. */
  ghost predicate Held(chains: seq<seq<Pair>>, pairs: set<Pair>)
  {
    forall i, j :: 0 <= i < |chains| && 0 <= j < |chains[i]| ==> chains[i][j] in pairs
  }

  /** Every key of the map is in its chain. */
  ghost predicate Covered(m: Contents, chains: seq<seq<Pair>>, mask: nat)
  {
    forall k :: k in m ==> And(k.key1, mask) < |chains| && HasKey(chains[And(k.key1, mask)], k)
  }

  /** All pairs, bin by bin */
  function Flat(chains: seq<seq<Pair>>): seq<Pair>
  {
    if chains == [] then [] else Flat(chains[..|chains| - 1]) + chains[|chains| - 1]
  }

  lemma {:induction false} FlatAt(chains: seq<seq<Pair>>, c: nat, j: nat)
    requires c < |chains| && j < |chains[c]|
    ensures |Flat(chains[..c])| + j < |Flat(chains)| && Flat(chains)[|Flat(chains[..c])| + j] == chains[c][j]
    decreases |chains|
  {
    var n := |chains| - 1;
    if c < n {
      assert chains[..n][..c] == chains[..c];
      FlatAt(chains[..n], c, j);
    }
  }

  lemma FlatNext(chains: seq<seq<Pair>>, c: nat)
    requires c < |chains|
    ensures |Flat(chains[..c + 1])| == |Flat(chains[..c])| + |chains[c]|
  {
    assert chains[..c + 1][..c] == chains[..c];
  }

  /** Where the pair number `n` of all is */
  lemma {:induction false} FlatFrom(chains: seq<seq<Pair>>, n: nat) returns (c: nat, j: nat)
    requires n < |Flat(chains)|
    ensures c < |chains| && j < |chains[c]| && n == |Flat(chains[..c])| + j && Flat(chains)[n] == chains[c][j]
    decreases |chains|
  {
    var k := |chains| - 1;
    if n < |Flat(chains[..k])| {
      c, j := FlatFrom(chains[..k], n);
      assert chains[..k][..c] == chains[..c];
    } else {
      c, j := k, n - |Flat(chains[..k])|;
    }
  }

  /** basic_ht_iterator_t; `j` is the place of the pair in its chain. */
  class Iterator {
    var bin: nat
    var pair: Pair?
    ghost var j: nat

    /** All zero */
    constructor ()
      ensures bin == 0 && pair == null
    {
      bin, pair, j := 0, null, 0;
    }
  }

  /** Setting a value in a chain is an update of the map the chain belongs to. */
  method SetIn(ghost s: seq<Pair>, p: Pair, ghost j: nat, ghost head: Pair?, ghost b: nat, ghost mask: nat,
               ghost m: Contents, value: Value)
    requires j < |s| && s[j] == p && ChainOk(s, head, b, mask, m)
    modifies p
    ensures b == And(p.key.key1, mask) && p.key in m
    ensures ChainOk(s, head, b, mask, m[p.key := value])
  {
    p.value := value;
  }

  class Table {
    const size: nat
    const mask: nat
    const bins: array<Pair?>
    ghost var chains: seq<seq<Pair>>
    ghost var contents: Contents
    ghost var pairs: set<Pair>

    ghost predicate Valid()
      reads this, bins, pairs
    {
      && 0 < size == bins.Length == |chains|
      && Held(chains, pairs)
      && (forall k: nat :: And(k, mask) < size)
      && (forall i :: 0 <= i < size ==> ChainOk(chains[i], bins[i], i, mask, contents))
      && Covered(contents, chains, mask)
    }

    /** basic_ht_init, for a size that is a power of two */
    constructor (log: nat)
      ensures Valid() && contents == map[] && size == Pow2(log) && mask == Pow2(log) - 1
      ensures fresh(bins)
    {
      MaskIsRemainder(0, log);
      size := Pow2(log);
      mask := Pow2(log) - 1;
      bins := new Pair?[Pow2(log)](i => null);
      chains := seq(Pow2(log), i => []);
      contents, pairs := map[], {};
      new;
      forall k: nat ensures And(k, mask) < size { MaskIsRemainder(k, log); }
    }

    /** A pair is in the bin its first key names, modulo the number of bins. */
    lemma InItsBin(log: nat, b: nat, j: nat)
      requires Valid() && size == Pow2(log) && mask == Pow2(log) - 1 && b < size && j < |chains[b]|
      ensures b == chains[b][j].key.key1 % size
    {
      assert ChainOk(chains[b], bins[b], b, mask, contents);
      MaskIsRemainder(chains[b][j].key.key1, log);
    }

    /** basic_ht_get_pair */
    method Get(key: Key) returns (r: Pair?)
      requires Valid()
      ensures r == null <==> key !in contents
      ensures r != null ==> r.key == key && r.value == contents[key] && r in chains[And(key.key1, mask)]
    {
      ghost var b := And(key.key1, mask);
      ghost var s := chains[b];
      r := bins[And(key.key1, mask)];
      ghost var j := 0;
      assert ChainOk(s, bins[b], b, mask, contents);
      while r != null
        invariant 0 <= j <= |s| && r == (if j < |s| then s[j] else null)
        invariant forall i :: 0 <= i < j ==> s[i].key != key
        decreases |s| - j
      {
        if r.key == key {
          return;
        }
        r := r.next;
        j := j + 1;
      }
    }

    /** basic_ht_set_pair: the pair with this key gets the value, or a new one goes to the end of
        its chain. */
    method Set(key: Key, value: Value)
      requires Valid()
      modifies this, bins, pairs
      ensures Valid() && contents == old(contents)[key := value] && fresh(pairs - old(pairs))
    {
      var b := And(key.key1, mask);
      ghost var s := chains[b];
      assert ChainOk(s, bins[b], b, mask, contents);
      var next: Pair?, last: Pair? := bins[b], null;
      ghost var j := 0;
      while next != null
        invariant 0 <= j <= |s| && next == (if j < |s| then s[j] else null)
        invariant last == (if j == 0 then null else s[j - 1])
        invariant forall i :: 0 <= i < j ==> s[i].key != key
        decreases |s| - j
      {
        if next.key == key {
          Replace(next, b, j, value);
          return;
        }
        last := next;
        next := next.next;
        j := j + 1;
      }
      AddPair(last, b, key, value);
    }

    /** basic_ht_delete_pair */
    method Delete(key: Key) returns (r: int)
      requires Valid()
      modifies this, bins, pairs
      ensures Valid() && contents == old(contents) - {key} && pairs == old(pairs)
      ensures r == if key in old(contents) then 1 else 0
    {
      var b := And(key.key1, mask);
      ghost var s := chains[b];
      assert ChainOk(s, bins[b], b, mask, contents);
      var next: Pair?, last: Pair? := bins[b], null;
      ghost var j := 0;
      while next != null
        invariant 0 <= j <= |s| && next == (if j < |s| then s[j] else null)
        invariant last == (if j == 0 then null else s[j - 1])
        invariant forall i :: 0 <= i < j ==> s[i].key != key
        decreases |s| - j
      {
        if next.key == key {
          Drop(next, last, b, j);
          return 1;
        }
        last := next;
        next := next.next;
        j := j + 1;
      }
      assert key !in contents by { assert NotIn(s, key); }
      assert contents - {key} == contents;
      return 0;
    }

    /** The pair found is taken out of its chain. */
    method Drop(p: Pair, last: Pair?, b: nat, ghost j: nat)
      requires Valid() && b < size && j < |chains[b]| && chains[b][j] == p
      requires last == (if j == 0 then null else chains[b][j - 1])
      modifies this, bins, last
      ensures Valid() && contents == old(contents) - {p.key} && pairs == old(pairs)
    {
      hide ChainOk, Held, Covered, NoTwice;
      Detach(p, last, b, j);
      Dropped(chains, pairs, contents, mask, b, j);
      forall i | 0 <= i < size && i != b ensures ChainOk(chains[i], bins[i], i, mask, contents - {p.key}) {
        OtherBin(chains[i], bins[i], i, mask, contents, p.key, Value(0, 0));
      }
      chains := chains[b := chains[b][..j] + chains[b][j + 1..]];
      contents := contents - {p.key};
    }

    method Detach(p: Pair, last: Pair?, b: nat, ghost j: nat)
      requires Valid() && b < size && j < |chains[b]| && chains[b][j] == p
      requires last == (if j == 0 then null else chains[b][j - 1])
      modifies bins, last
      ensures b == And(p.key.key1, mask) && NoTwice(chains[b])
      ensures forall i :: 0 <= i < size && i != b ==> ChainOk(chains[i], bins[i], i, mask, contents)
      ensures ChainOk(chains[b][..j] + chains[b][j + 1..], bins[b], b, mask, contents - {p.key})
    {
      ghost var s := chains[b];
      assert ChainOk(s, bins[b], b, mask, contents);
      hide Held, Covered, HasKey;
      Relink(last, b, p.next);
      assert forall k :: 0 <= k < |s| ==> s[k].value == old(s[k].value);
      assert Stored(s, b, mask, contents);
      hide Stored;
      assert forall k {:trigger s[k].next} :: 0 <= k < |s| && k + 1 != j ==> s[k].next == old(s[k].next);
      Spliced(s, j, bins[b], b, mask, contents);
    }

    /** The pair found gets the value. */
    method Replace(p: Pair, ghost b: nat, ghost j: nat, value: Value)
      requires Valid() && b < size && j < |chains[b]| && chains[b][j] == p
      modifies this, p
      ensures Valid() && contents == old(contents)[p.key := value] && pairs == old(pairs)
    {
      hide ChainOk, Held, Covered;
      SetValue(p, b, j, value);
      CoveredStill(contents, chains, mask, p.key, value);
      forall i | 0 <= i < size && i != b ensures ChainOk(chains[i], bins[i], i, mask, contents[p.key := value]) {
        OtherBin(chains[i], bins[i], i, mask, contents, p.key, value);
      }
      contents := contents[p.key := value];
    }

    method SetValue(p: Pair, ghost b: nat, ghost j: nat, value: Value)
      requires Valid() && b < size && j < |chains[b]| && chains[b][j] == p
      modifies p
      ensures b == And(p.key.key1, mask) && p.key in contents
      ensures forall i :: 0 <= i < size && i != b ==> ChainOk(chains[i], bins[i], i, mask, contents)
      ensures ChainOk(chains[b], bins[b], b, mask, contents[p.key := value])
    {
      NotElsewhere(b, p);
      hide Held, Covered, HasKey;
      SetIn(chains[b], p, j, bins[b], b, mask, contents, value);
      forall i | 0 <= i < size && i != b ensures ChainOk(chains[i], bins[i], i, mask, contents) {
        hide ChainOk;
        assert old(ChainOk(chains[i], bins[i], i, mask, contents));
      }
    }

    /** A new pair behind `last`, the end of its chain */
    method AddPair(last: Pair?, b: nat, key: Key, value: Value)
      requires Valid() && b == And(key.key1, mask)
      requires last == (if chains[b] == [] then null else chains[b][|chains[b]| - 1])
      requires NotIn(chains[b], key)
      modifies this, bins, last
      ensures Valid() && contents == old(contents)[key := value] && fresh(pairs - old(pairs))
    {
      var p := new Pair(key, value);
      hide ChainOk, Held, Covered;
      assert p !in pairs;
      Attach(last, p, b);
      Appended(chains, pairs, contents, mask, p, b, value);
      forall i | 0 <= i < size && i != b ensures ChainOk(chains[i], bins[i], i, mask, contents[key := value]) {
        OtherBin(chains[i], bins[i], i, mask, contents, key, value);
      }
      chains := chains[b := chains[b] + [p]];
      pairs := pairs + {p};
      contents := contents[key := value];
    }

    /** The link behind `last`, or the head of bin `b` if there is none, is set; the other chains are as
        they were. */
    method Relink(last: Pair?, b: nat, to: Pair?)
      requires Valid() && b < size && (last != null ==> last in chains[b])
      modifies bins, last
      ensures last != null ==> last.next == to && last.value == old(last.value) && bins[b] == old(bins[b])
      ensures last == null ==> bins[b] == to
      ensures forall i :: 0 <= i < size && i != b ==> ChainOk(chains[i], bins[i], i, mask, contents)
    {
      if last != null { NotElsewhere(b, last); }
      hide Held, Covered, HasKey;
      if last != null {
        last.next := to;
      } else {
        bins[b] := to;
      }
      forall i | 0 <= i < size && i != b ensures ChainOk(chains[i], bins[i], i, mask, contents) {
        hide ChainOk;
        assert old(ChainOk(chains[i], bins[i], i, mask, contents));
      }
    }

    /** The other chains share no pair with chain `b`. */
    lemma NotElsewhere(b: nat, p: Pair)
      requires Valid() && b < size && p in chains[b]
      ensures forall i :: 0 <= i < size && i != b ==> p !in chains[i]
    {
      hide Held, Covered;
      OtherBins(b);
    }

    lemma OtherBins(b: nat)
      requires Valid() && b < size
      ensures forall i, j, l :: 0 <= i < size && i != b && 0 <= j < |chains[i]| && 0 <= l < |chains[b]| ==>
                chains[i][j] != chains[b][l]
    {
      hide Held, Covered;
      forall i, j, l | 0 <= i < size && i != b && 0 <= j < |chains[i]| && 0 <= l < |chains[b]|
        ensures chains[i][j] != chains[b][l]
      {
        assert ChainOk(chains[i], bins[i], i, mask, contents) && ChainOk(chains[b], bins[b], b, mask, contents);
      }
    }

    method Attach(last: Pair?, p: Pair, b: nat)
      requires Valid() && b == And(p.key.key1, mask) && p.next == null
      requires last == (if chains[b] == [] then null else chains[b][|chains[b]| - 1])
      requires NotIn(chains[b], p.key)
      modifies bins, last
      ensures forall i :: 0 <= i < size && i != b ==> ChainOk(chains[i], bins[i], i, mask, contents)
      ensures ChainOk(chains[b] + [p], bins[b], b, mask, contents[p.key := p.value])
    {
      assert ChainOk(chains[b], bins[b], b, mask, contents);
      hide Held, Covered, HasKey, Stored;
      ghost var s := chains[b];
      Relink(last, b, p);
      Extended(s, p, bins[b], b, mask, contents);
    }

    /** `n` pairs have been returned. */
    ghost predicate Returned(iter: Iterator, n: nat)
      requires Valid()
      reads this, bins, pairs, iter
    {
      if iter.pair == null then iter.bin <= size && n == |Flat(chains[..iter.bin])|
      else 0 < iter.bin <= size && iter.j < |chains[iter.bin - 1]| && iter.pair == chains[iter.bin - 1][iter.j]
           && n == |Flat(chains[..iter.bin - 1])| + iter.j + 1
    }

    lemma ChainLinks(c: nat, j: nat)
      requires Valid() && c < size
      ensures bins[c] == if chains[c] == [] then null else chains[c][0]
      ensures j < |chains[c]| ==> chains[c][j].next == if j + 1 < |chains[c]| then chains[c][j + 1] else null
    {
      assert ChainOk(chains[c], bins[c], c, mask, contents);
    }

    /** basic_ht_iterate_pair, on a table that has not been changed since the first call */
    method Iterate(iter: Iterator, ghost n: nat) returns (r: Pair?)
      requires Valid() && Returned(iter, n)
      modifies iter
      ensures if n < |Flat(chains)| then r == Flat(chains)[n] && Returned(iter, n + 1)
              else r == null && Returned(iter, n)
    {
      hide Held, Covered, ChainOk;
      if iter.pair != null {
        ChainLinks(iter.bin - 1, iter.j);
        if iter.pair.next != null {
          FlatAt(chains, iter.bin - 1, iter.j + 1);
          iter.pair := iter.pair.next;
          iter.j := iter.j + 1;
          return iter.pair;
        }
        FlatNext(chains, iter.bin - 1);
      }
      r := NextBin(iter, n);
    }

    /** The search for the next bin with a pair */
    method NextBin(iter: Iterator, ghost n: nat) returns (r: Pair?)
      requires Valid() && Returned(iter, n) && iter.bin <= size && n == |Flat(chains[..iter.bin])|
      modifies iter
      ensures if n < |Flat(chains)| then r == Flat(chains)[n] && Returned(iter, n + 1)
              else r == null && Returned(iter, n)
    {
      hide Held, Covered, ChainOk, Flat;
      ghost var first := iter.bin;
      for i := iter.bin to size
        invariant iter.bin == first && iter.j == old(iter.j) && n == |Flat(chains[..i])|
        invariant iter.pair == if i == first then old(iter.pair) else null
      {
        ChainLinks(i, 0);
        FlatNext(chains, i);
        iter.pair := bins[i];
        if iter.pair != null {
          FlatAt(chains, i, 0);
          iter.bin := i + 1;
          iter.j := 0;
          return iter.pair;
        }
      }
      assert chains[..size] == chains;
      return null;
    }

    /** All pairs, bin by bin, are those of the map, each once. */
    lemma EachOnce()
      requires Valid()
      ensures var all := Flat(chains);
              && NoTwice(all)
              && (forall n :: 0 <= n < |all| ==> all[n].key in contents && all[n].value == contents[all[n].key])
              && (forall k :: k in contents ==> HasKey(all, k))
    {
      var all := Flat(chains);
      hide Flat, Held;
      forall n, m | 0 <= n < m < |all| ensures all[n].key != all[m].key {
        var c, i := FlatFrom(chains, n);
        var d, j := FlatFrom(chains, m);
        assert ChainOk(chains[c], bins[c], c, mask, contents) && ChainOk(chains[d], bins[d], d, mask, contents);
      }
      forall n | 0 <= n < |all| ensures all[n].key in contents && all[n].value == contents[all[n].key] {
        var c, i := FlatFrom(chains, n);
        assert ChainOk(chains[c], bins[c], c, mask, contents);
      }
      forall k | k in contents ensures HasKey(all, k) {
        var c := And(k.key1, mask);
        var j :| 0 <= j < |chains[c]| && chains[c][j].key == k;
        FlatAt(chains, c, j);
      }
    }

    /** The loop of hin_cache_store_clean: a full iteration meets every pair of the map once. */
    method All() returns (seen: seq<Pair>)
      requires Valid()
      ensures NoTwice(seen) && (forall k :: k in contents <==> HasKey(seen, k))
      ensures forall n :: 0 <= n < |seen| ==> seen[n].key in contents && seen[n].value == contents[seen[n].key]
    {
      hide Held, Covered, ChainOk, Flat;
      var iter := new Iterator();
      seen := [];
      assert Flat(chains[..0]) == [] by { FlatNothing(chains); }
      var pair := Iterate(iter, 0);
      while pair != null
        invariant |seen| <= |Flat(chains)| && seen == Flat(chains)[..|seen|]
        invariant if |seen| < |Flat(chains)| then pair == Flat(chains)[|seen|] && Returned(iter, |seen| + 1)
                  else pair == null
        decreases |Flat(chains)| - |seen|
      {
        seen := seen + [pair];
        pair := Iterate(iter, |seen|);
      }
      EachOnce();
    }
  }

  lemma FlatNothing(chains: seq<seq<Pair>>)
    ensures Flat(chains[..0]) == []
  {
  }

  /** A change of one key does not concern the other bins. */
  lemma OtherBin(s: seq<Pair>, head: Pair?, bin: nat, mask: nat, m: Contents, key: Key, value: Value)
    requires ChainOk(s, head, bin, mask, m) && And(key.key1, mask) != bin
    ensures ChainOk(s, head, bin, mask, m[key := value]) && ChainOk(s, head, bin, mask, m - {key})
  {
  }

  lemma Appended(chains: seq<seq<Pair>>, pairs: set<Pair>, m: Contents, mask: nat, p: Pair, b: nat, value: Value)
    requires Held(chains, pairs) && Covered(m, chains, mask) && b < |chains| && b == And(p.key.key1, mask)
    ensures var after := chains[b := chains[b] + [p]];
            Held(after, pairs + {p}) && Covered(m[p.key := value], after, mask)
  {
    var after := chains[b := chains[b] + [p]];
    forall k | k in m[p.key := value] ensures And(k.key1, mask) < |after| && HasKey(after[And(k.key1, mask)], k) {
      if k == p.key {
        assert after[b][|chains[b]|].key == k;
      } else {
        HasMore(chains[b], p, k);
      }
    }
  }

  lemma StoredWithout(s: seq<Pair>, j: nat, bin: nat, mask: nat, m: Contents)
    requires j < |s| && Stored(s, bin, mask, m)
    ensures Stored(s[..j] + s[j + 1..], bin, mask, m - {s[j].key})
  {
    var r := s[..j] + s[j + 1..];
    assert forall i :: 0 <= i < |r| ==> r[i] == s[if i < j then i else i + 1];
  }

  lemma Spliced(s: seq<Pair>, j: nat, head: Pair?, bin: nat, mask: nat, m: Contents)
    requires j < |s| && Stored(s, bin, mask, m)
    requires forall i {:trigger s[i].next} :: 0 <= i < |s| && i + 1 != j ==>
               s[i].next == if i + 1 < |s| then s[i + 1] else null
    requires if j == 0 then head == s[0].next else head == s[0] && s[j - 1].next == s[j].next
    ensures ChainOk(s[..j] + s[j + 1..], head, bin, mask, m - {s[j].key})
  {
    StoredWithout(s, j, bin, mask, m);
    hide Stored;
    var r := s[..j] + s[j + 1..];
    assert s[j].next == if j + 1 < |s| then s[j + 1] else null;
    forall i | 0 <= i < |r| ensures r[i].next == (if i + 1 < |r| then r[i + 1] else null) {
      var k := if i < j then i else i + 1;
      assert r[i] == s[k];
      assert i + 1 != j ==> s[k].next == if k + 1 < |s| then s[k + 1] else null;
    }
  }

  lemma Extended(s: seq<Pair>, p: Pair, head: Pair?, bin: nat, mask: nat, m: Contents)
    requires Stored(s, bin, mask, m) && NotIn(s, p.key) && bin == And(p.key.key1, mask) && p.next == null
    requires head == if s == [] then p else s[0]
    requires forall i {:trigger s[i].next} :: 0 <= i < |s| ==> s[i].next == if i + 1 < |s| then s[i + 1] else p
    ensures ChainOk(s + [p], head, bin, mask, m[p.key := p.value])
  {
  }

  lemma CoveredStill(m: Contents, chains: seq<seq<Pair>>, mask: nat, key: Key, value: Value)
    requires Covered(m, chains, mask) && key in m
    ensures Covered(m[key := value], chains, mask)
  {
  }

  lemma Dropped(chains: seq<seq<Pair>>, pairs: set<Pair>, m: Contents, mask: nat, b: nat, j: nat)
    requires Held(chains, pairs) && Covered(m, chains, mask) && b < |chains| && j < |chains[b]|
    requires b == And(chains[b][j].key.key1, mask) && NoTwice(chains[b])
    ensures var after := chains[b := chains[b][..j] + chains[b][j + 1..]];
            Held(after, pairs) && Covered(m - {chains[b][j].key}, after, mask)
  {
    var s := chains[b];
    var r := s[..j] + s[j + 1..];
    var after := chains[b := r];
    forall k | k in m - {s[j].key} ensures And(k.key1, mask) < |after| && HasKey(after[And(k.key1, mask)], k) {
      if And(k.key1, mask) == b {
        var i :| 0 <= i < |s| && s[i].key == k;
        assert r[if i < j then i else i - 1].key == k;
      }
    }
  }

  lemma HasMore(s: seq<Pair>, p: Pair, k: Key)
    ensures HasKey(s, k) ==> HasKey(s + [p], k)
  {
    if HasKey(s, k) {
      var j :| 0 <= j < |s| && s[j].key == k;
      assert (s + [p])[j].key == k;
    }
  }
}
