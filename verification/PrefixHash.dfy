// Naming a token prefix: the hash of its whole blocks, chained, and the hash of what is left over.
module PrefixHash {

  type Digest = seq<int>

  datatype Key = Key(chain: Digest, tail: Digest)

  const WIDEST := 0x1_0000_0000

  predicate AreTokens(tokens: seq<nat>) {
    forall i :: 0 <= i < |tokens| ==> tokens[i] < WIDEST
  }

  // Four little-endian bytes.
  function Bytes4(t: nat): (b: seq<int>)
    ensures |b| == 4
  {
    [t % 256, t / 256 % 256, t / 65536 % 256, t / 16777216 % 256]
  }

  function TokenBytes(tokens: seq<nat>): (b: seq<int>)
    ensures |b| == 4 * |tokens|
  {
    if tokens == [] then [] else Bytes4(tokens[0]) + TokenBytes(tokens[1..])
  }

  lemma Bytes4Injective(s: nat, t: nat)
    requires s < WIDEST && t < WIDEST && Bytes4(s) == Bytes4(t)
    ensures s == t
  {
    Bytes4Sum(s);
    Bytes4Sum(t);
    hide Bytes4;
  }

  lemma Bytes4Sum(s: nat)
    requires s < WIDEST
    ensures var b := Bytes4(s); |b| == 4 && s == b[0] + 256 * b[1] + 65536 * b[2] + 16777216 * b[3]
  {
    assert s / 65536 == s / 256 / 256 && s / 16777216 == s / 256 / 256 / 256;
  }

  // Fixed-width bytes cannot run together into another sequence's.
  lemma {:induction false} TokenBytesInjective(a: seq<nat>, b: seq<nat>)
    requires AreTokens(a) && AreTokens(b) && TokenBytes(a) == TokenBytes(b)
    ensures a == b
    decreases |a|
  {
    hide Bytes4;
    if a != [] {
      var x, y := TokenBytes(a), TokenBytes(b);
      assert Bytes4(a[0]) == x[..4] == y[..4] == Bytes4(b[0]);
      Bytes4Injective(a[0], b[0]);
      assert TokenBytes(a[1..]) == x[4..] == y[4..] == TokenBytes(b[1..]);
      TokenBytesInjective(a[1..], b[1..]);
      assert a == [a[0]] + a[1..] && b == [b[0]] + b[1..];
    }
  }

  /** The digest function, the model's seed and how many tokens make a block. */
  datatype Hashing = Hashing(digest: seq<int> -> Digest, seed: seq<int>, blockSize: nat) {
    // No two inputs share a digest; digests are sixteen bytes and the seed is no longer than one.
    ghost predicate Ideal() {
      && blockSize >= 1 && |seed| <= 16
      && (forall x :: |digest(x)| == 16)
      && forall x, y :: digest(x) == digest(y) ==> x == y
    }

    // Where the i-th block starts.
    function At(i: nat): nat {
      i * blockSize
    }

    // The i-th link covers blocks before it; these hashes are of the first `i` whole blocks.
    function Chain(tokens: seq<nat>, i: nat): Digest
      requires At(i) <= |tokens|
      decreases i
    {
      if i == 0 then digest(seed)
      else
        Steps(this, i);
        digest(Chain(tokens, i - 1) + TokenBytes(tokens[At(i - 1)..At(i)]))
    }

    function Depth(n: nat): (d: nat)
      requires blockSize >= 1
      ensures At(d) <= n < At(d) + blockSize
    {
      n / blockSize
    }

    function TailOf(tokens: seq<nat>, from: nat, to: nat): Digest
      requires from <= to <= |tokens|
    {
      digest(TokenBytes(tokens[from..to]))
    }

    // The name of the first `n` of `tokens`.
    function KeyFor(tokens: seq<nat>, n: nat): Key
      requires blockSize >= 1 && n <= |tokens|
    {
      Key(Chain(tokens, Depth(n)), TailOf(tokens, At(Depth(n)), n))
    }
  }

  lemma Steps(s: Hashing, i: nat)
    requires i >= 1
    ensures s.At(i) == s.At(i - 1) + s.blockSize
  {}

  lemma Grows(s: Hashing, i: nat, j: nat)
    requires i <= j
    ensures s.At(i) <= s.At(j)
  {}

  /** Equal links name equal prefixes, at equal depths. */
  lemma {:induction false} ChainInjective(s: Hashing, a: seq<nat>, i: nat, b: seq<nat>, j: nat)
    requires s.Ideal() && AreTokens(a) && AreTokens(b) && s.At(i) <= |a| && s.At(j) <= |b|
    requires s.Chain(a, i) == s.Chain(b, j)
    ensures i == j && a[..s.At(i)] == b[..s.At(j)]
    decreases i
  {
    hide Hashing.At, Hashing.Ideal;
    if i > 0 { Steps(s, i); }
    if j > 0 { Steps(s, j); }
    if i > 0 && j > 0 {
      var x, y := a[s.At(i - 1)..s.At(i)], b[s.At(j - 1)..s.At(j)];
      DigestsAre16(s);
      LinkInjective(s, s.Chain(a, i - 1), x, s.Chain(b, j - 1), y);
      ChainInjective(s, a, i - 1, b, j - 1);
      assert a[..s.At(i)] == a[..s.At(i - 1)] + x;
      assert b[..s.At(j)] == b[..s.At(j - 1)] + y;
    } else if i > 0 {
      DigestsAre16(s);
      LinkIsNotSeed(s, s.Chain(a, i - 1), a[s.At(i - 1)..s.At(i)]);
    } else if j > 0 {
      DigestsAre16(s);
      LinkIsNotSeed(s, s.Chain(b, j - 1), b[s.At(j - 1)..s.At(j)]);
    } else {
      NothingBefore(s);
    }
  }

  lemma NothingBefore(s: Hashing)
    ensures s.At(0) == 0
  {}

  lemma DigestsAre16(s: Hashing)
    requires s.Ideal()
    ensures s.blockSize >= 1 && forall x :: |s.digest(x)| == 16
  {}

  lemma LinkInjective(s: Hashing, p: Digest, x: seq<nat>, q: Digest, y: seq<nat>)
    requires s.Ideal() && |p| == |q| == 16 && AreTokens(x) && AreTokens(y)
    requires s.digest(p + TokenBytes(x)) == s.digest(q + TokenBytes(y))
    ensures p == q && x == y
  {
    var u, v := p + TokenBytes(x), q + TokenBytes(y);
    assert u == v;
    assert p == u[..16] == v[..16] == q;
    assert TokenBytes(x) == u[16..] == v[16..] == TokenBytes(y);
    TokenBytesInjective(x, y);
  }

  lemma LinkIsNotSeed(s: Hashing, p: Digest, x: seq<nat>)
    requires s.Ideal() && |p| == 16 && |x| == s.blockSize
    ensures s.digest(p + TokenBytes(x)) != s.digest(s.seed)
  {
    assert |p + TokenBytes(x)| > |s.seed|;
  }

  // Only the tokens a link covers matter.
  lemma {:induction false} ChainLocal(s: Hashing, a: seq<nat>, b: seq<nat>, i: nat)
    requires s.At(i) <= |a| && s.At(i) <= |b| && a[..s.At(i)] == b[..s.At(i)]
    ensures s.Chain(a, i) == s.Chain(b, i)
    decreases i
  {
    hide Hashing.At;
    if i > 0 {
      Steps(s, i);
      var n, m := s.At(i), s.At(i - 1);
      assert a[..m] == a[..n][..m] == b[..n][..m] == b[..m];
      assert a[m..n] == a[..n][m..] == b[..n][m..] == b[m..n];
      ChainLocal(s, a, b, i - 1);
    }
  }

  lemma KeyLocal(s: Hashing, tokens: seq<nat>, n: nat)
    requires s.blockSize >= 1 && n <= |tokens|
    ensures s.KeyFor(tokens, n) == s.KeyFor(tokens[..n], n)
  {
    hide Hashing.At, Hashing.Depth, Hashing.Chain;
    var base := s.At(s.Depth(n));
    assert tokens[..base] == tokens[..n][..base];
    ChainLocal(s, tokens, tokens[..n], s.Depth(n));
    assert tokens[base..n] == tokens[..n][base..n];
  }

  /** A name determines the tokens it names. */
  lemma KeyInjective(s: Hashing, a: seq<nat>, n: nat, b: seq<nat>, m: nat)
    requires s.Ideal() && AreTokens(a) && AreTokens(b) && n <= |a| && m <= |b|
    requires s.KeyFor(a, n) == s.KeyFor(b, m)
    ensures n == m && a[..n] == b[..m]
  {
    hide Hashing.At, Hashing.Depth, Hashing.Chain, TokenBytes;
    var d, e := s.Depth(n), s.Depth(m);
    ChainInjective(s, a, d, b, e);
    var base := s.At(d);
    assert TokenBytes(a[base..n]) == TokenBytes(b[base..m]);
    TokenBytesInjective(a[base..n], b[base..m]);
    assert a[..n] == a[..base] + a[base..n] && b[..m] == b[..base] + b[base..m];
  }

  lemma FirstLink(s: Hashing, tokens: seq<nat>)
    ensures s.At(0) == 0 && s.Chain(tokens, 0) == s.digest(s.seed)
  {}

  lemma NextLink(s: Hashing, tokens: seq<nat>, i: nat)
    requires s.At(i + 1) <= |tokens|
    ensures s.At(i) <= s.At(i + 1)
    ensures s.Chain(tokens, i + 1) == s.digest(s.Chain(tokens, i) + TokenBytes(tokens[s.At(i)..s.At(i + 1)]))
  {
    hide Hashing.At;
    Steps(s, i + 1);
  }

  /** The links of every whole-block prefix, each computed from the one before. */
  method ChainHashes(s: Hashing, tokens: seq<nat>) returns (hashes: seq<Digest>)
    requires s.blockSize >= 1
    ensures |hashes| == s.Depth(|tokens|) + 1
    ensures forall k :: 0 <= k < |hashes| ==> s.At(k) <= |tokens| && hashes[k] == s.Chain(tokens, k)
  {
    hide Hashing.Depth, Hashing.At, Hashing.Chain;
    var running := s.digest(s.seed);
    FirstLink(s, tokens);
    hashes := [running];
    var index := 0;
    while index < s.Depth(|tokens|)
      invariant 0 <= index <= s.Depth(|tokens|) && |hashes| == index + 1
      invariant forall k :: 0 <= k < |hashes| ==> s.At(k) <= |tokens| && hashes[k] == s.Chain(tokens, k)
      invariant running == hashes[index]
    {
      Grows(s, index + 1, s.Depth(|tokens|));
      NextLink(s, tokens, index);
      running := s.digest(running + TokenBytes(tokens[s.At(index)..s.At(index + 1)]));
      hashes := hashes + [running];
      index := index + 1;
    }
  }
}
