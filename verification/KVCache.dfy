// The int4 key/value cache: quantized blocks of whole groups behind a window of exact tokens.
module KVCache {
  import opened Arithmetic
  import opened Quantizer

  type Row = seq<real>
  datatype Token = Token(key: Row, value: Row)

  datatype Config = Config(groupSize: nat, residualLength: nat, keyWidth: nat, valueWidth: nat) {
    predicate Valid() {
      groupSize >= 2 && residualLength >= groupSize && keyWidth > 0 && valueWidth > 0
    }

    predicate Shaped(tokens: seq<Token>) {
      forall t :: 0 <= t < |tokens| ==> |tokens[t].key| == keyWidth && |tokens[t].value| == valueWidth
    }
  }

  // ---- blocks -------------------------------------------------------------------------------------

  // Keys are grouped along tokens, one lane per channel; values along channels, one lane per token. One batch
  // row and head is followed; the others are treated alike and independently.
  datatype Block = Block(keyLanes: seq<Coded>, valueLanes: seq<Coded>, length: nat)

  datatype Layer = Layer(blocks: seq<Block>, residual: seq<Token>)

  const EMPTY := Layer([], [])

  function Column(tokens: seq<Token>, c: nat): (lane: seq<real>)
    requires forall t :: 0 <= t < |tokens| ==> c < |tokens[t].key|
    ensures |lane| == |tokens|
  {
    seq(|tokens|, t requires 0 <= t < |tokens| => tokens[t].key[c])
  }

  function QuantizeBlock(cfg: Config, tokens: seq<Token>): Block
    requires cfg.Valid() && cfg.Shaped(tokens)
  {
    Block(seq(cfg.keyWidth, c requires 0 <= c < cfg.keyWidth => Encode(Column(tokens, c), cfg.groupSize)),
          seq(|tokens|, t requires 0 <= t < |tokens| => Encode(tokens[t].value, cfg.groupSize)),
          |tokens|)
  }

  predicate Decodable(lanes: seq<Coded>, length: nat) {
    forall i :: 0 <= i < |lanes| ==>
      && lanes[i].group > 0 && |lanes[i].scale| == |lanes[i].zero|
      && Decode(lanes[i]).Ok? && |Decode(lanes[i]).value| == length
  }

  // A block as tokens again. Lanes that cannot be reshaped, or come back at another length than the
  // exact tokens they are to be joined to, stop it.
  function Dequantize(cfg: Config, b: Block): Result<seq<Token>>
    requires cfg.Valid()
  {
    if |b.keyLanes| == cfg.keyWidth && Decodable(b.keyLanes, b.length)
       && |b.valueLanes| == b.length && Decodable(b.valueLanes, cfg.valueWidth)
    then Ok(seq(b.length, t requires 0 <= t < b.length =>
              Token(seq(cfg.keyWidth, c requires 0 <= c < cfg.keyWidth => Decode(b.keyLanes[c]).value[t]),
                    Decode(b.valueLanes[t]).value)))
    else ShapeMismatch
  }

  function DequantizeAll(cfg: Config, blocks: seq<Block>): Result<seq<Token>>
    requires cfg.Valid()
  {
    if blocks == [] then Ok([])
    else
      var before := DequantizeAll(cfg, blocks[..|blocks| - 1]);
      var last := Dequantize(cfg, blocks[|blocks| - 1]);
      if before.Ok? && last.Ok? then Ok(before.value + last.value) else ShapeMismatch
  }

  // What attention is given: the whole history in the compute type.
  function Read(cfg: Config, l: Layer): Result<seq<Token>>
    requires cfg.Valid()
  {
    if l.blocks == [] then Ok(l.residual)
    else
      var history := DequantizeAll(cfg, l.blocks);
      if history.Ok? then Ok(history.value + l.residual) else ShapeMismatch
  }

  function BlockTokens(blocks: seq<Block>): nat {
    if blocks == [] then 0 else BlockTokens(blocks[..|blocks| - 1]) + blocks[|blocks| - 1].length
  }

  function Length(l: Layer): nat {
    BlockTokens(l.blocks) + |l.residual|
  }

  // ---- updates --------------------------------------------------------------------------------------

  // How many of the oldest exact tokens leave the window.
  function Take(cfg: Config, exact: nat): (take: nat)
    requires cfg.Valid()
    ensures take <= exact && Whole(take, cfg.groupSize) && exact - take >= (if take > 0 then cfg.residualLength else 0)
    ensures exact - take < cfg.residualLength + cfg.groupSize
  {
    if exact <= cfg.residualLength then 0
    else
      var excess := exact - cfg.residualLength;
      Divides(excess / cfg.groupSize * cfg.groupSize, cfg.groupSize, excess / cfg.groupSize, 0);
      excess / cfg.groupSize * cfg.groupSize
  }

  function Flush(cfg: Config, l: Layer): Layer
    requires cfg.Valid() && cfg.Shaped(l.residual)
  {
    var take := Take(cfg, |l.residual|);
    if take == 0 then l
    else Layer(l.blocks + [QuantizeBlock(cfg, l.residual[..take])], l.residual[take..])
  }

  function Append(cfg: Config, l: Layer, chunk: seq<Token>): (r: Layer)
    requires cfg.Valid() && cfg.Shaped(l.residual) && cfg.Shaped(chunk)
    ensures cfg.Shaped(r.residual)
  {
    Flush(cfg, l.(residual := l.residual + chunk))
  }

  function AppendAll(cfg: Config, l: Layer, chunks: seq<seq<Token>>): (r: Layer)
    requires cfg.Valid() && cfg.Shaped(l.residual) && Chunks(cfg, chunks)
    ensures cfg.Shaped(r.residual)
  {
    if chunks == [] then l else Append(cfg, AppendAll(cfg, l, chunks[..|chunks| - 1]), chunks[|chunks| - 1])
  }

  function Joined(chunks: seq<seq<Token>>): seq<Token> {
    if chunks == [] then [] else Joined(chunks[..|chunks| - 1]) + chunks[|chunks| - 1]
  }

  // ---- the history, whatever the chunks ----------------------------------------------------------------

  // How many of `n` tokens are quantized when they only ever arrived.
  function Quantized(cfg: Config, n: nat): (q: nat)
    requires cfg.Valid()
    ensures q <= n && Whole(q, cfg.groupSize)
  {
    Take(cfg, n)
  }

  // The group of tokens that token `t` is quantized with.
  function GroupAround(cfg: Config, tokens: seq<Token>, t: nat, q: nat): (g: seq<Token>)
    requires cfg.Valid() && t < q <= |tokens| && Whole(q, cfg.groupSize) && cfg.Shaped(tokens)
    ensures |g| == cfg.groupSize && cfg.Shaped(g)
  {
    GroupIndex(t, q, cfg.groupSize);
    var start := GroupNo(t, cfg.groupSize) * cfg.groupSize;
    tokens[start..start + cfg.groupSize]
  }

  function Offset(t: nat, group: nat): (r: nat)
    requires group > 0
    ensures r < group
  {
    t % group
  }

  // The i-th key of a whole group: each channel restored within its own range over the group.
  function RestoredKey(cfg: Config, group: seq<Token>, i: nat): Row
    requires cfg.Valid() && i < |group| && cfg.Shaped(group)
  {
    seq(cfg.keyWidth, c requires 0 <= c < cfg.keyWidth => RestoredAt(Column(group, c), cfg.groupSize, i))
  }

  // Token `t` as it comes back: keys by channel within the token's group, values by token.
  function RestoredToken(cfg: Config, tokens: seq<Token>, t: nat, q: nat): (r: Token)
    requires cfg.Valid() && t < q <= |tokens| && Whole(q, cfg.groupSize) && cfg.Shaped(tokens)
    ensures |r.key| == cfg.keyWidth && |r.value| == cfg.valueWidth
  {
    Token(RestoredKey(cfg, GroupAround(cfg, tokens, t, q), Offset(t, cfg.groupSize)),
          RestoredLane(tokens[t].value, cfg.groupSize))
  }

  // The history of `tokens` with the first `q` quantized group by group.
  function View(cfg: Config, tokens: seq<Token>, q: nat): (v: seq<Token>)
    requires cfg.Valid() && q <= |tokens| && Whole(q, cfg.groupSize) && cfg.Shaped(tokens)
    ensures |v| == |tokens| && v[q..] == tokens[q..]
  {
    seq(|tokens|, t requires 0 <= t < |tokens| => if t < q then RestoredToken(cfg, tokens, t, q) else tokens[t])
  }

  // The blocks are the quantized stretches, each of whole groups, that make up the first `q` tokens.
  predicate Encodes(cfg: Config, blocks: seq<Block>, tokens: seq<Token>, q: nat)
    requires cfg.Valid() && cfg.Shaped(tokens) && q <= |tokens|
  {
    if blocks == [] then q == 0
    else
      var m := blocks[|blocks| - 1].length;
      && 0 < m <= q && Whole(m, cfg.groupSize)
      && blocks[|blocks| - 1] == QuantizeBlock(cfg, tokens[q - m..q])
      && Encodes(cfg, blocks[..|blocks| - 1], tokens, q - m)
  }

  predicate Holds(cfg: Config, l: Layer, tokens: seq<Token>, q: nat) {
    && cfg.Valid() && cfg.Shaped(tokens) && q <= |tokens| && Whole(q, cfg.groupSize)
    && Encodes(cfg, l.blocks, tokens, q) && l.residual == tokens[q..]
  }

  lemma {:induction false} EncodesLocal(cfg: Config, blocks: seq<Block>, t1: seq<Token>, t2: seq<Token>, q: nat)
    requires cfg.Valid() && cfg.Shaped(t1) && cfg.Shaped(t2) && q <= |t1| && q <= |t2| && t1[..q] == t2[..q]
    requires Encodes(cfg, blocks, t1, q)
    ensures Encodes(cfg, blocks, t2, q)
    decreases |blocks|
  {
    if blocks != [] {
      var m := blocks[|blocks| - 1].length;
      assert t1[q - m..q] == t1[..q][q - m..] == t2[q - m..q];
      assert t1[..q - m] == t1[..q][..q - m] == t2[..q - m];
      EncodesLocal(cfg, blocks[..|blocks| - 1], t1, t2, q - m);
    }
  }

  lemma {:induction false} EncodedTokens(cfg: Config, blocks: seq<Block>, tokens: seq<Token>, q: nat)
    requires cfg.Valid() && cfg.Shaped(tokens) && q <= |tokens| && Encodes(cfg, blocks, tokens, q)
    ensures BlockTokens(blocks) == q
    decreases |blocks|
  {
    if blocks != [] { EncodedTokens(cfg, blocks[..|blocks| - 1], tokens, q - blocks[|blocks| - 1].length); }
  }

  lemma WholeSum(a: nat, b: nat, g: nat)
    requires g > 0 && Whole(a, g)
    ensures Whole(a + b, g) <==> Whole(b, g)
  {
    var k, m, r := a / g, b / g, b % g;
    Distributes(k, m, g);
    Divides(a + b, g, k + m, r);
  }

  /** An update keeps the layer an encoding of all the tokens that have arrived. */
  lemma AppendHolds(cfg: Config, l: Layer, tokens: seq<Token>, q: nat, chunk: seq<Token>)
    requires Holds(cfg, l, tokens, q) && cfg.Shaped(chunk)
    ensures var take := Take(cfg, |tokens| + |chunk| - q);
      && q + take <= |tokens| + |chunk|
      && Holds(cfg, Append(cfg, l, chunk), tokens + chunk, q + take)
  {
    hide QuantizeBlock, Whole, Take, Encodes;
    var all, take := tokens + chunk, Take(cfg, |tokens| + |chunk| - q);
    Prefixes(tokens, chunk, q, take);
    EncodesLocal(cfg, l.blocks, tokens, all, q);
    WholeSum(q, take, cfg.groupSize);
    if take > 0 {
      FlushEncodes(cfg, l.blocks, all, q, take);
    }
  }

  lemma Prefixes(tokens: seq<Token>, chunk: seq<Token>, q: nat, take: nat)
    requires q <= |tokens| && q + take <= |tokens| + |chunk|
    ensures var all := tokens + chunk;
      && all[..q] == tokens[..q] && all[q..] == tokens[q..] + chunk
      && all[q..][..take] == all[q..q + take] && all[q..][take..] == all[q + take..]
  {}

  lemma FlushEncodes(cfg: Config, blocks: seq<Block>, tokens: seq<Token>, q: nat, take: nat)
    requires cfg.Valid() && cfg.Shaped(tokens) && 0 < take && q + take <= |tokens| && Whole(take, cfg.groupSize)
    requires Encodes(cfg, blocks, tokens, q)
    ensures Encodes(cfg, blocks + [QuantizeBlock(cfg, tokens[q..q + take])], tokens, q + take)
  {
    hide QuantizeBlock, Whole;
    var r := blocks + [QuantizeBlock(cfg, tokens[q..q + take])];
    assert r[..|r| - 1] == blocks;
    BlockLength(cfg, tokens[q..q + take]);
  }

  lemma BlockLength(cfg: Config, tokens: seq<Token>)
    requires cfg.Valid() && cfg.Shaped(tokens)
    ensures QuantizeBlock(cfg, tokens).length == |tokens|
  {}

  // The closed form: whole groups of whatever lies past the window.
  lemma TakeFromAligned(cfg: Config, n: nat, q: nat)
    requires cfg.Valid() && q <= n && Whole(q, cfg.groupSize)
    ensures q + Take(cfg, n - q) == if Quantized(cfg, n) <= q then q else Quantized(cfg, n)
  {
    var g, r := cfg.groupSize, cfg.residualLength;
    var k := q / g;
    assert q == k * g;
    if n - q > r {
      var m, d := (n - q - r) / g, (n - q - r) % g;
      assert n - r == (k + m) * g + d;
      Divides(n - r, g, k + m, d);
      assert (k + m) * g == q + m * g;
    } else if n > r {
      assert (n - r) / g * g <= n - r <= q;
    }
  }

  // ---- reading back ------------------------------------------------------------------------------------

  // Lanes come back whole when no code had to be made up.
  predicate Even(cfg: Config)
    requires cfg.Valid()
  {
    cfg.groupSize % 2 == 0 && EvenValues(cfg)
  }

  predicate EvenValues(cfg: Config)
    requires cfg.Valid()
  {
    PaddedLength(cfg.valueWidth, cfg.groupSize) % 2 == 0
  }

  lemma WholeGroups(m: nat, g: nat)
    requires g >= 2 && m > 0 && Whole(m, g)
    ensures g <= m && GroupFor(m, g) == g && PaddedLength(m, g) == m
    ensures g % 2 == 0 ==> m % 2 == 0
  {
    var k := m / g;
    assert m == k * g;
    assert k != 0;
    Grows(k, g);
    var d: int := m;
    assert Padding(m, g) == 0 by { Divides(-d, g, -k, 0); }
    if g % 2 == 0 {
      var h := g / 2;
      assert g == 2 * h && m == k * (2 * h) == 2 * (k * h);
    }
  }

  lemma Places(i: nat, g: nat)
    requires g > 0
    ensures i == GroupNo(i, g) * g + Offset(i, g) && (GroupNo(i, g) + 1) * g == GroupNo(i, g) * g + g
    ensures GroupNo(Offset(i, g), g) == 0
  {}

  // A lane of several groups comes back as each of them does by itself.
  lemma RestoredInGroup(lane: seq<real>, g: nat, i: nat)
    requires g >= 2 && Whole(|lane|, g) && i < |lane|
    ensures 0 <= GroupNo(i, g) * g <= GroupNo(i, g) * g + g <= |lane|
    ensures RestoredAt(lane, g, i) == RestoredAt(lane[GroupNo(i, g) * g..GroupNo(i, g) * g + g], g, Offset(i, g))
  {
    hide GroupNo, Offset, Whole, Restored, Lo, Hi, GroupFor;
    WholeGroups(|lane|, g);
    GroupIndex(i, |lane|, g);
    Places(i, g);
    var start, at := GroupNo(i, g) * g, Offset(i, g);
    var group := lane[start..start + g];
    WholeGroupItself(group, g, at);
    assert group[at] == lane[i];
  }

  lemma WholeGroupItself(group: seq<real>, g: nat, at: nat)
    requires g >= 2 && |group| == g && at < g
    ensures GroupFor(g, g) == g && GroupNo(at, g) == 0 && GroupOf(group, g, 0) == group
  {}

  lemma ColumnOfGroup(cfg: Config, tokens: seq<Token>, c: nat, a: nat, b: nat)
    requires cfg.Valid() && cfg.Shaped(tokens) && c < cfg.keyWidth && a <= b <= |tokens|
    ensures Column(tokens[a..b], c) == Column(tokens, c)[a..b]
  {}

  lemma KeyLaneReads(cfg: Config, tokens: seq<Token>, c: nat)
    requires cfg.Valid() && cfg.Shaped(tokens) && tokens != [] && Whole(|tokens|, cfg.groupSize)
    requires c < cfg.keyWidth && |tokens| % 2 == 0
    ensures var lane := Encode(Column(tokens, c), cfg.groupSize);
      && lane.group > 0 && |lane.scale| == |lane.zero| && Decode(lane) == Ok(RestoredLane(Column(tokens, c), cfg.groupSize))
  {
    hide Decode, RestoredLane, Whole, PaddedLength, Pad, Column;
    WholeGroups(|tokens|, cfg.groupSize);
    DecodeEncode(Column(tokens, c), cfg.groupSize);
  }

  lemma KeyOf(cfg: Config, tokens: seq<Token>, t: nat, c: nat)
    requires cfg.Valid() && cfg.Shaped(tokens) && Whole(|tokens|, cfg.groupSize) && t < |tokens| && c < cfg.keyWidth
    ensures RestoredToken(cfg, tokens, t, |tokens|).key[c] == RestoredAt(Column(tokens, c), cfg.groupSize, t)
  {
    hide RestoredAt, Whole, GroupNo, Offset, Column;
    var g := cfg.groupSize;
    RestoredInGroup(Column(tokens, c), g, t);
    ColumnOfGroup(cfg, tokens, c, GroupNo(t, g) * g, GroupNo(t, g) * g + g);
  }

  lemma ValueOf(cfg: Config, tokens: seq<Token>, t: nat)
    requires cfg.Valid() && cfg.Shaped(tokens) && Whole(|tokens|, cfg.groupSize) && t < |tokens|
    ensures RestoredToken(cfg, tokens, t, |tokens|).value == RestoredLane(tokens[t].value, cfg.groupSize)
  {
    hide RestoredKey, RestoredAt, Whole;
  }

  lemma ValueLaneReads(cfg: Config, tokens: seq<Token>, t: nat)
    requires cfg.Valid() && EvenValues(cfg) && cfg.Shaped(tokens) && t < |tokens|
    ensures var lane := Encode(tokens[t].value, cfg.groupSize);
      && lane.group > 0 && |lane.scale| == |lane.zero| && Decode(lane) == Ok(RestoredLane(tokens[t].value, cfg.groupSize))
  {
    hide Decode, RestoredLane, PaddedLength;
    DecodeEncode(tokens[t].value, cfg.groupSize);
  }

  /** A block of whole groups comes back token by token. */
  lemma BlockReads(cfg: Config, tokens: seq<Token>)
    requires cfg.Valid() && cfg.Shaped(tokens) && tokens != [] && Whole(|tokens|, cfg.groupSize)
    requires |tokens| % 2 == 0 && EvenValues(cfg)
    ensures Dequantize(cfg, QuantizeBlock(cfg, tokens)) == Ok(View(cfg, tokens, |tokens|))
  {
    hide Decode, Encode, RestoredAt, RestoredToken, Whole, EvenValues, Column;
    var b, v := QuantizeBlock(cfg, tokens), View(cfg, tokens, |tokens|);
    forall c | 0 <= c < cfg.keyWidth
      ensures b.keyLanes[c].group > 0 && |b.keyLanes[c].scale| == |b.keyLanes[c].zero| && Decode(b.keyLanes[c]).Ok?
      ensures |Decode(b.keyLanes[c]).value| == |tokens|
      ensures forall t :: 0 <= t < |tokens| ==> Decode(b.keyLanes[c]).value[t] == v[t].key[c]
    {
      KeyLaneReads(cfg, tokens, c);
      forall t | 0 <= t < |tokens| ensures RestoredAt(Column(tokens, c), cfg.groupSize, t) == v[t].key[c] {
        KeyOf(cfg, tokens, t, c);
      }
    }
    forall t | 0 <= t < |tokens|
      ensures b.valueLanes[t].group > 0 && |b.valueLanes[t].scale| == |b.valueLanes[t].zero| && Decode(b.valueLanes[t]).Ok?
      ensures Decode(b.valueLanes[t]).value == v[t].value
    {
      ValueLaneReads(cfg, tokens, t);
      ValueOf(cfg, tokens, t);
    }
    BlockIs(cfg, b, v);
  }

  lemma BlockIs(cfg: Config, b: Block, v: seq<Token>)
    requires cfg.Valid() && cfg.Shaped(v) && |b.keyLanes| == cfg.keyWidth && |b.valueLanes| == b.length == |v|
    requires Decodable(b.keyLanes, b.length) && Decodable(b.valueLanes, cfg.valueWidth)
    requires forall c, t :: 0 <= c < cfg.keyWidth && 0 <= t < |v| ==> Decode(b.keyLanes[c]).value[t] == v[t].key[c]
    requires forall t :: 0 <= t < |v| ==> Decode(b.valueLanes[t]).value == v[t].value
    ensures Dequantize(cfg, b) == Ok(v)
  {
    hide Decode;
    var r := Dequantize(cfg, b).value;
    forall t | 0 <= t < |v| ensures r[t] == v[t] {
      assert r[t].key == v[t].key;
    }
    assert r == v;
  }

  lemma ShiftPlaces(a: nat, t: nat, g: nat)
    requires g > 0 && Whole(a, g)
    ensures GroupNo(a + t, g) * g == a + GroupNo(t, g) * g && Offset(a + t, g) == Offset(t, g)
  {
    var k, m, r := a / g, t / g, t % g;
    assert a == k * g && t == m * g + r;
    assert a + t == (k + m) * g + r;
    Divides(a + t, g, k + m, r);
    assert (k + m) * g == k * g + m * g;
  }

  // A stretch that starts on a group boundary is restored by itself as it is in place.
  lemma ShiftedToken(cfg: Config, tokens: seq<Token>, a: nat, b: nat, t: nat, q: nat)
    requires cfg.Valid() && cfg.Shaped(tokens) && a <= b <= q <= |tokens| && t < b - a
    requires Whole(a, cfg.groupSize) && Whole(b - a, cfg.groupSize) && Whole(q, cfg.groupSize)
    ensures RestoredToken(cfg, tokens[a..b], t, b - a) == RestoredToken(cfg, tokens, a + t, q)
  {
    hide RestoredKey, RestoredLane, Whole, Offset, GroupNo;
    var g := cfg.groupSize;
    ShiftPlaces(a, t, g);
    GroupIndex(t, b - a, g);
    Places(t, g);
    GroupIndex(a + t, q, g);
    Places(a + t, g);
    var start := GroupNo(t, g) * g;
    SliceOfSlice(tokens, a, b, start, g);
  }

  lemma SliceOfSlice(tokens: seq<Token>, a: nat, b: nat, start: nat, n: nat)
    requires a + start + n <= b <= |tokens|
    ensures tokens[a..b][start..start + n] == tokens[a + start..a + start + n]
  {
    var x, y := tokens[a..b][start..start + n], tokens[a + start..a + start + n];
    assert forall i :: 0 <= i < n ==> x[i] == tokens[a..b][start + i] == tokens[a + (start + i)] == y[i];
  }

  lemma ZeroIsWhole(g: nat)
    requires g > 0
    ensures Whole(0, g)
  {}

  lemma {:induction false} BlocksRead(cfg: Config, blocks: seq<Block>, tokens: seq<Token>, q: nat)
    requires cfg.Valid() && Even(cfg) && cfg.Shaped(tokens) && q <= |tokens| && Encodes(cfg, blocks, tokens, q)
    ensures Whole(q, cfg.groupSize)
    ensures DequantizeAll(cfg, blocks) == Ok(View(cfg, tokens, q)[..q])
    decreases |blocks|
  {
    hide QuantizeBlock, Dequantize, RestoredToken, Whole, EvenValues;
    ZeroIsWhole(cfg.groupSize);
    if blocks != [] {
      var m := blocks[|blocks| - 1].length;
      BlocksRead(cfg, blocks[..|blocks| - 1], tokens, q - m);
      WholeGroups(m, cfg.groupSize);
      BlockReads(cfg, tokens[q - m..q]);
      WholeSum(q - m, m, cfg.groupSize);
      var v, before, last := View(cfg, tokens, q), View(cfg, tokens, q - m), View(cfg, tokens[q - m..q], m);
      forall t | 0 <= t < q ensures v[t] == if t < q - m then before[t] else last[t - (q - m)] {
        if t < q - m {
          ShiftedToken(cfg, tokens, 0, q - m, t, q);
          ShiftedToken(cfg, tokens, 0, q - m, t, q - m);
        } else {
          ShiftedToken(cfg, tokens, q - m, q, t - (q - m), q);
        }
      }
      assert v[..q] == before[..q - m] + last;
    }
  }

  /** What attention is given is the view of the tokens held. */
  lemma ReadIsView(cfg: Config, l: Layer, tokens: seq<Token>, q: nat)
    requires Holds(cfg, l, tokens, q) && Even(cfg)
    ensures Read(cfg, l) == Ok(View(cfg, tokens, q))
  {
    hide View, Dequantize, QuantizeBlock;
    BlocksRead(cfg, l.blocks, tokens, q);
    var v := View(cfg, tokens, q);
    assert v == v[..q] + v[q..];
    if q == 0 { assert v[0..] == v && tokens[0..] == tokens; }
  }

  predicate Chunks(cfg: Config, chunks: seq<seq<Token>>) {
    forall i :: 0 <= i < |chunks| ==> cfg.Shaped(chunks[i])
  }

  /** However the tokens are chunked, the layer encodes them all and the quantized count has its closed form. */
  lemma {:induction false} AppendAllHolds(cfg: Config, chunks: seq<seq<Token>>)
    requires cfg.Valid() && Chunks(cfg, chunks)
    ensures cfg.Shaped(Joined(chunks))
    ensures Holds(cfg, AppendAll(cfg, EMPTY, chunks), Joined(chunks), Quantized(cfg, |Joined(chunks)|))
    decreases |chunks|
  {
    hide Append, Take, Whole, Holds;
    if chunks == [] {
      NothingHeld(cfg);
    } else {
      var init, last := chunks[..|chunks| - 1], chunks[|chunks| - 1];
      AppendAllHolds(cfg, init);
      var before, q := Joined(init), Quantized(cfg, |Joined(init)|);
      AppendHolds(cfg, AppendAll(cfg, EMPTY, init), before, q, last);
      TakeFromAligned(cfg, |before| + |last|, q);
      QuantizedGrows(cfg, |before|, |before| + |last|);
      HoldsShaped(cfg, AppendAll(cfg, EMPTY, chunks), before + last, Quantized(cfg, |before + last|));
    }
  }

  lemma NothingHeld(cfg: Config)
    requires cfg.Valid()
    ensures Quantized(cfg, 0) == 0 && Holds(cfg, EMPTY, [], 0)
  {
    ZeroIsWhole(cfg.groupSize);
  }

  lemma HoldsShaped(cfg: Config, l: Layer, tokens: seq<Token>, q: nat)
    requires Holds(cfg, l, tokens, q)
    ensures cfg.Valid() && cfg.Shaped(tokens) && cfg.Shaped(l.residual) && q <= |tokens| && Whole(q, cfg.groupSize)
  {}

  lemma QuotientsGrow(x: nat, y: nat, g: nat)
    requires g > 0 && x <= y
    ensures x / g * g <= y / g * g
  {
    var a, b := x / g, y / g;
    assert x == a * g + x % g && y == b * g + y % g;
    if b < a {
      IndexInGroups(b, a, g);
    } else {
      IndexInGroupsBack(a, b, g);
    }
  }

  lemma QuantizedGrows(cfg: Config, m: nat, n: nat)
    requires cfg.Valid() && m <= n
    ensures Quantized(cfg, m) <= Quantized(cfg, n)
  {
    if m > cfg.residualLength {
      QuotientsGrow(m - cfg.residualLength, n - cfg.residualLength, cfg.groupSize);
    }
  }

  /** The history handed to attention depends only on the tokens: the view of them with
      max(0, ((n - residual) div group) * group) quantized group by group. */
  lemma HistoryIsView(cfg: Config, chunks: seq<seq<Token>>)
    requires cfg.Valid() && Chunks(cfg, chunks) && Even(cfg)
    ensures var tokens := Joined(chunks);
      && cfg.Shaped(tokens)
      && Read(cfg, AppendAll(cfg, EMPTY, chunks)) == Ok(View(cfg, tokens, Quantized(cfg, |tokens|)))
  {
    hide View, Append, Read, Quantized;
    AppendAllHolds(cfg, chunks);
    ReadIsView(cfg, AppendAll(cfg, EMPTY, chunks), Joined(chunks), Quantized(cfg, |Joined(chunks)|));
  }

  function Blank(cfg: Config, n: nat): (tokens: seq<Token>)
    ensures |tokens| == n && cfg.Shaped(tokens)
  {
    seq(n, _ => Token(seq(cfg.keyWidth, _ => 0.0), seq(cfg.valueWidth, _ => 0.0)))
  }

  // A block of an odd number of tokens, or of values whose padded width is odd, cannot be read back.
  lemma OddBlockFails(cfg: Config, tokens: seq<Token>)
    requires cfg.Valid() && cfg.Shaped(tokens) && |tokens| > 1 && Whole(|tokens|, cfg.groupSize)
    requires |tokens| % 2 == 1 || !EvenValues(cfg)
    ensures Dequantize(cfg, QuantizeBlock(cfg, tokens)) == ShapeMismatch
  {
    hide Decode, Encode, PaddedLength, Whole, Column;
    var b := QuantizeBlock(cfg, tokens);
    if |tokens| % 2 == 1 {
      WholeGroups(|tokens|, cfg.groupSize);
      DecodeEncode(Column(tokens, 0), cfg.groupSize);
      assert b.keyLanes[0] == Encode(Column(tokens, 0), cfg.groupSize);
      assert !Decodable(b.keyLanes, b.length);
    } else {
      DecodeEncode(tokens[0].value, cfg.groupSize);
      assert b.valueLanes[0] == Encode(tokens[0].value, cfg.groupSize);
      assert !Decodable(b.valueLanes, cfg.valueWidth);
    }
  }

  // What one update of `n` tokens past the window leaves when they make whole groups.
  lemma OneUpdate(cfg: Config, groups: nat)
    requires cfg.Valid() && groups > 0
    ensures var n := cfg.residualLength + groups * cfg.groupSize; n > 0 && Take(cfg, n) == groups * cfg.groupSize > 1
    ensures Whole(groups * cfg.groupSize, cfg.groupSize)
    ensures var tokens := Blank(cfg, cfg.residualLength + groups * cfg.groupSize);
      AppendAll(cfg, EMPTY, [tokens])
      == Layer([QuantizeBlock(cfg, tokens[..groups * cfg.groupSize])], tokens[groups * cfg.groupSize..])
  {
    hide QuantizeBlock, Blank, Whole;
    var tokens := Blank(cfg, cfg.residualLength + groups * cfg.groupSize);
    Divides(groups * cfg.groupSize, cfg.groupSize, groups, 0);
    assert Whole(groups * cfg.groupSize, cfg.groupSize) by { MultipleIsWhole(groups, cfg.groupSize); }
    Grows(groups, cfg.groupSize);
    assert [tokens][..0] == [] && [] + tokens == tokens;
    assert AppendAll(cfg, EMPTY, [tokens][..0]) == EMPTY;
  }

  lemma MultipleIsWhole(k: nat, g: nat)
    requires g > 0
    ensures Whole(k * g, g)
  {
    Divides(k * g, g, k, 0);
  }

  lemma ReadOneBlock(cfg: Config, b: Block, residual: seq<Token>)
    requires cfg.Valid()
    ensures Read(cfg, Layer([b], residual)).Ok? == Dequantize(cfg, b).Ok?
  {
    assert [b][..0] == [];
    assert DequantizeAll(cfg, [b][..0]) == Ok([]);
  }

  /** Every history can be read back, whatever the chunks, exactly when the group size and the padded
      width of a value are even. */
  lemma ReadsExactly(cfg: Config)
    requires cfg.Valid()
    ensures (forall chunks: seq<seq<Token>> :: Chunks(cfg, chunks) ==> Read(cfg, AppendAll(cfg, EMPTY, chunks)).Ok?)
      <==> Even(cfg)
  {
    hide QuantizeBlock, Dequantize, View, Append, Read, Blank, EvenValues;
    if Even(cfg) {
      forall chunks: seq<seq<Token>> | Chunks(cfg, chunks) ensures Read(cfg, AppendAll(cfg, EMPTY, chunks)).Ok? {
        HistoryIsView(cfg, chunks);
      }
    } else {
      OneUpdate(cfg, 1);
      var g := cfg.groupSize;
      var tokens := Blank(cfg, cfg.residualLength + 1 * g);
      OddBlockFails(cfg, tokens[..1 * g]);
      ReadOneBlock(cfg, QuantizeBlock(cfg, tokens[..1 * g]), tokens[1 * g..]);
      assert Chunks(cfg, [tokens]);
    }
  }
}
