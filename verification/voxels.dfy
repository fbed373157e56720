/** The voxel store of a model: a map from integer coordinates to RGBA colours that
    remembers the order in which its keys were inserted, as a JavaScript `Map` does.
    The source keys its map by the strings "x,y,z"; here the key is the coordinate
    itself, so two coordinates are the same key exactly when all three axes agree. */
module Voxels {
  import opened Wrappers
  import opened Seqs

  /** A voxel coordinate. */
  datatype Pos = Pos(x: int, y: int, z: int)

  /** An RGBA colour; channels are conventionally 0..255, but nothing checks that. */
  datatype Color = Color(r: int, g: int, b: int, a: int)

  /** One edit given to `setVoxels`, and one record returned by `getVoxels`:
      a block without a colour clears its coordinate. */
  datatype Block = Block(pos: Pos, color: Option<Color>)

  /** The contents of `pos2color`: `order` lists the keys in the map's iteration
      order (insertion order), `colors` gives each key its colour. */
  datatype VoxelMap = VoxelMap(order: seq<Pos>, colors: map<Pos, Color>)

  /** The map of a freshly created model. */
  const Empty := VoxelMap([], map[])

  /** Every stored key appears exactly once in the iteration order, and nothing else does. */
  ghost predicate Valid(m: VoxelMap)
  {
    && NoDup(m.order)
    && forall p :: p in m.colors <==> p in m.order
  }

  /** The colour stored at `p`, if any. */
  function Lookup(m: VoxelMap, p: Pos): Option<Color>
  {
    if p in m.colors then Some(m.colors[p]) else None
  }

  /** The number of stored voxels is the length of the iteration order. */
  lemma CountIsOrderLength(m: VoxelMap)
    requires Valid(m)
    ensures |m.colors| == |m.order|
  {
    NoDupCard(m.order);
    assert m.colors.Keys == set p | p in m.order;
  }

  /** `pos2color.delete(key)`: the key leaves the map and the iteration order, the
      other keys keep their relative order; deleting a key that is not there changes
      nothing. */
  function Delete(m: VoxelMap, p: Pos): (r: VoxelMap)
    requires Valid(m)
    ensures Valid(r)
    ensures Lookup(r, p) == None
    ensures forall q :: q != p ==> Lookup(r, q) == Lookup(m, q)
    ensures p !in m.colors ==> r == m
    ensures forall i :: 0 <= i < |m.order| && m.order[i] == p ==>
      r.order == m.order[..i] + m.order[i + 1..]
  {
    DeleteKeepsOrder(m.order, p);
    VoxelMap(Without(m.order, p), m.colors - {p})
  }

  /** Taking a key out of a duplicate-free iteration order closes its slot. */
  lemma DeleteKeepsOrder(s: seq<Pos>, p: Pos)
    requires NoDup(s)
    ensures forall i :: 0 <= i < |s| && s[i] == p ==> Without(s, p) == s[..i] + s[i + 1..]
  {
    forall i | 0 <= i < |s| && s[i] == p
      ensures Without(s, p) == s[..i] + s[i + 1..]
    {
      WithoutKeepsOrder(s, i);
    }
  }

  /** `pos2color.set(key, color)`: the key now maps to exactly that colour, every
      other key keeps its colour; an existing key keeps its place in the iteration
      order and a new key goes last. */
  function Insert(m: VoxelMap, p: Pos, c: Color): (r: VoxelMap)
    requires Valid(m)
    ensures Valid(r)
    ensures Lookup(r, p) == Some(c)
    ensures forall q :: q != p ==> Lookup(r, q) == Lookup(m, q)
    ensures p in m.colors ==> r.order == m.order
    ensures p !in m.colors ==> r.order == m.order + [p]
  {
    VoxelMap(if p in m.colors then m.order else m.order + [p], m.colors[p := c])
  }

  /** One step of `setVoxels`: a block without a colour deletes its coordinate,
      a block with a colour sets it. */
  function ApplyBlock(m: VoxelMap, b: Block): (r: VoxelMap)
    requires Valid(m)
    ensures Valid(r)
    ensures Lookup(r, b.pos) == b.color
    ensures forall q :: q != b.pos ==> Lookup(r, q) == Lookup(m, q)
  {
    match b.color
    case None => Delete(m, b.pos)
    case Some(c) => Insert(m, b.pos, c)
  }

  /** What one block does to each of the two fields. This is the shape in which the
      in-place loop of `VoxModel.SetVoxels` updates them, and the lemma is only the
      bridge for that proof. */
  lemma ApplyBlockByFields(m: VoxelMap, b: Block)
    requires Valid(m)
    ensures b.color.None? ==>
      ApplyBlock(m, b) == VoxelMap(Without(m.order, b.pos), m.colors - {b.pos})
    ensures b.color.Some? ==>
      ApplyBlock(m, b) == VoxelMap(if b.pos in m.colors then m.order else m.order + [b.pos],
                                   m.colors[b.pos := b.color.value])
  {
  }

  /** `setVoxels`: the blocks applied one after another, in input order. */
  function ApplyBlocks(m: VoxelMap, bs: seq<Block>): (r: VoxelMap)
    requires Valid(m)
    ensures Valid(r)
  {
    if bs == [] then m
    else ApplyBlock(ApplyBlocks(m, bs[..|bs| - 1]), bs[|bs| - 1])
  }

  /** A coordinate that no block mentions keeps its colour (or its absence). */
  lemma {:induction false} ApplyBlocksUntouched(m: VoxelMap, bs: seq<Block>, p: Pos)
    requires Valid(m)
    requires forall j :: 0 <= j < |bs| ==> bs[j].pos != p
    ensures Lookup(ApplyBlocks(m, bs), p) == Lookup(m, p)
  {
    if bs != [] {
      ApplyBlocksUntouched(m, bs[..|bs| - 1], p);
    }
  }

  /** Last write wins: the colour a coordinate ends with is the one carried by the
      last block that mentions it, and none if that block has no colour. */
  lemma {:induction false} ApplyBlocksLastWins(m: VoxelMap, bs: seq<Block>, i: nat)
    requires Valid(m)
    requires i < |bs|
    requires forall j :: i < j < |bs| ==> bs[j].pos != bs[i].pos
    ensures Lookup(ApplyBlocks(m, bs), bs[i].pos) == bs[i].color
  {
    if i < |bs| - 1 {
      var pre := bs[..|bs| - 1];
      assert pre[i] == bs[i];
      ApplyBlocksLastWins(m, pre, i);
    }
  }

  /** The index of the last block that mentions `p`, or -1 when none does. */
  function LastMention(bs: seq<Block>, p: Pos): (i: int)
    ensures -1 <= i < |bs|
    ensures i >= 0 ==> bs[i].pos == p
    ensures forall j :: i < j < |bs| ==> bs[j].pos != p
  {
    if bs == [] then -1
    else if bs[|bs| - 1].pos == p then |bs| - 1
    else LastMention(bs[..|bs| - 1], p)
  }

  /** Applying the same blocks a second time leaves every coordinate with the colour
      it had after the first time. */
  lemma ApplyBlocksTwiceColors(m: VoxelMap, bs: seq<Block>)
    requires Valid(m)
    ensures ApplyBlocks(ApplyBlocks(m, bs), bs).colors == ApplyBlocks(m, bs).colors
  {
    var once := ApplyBlocks(m, bs);
    var twice := ApplyBlocks(once, bs);
    forall p ensures Lookup(twice, p) == Lookup(once, p) {
      var i := LastMention(bs, p);
      if i >= 0 {
        ApplyBlocksLastWins(m, bs, i);
        ApplyBlocksLastWins(once, bs, i);
      } else {
        ApplyBlocksUntouched(once, bs, p);
      }
    }
    assert forall p :: p in twice.colors <==> Lookup(twice, p).Some?;
    assert forall p :: p in twice.colors ==> twice.colors[p] == Lookup(twice, p).value;
  }

  /** Four blocks that set `p` to `c`, clear it, set it to `c` again and then set `q`
      to `d`. */
  function ReorderingBlocks(p: Pos, q: Pos, c: Color, d: Color): seq<Block>
  {
    [Block(p, Some(c)), Block(p, None), Block(p, Some(c)), Block(q, Some(d))]
  }

  /** Applying the blocks one at a time from `m`, as `ApplyBlocks` does. */
  lemma ApplyFour(m: VoxelMap, bs: seq<Block>)
    requires Valid(m) && |bs| == 4
    ensures ApplyBlocks(m, bs) ==
      ApplyBlock(ApplyBlock(ApplyBlock(ApplyBlock(m, bs[0]), bs[1]), bs[2]), bs[3])
  {
    assert bs[..1][..0] == [];
    assert ApplyBlocks(m, bs[..1]) == ApplyBlock(m, bs[0]);
    assert bs[..2][..1] == bs[..1];
    assert ApplyBlocks(m, bs[..2]) == ApplyBlock(ApplyBlocks(m, bs[..1]), bs[1]);
    assert bs[..3][..2] == bs[..2];
    assert ApplyBlocks(m, bs[..3]) == ApplyBlock(ApplyBlocks(m, bs[..2]), bs[2]);
    assert bs[..3] == bs[..|bs| - 1];
  }

  /** Once from empty, the four blocks leave `p` before `q`. */
  lemma ReorderingOnce(p: Pos, q: Pos, c: Color, d: Color)
    requires p != q
    ensures ApplyBlocks(Empty, ReorderingBlocks(p, q, c, d)) == VoxelMap([p, q], map[p := c, q := d])
  {
    ReorderingOnceSteps(p, q, c, d);
    ApplyFour(Empty, ReorderingBlocks(p, q, c, d));
  }

  /** The four steps of the first application. */
  lemma ReorderingOnceSteps(p: Pos, q: Pos, c: Color, d: Color)
    requires p != q
    ensures var bs := ReorderingBlocks(p, q, c, d);
      ApplyBlock(ApplyBlock(ApplyBlock(ApplyBlock(Empty, bs[0]), bs[1]), bs[2]), bs[3]) ==
      VoxelMap([p, q], map[p := c, q := d])
  {
    ReorderingFirstSet(p, c);
    ReorderingFirstClear(p, c);
    ReorderingAppend(p, q, c, d);
  }

  /** Setting a key in the empty map. */
  lemma ReorderingFirstSet(p: Pos, c: Color)
    ensures ApplyBlock(Empty, Block(p, Some(c))) == VoxelMap([p], map[p := c])
  {
  }

  /** Clearing the only key empties the map. */
  lemma ReorderingFirstClear(p: Pos, c: Color)
    ensures ApplyBlock(VoxelMap([p], map[p := c]), Block(p, None)) == Empty
  {
    WithoutFirst(p, []);
  }

  /** Setting a second key appends it. */
  lemma ReorderingAppend(p: Pos, q: Pos, c: Color, d: Color)
    requires p != q
    ensures ApplyBlock(VoxelMap([p], map[p := c]), Block(q, Some(d))) == VoxelMap([p, q], map[p := c, q := d])
  {
  }

  /** A second time, the delete takes `p` out and the set puts it back behind `q`. */
  lemma ReorderingTwice(p: Pos, q: Pos, c: Color, d: Color)
    requires p != q
    ensures ApplyBlocks(VoxelMap([p, q], map[p := c, q := d]), ReorderingBlocks(p, q, c, d)) ==
      VoxelMap([q, p], map[p := c, q := d])
  {
    ReorderingTwiceSteps(p, q, c, d);
    ApplyFour(VoxelMap([p, q], map[p := c, q := d]), ReorderingBlocks(p, q, c, d));
  }

  /** The four steps of the second application. */
  lemma ReorderingTwiceSteps(p: Pos, q: Pos, c: Color, d: Color)
    requires p != q
    ensures var bs, once := ReorderingBlocks(p, q, c, d), VoxelMap([p, q], map[p := c, q := d]);
      ApplyBlock(ApplyBlock(ApplyBlock(ApplyBlock(once, bs[0]), bs[1]), bs[2]), bs[3]) ==
      VoxelMap([q, p], map[p := c, q := d])
  {
    ReorderingSetAgain(p, q, c, d);
    ReorderingClear(p, q, c, d);
    ReorderingReinsert(p, q, c, d);
  }

  /** Setting a present key to its own colour changes nothing. */
  lemma ReorderingSetAgain(p: Pos, q: Pos, c: Color, d: Color)
    requires p != q
    ensures ApplyBlock(VoxelMap([p, q], map[p := c, q := d]), Block(p, Some(c))) == VoxelMap([p, q], map[p := c, q := d])
    ensures ApplyBlock(VoxelMap([q, p], map[p := c, q := d]), Block(q, Some(d))) == VoxelMap([q, p], map[p := c, q := d])
  {
  }

  /** Clearing the first key leaves the second alone. */
  lemma ReorderingClear(p: Pos, q: Pos, c: Color, d: Color)
    requires p != q
    ensures ApplyBlock(VoxelMap([p, q], map[p := c, q := d]), Block(p, None)) == VoxelMap([q], map[q := d])
  {
    var m := VoxelMap([p, q], map[p := c, q := d]);
    assert Without(m.order, p) == [q] by {
      WithoutFirst(p, [q]);
    }
    assert m.colors - {p} == map[q := d];
    assert Delete(m, p) == VoxelMap([q], map[q := d]);
  }

  /** Setting the cleared key again appends it. */
  lemma ReorderingReinsert(p: Pos, q: Pos, c: Color, d: Color)
    requires p != q
    ensures ApplyBlock(VoxelMap([q], map[q := d]), Block(p, Some(c))) == VoxelMap([q, p], map[p := c, q := d])
  {
  }

  /** The iteration order, unlike the colours, is not idempotent: a coordinate that is
      deleted and set again inside one call moves behind a coordinate first inserted
      later in that call, so a second identical call reorders the map. */
  lemma ApplyBlocksTwiceReorders()
    ensures exists bs: seq<Block> ::
      ApplyBlocks(ApplyBlocks(Empty, bs), bs).order != ApplyBlocks(Empty, bs).order
  {
    var p, q, c := Pos(0, 0, 0), Pos(1, 0, 0), Color(1, 2, 3, 255);
    var bs := ReorderingBlocks(p, q, c, c);
    ReorderingOnce(p, q, c, c);
    ReorderingTwice(p, q, c, c);
    assert ApplyBlocks(ApplyBlocks(Empty, bs), bs).order != ApplyBlocks(Empty, bs).order;
  }

  /** Applying the first `k + 1` blocks is applying the first `k` and then block `k`. */
  lemma ApplyBlocksSnoc(m: VoxelMap, bs: seq<Block>, k: nat)
    requires Valid(m) && k < |bs|
    ensures ApplyBlocks(m, bs[..k + 1]) == ApplyBlock(ApplyBlocks(m, bs[..k]), bs[k])
  {
    assert bs[..k + 1][..k] == bs[..k];
  }

  /** `getVoxels`: one record per stored coordinate, in iteration order, each carrying
      the stored colour. */
  function Entries(m: VoxelMap): (r: seq<Block>)
    requires Valid(m)
    ensures |r| == |m.colors| == |m.order|
    ensures forall i :: 0 <= i < |r| ==> r[i].pos == m.order[i]
    ensures forall i :: 0 <= i < |r| ==> r[i].pos in m.colors && r[i].color == Some(m.colors[r[i].pos])
    ensures forall p :: p in m.colors ==> exists i :: 0 <= i < |r| && r[i].pos == p
    ensures forall i, j :: 0 <= i < j < |r| ==> r[i].pos != r[j].pos
  {
    var r := seq(|m.order|, i requires 0 <= i < |m.order| => Block(m.order[i], Some(m.colors[m.order[i]])));
    EntriesFacts(m, r);
    r
  }

  /** What the records of `getVoxels` say about the map, from their pointwise description. */
  lemma EntriesFacts(m: VoxelMap, r: seq<Block>)
    requires Valid(m) && |r| == |m.order|
    requires forall i :: 0 <= i < |r| ==> r[i] == Block(m.order[i], Some(m.colors[m.order[i]]))
    ensures |r| == |m.colors|
    ensures forall i :: 0 <= i < |r| ==> r[i].pos in m.colors && r[i].color == Some(m.colors[r[i].pos])
    ensures forall p :: p in m.colors ==> exists i :: 0 <= i < |r| && r[i].pos == p
    ensures forall i, j :: 0 <= i < j < |r| ==> r[i].pos != r[j].pos
  {
    CountIsOrderLength(m);
    forall p | p in m.colors ensures exists i :: 0 <= i < |r| && r[i].pos == p {
      var i :| 0 <= i < |m.order| && m.order[i] == p;
      assert r[i].pos == p;
    }
  }

  /** The map holding the first `k` keys of `m` in iteration order. */
  function Prefix(m: VoxelMap, k: nat): (r: VoxelMap)
    requires Valid(m) && k <= |m.order|
  {
    VoxelMap(m.order[..k], map p | p in m.order[..k] :: m.colors[p])
  }

  /** Setting the next record of `getVoxels` extends the prefix by one key. */
  lemma PrefixStep(m: VoxelMap, k: nat)
    requires Valid(m) && k < |m.order|
    ensures Valid(Prefix(m, k))
    ensures ApplyBlock(Prefix(m, k), Entries(m)[k]) == Prefix(m, k + 1)
  {
    var pre, next := Prefix(m, k), Prefix(m, k + 1);
    var p := m.order[k];
    assert m.order[..k + 1] == m.order[..k] + [p];
    assert NoDup(pre.order) by {
      forall i, j | 0 <= i < j < k ensures pre.order[i] != pre.order[j] {
        assert pre.order[i] == m.order[i] && pre.order[j] == m.order[j];
      }
    }
    assert p !in pre.colors;
    var r := ApplyBlock(pre, Entries(m)[k]);
    assert r.order == next.order;
    assert r.colors == next.colors;
  }

  /** Feeding the records of `getVoxels` to `setVoxels` on a fresh model rebuilds the
      same map, iteration order included. */
  lemma EntriesRebuild(m: VoxelMap)
    requires Valid(m)
    ensures ApplyBlocks(Empty, Entries(m)) == m
  {
    var e := Entries(m);
    var k := 0;
    assert e[..0] == [];
    while k < |m.order|
      invariant 0 <= k <= |m.order| == |e|
      invariant ApplyBlocks(Empty, e[..k]) == Prefix(m, k)
    {
      assert ApplyBlocks(Empty, e[..k + 1]) == ApplyBlock(ApplyBlocks(Empty, e[..k]), e[k]) by {
        ApplyBlocksSnoc(Empty, e, k);
      }
      PrefixStep(m, k);
      k := k + 1;
    }
    assert e[..k] == e;
    PrefixAll(m);
  }

  /** The prefix of all the keys is the whole map. */
  lemma PrefixAll(m: VoxelMap)
    requires Valid(m)
    ensures Prefix(m, |m.order|) == m
  {
    assert m.order[..|m.order|] == m.order;
  }
}
