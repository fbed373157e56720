/** `VoxModel`: one project's voxels, updated in place. */
module Model {
  import opened Wrappers
  import opened Seqs
  import opened Voxels
  import opened VoxExport

  /** What the pass of `GenVox` has built after the first `k` keys of `entries`: the
      running maxima, the palette so far with its colour-to-index table, and the
      records so far. */
  ghost predicate PassState(entries: seq<Pos>, colors: map<Pos, Color>, k: nat,
                            sx: int, sy: int, sz: int,
                            rgbaValues: seq<Color>, rgbaTable: map<Color, int>, xyziValues: seq<Xyzi>)
  {
    && MaxState(entries, k, sx, sy, sz)
    && PaletteState(entries, colors, k, rgbaValues, rgbaTable)
    && RecordState(entries, colors, k, rgbaValues, xyziValues)
  }

  /** The running maxima are those of the first `k` keys. */
  ghost predicate MaxState(entries: seq<Pos>, k: nat, sx: int, sy: int, sz: int)
  {
    && k <= |entries|
    && sx == MaxCoord(entries[..k], X)
    && sy == MaxCoord(entries[..k], Y)
    && sz == MaxCoord(entries[..k], Z)
  }

  /** The palette is that of the first `k` keys, and the table indexes it. */
  ghost predicate PaletteState(entries: seq<Pos>, colors: map<Pos, Color>, k: nat,
                               rgbaValues: seq<Color>, rgbaTable: map<Color, int>)
  {
    && k <= |entries|
    && (forall p :: p in entries ==> p in colors)
    && rgbaValues == FirstOccurrences(ColorsOf(entries[..k], colors))
    && TableIndexes(rgbaValues, rgbaTable)
  }

  /** The records are those of the first `k` keys. */
  ghost predicate RecordState(entries: seq<Pos>, colors: map<Pos, Color>, k: nat,
                              rgbaValues: seq<Color>, xyziValues: seq<Xyzi>)
  {
    && k <= |entries|
    && Covers(entries[..k], colors, rgbaValues)
    && xyziValues == RecordsOf(entries[..k], colors, rgbaValues)
  }

  /** `rgbaTable` gives every palette colour its 1-based position and holds nothing else. */
  ghost predicate TableIndexes(rgbaValues: seq<Color>, rgbaTable: map<Color, int>)
  {
    && (forall j :: 0 <= j < |rgbaValues| ==> rgbaValues[j] in rgbaTable)
    && (forall c :: c in rgbaTable ==>
          1 <= rgbaTable[c] <= |rgbaValues| && rgbaValues[rgbaTable[c] - 1] == c)
  }

  /** A colour with a table entry is in the palette, at the position the entry gives. */
  lemma TableHit(rgbaValues: seq<Color>, rgbaTable: map<Color, int>, c: Color)
    requires NoDup(rgbaValues) && TableIndexes(rgbaValues, rgbaTable) && c in rgbaTable
    ensures c in rgbaValues && rgbaTable[c] == IndexOf(rgbaValues, c) + 1
  {
    IndexOfNoDup(rgbaValues, rgbaTable[c] - 1);
  }

  /** A colour without a table entry is not in the palette. */
  lemma TableMiss(rgbaValues: seq<Color>, rgbaTable: map<Color, int>, c: Color)
    requires TableIndexes(rgbaValues, rgbaTable) && c !in rgbaTable
    ensures c !in rgbaValues
  {
  }

  /** Appending a new colour to the palette and giving it the next index keeps the
      table in step with the palette. */
  lemma TableAdd(rgbaValues: seq<Color>, rgbaTable: map<Color, int>, c: Color)
    requires TableIndexes(rgbaValues, rgbaTable) && c !in rgbaValues
    ensures var values, table := rgbaValues + [c], rgbaTable[c := |rgbaValues| + 1];
      TableIndexes(values, table) && table[c] == IndexOf(values, c) + 1
  {
    var values, table := rgbaValues + [c], rgbaTable[c := |rgbaValues| + 1];
    forall d | d in table ensures 1 <= table[d] <= |values| && values[table[d] - 1] == d {
      if d != c {
        assert values[table[d] - 1] == rgbaValues[rgbaTable[d] - 1];
      }
    }
    assert values[|rgbaValues|] == c;
  }

  /** The palette part of one iteration: a colour not yet in the table is appended to
      the palette and given the next index; either way the table then gives the
      colour's first position, and the palette is that of one more key. */
  lemma PaletteStep(entries: seq<Pos>, colors: map<Pos, Color>, k: nat,
                    rgbaValues: seq<Color>, rgbaTable: map<Color, int>)
    requires PaletteState(entries, colors, k, rgbaValues, rgbaTable) && k < |entries|
    ensures
      var c := colors[entries[k]];
      var values := if c in rgbaTable then rgbaValues else rgbaValues + [c];
      var table := if c in rgbaTable then rgbaTable else rgbaTable[c := |rgbaValues| + 1];
      && PaletteState(entries, colors, k + 1, values, table)
      && c in values && c in table && table[c] == IndexOf(values, c) + 1
      && values[..|rgbaValues|] == rgbaValues
  {
    var c := colors[entries[k]];
    var pre := ColorsOf(entries[..k], colors);
    assert ColorsOf(entries[..k + 1], colors) == pre + [c] by {
      ColorsOfStep(entries, colors, k);
    }
    assert FirstOccurrences(pre + [c]) ==
      if c in rgbaValues then rgbaValues else rgbaValues + [c] by {
      FirstOccurrencesSnoc(pre, c);
    }
    if c in rgbaTable {
      TableHit(rgbaValues, rgbaTable, c);
    } else {
      TableMiss(rgbaValues, rgbaTable, c);
      TableAdd(rgbaValues, rgbaTable, c);
      assert (rgbaValues + [c])[..|rgbaValues|] == rgbaValues;
    }
  }

  /** The maxima part of one iteration. */
  lemma MaxStep(entries: seq<Pos>, k: nat, sx: int, sy: int, sz: int)
    requires MaxState(entries, k, sx, sy, sz) && k < |entries|
    ensures var p := entries[k];
      MaxState(entries, k + 1,
        if p.x > sx then p.x else sx,
        if p.y > sy then p.y else sy,
        if p.z > sz then p.z else sz)
  {
    MaxCoordStep(entries, k, X);
    MaxCoordStep(entries, k, Y);
    MaxCoordStep(entries, k, Z);
  }

  /** The records part of one iteration: the voxel is recorded with Y and Z swapped
      and the palette index of its colour. */
  lemma RecordStep(entries: seq<Pos>, colors: map<Pos, Color>, k: nat,
                   rgbaValues: seq<Color>, values: seq<Color>, i: int, xyziValues: seq<Xyzi>)
    requires RecordState(entries, colors, k, rgbaValues, xyziValues) && k < |entries|
    requires entries[k] in colors
    requires values == rgbaValues || values == rgbaValues + [colors[entries[k]]]
    requires colors[entries[k]] in values && i == IndexOf(values, colors[entries[k]]) + 1
    ensures var p := entries[k];
      RecordState(entries, colors, k + 1, values, xyziValues + [Xyzi(p.x, p.z, p.y, i)])
  {
    RecordsStep(entries, colors, k, rgbaValues, values);
  }

  /** Before the first key, nothing has been collected. */
  lemma PassStart(entries: seq<Pos>, colors: map<Pos, Color>)
    requires forall p :: p in entries ==> p in colors
    ensures PassState(entries, colors, 0, -1, -1, -1, [], map[], [])
  {
    assert entries[..0] == [];
  }

  /** One iteration of the pass: update the maxima, give a new colour the next
      palette index, and record the voxel with Y and Z swapped. */
  lemma PassStep(entries: seq<Pos>, colors: map<Pos, Color>, k: nat,
                 sx: int, sy: int, sz: int,
                 rgbaValues: seq<Color>, rgbaTable: map<Color, int>, xyziValues: seq<Xyzi>)
    requires PassState(entries, colors, k, sx, sy, sz, rgbaValues, rgbaTable, xyziValues)
    requires k < |entries|
    ensures
      var p := entries[k];
      var c := colors[p];
      var values := if c in rgbaTable then rgbaValues else rgbaValues + [c];
      var table := if c in rgbaTable then rgbaTable else rgbaTable[c := |rgbaValues| + 1];
      && c in table
      && PassState(entries, colors, k + 1,
           if p.x > sx then p.x else sx,
           if p.y > sy then p.y else sy,
           if p.z > sz then p.z else sz,
           values, table, xyziValues + [Xyzi(p.x, p.z, p.y, table[c])])
  {
    var p := entries[k];
    assert p in colors;
    var c := colors[p];
    var values := if c in rgbaTable then rgbaValues else rgbaValues + [c];
    var table := if c in rgbaTable then rgbaTable else rgbaTable[c := |rgbaValues| + 1];
    MaxStep(entries, k, sx, sy, sz);
    PaletteStep(entries, colors, k, rgbaValues, rgbaTable);
    RecordStep(entries, colors, k, rgbaValues, values, table[c], xyziValues);
  }

  /** After the last key, the pass has built the bounds, the palette and the records
      of the whole map. */
  lemma PassEnd(m: VoxelMap, k: nat, sx: int, sy: int, sz: int,
                rgbaValues: seq<Color>, rgbaTable: map<Color, int>, xyziValues: seq<Xyzi>)
    requires Valid(m)
    requires PassState(m.order, m.colors, k, sx, sy, sz, rgbaValues, rgbaTable, xyziValues)
    requires k >= |m.order|
    ensures VoxData(Size(sx + 1, sy + 1, sz + 1), |xyziValues|, xyziValues, Padded(rgbaValues)) == ExportAsWritten(m)
  {
    var e := m.order;
    assert k == |e| && e[..k] == e;
    assert Size(sx + 1, sy + 1, sz + 1) == Bounds(m) by {
      assert MaxState(e, k, sx, sy, sz);
    }
    assert rgbaValues == Palette(m) by {
      assert PaletteState(e, m.colors, k, rgbaValues, rgbaTable);
    }
    assert xyziValues == Records(m) && |xyziValues| == |e| by {
      assert RecordState(e, m.colors, k, rgbaValues, xyziValues);
    }
  }

  /** Appends white until the palette has 256 entries; a longer one is left as it is. */
  method PadPalette(values: seq<Color>) returns (padded: seq<Color>)
    ensures padded == Padded(values)
  {
    padded := values;
    while |padded| < PaletteLength
      invariant Padded(padded) == Padded(values)
      decreases PaletteLength - |padded|
    {
      padded := padded + [White];
    }
  }

  class VoxModel {
    /** The keys of `pos2color` in its iteration order. */
    var order: seq<Pos>
    var pos2color: map<Pos, Color>

    /** The map as a value. */
    function Contents(): VoxelMap
      reads this
    {
      VoxelMap(order, pos2color)
    }

    ghost predicate Valid()
      reads this
    {
      Voxels.Valid(Contents())
    }

    /** A new project holds no voxels. */
    constructor ()
      ensures Valid() && Contents() == Empty
    {
      order := [];
      pos2color := map[];
    }

    /** Applies the blocks in order: a block without a colour deletes its coordinate,
        any other sets it. */
    method SetVoxels(blocks: seq<Block>)
      requires Valid()
      modifies this
      ensures Valid()
      ensures Contents() == ApplyBlocks(old(Contents()), blocks)
    {
      var k := 0;
      while k < |blocks|
        invariant 0 <= k <= |blocks|
        invariant Valid()
        invariant Contents() == ApplyBlocks(old(Contents()), blocks[..k])
      {
        var b := blocks[k];
        ghost var before := Contents();
        ghost var after := ApplyBlock(before, b);
        assert ApplyBlocks(old(Contents()), blocks[..k + 1]) == after by {
          ApplyBlocksSnoc(old(Contents()), blocks, k);
        }
        ApplyBlockByFields(before, b);
        if b.color == None {
          order := Without(order, b.pos);
          pos2color := pos2color - {b.pos};
        } else {
          if b.pos !in pos2color {
            order := order + [b.pos];
          }
          pos2color := pos2color[b.pos := b.color.value];
        }
        k := k + 1;
      }
      assert blocks[..k] == blocks;
    }

    /** The stored voxels as records, in iteration order. */
    function GetVoxels(): (r: seq<Block>)
      reads this
      requires Valid()
      ensures |r| == |order| == |pos2color|
      ensures forall i :: 0 <= i < |r| ==> r[i] == Block(order[i], Some(pos2color[order[i]]))
    {
      Entries(Contents())
    }

    /** One pass over the map in iteration order collects the size, the palette and
        the records; the palette is then padded with white to 256 entries. As in the
        source, the records swap Y and Z but the size does not. */
    method GenVox() returns (v: VoxData)
      requires Valid()
      ensures v == ExportAsWritten(Contents())
    {
      ghost var m := Contents();
      var entries, colors := order, pos2color;
      var sx, sy, sz := -1, -1, -1;
      var rgbaValues: seq<Color> := [];
      var rgbaTable: map<Color, int> := map[];
      var xyziValues: seq<Xyzi> := [];
      PassStart(entries, colors);
      var k := 0;
      while k < |entries|
        invariant PassState(entries, colors, k, sx, sy, sz, rgbaValues, rgbaTable, xyziValues)
      {
        PassStep(entries, colors, k, sx, sy, sz, rgbaValues, rgbaTable, xyziValues);
        var p := entries[k];
        var c := colors[p];
        if p.x > sx { sx := p.x; }
        if p.y > sy { sy := p.y; }
        if p.z > sz { sz := p.z; }
        if c !in rgbaTable {
          rgbaTable := rgbaTable[c := |rgbaValues| + 1];
          rgbaValues := rgbaValues + [c];
        }
        xyziValues := xyziValues + [Xyzi(p.x, p.z, p.y, rgbaTable[c])];
        k := k + 1;
      }
      PassEnd(m, k, sx, sy, sz, rgbaValues, rgbaTable, xyziValues);
      var palette := PadPalette(rgbaValues);
      v := VoxData(Size(sx + 1, sy + 1, sz + 1), |xyziValues|, xyziValues, palette);
    }
  }
}
