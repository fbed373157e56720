/** `genVox`: the three structures a MagicaVoxel `.vox` writer consumes, derived in one
    pass over the voxel map in its iteration order: the declared grid size, the voxel
    records with palette indices, and the 256-entry RGBA palette. */
module VoxExport {
  import opened Seqs
  import opened Voxels

  /** Declared grid dimensions. */
  datatype Size = Size(x: int, y: int, z: int)

  /** One voxel record of the file: coordinates and a 1-based palette index. */
  datatype Xyzi = Xyzi(x: int, y: int, z: int, i: int)

  /** The value handed to the `.vox` writer: `size`, `xyzi.numVoxels`, `xyzi.values`
      and `rgba.values`. */
  datatype VoxData = VoxData(size: Size, numVoxels: int, values: seq<Xyzi>, rgba: seq<Color>)

  /** The filler colour that pads the palette. */
  const White := Color(255, 255, 255, 255)

  /** The number of entries of a `.vox` colour table. */
  const PaletteLength := 256

  datatype Axis = X | Y | Z

  function Coord(p: Pos, a: Axis): int
  {
    match a
    case X => p.x
    case Y => p.y
    case Z => p.z
  }

  /** The running maximum of one axis over `ps`, starting from -1. */
  function MaxCoord(ps: seq<Pos>, a: Axis): (r: int)
    ensures r >= -1
    ensures forall i :: 0 <= i < |ps| ==> Coord(ps[i], a) <= r
    ensures r == -1 || exists i :: 0 <= i < |ps| && Coord(ps[i], a) == r
  {
    if ps == [] then -1
    else
      var m := MaxCoord(ps[..|ps| - 1], a);
      var c := Coord(ps[|ps| - 1], a);
      assert forall i :: 0 <= i < |ps| - 1 ==> ps[..|ps| - 1][i] == ps[i];
      if c > m then c else m
  }

  /** The running maximum takes one more coordinate into account. */
  lemma MaxCoordStep(ps: seq<Pos>, k: nat, a: Axis)
    requires k < |ps|
    ensures MaxCoord(ps[..k + 1], a) ==
      if Coord(ps[k], a) > MaxCoord(ps[..k], a) then Coord(ps[k], a) else MaxCoord(ps[..k], a)
  {
    assert ps[..k + 1][..k] == ps[..k];
  }

  /** The colours of `ps` in the order of `ps`. */
  function ColorsOf(ps: seq<Pos>, colors: map<Pos, Color>): seq<Color>
    requires forall p :: p in ps ==> p in colors
  {
    seq(|ps|, i requires 0 <= i < |ps| => colors[ps[i]])
  }

  /** The colours of one more key. */
  lemma ColorsOfStep(ps: seq<Pos>, colors: map<Pos, Color>, k: nat)
    requires k < |ps| && forall p :: p in ps ==> p in colors
    ensures forall p :: p in ps[..k] ==> p in colors
    ensures ColorsOf(ps[..k + 1], colors) == ColorsOf(ps[..k], colors) + [colors[ps[k]]]
  {
  }

  /** The distinct colours of the map, in the order the pass over it first meets them. */
  function Palette(m: VoxelMap): seq<Color>
    requires Valid(m)
  {
    FirstOccurrences(ColorsOf(m.order, m.colors))
  }

  /** The record of the voxel at `p`: Y and Z trade places, and the index is one more
      than the position of the voxel's colour in the palette. */
  function Record(p: Pos, c: Color, pal: seq<Color>): Xyzi
    requires c in pal
  {
    Xyzi(p.x, p.z, p.y, IndexOf(pal, c) + 1)
  }

  /** The palette padded with white up to 256 entries; a longer one stays as it is. */
  function Padded(pal: seq<Color>): (r: seq<Color>)
    ensures |r| == if |pal| < PaletteLength then PaletteLength else |pal|
    ensures r[..|pal|] == pal
    ensures forall j :: |pal| <= j < |r| ==> r[j] == White
    decreases PaletteLength - |pal|
  {
    if |pal| < PaletteLength then
      var r := Padded(pal + [White]);
      assert r[..|pal|] == r[..|pal| + 1][..|pal|];
      r
    else pal
  }

  /** One plus the maximum of each axis, as computed by the source: the axes are NOT
      swapped here, although they are in the records. */
  function Bounds(m: VoxelMap): (s: Size)
    ensures s.x >= 0 && s.y >= 0 && s.z >= 0
    ensures forall p :: p in m.order ==> p.x < s.x && p.y < s.y && p.z < s.z
    ensures s.x == 0 || exists p :: p in m.order && p.x == s.x - 1
    ensures s.y == 0 || exists p :: p in m.order && p.y == s.y - 1
    ensures s.z == 0 || exists p :: p in m.order && p.z == s.z - 1
    ensures m.order == [] ==> s == Size(0, 0, 0)
  {
    Size(MaxCoord(m.order, X) + 1, MaxCoord(m.order, Y) + 1, MaxCoord(m.order, Z) + 1)
  }

  /** Every key of `ps` is stored, and its colour is in `pal`. */
  ghost predicate Covers(ps: seq<Pos>, colors: map<Pos, Color>, pal: seq<Color>)
  {
    forall p :: p in ps ==> p in colors && colors[p] in pal
  }

  /** The records of the voxels at `ps`, in that order. */
  function RecordsOf(ps: seq<Pos>, colors: map<Pos, Color>, pal: seq<Color>): seq<Xyzi>
    requires Covers(ps, colors, pal)
  {
    seq(|ps|, i requires 0 <= i < |ps| => Record(ps[i], colors[ps[i]], pal))
  }

  /** The records of one more key, when the palette either stays or gains that
      key's colour at its end. */
  lemma RecordsStep(ps: seq<Pos>, colors: map<Pos, Color>, k: nat, pal: seq<Color>, pal': seq<Color>)
    requires k < |ps| && ps[k] in colors
    requires Covers(ps[..k], colors, pal)
    requires pal' == pal || pal' == pal + [colors[ps[k]]]
    requires colors[ps[k]] in pal'
    ensures Covers(ps[..k + 1], colors, pal')
    ensures RecordsOf(ps[..k + 1], colors, pal') ==
      RecordsOf(ps[..k], colors, pal) + [Record(ps[k], colors[ps[k]], pal')]
  {
    assert ps[..k + 1] == ps[..k] + [ps[k]];
    var pre, next := RecordsOf(ps[..k], colors, pal), RecordsOf(ps[..k + 1], colors, pal');
    forall i | 0 <= i < k ensures next[i] == pre[i] {
      var p := ps[..k][i];
      assert p in ps[..k];
      assert ps[..k + 1][i] == p;
      if pal' != pal {
        IndexOfAppend(pal, colors[ps[k]], colors[p]);
      }
    }
  }

  /** The palette holds the colour of every stored voxel. */
  lemma PaletteCovers(m: VoxelMap)
    requires Valid(m)
    ensures Covers(m.order, m.colors, Palette(m))
  {
    var cs := ColorsOf(m.order, m.colors);
    forall p | p in m.order ensures m.colors[p] in Palette(m) {
      var k :| 0 <= k < |m.order| && m.order[k] == p;
      assert cs[k] == m.colors[p];
    }
  }

  /** The records of all voxels, in iteration order. */
  function Records(m: VoxelMap): seq<Xyzi>
    requires Valid(m)
  {
    PaletteCovers(m);
    RecordsOf(m.order, m.colors, Palette(m))
  }

  /** `genVox` as written: the size keeps the source's axes while the records swap Y
      and Z. */
  function ExportAsWritten(m: VoxelMap): VoxData
    requires Valid(m)
  {
    VoxData(Bounds(m), |m.order|, Records(m), Padded(Palette(m)))
  }

  /** `genVox` with the size swapped like the records, so that the declared grid is
      the one the records are placed in. */
  function Export(m: VoxelMap): VoxData
    requires Valid(m)
  {
    var b := Bounds(m);
    VoxData(Size(b.x, b.z, b.y), |m.order|, Records(m), Padded(Palette(m)))
  }

  /** The corrected export differs from the one as written only in its size, whose
      Y and Z trade places like the records' do. */
  lemma ExportSwapsOnlySize(m: VoxelMap)
    requires Valid(m)
    ensures var w, v := ExportAsWritten(m), Export(m);
      && v.size == Size(w.size.x, w.size.z, w.size.y)
      && v.numVoxels == w.numVoxels && v.values == w.values && v.rgba == w.rgba
  {
  }

  /** `numVoxels` is the number of records, which is the number of stored voxels. */
  lemma ExportCounts(m: VoxelMap)
    requires Valid(m)
    ensures Export(m).numVoxels == |Export(m).values| == |m.colors|
    ensures ExportAsWritten(m).numVoxels == |ExportAsWritten(m).values| == |m.colors|
  {
    CountIsOrderLength(m);
  }

  /** Every record is its voxel with Y and Z swapped, and its index points, 1-based,
      at the voxel's colour among the first palette entries. */
  lemma ExportRecords(m: VoxelMap)
    requires Valid(m)
    ensures var v := ExportAsWritten(m);
      forall k :: 0 <= k < |v.values| ==>
        var p, r := m.order[k], v.values[k];
        && r.x == p.x && r.y == p.z && r.z == p.y
        && 1 <= r.i <= |Palette(m)|
        && v.rgba[r.i - 1] == m.colors[p]
  {
    var v := ExportAsWritten(m);
    var pal := Palette(m);
    assert |v.values| == |m.order|;
    PaletteCovers(m);
    forall k | 0 <= k < |v.values|
      ensures 1 <= v.values[k].i <= |pal| && v.rgba[v.values[k].i - 1] == m.colors[m.order[k]]
    {
      assert v.rgba[..|pal|] == pal;
    }
  }

  /** The palette: the distinct stored colours, no one twice, in the order the pass
      first meets them, then white up to 256 entries (a longer palette is not cut). */
  lemma ExportPalette(m: VoxelMap)
    requires Valid(m)
    ensures var rgba, pal := ExportAsWritten(m).rgba, Palette(m);
      && |rgba| == (if |pal| < PaletteLength then PaletteLength else |pal|)
      && rgba[..|pal|] == pal
      && NoDup(pal)
      && (forall c :: c in pal <==> c in m.colors.Values)
      && (forall j :: |pal| <= j < |rgba| ==> rgba[j] == White)
  {
    var cs := ColorsOf(m.order, m.colors);
    forall c ensures c in cs <==> c in m.colors.Values {
      if c in m.colors.Values {
        var p :| p in m.colors && m.colors[p] == c;
        var k :| 0 <= k < |m.order| && m.order[k] == p;
        assert cs[k] == c;
      }
    }
  }

  /** Palette entries appear in the order of the first voxel, in iteration order, that
      carries each colour. */
  lemma PaletteFirstOccurrenceOrder(m: VoxelMap)
    requires Valid(m)
    ensures var cs, pal := ColorsOf(m.order, m.colors), Palette(m);
      forall i, j :: 0 <= i < j < |pal| ==> IndexOf(cs, pal[i]) < IndexOf(cs, pal[j])
  {
    FirstOccurrencesOrder(ColorsOf(m.order, m.colors));
  }

  /** When every voxel has the same colour, the palette has exactly one colour entry
      and every record refers to index 1. */
  lemma SingleColorPalette(m: VoxelMap, c: Color)
    requires Valid(m) && m.colors != map[]
    requires forall p :: p in m.colors ==> m.colors[p] == c
    ensures Palette(m) == [c]
    ensures forall k :: 0 <= k < |ExportAsWritten(m).values| ==> ExportAsWritten(m).values[k].i == 1
  {
    var cs := ColorsOf(m.order, m.colors);
    assert cs != [] by {
      var p :| p in m.colors;
      assert p in m.order;
    }
    assert forall i :: 0 <= i < |cs| ==> cs[i] == c by {
      forall i | 0 <= i < |cs| ensures cs[i] == c {
        assert m.order[i] in m.colors;
      }
    }
    assert Palette(m) == [c] by {
      FirstOccurrencesConstant(cs, c);
    }
    var rs := Records(m);
    forall k | 0 <= k < |rs| ensures rs[k].i == 1 {
      assert m.order[k] in m.order;
      assert rs[k] == Record(m.order[k], m.colors[m.order[k]], [c]);
    }
    assert ExportAsWritten(m).values == rs;
  }

  /** Two distinct colours met one after the other make a palette of both, in that order. */
  lemma PaletteOfTwo(p: Pos, q: Pos, c: Color, d: Color)
    requires p != q && c != d
    ensures Palette(VoxelMap([p, q], map[p := c, q := d])) == [c, d]
  {
    var m := VoxelMap([p, q], map[p := c, q := d]);
    var cs := ColorsOf(m.order, m.colors);
    assert cs == [c, d] by {
      assert cs[0] == c && cs[1] == d;
    }
    FirstOccurrencesOfTwo(c, d);
  }

  /** Because `setVoxels` is not idempotent on the iteration order, it is not on the
      palette either: one block list applied twice gives a palette in a different
      order than applied once, so the exported colour indices differ. */
  lemma ApplyBlocksTwiceReordersPalette()
    ensures exists bs: seq<Block> ::
      Palette(ApplyBlocks(ApplyBlocks(Empty, bs), bs)) != Palette(ApplyBlocks(Empty, bs))
  {
    var p, q := Pos(0, 0, 0), Pos(1, 0, 0);
    var c, d := Color(1, 2, 3, 255), Color(4, 5, 6, 255);
    var bs := ReorderingBlocks(p, q, c, d);
    var once := ApplyBlocks(Empty, bs);
    assert once == VoxelMap([p, q], map[p := c, q := d]) by {
      ReorderingOnce(p, q, c, d);
    }
    var twice := ApplyBlocks(once, bs);
    assert twice == VoxelMap([q, p], map[q := d, p := c]) by {
      ReorderingTwice(p, q, c, d);
      assert map[q := d, p := c] == map[p := c, q := d];
    }
    assert Palette(once) == [c, d] by {
      PaletteOfTwo(p, q, c, d);
    }
    assert Palette(twice) == [d, c] by {
      PaletteOfTwo(q, p, d, c);
    }
    assert Palette(twice)[0] != Palette(once)[0];
  }

  /** As written, a voxel can lie outside the declared grid: the voxel (0, 5, 0) is
      recorded at z = 5 while the declared size along z is 1. */
  lemma AsWrittenRecordOutsideSize()
    ensures exists m: VoxelMap ::
      (Valid(m) && |m.order| == 1 && ExportAsWritten(m).values[0].z >= ExportAsWritten(m).size.z)
  {
    var p := Pos(0, 5, 0);
    var m := VoxelMap([p], map[p := White]);
    assert ExportAsWritten(m).size.z == 1 by {
      assert m.order[..0] == [];
    }
    assert ExportAsWritten(m).values[0].z == 5;
  }

  /** With the size swapped like the records, every record lies below the declared
      size on each axis, and inside the grid when the coordinates are not negative. */
  lemma ExportRecordsWithinSize(m: VoxelMap)
    requires Valid(m)
    ensures var v := Export(m);
      forall k :: 0 <= k < |v.values| ==>
        && v.values[k].x < v.size.x && v.values[k].y < v.size.y && v.values[k].z < v.size.z
        && (m.order[k].x >= 0 && m.order[k].y >= 0 && m.order[k].z >= 0 ==>
              0 <= v.values[k].x && 0 <= v.values[k].y && 0 <= v.values[k].z)
  {
    var v := Export(m);
    forall k | 0 <= k < |v.values|
      ensures v.values[k].x < v.size.x && v.values[k].y < v.size.y && v.values[k].z < v.size.z
    {
      assert m.order[k] in m.order;
    }
  }

  /** A single voxel at (1, 2, 3) is recorded at (1, 3, 2) with index 1 and declares
      the grid (2, 4, 3); as written the declared grid is (2, 3, 4). */
  lemma AxisSwapExample(c: Color)
    ensures var p := Pos(1, 2, 3); var m := VoxelMap([p], map[p := c]);
      && Export(m).values == [Xyzi(1, 3, 2, 1)]
      && Export(m).size == Size(2, 4, 3)
      && ExportAsWritten(m).size == Size(2, 3, 4)
      && Export(m).rgba[0] == c
  {
    var p := Pos(1, 2, 3);
    var m := VoxelMap([p], map[p := c]);
    assert m.order[..0] == [];
    assert ColorsOf(m.order, m.colors) == [c];
    assert [c][..0] == [];
    assert Palette(m) == [c];
    ExportPalette(m);
  }
}
