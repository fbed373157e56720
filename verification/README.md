# VoxBuilder voxel model, in Dafny

This project models the core of the VoxBuilder MCP server (`index.ts`). That core has two parts:

- `VoxModel`: a sparse, mutable map from integer coordinates to RGBA colours. It can be edited with `setVoxels`, read with `getVoxels`, and turned by `genVox` into the three structures a MagicaVoxel `.vox` writer consumes: the grid size, the voxel records with palette indices, and a 256-entry RGBA palette.
- The `models` registry: it maps each project name to its model, and `create` fills it.

The source's `pos2color` is a JavaScript `Map` keyed by the strings `"x,y,z"`. Here the key is the coordinate itself (`Voxels.Pos`). The map's iteration order is modelled explicitly, because `getVoxels` lists voxels in that order and `genVox` assigns palette indices in it. `Voxels.VoxelMap` pairs the colours with a sequence of keys in insertion order:

- setting a new key appends it;
- overwriting a key keeps its place;
- deleting a key removes it from the order.

Modules:

- `Voxels` (`voxels.dfy`): coordinates, colours, blocks, the ordered map, and `setVoxels`/`getVoxels` as functions on values.
- `VoxExport` (`export.dfy`): what `genVox` computes, with the properties of its result.
- `Model` (`model.dfy`): the class `VoxModel`. Its fields `order` and `pos2color` are updated in place by `SetVoxels`. `GenVox` is a read-only method whose loops follow the source's pass and padding loop.
- `Projects` (`projects.dfy`): the registry class and the request handlers' look-ups.
- `Seqs` (`seqs.dfy`): sequence facts (no duplicates, first occurrences, removal).
- `Wrappers` (`wrappers.dfy`): `Option`.

## Model

| member | source | states |
|---|---|---|
| `Voxels.Delete` | index.ts:29-30 | After a delete the coordinate has no colour and every other coordinate keeps its own. The key's slot is closed, and the remaining keys keep their relative iteration order. Deleting an absent coordinate leaves the map, order included, unchanged. |
| `Voxels.Insert` | index.ts:31-32 | After a set the coordinate maps to exactly the given colour and every other coordinate is unchanged. An existing key keeps its iteration position and a new key goes last. |
| `Voxels.ApplyBlock` | index.ts:28-33 | A block without a colour clears its coordinate. A block with a colour sets it. No other coordinate changes. |
| `Voxels.ApplyBlocks` | index.ts:27-34 | Applying blocks in input order keeps the map well formed: each stored key appears exactly once in the iteration order. |
| `Voxels.ApplyBlocksUntouched` | index.ts:27-34 | A coordinate that no block mentions keeps its colour, or stays absent. |
| `Voxels.ApplyBlocksLastWins` | index.ts:27-34 | Last write wins: a coordinate ends with the colour of the last block that mentions it, or with no colour if that block has none. |
| `Voxels.ApplyBlocksTwiceColors` | index.ts:27-34 | Applying the same blocks twice gives the same colours as applying them once. |
| `Voxels.ApplyBlocksTwiceReorders` | index.ts:27-34 | The iteration order is not idempotent: some block list applied twice gives a different key order than applied once. |
| `VoxExport.ApplyBlocksTwiceReordersPalette` | index.ts:27-34 | Because of that reordering, the palette order is not idempotent either: some block list applied twice gives a different `genVox` palette than applied once. |
| `Voxels.Entries` | index.ts:36-41 | `getVoxels` lists the records in the map's iteration order: record i is the i-th key in insertion order. It gives one record per stored coordinate and no coordinate twice. Each record carries the stored colour, and there are as many records as stored voxels. |
| `Model.VoxModel.GetVoxels` | index.ts:36-41 | Read from the object, `getVoxels` has one record per stored voxel, and record i is the i-th key of `pos2color` together with its stored colour. |
| `Voxels.EntriesRebuild` | index.ts:26-41 | Feeding the output of `getVoxels` to `setVoxels` on a fresh model rebuilds the same map, iteration order included. |
| `Model.VoxModel.constructor` | index.ts:25 | A new model holds the empty map. |
| `Model.VoxModel.SetVoxels` | index.ts:26-35 | The in-place loop leaves the model holding exactly the blocks applied in order to the old map. |
| `Model.VoxModel.GenVox` | index.ts:42-73 | The pass and the padding loop produce exactly `VoxExport.ExportAsWritten` of the model, the source's result: the records swap Y and Z and the size does not. Nothing changes. |
| `Model.PassStep` | index.ts:47-58 | One iteration of the pass keeps the running maxima, the first-occurrence palette, its colour-to-index table and the records in step with the keys seen so far. |
| `Model.PadPalette` | index.ts:60-62 | The padding loop yields the palette padded with white. |
| `VoxExport.MaxCoord` | index.ts:49-51 | The running maximum of an axis is at least -1 and no less than any coordinate. It equals some coordinate unless it is -1. |
| `VoxExport.Bounds` | index.ts:43-59 | Each size component is one more than the largest coordinate on its own axis, with a floor of 0. Axes are not swapped. An empty model gives (0, 0, 0). |
| `VoxExport.Padded` | index.ts:60-62 | The padded palette starts with the palette, continues with white only, and has length max(256, palette length). |
| `VoxExport.ExportSwapsOnlySize` | index.ts:57-64 | The corrected export and the one as written have the same records, count and palette. Only the size differs: its Y and Z trade places. |
| `VoxExport.ExportCounts` | index.ts:63-68 | `numVoxels` equals the number of records, which equals the number of stored voxels. |
| `VoxExport.ExportRecords` | index.ts:52-57 | Each record is its voxel with Y and Z swapped. Its index `i` satisfies 1 <= i <= number of distinct colours, and `rgba[i-1]` is the voxel's colour. |
| `VoxExport.ExportPalette` | index.ts:52-62 | The palette's first N entries are exactly the distinct stored colours, none twice; the rest are white. Its length is max(256, N). |
| `VoxExport.PaletteFirstOccurrenceOrder` | index.ts:53-56 | Palette entries appear in the order in which the pass first meets each colour. |
| `VoxExport.SingleColorPalette` | index.ts:52-57 | When all voxels share one colour, the palette has exactly that one colour entry and every record has index 1. |
| `VoxExport.AsWrittenRecordOutsideSize` | index.ts:57-59 | As written, the voxel (0, 5, 0) is recorded at z = 5 while the declared size along z is 1. |
| `VoxExport.ExportRecordsWithinSize` | index.ts:57-59 | With the size swapped like the records, every record lies below the declared size on each axis. It lies inside the grid when its coordinates are not negative. |
| `VoxExport.AxisSwapExample` | index.ts:49-59 | The voxel (1, 2, 3) is recorded at (1, 3, 2) with index 1. As written (`ExportAsWritten`) the declared grid is (2, 3, 4). The corrected `Export` declares (2, 4, 3). |
| `Seqs.Without` | index.ts:30 | Removing a key from the iteration order drops exactly that key, keeps the rest free of duplicates, and changes nothing when the key is absent. |
| `Seqs.WithoutKeepsOrder` | index.ts:30 | In a duplicate-free order, removing the key at position i leaves exactly the keys before i followed by the keys after it. |
| `Seqs.FirstOccurrences` | index.ts:53-56 | The deduplicated colours have no repetition and hold exactly the colours of the input. |
| `Seqs.FirstOccurrencesOrder` | index.ts:53-56 | Deduplicated elements keep the order of their first occurrences. |
| `Seqs.IndexOf` | index.ts:54 | The index handed out for a colour is the position of its first occurrence in the palette. |
| `Projects.Registry.constructor` | index.ts:76 | The registry starts empty. |
| `Projects.Registry.Create` | index.ts:82 | `create` installs a fresh empty model under the name and overwrites any previous one. Other names keep their models and voxels. `getVoxels` on the new model gives the empty list. |
| `Projects.Registry.Lookup` | index.ts:102 | A look-up yields the registered model, or `None` for an unknown name. |
| `Projects.Registry.SetVoxels` | index.ts:101-103 | The handler applies the blocks to the named model. Every other name keeps its voxels, because no two names share a model. The registry itself is unchanged. An unknown name is reported and changes nothing. |
| `Projects.Registry.GetVoxels` | index.ts:108-109 | The handler returns the named model's records, or `None` for an unknown name. |
| `Projects.Registry.ExportVox` | index.ts:115-116 | The handler returns the value `genVox` computes for the named model, `VoxExport.ExportAsWritten`, or `None` for an unknown name. |

## Findings

| source | as written | input that shows it | evidently intended | confidence | as-written member | corrected member |
|---|---|---|---|---|---|---|
| index.ts:57-59 | The records are stored as `{x, y: z, z: y}`, but `size` keeps the source axes, so `size.y` bounds source y and `size.z` bounds source z. | A single voxel at (0, 5, 0) is recorded at (0, 0, 5), while the declared size is (1, 6, 1). | The size swaps Y and Z like the records, so the declared grid contains every record: (1, 1, 6) here. | medium, not executed | `VoxExport.ExportAsWritten` | `VoxExport.Export` |

`VoxExport.AsWrittenRecordOutsideSize` exhibits the discrepancy in `ExportAsWritten`, which is what `Model.VoxModel.GenVox` and `Projects.Registry.ExportVox` compute.

Two things point to the swapped size as the intent:
- the source itself swaps Y and Z when it builds each record (index.ts:57);
- in a `.vox` file, every XYZI record must lie inside the grid that the SIZE chunk declares.

`VoxExport.Export` is the corrected definition. `VoxExport.ExportRecordsWithinSize` proves that it keeps every record inside the declared size. `VoxExport.ExportSwapsOnlySize` proves that it differs from `ExportAsWritten` in the size alone.

## Left out

- MCP server construction, tool registration and the stdio transport (index.ts:12-16, 79-122). They are request plumbing. The acknowledgement texts of the handlers are not modelled.
- The zod argument schemas (index.ts:88-100, 107, 113-114). Input is taken as already validated. Coordinates and colour channels are unbounded integers, so fractional, NaN or `-0` coordinates are not modelled.
- `writeVox` from `vox-saver` and the `.vox` chunk framing (index.ts:8, 117). That is a foreign library. `ExportVox` stops at the value handed to it.
- `fs.writeFileSync` and `Buffer` (index.ts:117). These are file I/O, and a write failure is not modelled.
- The string keys `"x,y,z"` and `"r,g,b,a"` and their parsing back with `split(",").map(Number)` (index.ts:28, 38, 48, 52). Keys are structural values instead.
- The `package.json` version (index.ts:10). It is configuration only.
- Colours are stored as values. The source stores the caller's colour object by reference, so aliasing is not modelled: a later mutation of that object would be visible through the map and the palette.
- More than 256 distinct colours are modelled as the source behaves: the palette is then longer than 256 entries and indices exceed 255. No overflow policy is modelled.
- `Projects.Registry.Lookup`: the source does not check the name and throws a TypeError on an unknown project (index.ts:102, 109, 116). What the MCP server SDK (`@modelcontextprotocol/sdk`, index.ts:2-6) does with that exception is not part of this model. The model returns `None` instead, and the handlers report it.
