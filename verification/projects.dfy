/** The process-wide table of projects, by name, and the look-ups the request
    handlers make in it. */
module Projects {
  import opened Wrappers
  import opened Voxels
  import opened VoxExport
  import opened Model

  class Registry {
    var models: map<string, VoxModel>

    /** Every registered project is a well-formed voxel model of its own: `create`
        always allocates a new one, so no two names share a model. */
    ghost predicate Valid()
      reads this, models.Values
    {
      && (forall name :: name in models ==> models[name].Valid())
      && (forall a, b :: a in models && b in models && a != b ==> models[a] != models[b])
    }

    /** The registry starts out empty. */
    constructor ()
      ensures Valid() && models == map[]
    {
      models := map[];
    }

    /** `create`: installs a fresh, empty model under `name`, replacing any model that
        was there; every other name keeps its model. */
    method Create(name: string)
      requires Valid()
      modifies this
      ensures Valid()
      ensures name in models && fresh(models[name]) && models[name].Contents() == Empty
      ensures Entries(models[name].Contents()) == []
      ensures forall n :: n != name ==> (n in models <==> n in old(models))
      ensures forall n :: n != name && n in old(models) ==> models[n] == old(models)[n]
      ensures forall n :: n != name && n in old(models) ==>
        models[n].Contents() == old(models[n].Contents())
    {
      var m := new VoxModel();
      models := models[name := m];
    }

    /** The model registered under `name`, or `None` where the source would crash on an
        undefined entry. */
    function Lookup(name: string): (r: Option<VoxModel>)
      reads this
      ensures r.Some? <==> name in models
      ensures r.Some? ==> r.value == models[name]
    {
      if name in models then Some(models[name]) else None
    }

    /** The `setVoxels` handler: applies the blocks to the named project; an unknown
        name is reported and changes nothing. */
    method SetVoxels(name: string, blocks: seq<Block>) returns (found: bool)
      requires Valid()
      modifies models.Values
      ensures Valid()
      ensures found <==> name in models
      ensures found ==> models[name].Contents() == ApplyBlocks(old(models[name].Contents()), blocks)
      ensures models == old(models)
      ensures forall n :: n in models && n != name ==>
        models[n].Contents() == old(models[n].Contents())
    {
      match Lookup(name)
      case None =>
        found := false;
      case Some(m) =>
        m.SetVoxels(blocks);
        found := true;
    }

    /** The `getVoxels` handler: the named project's records, or `None` for an
        unknown name. */
    method GetVoxels(name: string) returns (r: Option<seq<Block>>)
      requires Valid()
      ensures r.Some? <==> name in models
      ensures r.Some? ==> r.value == Entries(models[name].Contents())
    {
      match Lookup(name)
      case None =>
        r := None;
      case Some(m) =>
        r := Some(m.GetVoxels());
    }

    /** The `exportVox` handler up to the file writer: the named project's export, or
        `None` for an unknown name. */
    method ExportVox(name: string) returns (r: Option<VoxData>)
      requires Valid()
      ensures r.Some? <==> name in models
      ensures r.Some? ==> r.value == ExportAsWritten(models[name].Contents())
    {
      match Lookup(name)
      case None =>
        r := None;
      case Some(m) =>
        var v := m.GenVox();
        r := Some(v);
    }
  }
}
