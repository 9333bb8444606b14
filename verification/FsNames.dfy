/**
  Names that do not fit the directory's name field, on disks that mkfs wrote: the kernel
  stores them cut and compares them whole, and this is what becomes of them.
 */
module FsNames {
  import opened FsFormat
  import opened Journal
  import opened FsModel
  import opened FsRefinement
  import opened MkFs

  /** A name of n letters. */
  function Letters(n: nat): (s: seq<byte>)
    ensures |s| == n && 0 !in s
  {
    seq(n, i => 98)
  }

  /** A disk with one empty file of that name. */
  function OneFile(name: seq<byte>): seq<Input> { [Input(name, [])] }

  lemma OneFileMounts(name: seq<byte>)
    requires 0 !in name
    ensures var files := OneFile(name);
            Fitting(files) && Consistent(MountedMem(files), MkFs.Image(files))
              && Names(MountedMem(files)) == {Stored(name)}
            && MountedMem(files).nfiles == 1
  {
    var files := OneFile(name);
    assert files[..1] == files && files[..0] == [];
    assert AllData(files) == [];
    ImageMounts(files);
    ImageNames(files);
    var names := set i | 0 <= i < |files| :: Stored(files[i].name);
    assert names == {Stored(name)} by { assert Stored(files[0].name) in names; }
  }

  /** An empty file under a new whole name is accepted. */
  lemma EmptyAccepted(m: Mem, d: Disk, name: seq<byte>)
    requires Consistent(m, d) && m.nfiles == 1 && 0 !in name && name !in Names(m)
    ensures Creates(m, d, name, [])
  {
    assert CStr(m.dir[0].name) in Names(m);
    assert Find(m, name) == 1;
  }

  /** A name of 56 bytes: the create succeeds, and the file is not found under its name. */
  lemma LongNameLost()
    ensures var files, name := OneFile([97]), Letters(56);
            && Fitting(files) && Consistent(MountedMem(files), MkFs.Image(files))
            && Creates(MountedMem(files), MkFs.Image(files), name, [])
            && var m' := CreateOf(MountedMem(files), name, []).after;
               m'.nfiles == 2 && Find(m', name) == m'.nfiles
  {
    var files, name := OneFile([97]), Letters(56);
    OneFileMounts([97]);
    assert name != Stored([97]);
    var m, d := MountedMem(files), MkFs.Image(files);
    EmptyAccepted(m, d, name);
    CreatedIsFoundIffNameFits(m, d, name, []);
  }

  /** Two names that agree in their first 55 bytes: after the second create two entries carry the same stored name. */
  lemma CutNamesClash()
    ensures var files, name := OneFile(Letters(55)), Letters(56);
            && Fitting(files) && Consistent(MountedMem(files), MkFs.Image(files))
            && Creates(MountedMem(files), MkFs.Image(files), name, [])
            && var t := CreateOf(MountedMem(files), name, []);
               !Consistent(t.after, Commit(MkFs.Image(files), t))
  {
    var files, name := OneFile(Letters(55)), Letters(56);
    OneFileMounts(Letters(55));
    assert |name| == 56 && |Stored(Letters(55))| == 55;
    assert name != Stored(Letters(55));
    assert Stored(name) == Letters(55);
    var m, d := MountedMem(files), MkFs.Image(files);
    EmptyAccepted(m, d, name);
    CreateConsistentIffStoredNameFree(m, d, name, []);
  }
}
