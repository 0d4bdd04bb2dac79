/** Any sequence of entries added to a directory and taken out of it. */
module TfsDirectoryRun {
  import opened Octets
  import opened Wrappers
  import opened TfsAllocator
  import opened TfsBytes
  import opened TfsImage
  import opened TfsSpace
  import opened Tfs
  import opened TfsDirectory

  datatype Change = Appends(entry: Entry, pad: seq<Byte>) | Drops(fileno: nat)

  /** What the caller of a change must respect. */
  predicate Proper(c: Change) {
    c.Appends? ==>
      && |c.entry.name| <= MAX_NAME && |c.pad| == RealNameLen(|c.entry.name|) - |c.entry.name|
      && c.entry.fileno < 0x100000000
  }

  /** The entries after a change, if it succeeds. */
  function Changed(es: seq<Entry>, c: Change): seq<Entry> {
    match c
    case Appends(e, _) => es + [e]
    case Drops(fileno) => Without(es, ByFile(fileno))
  }

  /** The entries after the changes of which `went` tells the ones that succeeded. */
  function AllChanged(es: seq<Entry>, changes: seq<Change>, went: seq<bool>): seq<Entry>
    requires |went| == |changes|
  {
    if changes == [] then es
    else
      var n := |changes| - 1;
      var before := AllChanged(es, changes[..n], went[..n]);
      if went[n] then Changed(before, changes[n]) else before
  }

  lemma ChangedNext(es: seq<Entry>, changes: seq<Change>, i: nat, went: seq<bool>, w: bool)
    requires |went| == i < |changes|
    ensures AllChanged(es, changes[..i + 1], went + [w]) ==
      if w then Changed(AllChanged(es, changes[..i], went), changes[i]) else AllChanged(es, changes[..i], went)
  {
    assert changes[..i + 1][..i] == changes[..i] && (went + [w])[..i] == went;
  }

  /** One change: a directory of records stays one, unless an append is cut off within its record. */
  method ChangeOnce(fs: FileSystem, dir: nat, c: Change) returns (went: bool, torn: bool)
    requires fs.Valid() && dir in fs.inodes && Proper(c)
    requires dir in fs.Files() && Entries(fs.Files()[dir]).Some?
    modifies fs, fs.blocks
    ensures fs.Valid() && dir in fs.inodes && dir in fs.Files()
    ensures fs.Files() == old(fs.Files())[dir := fs.Files()[dir]]
    ensures torn ==> c.Appends? && !went && Entries(fs.Files()[dir]).None?
    ensures fs.g.units > 0 && (c.Appends? ==>
      var size := |old(fs.Files())[dir]|;
      went <==> Affords(fs.g, size, size + |Record(c.entry, c.pad)|, old(fs.blocks.freeBlocks)))
    ensures c.Drops? ==> (went <==> Find(old(fs.Files())[dir], 0, ByFile(c.fileno)).Hit?)
    ensures !torn ==> Entries(fs.Files()[dir]) == Some(
      if went then Changed(Entries(old(fs.Files())[dir]).value, c) else Entries(old(fs.Files())[dir]).value)
  {
    hide FileSystem.Valid, FileSystem.Files, Sane, Filled, FilesOf, Counted, Entries, Named, Find, Excised, Without;
    hide Affords;
    InFiles(fs, dir);
    torn := false;
    match c {
      case Appends(e, pad) =>
        hide Record;
        var wrote;
        went, wrote := AppendEntry(fs, dir, e, pad);
        torn := !went && wrote != 0;
      case Drops(fileno) =>
        var result := RemoveEntry(fs, dir, fileno);
        went := result.Ok?;
    }
    InFiles(fs, dir);
  }

  /** A run ends with the directory holding what the changes come to; only an append that was cut off ends it early,
      and then the directory cannot be read.  No other file changes. */
  method Run(fs: FileSystem, dir: nat, changes: seq<Change>) returns (went: seq<bool>, torn: bool)
    requires fs.Valid() && dir in fs.inodes && forall i :: 0 <= i < |changes| ==> Proper(changes[i])
    requires dir in fs.Files() && Entries(fs.Files()[dir]).Some?
    modifies fs, fs.blocks
    ensures fs.Valid() && dir in fs.Files() && fs.Files() == old(fs.Files())[dir := fs.Files()[dir]]
    ensures |went| <= |changes|
    ensures !torn ==>
      && |went| == |changes|
      && Entries(fs.Files()[dir]) == Some(AllChanged(Entries(old(fs.Files())[dir]).value, changes, went))
    ensures torn ==> Entries(fs.Files()[dir]).None? && |went| > 0 && !went[|went| - 1] && changes[|went| - 1].Appends?
  {
    hide FileSystem.Valid, FileSystem.Files, Sane, Filled, FilesOf, Counted, Entries, AllChanged, Changed, Proper;
    ghost var files, es := fs.Files(), Entries(fs.Files()[dir]).value;
    went, torn := [], false;
    ChangedNone(es, changes);
    while |went| < |changes| && !torn
      invariant fs.Valid() && dir in fs.inodes && dir in fs.Files() && fs.Files() == files[dir := fs.Files()[dir]]
      invariant |went| <= |changes|
      invariant !torn ==> Entries(fs.Files()[dir]) == Some(AllChanged(es, changes[..|went|], went))
      invariant torn ==>
        Entries(fs.Files()[dir]).None? && |went| > 0 && !went[|went| - 1] && changes[|went| - 1].Appends?
      decreases |changes| - |went|
      modifies fs, fs.blocks
    {
      var ok;
      ok, torn := ChangeOnce(fs, dir, changes[|went|]);
      ChangedNext(es, changes, |went|, went, ok);
      went := went + [ok];
    }
    assert !torn ==> changes[..|went|] == changes;
  }

  lemma ChangedNone(es: seq<Entry>, changes: seq<Change>)
    ensures AllChanged(es, changes[..0], []) == es
  {
  }
}
