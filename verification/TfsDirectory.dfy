/** Directories: variable-length records in the bytes of a file. */
module TfsDirectory {
  import opened Octets
  import opened Wrappers
  import opened TfsSlots
  import opened TfsAllocator
  import opened TfsFiles
  import opened TfsBytes
  import opened TfsImage
  import opened TfsSpace
  import opened Tfs

  const HEADER := 5
  const MAX_NAME := 255
  const WINDOW := HEADER + MAX_NAME

  datatype Entry = Entry(fileno: nat, name: seq<Byte>)

  /** A record as it lies in the file, with the bytes it takes. */
  datatype Head = Head(entry: Entry, len: nat)

  /** The name field fills up the record to a multiple of four bytes. */
  function RealNameLen(n: nat): (r: nat)
    ensures n <= r <= n + 3 && (HEADER + r) % 4 == 0
  {
    n + (3 - n % 4)
  }

  function Fileno(b: seq<Byte>): nat
    requires |b| >= 4
  {
    var b1: nat, b2: nat, b3: nat := b[1], b[2], b[3];
    b[0] + 0x100 * b1 + 0x10000 * b2 + 0x1000000 * b3
  }

  /** The record at the start of some bytes, if they hold a whole one. */
  function HeadOf(b: seq<Byte>): (r: Option<Head>)
    ensures r.Some? ==> HEADER <= r.value.len <= |b| && r.value.len <= WINDOW && |r.value.entry.name| <= MAX_NAME
  {
    if |b| < HEADER then None
    else
      var n := b[4];
      var len := HEADER + RealNameLen(n);
      if |b| < len then None else Some(Head(Entry(Fileno(b[..4]), b[HEADER..HEADER + n]), len))
  }

  /** The records in some bytes, if they are just records to the end. */
  function Entries(b: seq<Byte>): Option<seq<Entry>>
    decreases |b|
  {
    if b == [] then Some([])
    else
      match HeadOf(b)
      case None => None
      case Some(h) =>
        match Entries(b[h.len..])
        case None => None
        case Some(rest) => Some([h.entry] + rest)
  }

  lemma HeadPrefix(a: seq<Byte>, b: seq<Byte>)
    requires HeadOf(a).Some?
    ensures HeadOf(a + b) == HeadOf(a)
  {
    assert (a + b)[..4] == a[..4];
    var n := a[4];
    assert (a + b)[HEADER..HEADER + n] == a[HEADER..HEADER + n];
  }

  /** A record never reaches past what one read brings. */
  lemma HeadWindow(b: seq<Byte>)
    ensures HeadOf(if |b| > WINDOW then b[..WINDOW] else b) == HeadOf(b)
  {
    if |b| > WINDOW {
      var w := b[..WINDOW];
      assert w[..4] == b[..4];
      var n := b[4];
      assert w[HEADER..HEADER + n] == b[HEADER..HEADER + n];
    }
  }

  lemma EntriesNil()
    ensures Entries([]) == Some([])
  {
  }

  lemma EntriesStep(b: seq<Byte>, h: Head)
    requires b != [] && HeadOf(b) == Some(h)
    ensures h.len <= |b| && Entries(b).Some? == Entries(b[h.len..]).Some?
    ensures Entries(b).Some? ==> Entries(b).value == [h.entry] + Entries(b[h.len..]).value
  {
  }

  lemma EntriesNone(b: seq<Byte>)
    requires b != [] && HeadOf(b).None?
    ensures Entries(b).None?
  {
  }

  lemma EntriesHead(b: seq<Byte>)
    requires b != [] && Entries(b).Some?
    ensures HeadOf(b).Some?
  {
  }

  lemma {:induction false} EntriesConcat(a: seq<Byte>, b: seq<Byte>)
    requires Entries(a).Some? && Entries(b).Some?
    ensures Entries(a + b) == Some(Entries(a).value + Entries(b).value)
    decreases |a|
  {
    hide HeadOf, Entries;
    if a == [] {
      EntriesNil();
      assert a + b == b;
      assert [] + Entries(b).value == Entries(b).value;
    } else {
      EntriesHead(a);
      var h := HeadOf(a).value;
      EntriesStep(a, h);
      EntriesConcat(a[h.len..], b);
      ConcatStep(a, b, h);
    }
  }

  lemma ConcatStep(a: seq<Byte>, b: seq<Byte>, h: Head)
    requires a != [] && HeadOf(a) == Some(h) && Entries(a).Some? && Entries(a[h.len..]).Some? && Entries(b).Some?
    requires Entries(a[h.len..] + b) == Some(Entries(a[h.len..]).value + Entries(b).value)
    ensures Entries(a + b) == Some(Entries(a).value + Entries(b).value)
  {
    hide HeadOf, Entries;
    HeadPrefix(a, b);
    EntriesStep(a, h);
    EntriesStep(a + b, h);
    assert (a + b)[h.len..] == a[h.len..] + b;
    var x, y := Entries(a[h.len..]).value, Entries(b).value;
    assert [h.entry] + (x + y) == ([h.entry] + x) + y;
  }

  // --- the record of an entry

  function Word(n: nat): seq<Byte> {
    [n % 0x100, n / 0x100 % 0x100, n / 0x10000 % 0x100, n / 0x1000000 % 0x100]
  }

  /** The bytes of a new record; what stands behind the name is whatever the buffer held. */
  function Record(e: Entry, pad: seq<Byte>): seq<Byte>
    requires |e.name| <= MAX_NAME && |pad| == RealNameLen(|e.name|) - |e.name|
  {
    Word(e.fileno) + [|e.name|] + e.name + pad
  }

  lemma WordValue(n: nat)
    requires n < 0x100000000
    ensures Fileno(Word(n)) == n
  {
    var b0, b1, b2, b3 := n / 0x100, n / 0x10000, n / 0x1000000, 0;
    assert n == 0x100 * b0 + n % 0x100;
    assert b0 == 0x100 * b1 + b0 % 0x100;
    assert b1 == 0x100 * b2 + b1 % 0x100;
    assert b2 % 0x100 == b2;
  }

  lemma RecordParses(e: Entry, pad: seq<Byte>)
    requires |e.name| <= MAX_NAME && e.fileno < 0x100000000 && |pad| == RealNameLen(|e.name|) - |e.name|
    ensures Entries(Record(e, pad)) == Some([e])
    ensures |Record(e, pad)| == HEADER + RealNameLen(|e.name|)
  {
    var b := Record(e, pad);
    WordValue(e.fileno);
    hide Word, Fileno;
    assert |Word(e.fileno)| == 4 by { }
    assert b[4] == |e.name|;
    assert b[..4] == Word(e.fileno);
    assert b[HEADER..HEADER + |e.name|] == e.name;
    assert HeadOf(b) == Some(Head(e, |b|));
    OneEntry(b);
  }

  // --- looking for a record

  datatype Query = ByName(name: seq<Byte>) | ByFile(fileno: nat)

  predicate Matches(q: Query, e: Entry) {
    match q
    case ByName(name) => e.name == name
    case ByFile(fileno) => e.fileno == fileno
  }

  datatype Scan = Hit(off: nat, head: Head) | Missing | Malformed

  /** What the scan comes to from an offset on. */
  function Find(b: seq<Byte>, off: nat, q: Query): Scan
    requires off <= |b|
    decreases |b| - off
  {
    if off == |b| then Missing
    else
      match HeadOf(b[off..])
      case None => Malformed
      case Some(h) => if Matches(q, h.entry) then Hit(off, h) else Find(b, off + h.len, q)
  }

  ghost predicate NoMatch(q: Query, es: seq<Entry>) {
    forall i :: 0 <= i < |es| ==> !Matches(q, es[i])
  }

  lemma HeadBelow(b: seq<Byte>, off: nat)
    requires off <= |b| && HeadOf(b[off..]).Some?
    ensures var h := HeadOf(b[off..]).value; off + h.len <= |b| && HeadOf(b[off..off + h.len]) == Some(h)
  {
    var h := HeadOf(b[off..]).value;
    HeadStarts(b[off..]);
    hide HeadOf;
    assert b[off..off + h.len] == b[off..][..h.len];
  }

  lemma HeadStarts(a: seq<Byte>)
    requires HeadOf(a).Some?
    ensures var h := HeadOf(a).value; HeadOf(a[..h.len]) == Some(h)
  {
    var h := HeadOf(a).value;
    var w := a[..h.len];
    assert w[..4] == a[..4] && w[4] == a[4];
    var n := a[4];
    assert w[HEADER..HEADER + n] == a[HEADER..HEADER + n];
  }

  lemma OneEntry(w: seq<Byte>)
    requires HeadOf(w).Some? && HeadOf(w).value.len == |w|
    ensures Entries(w) == Some([HeadOf(w).value.entry])
  {
    assert w[|w|..] == [];
    EntriesStep(w, HeadOf(w).value);
    hide HeadOf;
    assert [HeadOf(w).value.entry] + [] == [HeadOf(w).value.entry];
  }

  /** The first record that matches: those before it do not, and it splits the directory there. */
  ghost predicate IsHit(b: seq<Byte>, off: nat, q: Query, f: Scan) {
    && f.Hit? && off <= f.off && f.off + f.head.len <= |b| && f.off < |b|
    && HeadOf(b[f.off..]) == Some(f.head) && Matches(q, f.head.entry)
    && Entries(b[off..f.off]).Some? && NoMatch(q, Entries(b[off..f.off]).value)
  }

  lemma {:induction false} FindHit(b: seq<Byte>, off: nat, q: Query)
    requires off <= |b| && Find(b, off, q).Hit?
    ensures IsHit(b, off, q, Find(b, off, q))
    decreases |b| - off
  {
    hide HeadOf, Entries, IsHit;
    if off < |b| {
      FindStep(b, off, q);
      hide Find;
      var h := HeadOf(b[off..]).value;
      if Matches(q, h.entry) {
        HitHere(b, off, q, h);
      } else {
        FindHit(b, off + h.len, q);
        HitStep(b, off, q, h, Find(b, off, q));
      }
    }
  }

  lemma HitHere(b: seq<Byte>, off: nat, q: Query, h: Head)
    requires off < |b| && HeadOf(b[off..]) == Some(h) && Matches(q, h.entry)
    ensures IsHit(b, off, q, Hit(off, h))
  {
    hide HeadOf;
    assert b[off..off] == [];
  }

  lemma HitStep(b: seq<Byte>, off: nat, q: Query, h: Head, f: Scan)
    requires off < |b| && HeadOf(b[off..]) == Some(h) && off + h.len <= |b| && !Matches(q, h.entry)
    requires IsHit(b, off + h.len, q, f)
    ensures IsHit(b, off, q, f)
  {
    hide HeadOf, Entries;
    HeadBelow(b, off);
    OneEntry(b[off..off + h.len]);
    EntriesConcat(b[off..off + h.len], b[off + h.len..f.off]);
    assert b[off..f.off] == b[off..off + h.len] + b[off + h.len..f.off];
  }

  lemma FindStep(b: seq<Byte>, off: nat, q: Query)
    requires off < |b|
    ensures HeadOf(b[off..]).None? ==> Find(b, off, q) == Malformed
    ensures HeadOf(b[off..]).Some? ==> off + HeadOf(b[off..]).value.len <= |b|
    ensures HeadOf(b[off..]).Some? ==>
      var h := HeadOf(b[off..]).value;
      Find(b, off, q) == if Matches(q, h.entry) then Hit(off, h) else Find(b, off + h.len, q)
  {
    hide HeadOf;
  }

  lemma {:induction false} FindMissing(b: seq<Byte>, off: nat, q: Query)
    requires off <= |b| && Find(b, off, q).Missing?
    ensures Entries(b[off..]).Some? && NoMatch(q, Entries(b[off..]).value)
    decreases |b| - off
  {
    hide HeadOf, Entries;
    if off == |b| {
      assert b[off..] == [];
      EntriesNil();
    } else {
      FindStep(b, off, q);
      hide Find;
      var h := HeadOf(b[off..]).value;
      FindMissing(b, off + h.len, q);
      EntriesStep(b[off..], h);
      assert b[off..][h.len..] == b[off + h.len..];
    }
  }

  /** In a directory that parses, no scan meets anything malformed. */
  lemma {:induction false} FindSound(b: seq<Byte>, off: nat, q: Query)
    requires off <= |b| && Entries(b[off..]).Some?
    ensures !Find(b, off, q).Malformed?
    ensures Find(b, off, q).Hit? ==> Find(b, off, q).off <= |b| && Entries(b[Find(b, off, q).off..]).Some?
    decreases |b| - off
  {
    hide HeadOf, Entries;
    if off != |b| {
      FindStep(b, off, q);
      hide Find;
      EntriesHead(b[off..]);
      var h := HeadOf(b[off..]).value;
      EntriesStep(b[off..], h);
      assert b[off..][h.len..] == b[off + h.len..];
      if !Matches(q, h.entry) {
        FindSound(b, off + h.len, q);
      }
    }
  }

  /** The entries without the first that matches. */
  function Without(es: seq<Entry>, q: Query): seq<Entry> {
    if es == [] then [] else if Matches(q, es[0]) then es[1..] else [es[0]] + Without(es[1..], q)
  }

  lemma {:induction false} WithoutSplit(pre: seq<Entry>, e: Entry, post: seq<Entry>, q: Query)
    requires NoMatch(q, pre) && Matches(q, e)
    ensures Without(pre + [e] + post, q) == pre + post
  {
    var es := pre + [e] + post;
    if pre == [] {
      assert es[1..] == post;
    } else {
      WithoutSplit(pre[1..], e, post, q);
      assert es[1..] == pre[1..] + [e] + post;
      assert pre + post == [pre[0]] + (pre[1..] + post);
    }
  }

  /** Cutting the bytes of the hit out of the file takes just that entry away. */
  lemma RemovedParses(b: seq<Byte>, q: Query)
    requires Entries(b).Some? && Find(b, 0, q).Hit?
    ensures var f := Find(b, 0, q);
      && f.off + f.head.len <= |b|
      && Entries(b[..f.off] + b[f.off + f.head.len..]) == Some(Without(Entries(b).value, q))
  {
    hide HeadOf, Entries, Find;
    var f := Find(b, 0, q);
    assert b[0..] == b;
    FindHit(b, 0, q);
    FindSound(b, 0, q);
    assert b[0..f.off] == b[..f.off];
    CutOut(b[..f.off], b[f.off..], f.head, q);
    assert b == b[..f.off] + b[f.off..];
    assert b[f.off..][f.head.len..] == b[f.off + f.head.len..];
  }

  lemma CutOut(pre: seq<Byte>, rest: seq<Byte>, h: Head, q: Query)
    requires Entries(pre).Some? && NoMatch(q, Entries(pre).value) && rest != [] && HeadOf(rest) == Some(h)
    requires Entries(rest).Some? && Matches(q, h.entry)
    ensures h.len <= |rest| && Entries(pre + rest).Some?
    ensures Entries(pre + rest[h.len..]) == Some(Without(Entries(pre + rest).value, q))
  {
    hide HeadOf, Entries;
    EntriesStep(rest, h);
    var post := rest[h.len..];
    EntriesConcat(pre, rest);
    EntriesConcat(pre, post);
    var x, y := Entries(pre).value, Entries(post).value;
    assert x + ([h.entry] + y) == x + [h.entry] + y;
    WithoutSplit(x, h.entry, y, q);
  }

  // --- directories in a file system

  function Window(b: seq<Byte>, off: nat): seq<Byte>
    requires off <= |b|
  {
    if |b| - off > WINDOW then b[off..off + WINDOW] else b[off..]
  }

  /** Reads one record's worth, or what is left of the file. */
  method ReadWindow(fs: FileSystem, dir: nat, off: nat) returns (data: seq<Byte>)
    requires fs.Valid() && dir in fs.inodes && off <= fs.inodes[dir].size
    ensures dir in fs.Files() && off <= |fs.Files()[dir]| && data == Window(fs.Files()[dir], off)
    ensures |fs.Files()[dir]| == fs.inodes[dir].size
  {
    var rest := fs.inodes[dir].size - off;
    var len := if WINDOW > rest then rest else WINDOW;
    hide FileSystem.Valid, FileSystem.Files, Sane, Filled, FilesOf, Counted;
    InFiles(fs, dir);
    var ok;
    ok, data := fs.Read(dir, off, len);
  }

  lemma WindowHead(b: seq<Byte>, off: nat)
    requires off <= |b|
    ensures HeadOf(Window(b, off)) == HeadOf(b[off..])
  {
    HeadWindow(b[off..]);
    if |b| - off > WINDOW {
      assert b[off..][..WINDOW] == Window(b, off);
    }
  }

  lemma InFiles(fs: FileSystem, dir: nat)
    requires fs.Valid()
    ensures (dir in fs.inodes <==> dir in fs.Files()) && fs.g.units > 0
    ensures dir in fs.inodes ==> |fs.Files()[dir]| == fs.inodes[dir].size
  {
    SizesOf(fs.View(), fs.g);
    hide Sane, Filled, FilesOf, Counted;
  }

  /** Scans a directory for the first record that matches. */
  method Look(fs: FileSystem, dir: nat, q: Query) returns (f: Scan)
    requires fs.Valid() && dir in fs.inodes
    ensures dir in fs.Files() && f == Find(fs.Files()[dir], 0, q)
  {
    hide FileSystem.Valid, FileSystem.Files, Sane, Filled, FilesOf, Counted, HeadOf, Find, Window;
    InFiles(fs, dir);
    ghost var b := fs.Files()[dir];
    var off := 0;
    while true
      invariant off <= |b| && Find(b, off, q) == Find(b, 0, q)
      decreases |b| - off
    {
      var data := ReadWindow(fs, dir, off);
      WindowEmpty(b, off);
      if |data| == 0 {
        FindEnd(b, q);
        return Missing;
      }
      FindStep(b, off, q);
      WindowHead(b, off);
      var h := HeadOf(data);
      if h.None? {
        return Malformed;
      }
      if Matches(q, h.value.entry) {
        return Hit(off, h.value);
      }
      off := off + h.value.len;
    }
  }

  lemma WindowEmpty(b: seq<Byte>, off: nat)
    requires off <= |b|
    ensures |Window(b, off)| == 0 <==> off == |b|
  {
  }

  lemma FindEnd(b: seq<Byte>, q: Query)
    ensures Find(b, |b|, q) == Missing
  {
  }

  function Min(a: nat, b: nat): nat {
    if a < b then a else b
  }

  /** Where the scan stands: `n` entries of the directory are behind it. */
  ghost predicate Past(b: seq<Byte>, off: nat, n: nat) {
    && off <= |b|
    && (Entries(b).Some? ==>
          n <= |Entries(b).value| && Entries(b[off..]).Some? && Entries(b[off..]).value == Entries(b).value[n..])
  }

  lemma PastStart(b: seq<Byte>)
    ensures Past(b, 0, 0)
  {
    hide Entries;
    assert b[0..] == b;
  }

  lemma PastStep(b: seq<Byte>, off: nat, n: nat, h: Head)
    requires Past(b, off, n) && off < |b| && HeadOf(b[off..]) == Some(h)
    ensures Past(b, off + h.len, n + 1)
    ensures Entries(b).Some? ==> n < |Entries(b).value| && Entries(b).value[n] == h.entry
  {
    hide HeadOf, Entries;
    EntriesStep(b[off..], h);
    assert b[off..][h.len..] == b[off + h.len..];
    if Entries(b).Some? {
      assert Entries(b[off..]).value[0] == h.entry;
      assert Entries(b).value[n..][1..] == Entries(b).value[n + 1..];
    }
  }

  lemma PastEnd(b: seq<Byte>, off: nat, n: nat)
    requires Past(b, off, n) && off == |b| && Entries(b).Some?
    ensures n == |Entries(b).value|
  {
    EntriesNil();
    assert b[off..] == [];
  }

  lemma PastBad(b: seq<Byte>, off: nat, n: nat)
    requires Past(b, off, n) && off < |b| && HeadOf(b[off..]).None?
    ensures Entries(b).None?
  {
    hide HeadOf;
    EntriesNone(b[off..]);
  }

  /** Lists up to `max` entries, leaving out the first `skip`. */
  method Getdents(fs: FileSystem, dir: nat, skip: nat, max: nat) returns (out: Option<seq<Entry>>)
    requires fs.Valid() && dir in fs.inodes
    ensures dir in fs.Files() && (out.None? ==> Entries(fs.Files()[dir]).None?)
    ensures Entries(fs.Files()[dir]).Some? ==>
      var es := Entries(fs.Files()[dir]).value; out == Some(es[Min(skip, |es|)..Min(skip + max, |es|)])
  {
    hide FileSystem.Valid, FileSystem.Files, Sane, Filled, FilesOf, Counted, HeadOf, Entries, Past, Window;
    InFiles(fs, dir);
    ghost var b := fs.Files()[dir];
    PastStart(b);
    var off, n := 0, 0;
    var list := [];
    while n < skip + max
      invariant 0 <= off <= |b| && 0 <= n <= skip + max && Past(b, off, n)
      invariant Entries(b).Some? ==> n <= |Entries(b).value| && list == Entries(b).value[Min(skip, n)..n]
    {
      var data := ReadWindow(fs, dir, off);
      WindowEmpty(b, off);
      if |data| == 0 {
        if Entries(b).Some? {
          PastEnd(b, off, n);
        }
        return Some(list);
      }
      WindowHead(b, off);
      var h := HeadOf(data);
      if h.None? {
        PastBad(b, off, n);
        return None;
      }
      PastStep(b, off, n, h.value);
      if n >= skip {
        list := list + [h.value.entry];
      }
      off, n := off + h.value.len, n + 1;
      PastLength(b, off, n);
    }
    PastLength(b, off, n);
    return Some(list);
  }

  lemma PastLength(b: seq<Byte>, off: nat, n: nat)
    requires Past(b, off, n)
    ensures off <= |b| && (Entries(b).Some? ==> n <= |Entries(b).value|)
  {
  }

  /** Looks a name up: the file of the first record with that name. */
  method Walk(fs: FileSystem, dir: nat, name: seq<Byte>) returns (f: Scan)
    requires fs.Valid() && dir in fs.inodes
    ensures dir in fs.Files() && f == Find(fs.Files()[dir], 0, ByName(name))
    ensures Entries(fs.Files()[dir]).Some? ==>
      && !f.Malformed? && (f.Missing? <==> Named(Entries(fs.Files()[dir]).value, name).None?)
      && (f.Hit? ==> Some(f.head.entry) == Named(Entries(fs.Files()[dir]).value, name))
  {
    hide FileSystem.Valid, FileSystem.Files, Sane, Filled, FilesOf, Counted, HeadOf, Find, Entries, Named;
    InFiles(fs, dir);
    f := Look(fs, dir, ByName(name));
    if Entries(fs.Files()[dir]).Some? {
      FindNamed(fs.Files()[dir], name);
    }
  }

  /** The first entry with a name. */
  function Named(es: seq<Entry>, name: seq<Byte>): Option<Entry> {
    if es == [] then None else if es[0].name == name then Some(es[0]) else Named(es[1..], name)
  }

  lemma {:induction false} NamedSplit(pre: seq<Entry>, post: seq<Entry>, name: seq<Byte>)
    requires NoMatch(ByName(name), pre)
    ensures Named(pre + post, name) == Named(post, name)
  {
    if pre == [] {
      assert pre + post == post;
    } else {
      assert !Matches(ByName(name), pre[0]);
      NamedSplit(pre[1..], post, name);
      assert (pre + post)[1..] == pre[1..] + post;
    }
  }

  lemma FindNamed(b: seq<Byte>, name: seq<Byte>)
    requires Entries(b).Some?
    ensures var f := Find(b, 0, ByName(name));
      && !f.Malformed? && (f.Missing? <==> Named(Entries(b).value, name).None?)
      && (f.Hit? ==> Some(f.head.entry) == Named(Entries(b).value, name))
  {
    hide HeadOf, Entries, Find;
    var q := ByName(name);
    var f := Find(b, 0, q);
    assert b[0..] == b;
    FindSound(b, 0, q);
    if f.Missing? {
      FindMissing(b, 0, q);
      NamedSplit(Entries(b).value, [], name);
      assert Entries(b).value + [] == Entries(b).value;
    } else {
      FindHit(b, 0, q);
      var pre, rest := b[0..f.off], b[f.off..];
      assert b == pre + rest;
      EntriesConcat(pre, rest);
      EntriesStep(rest, f.head);
      NamedSplit(Entries(pre).value, Entries(rest).value, name);
    }
  }

  /** The start of a record is no record. */
  lemma StartUnparsed(e: Entry, pad: seq<Byte>, n: nat)
    requires |e.name| <= MAX_NAME && |pad| == RealNameLen(|e.name|) - |e.name|
    requires 0 < n < |Record(e, pad)|
    ensures Entries(Record(e, pad)[..n]).None?
  {
    var b := Record(e, pad)[..n];
    if n >= HEADER {
      assert b[4] == |e.name|;
    }
  }

  lemma {:induction false} ConcatUnparsed(a: seq<Byte>, b: seq<Byte>)
    requires Entries(a).Some? && Entries(b).None?
    ensures Entries(a + b).None?
    decreases |a|
  {
    hide HeadOf, Entries;
    if a == [] {
      assert a + b == b;
    } else {
      EntriesHead(a);
      var h := HeadOf(a).value;
      EntriesStep(a, h);
      ConcatUnparsed(a[h.len..], b);
      HeadPrefix(a, b);
      EntriesStep(a + b, h);
      assert (a + b)[h.len..] == a[h.len..] + b;
    }
  }

  /** A directory with the start of a record behind its records can be read no more. */
  lemma TornUnparsed(b: seq<Byte>, e: Entry, pad: seq<Byte>, n: nat)
    requires Entries(b).Some? && |e.name| <= MAX_NAME && |pad| == RealNameLen(|e.name|) - |e.name|
    requires n < |Record(e, pad)|
    ensures Entries(b + Record(e, pad)[..n]).Some? <==> n == 0
    ensures n == 0 ==> b + Record(e, pad)[..n] == b
  {
    hide HeadOf, Entries, Record;
    if n == 0 {
      assert b + Record(e, pad)[..0] == b;
    } else {
      StartUnparsed(e, pad, n);
      ConcatUnparsed(b, Record(e, pad)[..n]);
    }
  }

  /** Blocks run out at the end of one, so a record that fits in a block is cut off if it had begun inside one. */
  lemma CutAtEnd(bsize: nat, size: nat, wrote: nat, len: nat)
    requires bsize > 0 && wrote < len && Rem(size + wrote, bsize) == 0
    ensures wrote == 0 ==> Rem(size, bsize) == 0
    ensures len <= bsize && Rem(size, bsize) == 0 ==> wrote == 0
  {
    if len <= bsize && size % bsize == 0 {
      var q := size / bsize;
      assert size == q * bsize;
      Quotient(q, wrote, bsize);
    }
  }

  /** Adds a record at the end; `pad` is what the buffer held behind the name.  When it fails, the directory keeps
      the part that was written, and then it can be read no more unless that is nothing: with records that fit in a
      block, unless the directory ended where a block ends. */
  method AppendEntry(fs: FileSystem, dir: nat, e: Entry, pad: seq<Byte>) returns (ok: bool, wrote: nat)
    requires fs.Valid() && dir in fs.inodes && |e.name| <= MAX_NAME && |pad| == RealNameLen(|e.name|) - |e.name|
    requires e.fileno < 0x100000000
    modifies fs, fs.blocks
    ensures fs.Valid() && dir in old(fs.Files()) && fs.g.units > 0
    ensures wrote <= |Record(e, pad)| && (ok <==> wrote == |Record(e, pad)|)
    ensures var size := |old(fs.Files())[dir]|;
      ok <==> Affords(fs.g, size, size + |Record(e, pad)|, old(fs.blocks.freeBlocks))
    ensures fs.Files() == old(fs.Files())[dir := old(fs.Files())[dir] + Record(e, pad)[..wrote]]
    ensures ok && Entries(old(fs.Files())[dir]).Some? ==>
      Entries(fs.Files()[dir]) == Some(Entries(old(fs.Files())[dir]).value + [e])
    ensures ok && Entries(old(fs.Files())[dir]).Some? && Named(Entries(old(fs.Files())[dir]).value, e.name).None? ==>
      Entries(fs.Files()[dir]).Some? && Named(Entries(fs.Files()[dir]).value, e.name) == Some(e)
    ensures !ok && Entries(old(fs.Files())[dir]).Some? ==> (Entries(fs.Files()[dir]).Some? <==> wrote == 0)
    ensures !ok && Entries(old(fs.Files())[dir]).Some? && WINDOW <= 4 * fs.g.units ==>
      (Entries(fs.Files()[dir]).Some? <==> Rem(|old(fs.Files())[dir]|, 4 * fs.g.units) == 0)
    ensures !ok && wrote == 0 ==> fs.Files() == old(fs.Files())
  {
    hide FileSystem.Valid, FileSystem.Files, Sane, Filled, FilesOf, Counted, HeadOf, Entries, Named, Record, Rem;
    hide Affords, Left;
    InFiles(fs, dir);
    ghost var b := fs.Files()[dir];
    var r := Record(e, pad);
    RecordParses(e, pad);
    ok, wrote := fs.Write(dir, fs.inodes[dir].size, r);
    SpliceEnd(b, r[..wrote]);
    if ok {
      assert r[..wrote] == r;
      if Entries(b).Some? {
        EntriesConcat(b, r);
        if Named(Entries(b).value, e.name).None? {
          NamedLast(Entries(b).value, e);
        }
      }
    } else {
      CutAtEnd(4 * fs.g.units, |b|, wrote, |r|);
      if Entries(b).Some? {
        TornUnparsed(b, e, pad, wrote);
      }
      assert r[..0] == [] && b + [] == b;
    }
  }

  lemma SpliceEnd(b: seq<Byte>, r: seq<Byte>)
    ensures Splice(b, |b|, r) == b + r
  {
    assert b[..|b|] == b;
  }

  lemma {:induction false} NamedLast(es: seq<Entry>, e: Entry)
    requires Named(es, e.name).None?
    ensures Named(es + [e], e.name) == Some(e)
  {
    if es != [] {
      NamedLast(es[1..], e);
      assert (es + [e])[1..] == es[1..] + [e];
    }
  }

  datatype Outcome = Ok | ENOENT | EINVAL

  /** Records behind the hole were moved down by its length as far as `o`. */
  ghost predicate Moved(c: seq<Byte>, b: seq<Byte>, off: nat, delta: nat, o: nat) {
    && |b| == |c| && off <= o && o + delta <= |c|
    && b[..o] == c[..off] + c[off + delta..o + delta] && b[o + delta..] == c[o + delta..]
  }

  lemma MovedStep(c: seq<Byte>, b: seq<Byte>, off: nat, delta: nat, o: nat, len: nat)
    requires Moved(c, b, off, delta, o) && o + delta + len <= |b|
    ensures o <= |b| && Moved(c, Splice(b, o, b[o + delta..o + delta + len]), off, delta, o + len)
  {
    var r := b[o + delta..o + delta + len];
    assert r == b[o + delta..][..len] == c[o + delta..][..len] == c[o + delta..o + delta + len];
    var d := Splice(b, o, r);
    assert d[..o + len] == b[..o] + r;
    assert c[off + delta..o + delta] + r == c[off + delta..o + len + delta];
    assert b[..o] + r == c[..off] + c[off + delta..o + len + delta];
    assert d[o + len + delta..] == b[o + len + delta..] == b[o + delta..][len..] == c[o + delta..][len..]
      == c[o + len + delta..];
  }

  datatype Step = End | Bad | Shifted(len: nat)

  /** What became of the record `delta` bytes behind `o`. */
  ghost predicate StepOf(b: seq<Byte>, b': seq<Byte>, o: nat, delta: nat, step: Step) {
    && o + delta <= |b|
    && match step
       case End => b' == b && o + delta == |b|
       case Bad => b' == b && o + delta < |b| && HeadOf(b[o + delta..]).None?
       case Shifted(len) =>
         && 0 < len && o + delta + len <= |b| && HeadOf(b[o + delta..]).Some? && HeadOf(b[o + delta..]).value.len == len
         && b' == Splice(b, o, b[o + delta..o + delta + len])
  }

  /** Moves the next record down.  The write stays inside the file, so it goes through. */
  method MoveOne(fs: FileSystem, dir: nat, o: nat, delta: nat) returns (step: Step)
    requires fs.Valid() && dir in fs.Files() && o + delta <= |fs.Files()[dir]|
    modifies fs, fs.blocks
    ensures fs.Valid() && dir in fs.Files() && fs.Files() == old(fs.Files())[dir := fs.Files()[dir]]
    ensures StepOf(old(fs.Files())[dir], fs.Files()[dir], o, delta, step) && |fs.Files()[dir]| == |old(fs.Files())[dir]|
  {
    hide FileSystem.Valid, FileSystem.Files, Sane, Filled, FilesOf, Counted, HeadOf, Window, Splice;
    InFiles(fs, dir);
    ghost var b := fs.Files()[dir];
    var data := ReadWindow(fs, dir, o + delta);
    WindowEmpty(b, o + delta);
    if |data| == 0 {
      return End;
    }
    WindowHead(b, o + delta);
    var h := HeadOf(data);
    if h.None? {
      return Bad;
    }
    var len := h.value.len;
    WindowData(b, o + delta, len);
    var _, wrote := fs.Write(dir, o, data[..len]);
    LengthKept(b, o, data[..len][..wrote]);
    assert data[..len][..wrote] == data[..len];
    step := Shifted(len);
  }

  lemma WindowData(b: seq<Byte>, off: nat, len: nat)
    requires off <= |b| && len <= |Window(b, off)|
    ensures off + len <= |b| && Window(b, off)[..len] == b[off..off + len]
  {
  }

  /** Moves the records behind a removed one down over it. */
  method MoveDown(fs: FileSystem, dir: nat, off: nat, delta: nat) returns (result: Outcome, o: nat)
    requires fs.Valid() && dir in fs.Files() && off + delta <= |fs.Files()[dir]|
    modifies fs, fs.blocks
    ensures fs.Valid() && dir in fs.Files() && fs.Files() == old(fs.Files())[dir := fs.Files()[dir]]
    ensures |fs.Files()[dir]| == |old(fs.Files())[dir]| && !result.ENOENT?
    ensures result.Ok? ==> Moved(old(fs.Files())[dir], fs.Files()[dir], off, delta, o) && o + delta == |fs.Files()[dir]|
    ensures Entries(old(fs.Files())[dir][off + delta..]).Some? ==> !result.EINVAL?
  {
    hide FileSystem.Valid, FileSystem.Files, Sane, Filled, FilesOf, Counted, HeadOf, Entries, Moved, Splice, StepOf;
    ghost var c := fs.Files()[dir];
    o := off;
    MovedNone(c, off, delta);
    while true
      invariant fs.Valid() && dir in fs.Files() && |fs.Files()[dir]| == |c|
      invariant off <= o && o + delta <= |c| && Moved(c, fs.Files()[dir], off, delta, o)
      invariant fs.Files() == old(fs.Files())[dir := fs.Files()[dir]]
      invariant Entries(c[off + delta..]).Some? ==> Entries(c[o + delta..]).Some?
      decreases |c| - o
      modifies fs, fs.blocks
    {
      ghost var b := fs.Files()[dir];
      var step := MoveOne(fs, dir, o, delta);
      MoveStep(c, b, fs.Files()[dir], off, delta, o, step);
      match step {
        case End => return Ok, o;
        case Bad => return EINVAL, o;
        case Shifted(len) => o := o + len;
      }
    }
  }

  lemma MoveStep(c: seq<Byte>, b: seq<Byte>, b': seq<Byte>, off: nat, delta: nat, o: nat, step: Step)
    requires Moved(c, b, off, delta, o) && StepOf(b, b', o, delta, step)
    ensures step.End? ==> b' == b && o + delta == |c|
    ensures step.Bad? ==> Entries(c[o + delta..]).None?
    ensures step.Shifted? ==> o + step.len + delta <= |c| && step.len > 0 && Moved(c, b', off, delta, o + step.len)
    ensures step.Shifted? && Entries(c[o + delta..]).Some? ==> Entries(c[o + step.len + delta..]).Some?
  {
    hide HeadOf, Entries, Splice;
    MovedRest(c, b, off, delta, o);
    if step.Bad? || step.Shifted? {
      EntriesGoOn(c, o + delta);
    }
    if step.Shifted? {
      MovedStep(c, b, off, delta, o, step.len);
      assert o + delta + step.len == o + step.len + delta;
    }
  }

  lemma MovedNone(c: seq<Byte>, off: nat, delta: nat)
    requires off + delta <= |c|
    ensures Moved(c, c, off, delta, off)
  {
    assert c[..off] == c[..off] + c[off + delta..off + delta];
  }

  lemma MovedRest(c: seq<Byte>, b: seq<Byte>, off: nat, delta: nat, o: nat)
    requires Moved(c, b, off, delta, o)
    ensures o + delta <= |b| == |c| && b[o + delta..] == c[o + delta..]
  {
  }

  lemma EntriesGoOn(c: seq<Byte>, at: nat)
    requires at < |c|
    ensures HeadOf(c[at..]).None? ==> Entries(c[at..]).None?
    ensures HeadOf(c[at..]).Some? ==> at + HeadOf(c[at..]).value.len <= |c|
    ensures HeadOf(c[at..]).Some? && Entries(c[at..]).Some? ==> Entries(c[at + HeadOf(c[at..]).value.len..]).Some?
  {
    hide HeadOf;
    if HeadOf(c[at..]).Some? {
      var h := HeadOf(c[at..]).value;
      assert c[at..][h.len..] == c[at + h.len..];
    }
  }

  lemma LengthKept(b: seq<Byte>, o: nat, r: seq<Byte>)
    requires o + |r| <= |b|
    ensures |Splice(b, o, r)| == |b|
  {
  }

  /** Removes the first record of a file, and nothing else. */
  method RemoveEntry(fs: FileSystem, dir: nat, fileno: nat) returns (result: Outcome)
    requires fs.Valid() && dir in fs.inodes
    modifies fs, fs.blocks
    ensures fs.Valid() && dir in old(fs.Files())
    ensures result.Ok? ==>
      && Find(old(fs.Files())[dir], 0, ByFile(fileno)).Hit?
      && fs.Files() == old(fs.Files())[dir := Excised(old(fs.Files())[dir],
        Find(old(fs.Files())[dir], 0, ByFile(fileno)))]
    ensures result.Ok? && Entries(old(fs.Files())[dir]).Some? ==>
      && dir in fs.Files()
      && Entries(fs.Files()[dir]) == Some(Without(Entries(old(fs.Files())[dir]).value, ByFile(fileno)))
    ensures result.ENOENT? <==> Find(old(fs.Files())[dir], 0, ByFile(fileno)).Missing?
    ensures result.ENOENT? ==> fs.Files() == old(fs.Files())
    ensures Entries(old(fs.Files())[dir]).Some? ==>
      result == if Find(old(fs.Files())[dir], 0, ByFile(fileno)).Hit? then Ok else ENOENT
  {
    hide FileSystem.Valid, FileSystem.Files, Sane, Filled, FilesOf, Counted, HeadOf, Entries, Moved, Find, Without;
    InFiles(fs, dir);
    ghost var c := fs.Files()[dir];
    var f := Look(fs, dir, ByFile(fileno));
    assert c[0..] == c;
    if Entries(c).Some? {
      FindSound(c, 0, ByFile(fileno));
    }
    if f.Missing? {
      return ENOENT;
    }
    if f.Malformed? {
      return EINVAL;
    }
    FindHit(c, 0, ByFile(fileno));
    var off, delta := f.off, f.head.len;
    if Entries(c).Some? {
      RemovedParses(c, ByFile(fileno));
      EntriesGoOn(c, off);
    }
    hide IsHit, Excised;
    var o;
    result, o := MoveDown(fs, dir, off, delta);
    if result.Ok? {
      InFiles(fs, dir);
      MovedAll(c, fs.Files()[dir], off, delta, o);
      ExcisedIs(c, f);
      fs.Shorten(dir, fs.inodes[dir].size - delta);
    }
  }

  /** The bytes without those of the hit. */
  function Excised(c: seq<Byte>, f: Scan): seq<Byte> {
    if f.Hit? && f.off + f.head.len <= |c| then c[..f.off] + c[f.off + f.head.len..] else c
  }

  lemma ExcisedIs(c: seq<Byte>, f: Scan)
    requires f.Hit? && f.off + f.head.len <= |c|
    ensures Excised(c, f) == c[..f.off] + c[f.off + f.head.len..]
  {
  }

  lemma MovedAll(c: seq<Byte>, b: seq<Byte>, off: nat, delta: nat, o: nat)
    requires Moved(c, b, off, delta, o) && o + delta == |b|
    ensures |b| == |c| && b[..|b| - delta] == c[..off] + c[off + delta..]
  {
    assert |b| - delta == o;
    assert c[off + delta..o + delta] == c[off + delta..];
  }
}
