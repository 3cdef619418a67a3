// Object storage as s3vfs sees it: one flat map from keys to objects, and the
// prefix/delimiter listing that stands in for directories.
module Listing {
  import opened Strings
  import opened Paths

  newtype byte = b: int | 0 <= b < 256

  datatype Object = Object(data: seq<byte>, modified: int)

  type Bucket = map<string, Object>

  // One value received from the channel ListObjects returns.
  datatype Listed = Found(key: string, size: nat, modified: int) | Broken

  datatype DirEntry = DirEntry(name: string, size: nat, modified: int, isDir: bool)

  datatype DirRead = Entries(entries: seq<DirEntry>) | ListFailed

  // ----- The S3 listing contract -----

  // The key a delimited listing shows for an object: the object's own key, or
  // the common prefix up to the first slash after the listing prefix.
  function Delimited(prefix: string, key: string): string
    requires prefix <= key
  {
    var parts := Split(key[|prefix|..], '/');
    if |parts| == 1 then key else prefix + parts[0] + "/"
  }

  function Shown(prefix: string, recursive: bool, key: string): string
    requires prefix <= key
  {
    if recursive then key else Delimited(prefix, key)
  }

  ghost predicate IsShown(b: Bucket, prefix: string, recursive: bool, shown: string) {
    exists key :: key in b && prefix <= key && shown == Shown(prefix, recursive, key)
  }

  // An item that stands for one object carries that object's size and time.
  predicate CarriesMetadata(b: Bucket, prefix: string, recursive: bool, item: Listed)
    requires item.Found?
  {
    item.key in b && prefix <= item.key && Shown(prefix, recursive, item.key) == item.key ==>
      item.size == |b[item.key].data| && item.modified == b[item.key].modified
  }

  // Each shown key comes once, in any order. A listing that breaks off may miss
  // some; one that does not is complete.
  ghost predicate Lists(b: Bucket, prefix: string, recursive: bool, items: seq<Listed>) {
    && (forall i :: 0 <= i < |items| && items[i].Found? ==> IsShown(b, prefix, recursive, items[i].key))
    && (forall i :: 0 <= i < |items| && items[i].Found? ==> CarriesMetadata(b, prefix, recursive, items[i]))
    && (forall i, j :: 0 <= i < j < |items| && items[i].Found? && items[j].Found? ==> items[i].key != items[j].key)
    && (Broken !in items ==> forall shown :: IsShown(b, prefix, recursive, shown) ==>
         exists i :: 0 <= i < |items| && items[i].Found? && items[i].key == shown)
  }

  // The keys a listing delivered.
  function KeysOf(items: seq<Listed>): set<string> {
    set i | 0 <= i < |items| && items[i].Found? :: items[i].key
  }

  // ----- The abstract view: files named by segment sequences -----

  function FileKey(prefix: string, segs: seq<string>): string {
    prefix + Join(segs, '/')
  }

  ghost predicate IsFile(b: Bucket, prefix: string, segs: seq<string>) {
    segs != [] && AllOrdinary(segs) && FileKey(prefix, segs) in b
  }

  // Some object lies under the listing prefix.
  predicate DirExists(b: Bucket, at: string) {
    exists key :: key in b && at <= key
  }

  ghost predicate HasSubtree(b: Bucket, prefix: string, dir: seq<string>) {
    exists segs :: IsFile(b, prefix, segs) && dir < segs
  }

  // A key OpenFile accepts for writing.
  ghost predicate Writable(prefix: string, key: string) {
    exists p :: key == ToKey(prefix, p) && key != "" && !EndsInSlash(key)
  }

  // Every key under the configured prefix was written through OpenFile.
  ghost predicate WellKept(b: Bucket, prefix: string) {
    forall key :: key in b && prefix <= key ==> Writable(prefix, key)
  }

  predicate Normalized(prefix: string) {
    prefix == "" || (|prefix| > 1 && prefix[|prefix| - 1] == '/' && prefix[|prefix| - 2] != '/')
  }

  lemma WritableIsFile(prefix: string, key: string) returns (segs: seq<string>)
    requires Normalized(prefix) && Writable(prefix, key)
    ensures segs != [] && AllOrdinary(segs) && key == FileKey(prefix, segs)
  {
    var p :| key == ToKey(prefix, p) && key != "" && !EndsInSlash(key);
    KeyShape(prefix, p);
    segs := Segments(p);
    assert prefix != "" ==> EndsInSlash(prefix);
    assert segs != [] && EndsInSlash(p) ==> EndsInSlash(Remainder(segs, true));
  }

  lemma FileKeyInjective(prefix: string, a: seq<string>, b: seq<string>)
    requires AllOrdinary(a) && AllOrdinary(b) && FileKey(prefix, a) == FileKey(prefix, b)
    ensures a == b
  {
    assert FileKey(prefix, a)[|prefix|..] == Join(a, '/');
    assert FileKey(prefix, b)[|prefix|..] == Join(b, '/');
    SegmentsJoin(a);
    SegmentsJoin(b);
  }

  // ----- Directory listings -----

  // The listing prefix of a directory given by its segments.
  function DirKey(prefix: string, dir: seq<string>): string {
    prefix + Remainder(dir, true)
  }

  // What a file contributes to the listing of a directory above it: its name,
  // or the next segment with a slash.
  function ShownChild(at: string, dir: seq<string>, segs: seq<string>): string
    requires dir < segs
  {
    if |segs| == |dir| + 1 then at + segs[|dir|] else at + segs[|dir|] + "/"
  }

  lemma JoinBelow(dir: seq<string>, segs: seq<string>)
    requires dir < segs
    ensures Join(segs, '/') == Remainder(dir, true) + Join(segs[|dir|..], '/')
  {
    assert segs == dir + segs[|dir|..];
    if dir != [] {
      JoinAppend(dir, segs[|dir|..], '/');
    }
  }

  lemma PrefixIsAbove(dir: seq<string>, segs: seq<string>)
    requires AllOrdinary(dir) && AllOrdinary(segs) && segs != []
    requires Remainder(dir, true) <= Join(segs, '/')
    ensures dir < segs
  {
    if dir != [] {
      var rest := Join(segs, '/')[|Remainder(dir, true)|..];
      assert Join(segs, '/') == Join(dir, '/') + ['/'] + rest;
      SplitAt(Join(dir, '/'), rest, '/');
      SplitJoin(dir, '/');
      SplitJoin(segs, '/');
      assert segs == dir + Split(rest, '/');
    }
  }

  lemma FileKeyBelow(prefix: string, dir: seq<string>, segs: seq<string>)
    requires dir < segs
    ensures FileKey(prefix, segs) == DirKey(prefix, dir) + Join(segs[|dir|..], '/')
  {
    JoinBelow(dir, segs);
  }

  lemma PrefixCancels(prefix: string, a: string, b: string)
    ensures prefix + a <= prefix + b <==> a <= b
  {
    assert (prefix + a)[|prefix|..] == a && (prefix + b)[|prefix|..] == b;
    if a <= b {
      assert prefix + b == prefix + a + b[|a|..];
    }
  }

  // The listing prefix of a directory is a prefix of exactly the files below it.
  lemma BelowDir(prefix: string, dir: seq<string>, segs: seq<string>)
    requires AllOrdinary(dir) && AllOrdinary(segs) && segs != []
    ensures DirKey(prefix, dir) <= FileKey(prefix, segs) <==> dir < segs
  {
    PrefixCancels(prefix, Remainder(dir, true), Join(segs, '/'));
    if dir < segs {
      JoinBelow(dir, segs);
    } else if Remainder(dir, true) <= Join(segs, '/') {
      PrefixIsAbove(dir, segs);
    }
  }

  lemma DelimitedChild(prefix: string, dir: seq<string>, segs: seq<string>)
    requires AllOrdinary(dir) && AllOrdinary(segs) && dir < segs
    ensures DirKey(prefix, dir) <= FileKey(prefix, segs)
    ensures Delimited(DirKey(prefix, dir), FileKey(prefix, segs)) == ShownChild(DirKey(prefix, dir), dir, segs)
  {
    var at := DirKey(prefix, dir);
    FileKeyBelow(prefix, dir, segs);
    var below := segs[|dir|..];
    assert AllOrdinary(below);
    assert FileKey(prefix, segs)[|at|..] == Join(below, '/');
    SplitJoin(below, '/');
  }

  lemma LastSlash(at: string, name: string)
    requires Ordinary(name) && (at == "" || at[|at| - 1] == '/')
    ensures var full := at + name; !EndsInSlash(full) && LastIndex(full, '/') == |at| - 1
  {
    var full := at + name;
    assert forall k :: |at| <= k < |full| ==> full[k] == name[k - |at|] && name[k - |at|] in name;
    assert at != "" ==> full[|at| - 1] == '/';
  }

  lemma BaseNameOf(at: string, name: string)
    requires Ordinary(name) && (at == "" || at[|at| - 1] == '/')
    ensures BaseName(at + name) == name && BaseName(at + name + "/") == name
    ensures !EndsInSlash(at + name) && EndsInSlash(at + name + "/")
  {
    var full := at + name;
    LastSlash(at, name);
    TrimRightSolid(full, '/');
    TrimRightOne(full, '/');
    assert full[|at|..] == name;
  }

  lemma DirKeyEnds(prefix: string, dir: seq<string>)
    requires Normalized(prefix)
    ensures var at := DirKey(prefix, dir); at == "" || at[|at| - 1] == '/'
  {
  }

  // ----- ReadDir, computed from the channel -----

  function EntryOf(item: Listed): DirEntry
    requires item.Found?
  {
    DirEntry(BaseName(item.key), item.size, item.modified, EndsInSlash(item.key))
  }

  // The loop of ReadDir: an error ends it, nameless keys are skipped.
  function ReadEntries(items: seq<Listed>): DirRead {
    if items == [] then Entries([])
    else
      var init := ReadEntries(items[..|items| - 1]);
      var last := items[|items| - 1];
      if init.ListFailed? || last.Broken? then ListFailed
      else if last.key == "" || BaseName(last.key) == "" then init
      else Entries(init.entries + [EntryOf(last)])
  }

  ghost predicate ListsName(entries: seq<DirEntry>, name: string, isDir: bool) {
    exists i :: 0 <= i < |entries| && entries[i].name == name && entries[i].isDir == isDir
  }

  lemma {:induction false} ReadNamed(items: seq<Listed>)
    requires forall i :: 0 <= i < |items| ==> items[i].Found? && items[i].key != "" && BaseName(items[i].key) != ""
    ensures ReadEntries(items).Entries? && |ReadEntries(items).entries| == |items|
    ensures forall i :: 0 <= i < |items| ==> ReadEntries(items).entries[i] == EntryOf(items[i])
  {
    if items != [] {
      var init, last := items[..|items| - 1], items[|items| - 1];
      ReadNamed(init);
      assert ReadEntries(items) == Entries(ReadEntries(init).entries + [EntryOf(last)]);
    }
  }

  // What a key shown in a directory of a well-kept bucket stands for.
  lemma ShownIsChild(b: Bucket, prefix: string, dir: seq<string>, shown: string)
    returns (segs: seq<string>)
    requires Normalized(prefix) && WellKept(b, prefix) && AllOrdinary(dir)
    requires IsShown(b, DirKey(prefix, dir), false, shown)
    ensures IsFile(b, prefix, segs) && dir < segs
    ensures shown == ShownChild(DirKey(prefix, dir), dir, segs)
  {
    var at := DirKey(prefix, dir);
    var key :| key in b && at <= key && shown == Shown(at, false, key);
    segs := WritableIsFile(prefix, key);
    BelowDir(prefix, dir, segs);
    DelimitedChild(prefix, dir, segs);
  }

  lemma ShownChildName(at: string, dir: seq<string>, segs: seq<string>)
    requires at == "" || at[|at| - 1] == '/'
    requires AllOrdinary(segs) && dir < segs
    ensures var shown := ShownChild(at, dir, segs);
      && shown != "" && BaseName(shown) == segs[|dir|]
      && (EndsInSlash(shown) <==> |segs| > |dir| + 1)
  {
    BaseNameOf(at, segs[|dir|]);
  }

  // An item stands for a file of the bucket below the directory.
  ghost predicate StandsFor(b: Bucket, prefix: string, dir: seq<string>, item: Listed, segs: seq<string>) {
    && item.Found?
    && IsFile(b, prefix, segs) && dir < segs
    && item.key == ShownChild(DirKey(prefix, dir), dir, segs)
    && EntryOf(item) == DirEntry(segs[|dir|], item.size, item.modified, |segs| > |dir| + 1)
  }

  lemma ItemShape(b: Bucket, prefix: string, dir: seq<string>, items: seq<Listed>, i: nat)
    returns (segs: seq<string>)
    requires Normalized(prefix) && WellKept(b, prefix) && AllOrdinary(dir)
    requires Lists(b, DirKey(prefix, dir), false, items) && i < |items| && items[i].Found?
    ensures StandsFor(b, prefix, dir, items[i], segs) && items[i].key != ""
  {
    segs := ShownIsChild(b, prefix, dir, items[i].key);
    DirKeyEnds(prefix, dir);
    ShownChildName(DirKey(prefix, dir), dir, segs);
  }

  // A complete listing contains what each file below the directory contributes.
  lemma ItemPresent(b: Bucket, prefix: string, dir: seq<string>, items: seq<Listed>, segs: seq<string>)
    returns (i: nat)
    requires Normalized(prefix) && AllOrdinary(dir)
    requires Lists(b, DirKey(prefix, dir), false, items) && Broken !in items
    requires IsFile(b, prefix, segs) && dir < segs
    ensures i < |items| && StandsFor(b, prefix, dir, items[i], segs)
  {
    var at := DirKey(prefix, dir);
    DelimitedChild(prefix, dir, segs);
    var shown := ShownChild(at, dir, segs);
    assert IsShown(b, at, false, shown) by {
      assert Shown(at, false, FileKey(prefix, segs)) == shown;
    }
    i :| 0 <= i < |items| && items[i].Found? && items[i].key == shown;
    DirKeyEnds(prefix, dir);
    ShownChildName(at, dir, segs);
  }

  // A complete listing of a directory, and what ReadDir makes of it.
  ghost predicate DirListing(b: Bucket, prefix: string, dir: seq<string>, items: seq<Listed>, es: seq<DirEntry>) {
    && AllOrdinary(dir)
    && Lists(b, DirKey(prefix, dir), false, items) && Broken !in items
    && |es| == |items|
    && forall i :: 0 <= i < |items| ==> items[i].Found? && es[i] == EntryOf(items[i])
  }

  // The result of a complete listing of a well-kept bucket, entry by entry.
  lemma EntryAt(b: Bucket, prefix: string, dir: seq<string>, items: seq<Listed>)
    requires Normalized(prefix) && WellKept(b, prefix) && AllOrdinary(dir)
    requires Lists(b, DirKey(prefix, dir), false, items) && Broken !in items
    ensures ReadEntries(items).Entries?
    ensures DirListing(b, prefix, dir, items, ReadEntries(items).entries)
  {
    forall i | 0 <= i < |items|
      ensures items[i].Found? && items[i].key != "" && BaseName(items[i].key) != ""
    {
      assert items[i] in items;
      var segs := ItemShape(b, prefix, dir, items, i);
      assert Ordinary(segs[|dir|]);
    }
    ReadNamed(items);
  }

  lemma PrefixStep(dir: seq<string>, segs: seq<string>)
    requires dir < segs
    ensures dir + [segs[|dir|]] <= segs
    ensures dir + [segs[|dir|]] < segs <==> |segs| > |dir| + 1
  {
    assert dir + [segs[|dir|]] == segs[..|dir| + 1];
  }

  // Every entry stands for a file below the directory, as its child or further down.
  lemma EntryStands(b: Bucket, prefix: string, dir: seq<string>, items: seq<Listed>, es: seq<DirEntry>, i: nat)
    returns (segs: seq<string>)
    requires Normalized(prefix) && WellKept(b, prefix) && DirListing(b, prefix, dir, items, es) && i < |es|
    ensures IsFile(b, prefix, segs) && dir + [es[i].name] <= segs
    ensures es[i].isDir <==> dir + [es[i].name] < segs
  {
    segs := ItemShape(b, prefix, dir, items, i);
    assert es[i].name == segs[|dir|] && (es[i].isDir <==> |segs| > |dir| + 1);
    PrefixStep(dir, segs);
  }

  // Every file below the directory has an entry standing for it.
  lemma FileStands(b: Bucket, prefix: string, dir: seq<string>, items: seq<Listed>, es: seq<DirEntry>,
                   segs: seq<string>, name: string)
    requires Normalized(prefix) && WellKept(b, prefix) && DirListing(b, prefix, dir, items, es)
    requires IsFile(b, prefix, segs) && dir + [name] <= segs
    ensures ListsName(es, name, dir + [name] < segs)
  {
    assert dir == (dir + [name])[..|dir|] == segs[..|dir|] && segs[|dir|] == (dir + [name])[|dir|];
    var i := ItemPresent(b, prefix, dir, items, segs);
    assert es[i].name == name;
  }

  lemma FilesListed(b: Bucket, prefix: string, dir: seq<string>, items: seq<Listed>, es: seq<DirEntry>, name: string)
    requires Normalized(prefix) && WellKept(b, prefix) && DirListing(b, prefix, dir, items, es)
    ensures ListsName(es, name, false) <==> IsFile(b, prefix, dir + [name])
  {
    if ListsName(es, name, false) {
      var i :| 0 <= i < |es| && es[i].name == name && !es[i].isDir;
      var segs := EntryStands(b, prefix, dir, items, es, i);
      assert segs == dir + [name];
    }
    if IsFile(b, prefix, dir + [name]) {
      FileStands(b, prefix, dir, items, es, dir + [name], name);
    }
  }

  lemma SubtreesListed(b: Bucket, prefix: string, dir: seq<string>, items: seq<Listed>, es: seq<DirEntry>, name: string)
    requires Normalized(prefix) && WellKept(b, prefix) && DirListing(b, prefix, dir, items, es)
    ensures ListsName(es, name, true) <==> HasSubtree(b, prefix, dir + [name])
  {
    if ListsName(es, name, true) {
      var i :| 0 <= i < |es| && es[i].name == name && es[i].isDir;
      var segs := EntryStands(b, prefix, dir, items, es, i);
    }
    if HasSubtree(b, prefix, dir + [name]) {
      var segs :| IsFile(b, prefix, segs) && dir + [name] < segs;
      FileStands(b, prefix, dir, items, es, segs, name);
    }
  }

  lemma EntriesDistinct(b: Bucket, prefix: string, dir: seq<string>, items: seq<Listed>, es: seq<DirEntry>)
    requires Normalized(prefix) && WellKept(b, prefix) && DirListing(b, prefix, dir, items, es)
    ensures forall i, j :: 0 <= i < j < |es| ==> es[i].name != es[j].name || es[i].isDir != es[j].isDir
  {
    forall i, j | 0 <= i < j < |es|
      ensures es[i].name != es[j].name || es[i].isDir != es[j].isDir
    {
      var si := ItemShape(b, prefix, dir, items, i);
      var sj := ItemShape(b, prefix, dir, items, j);
      assert items[i].key != items[j].key;
    }
  }

  // A child's key is its directory's listing prefix plus its name, and a
  // delimited listing shows it unchanged.
  lemma ChildKey(prefix: string, dir: seq<string>, name: string)
    requires AllOrdinary(dir) && Ordinary(name)
    ensures var key := FileKey(prefix, dir + [name]);
      && key == DirKey(prefix, dir) + name
      && Shown(DirKey(prefix, dir), false, key) == key
  {
    var segs := dir + [name];
    DelimitedChild(prefix, dir, segs);
    FileKeyBelow(prefix, dir, segs);
    assert segs[|dir|..] == [name];
  }

  lemma ItemCarries(b: Bucket, at: string, items: seq<Listed>, i: nat)
    requires Lists(b, at, false, items) && i < |items| && items[i].Found?
    requires items[i].key in b && at <= items[i].key && Shown(at, false, items[i].key) == items[i].key
    ensures items[i].size == |b[items[i].key].data| && items[i].modified == b[items[i].key].modified
  {
    assert CarriesMetadata(b, at, false, items[i]);
  }

  lemma FileItem(b: Bucket, prefix: string, dir: seq<string>, item: Listed, segs: seq<string>)
    requires AllOrdinary(dir) && StandsFor(b, prefix, dir, item, segs) && !EntryOf(item).isDir
    ensures var key := FileKey(prefix, dir + [EntryOf(item).name]);
      && key in b && item.key == key
      && DirKey(prefix, dir) <= key && Shown(DirKey(prefix, dir), false, key) == key
  {
    assert segs == dir + [segs[|dir|]];
    ChildKey(prefix, dir, segs[|dir|]);
  }

  lemma FileEntryCarries(b: Bucket, prefix: string, dir: seq<string>, items: seq<Listed>, es: seq<DirEntry>, i: nat)
    requires Normalized(prefix) && WellKept(b, prefix) && DirListing(b, prefix, dir, items, es)
    requires i < |es| && !es[i].isDir
    ensures var key := FileKey(prefix, dir + [es[i].name]);
      key in b && es[i].size == |b[key].data| && es[i].modified == b[key].modified
  {
    var segs := ItemShape(b, prefix, dir, items, i);
    FileItem(b, prefix, dir, items[i], segs);
    ItemCarries(b, DirKey(prefix, dir), items, i);
  }

  lemma DirPrefixKey(prefix: string, p: string)
    ensures DirPrefix(prefix, p) == DirKey(prefix, Segments(p)) && AllOrdinary(Segments(p))
  {
    DirPrefixShape(prefix, p);
    SegmentsOrdinary(p);
  }

  lemma ReadFailsNext(items: seq<Listed>)
    requires items != []
    ensures ReadEntries(items).ListFailed? <==>
      ReadEntries(items[..|items| - 1]).ListFailed? || items[|items| - 1].Broken?
  {
  }

  lemma BrokenIn(init: seq<Listed>, last: Listed)
    ensures Broken in init + [last] <==> Broken in init || last.Broken?
  {
  }

  // ReadDir fails exactly when the listing breaks off.
  lemma {:induction false} ReadFailsIff(items: seq<Listed>)
    ensures ReadEntries(items).ListFailed? <==> Broken in items
  {
    if items != [] {
      var init, last := items[..|items| - 1], items[|items| - 1];
      ReadFailsIff(init);
      ReadFailsNext(items);
      BrokenIn(init, last);
      assert items == init + [last];
    }
  }

  // ReadDir names a file entry for exactly the objects directly below p, and a
  // directory entry for exactly the subtrees below p that hold an object.
  lemma {:induction false} ReadDirNames(b: Bucket, prefix: string, p: string, items: seq<Listed>, name: string)
    requires Normalized(prefix) && WellKept(b, prefix)
    requires Lists(b, DirPrefix(prefix, p), false, items) && Broken !in items
    ensures ReadEntries(items).Entries?
    ensures ListsName(ReadEntries(items).entries, name, false) <==> IsFile(b, prefix, Segments(p) + [name])
    ensures ListsName(ReadEntries(items).entries, name, true) <==> HasSubtree(b, prefix, Segments(p) + [name])
  {
    DirPrefixKey(prefix, p);
    EntryAt(b, prefix, Segments(p), items);
    FilesListed(b, prefix, Segments(p), items, ReadEntries(items).entries, name);
    SubtreesListed(b, prefix, Segments(p), items, ReadEntries(items).entries, name);
  }

  // No name comes twice in the same role, and file entries carry the size and
  // time of the object they stand for.
  lemma {:induction false} ReadDirFaithful(b: Bucket, prefix: string, p: string, items: seq<Listed>)
    requires Normalized(prefix) && WellKept(b, prefix)
    requires Lists(b, DirPrefix(prefix, p), false, items) && Broken !in items
    ensures ReadEntries(items).Entries?
    ensures var es := ReadEntries(items).entries;
      && (forall i, j :: 0 <= i < j < |es| ==> es[i].name != es[j].name || es[i].isDir != es[j].isDir)
      && (forall i :: 0 <= i < |es| && !es[i].isDir ==>
           var key := FileKey(prefix, Segments(p) + [es[i].name]);
           key in b && es[i].size == |b[key].data| && es[i].modified == b[key].modified)
  {
    DirPrefixKey(prefix, p);
    EntryAt(b, prefix, Segments(p), items);
    var es := ReadEntries(items).entries;
    EntriesDistinct(b, prefix, Segments(p), items, es);
    forall i | 0 <= i < |es| && !es[i].isDir
      ensures var key := FileKey(prefix, Segments(p) + [es[i].name]);
        key in b && es[i].size == |b[key].data| && es[i].modified == b[key].modified
    {
      FileEntryCarries(b, prefix, Segments(p), items, es, i);
    }
  }

  // ----- Removing a tree -----

  // The listing prefix Remove hands to removeAll.
  function TreePrefix(key: string): string {
    TrimRight(key, '/') + "/"
  }

  lemma TreePrefixAt(prefix: string, segs: seq<string>, trailing: bool)
    requires Normalized(prefix) && AllOrdinary(segs)
    requires var key := prefix + Remainder(segs, trailing); key != "" && (trailing || EndsInSlash(key))
    ensures TreePrefix(prefix + Remainder(segs, trailing)) == DirKey(prefix, segs)
  {
    var key := prefix + Remainder(segs, trailing);
    if segs == [] {
      assert key == prefix;
      TrimRightOne(prefix[..|prefix| - 1], '/');
      assert prefix == prefix[..|prefix| - 1] + "/";
    } else {
      JoinEnds(segs);
      var bare := FileKey(prefix, segs);
      assert bare[|bare| - 1] == Join(segs, '/')[|Join(segs, '/')| - 1];
      assert key == if trailing then bare + "/" else bare;
      TrimRightSolid(bare, '/');
      TrimRightOne(bare, '/');
    }
  }

  lemma TreePrefixIsDirPrefix(prefix: string, p: string)
    requires Normalized(prefix) && ToKey(prefix, p) != ""
    requires EndsInSlash(p) || EndsInSlash(ToKey(prefix, p))
    ensures TreePrefix(ToKey(prefix, p)) == DirPrefix(prefix, p)
  {
    KeyShape(prefix, p);
    DirPrefixKey(prefix, p);
    TreePrefixAt(prefix, Segments(p), EndsInSlash(p));
  }

  // The bucket after removeAll: the listed keys go, except those S3 refused to remove.
  function RemoveListed(b: Bucket, items: seq<Listed>, failing: set<string>): Bucket {
    b - (KeysOf(items) - failing)
  }

  // removeAll returns nil exactly when no listed key was refused.
  predicate RemovedAll(items: seq<Listed>, failing: set<string>) {
    KeysOf(items) !! failing
  }

  lemma ListedIsUnder(b: Bucket, at: string, items: seq<Listed>, key: string)
    requires Lists(b, at, true, items)
    ensures key in KeysOf(items) ==> key in b && at <= key
    ensures Broken !in items && key in b && at <= key ==> key in KeysOf(items)
  {
    if key in KeysOf(items) {
      var i :| 0 <= i < |items| && items[i].Found? && items[i].key == key;
      assert IsShown(b, at, true, items[i].key);
    }
    if Broken !in items && key in b && at <= key {
      assert key == Shown(at, true, key);
      assert IsShown(b, at, true, key);
    }
  }

  // A removal whose listing ran to the end and that reports success deletes
  // exactly the objects strictly below p.
  lemma {:induction false} RemoveTreeExact(b: Bucket, prefix: string, p: string, items: seq<Listed>,
                                           failing: set<string>)
    requires Normalized(prefix) && WellKept(b, prefix)
    requires ToKey(prefix, p) != "" && (EndsInSlash(p) || EndsInSlash(ToKey(prefix, p)))
    requires Lists(b, TreePrefix(ToKey(prefix, p)), true, items) && Broken !in items
    requires RemovedAll(items, failing)
    ensures var b' := RemoveListed(b, items, failing);
      && (forall key :: key in b' <==> key in b && !(DirPrefix(prefix, p) <= key))
      && (forall key :: key in b' ==> b'[key] == b[key])
      && (forall segs :: IsFile(b', prefix, segs) <==> IsFile(b, prefix, segs) && !(Segments(p) < segs))
  {
    var at := DirPrefix(prefix, p);
    TreePrefixIsDirPrefix(prefix, p);
    DirPrefixKey(prefix, p);
    var b' := RemoveListed(b, items, failing);
    forall key
      ensures key in b' <==> key in b && !(at <= key)
    {
      ListedIsUnder(b, at, items, key);
    }
    forall segs
      ensures IsFile(b', prefix, segs) <==> IsFile(b, prefix, segs) && !(Segments(p) < segs)
    {
      if IsFile(b, prefix, segs) {
        BelowDir(prefix, Segments(p), segs);
      }
    }
  }

  // removeAll drops listing errors, so a listing that breaks off at once makes
  // it report success on a tree it has not touched.
  lemma BrokenListingLeavesTree(b: Bucket, at: string)
    ensures Lists(b, at, true, [Broken])
    ensures RemovedAll([Broken], {}) && RemoveListed(b, [Broken], {}) == b
  {
    assert KeysOf([Broken]) == {};
    assert [Broken][0] in [Broken];
  }

  // Whatever a listing that breaks off, or one that does not, delivers and
  // whatever is refused: if removeAll reports success, nothing is left.
  ghost predicate SuccessMeansGone(b: Bucket, at: string, broken: bool) {
    forall items, failing ::
      Lists(b, at, true, items) && (Broken in items <==> broken) && RemovedAll(items, failing) ==>
        !DirExists(RemoveListed(b, items, failing), at)
  }

  // A reported success can be trusted exactly when the listing does not break
  // off or there was nothing to remove.
  lemma SuccessMeansGoneIff(b: Bucket, at: string, broken: bool)
    ensures SuccessMeansGone(b, at, broken) <==> !broken || !DirExists(b, at)
  {
    if broken && DirExists(b, at) {
      BrokenListingLeavesTree(b, at);
      assert [Broken][0] in [Broken];
    }
    if !broken {
      forall items, failing | Lists(b, at, true, items) && Broken !in items && RemovedAll(items, failing)
        ensures !DirExists(RemoveListed(b, items, failing), at)
      {
        forall key | key in RemoveListed(b, items, failing)
          ensures !(at <= key)
        {
          ListedIsUnder(b, at, items, key);
        }
      }
    }
  }

  // For Remove on a path: exactly when the listing does not break off or no file
  // lies strictly below the path.
  lemma RemoveTrustedIff(b: Bucket, prefix: string, p: string, broken: bool)
    requires Normalized(prefix) && WellKept(b, prefix)
    requires ToKey(prefix, p) != "" && (EndsInSlash(p) || EndsInSlash(ToKey(prefix, p)))
    ensures SuccessMeansGone(b, TreePrefix(ToKey(prefix, p)), broken) <==>
      !broken || !HasSubtree(b, prefix, Segments(p))
  {
    TreePrefixIsDirPrefix(prefix, p);
    DirPrefixKey(prefix, p);
    SuccessMeansGoneIff(b, DirPrefix(prefix, p), broken);
    DirExistsIff(b, prefix, Segments(p));
  }

  lemma DirExistsIff(b: Bucket, prefix: string, dir: seq<string>)
    requires Normalized(prefix) && WellKept(b, prefix) && AllOrdinary(dir)
    ensures DirExists(b, DirKey(prefix, dir)) <==> HasSubtree(b, prefix, dir)
  {
    if DirExists(b, DirKey(prefix, dir)) {
      var key :| key in b && DirKey(prefix, dir) <= key;
      assert prefix <= key;
      var segs := WritableIsFile(prefix, key);
      BelowDir(prefix, dir, segs);
      assert IsFile(b, prefix, segs);
    }
    if segs :| IsFile(b, prefix, segs) && dir < segs {
      BelowDir(prefix, dir, segs);
      assert FileKey(prefix, segs) in b;
    }
  }
}
