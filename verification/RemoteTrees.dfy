/** Removing a tree over SFTP without recursion: a worklist of directories to
    read, and a list of those to remove, deepest first. */
module RemoteTrees {
  import opened Prelude

  /** A path, as its components. */
  type Path = seq<string>

  function ParentOf(p: Path): Path
    requires p != []
  {
    p[..|p| - 1]
  }

  function NameOf(p: Path): string
    requires p != []
  {
    p[|p| - 1]
  }

  /** `p` is `top` or lies below it. */
  predicate IsUnder(p: Path, top: Path) {
    top <= p
  }

  predicate IsChild(p: Path, dir: Path) {
    p != [] && ParentOf(p) == dir
  }

  datatype Entry = Entry(name: string, isDir: bool)

  /** Every entry lies in a directory, and is a file or a directory only. */
  ghost predicate IsTree(files: set<Path>, dirs: set<Path>) {
    && files !! dirs
    && forall p :: p in files + dirs ==> p != [] && (|p| == 1 || ParentOf(p) in dirs)
  }

  predicate HasChild(files: set<Path>, dirs: set<Path>, dir: Path) {
    exists p :: p in files + dirs && IsChild(p, dir)
  }

  function EntriesOf(files: set<Path>, dirs: set<Path>, dir: Path): set<Entry> {
    set p | p in files + dirs && IsChild(p, dir) :: Entry(NameOf(p), p in dirs)
  }

  lemma ChildNamed(dir: Path, name: string)
    ensures IsChild(dir + [name], dir) && NameOf(dir + [name]) == name
  {
    assert ParentOf(dir + [name]) == dir;
  }

  lemma EntryOfChild(dir: Path, p: Path)
    requires IsChild(p, dir)
    ensures p == dir + [NameOf(p)]
  {
  }

  lemma EntriesExactly(files: set<Path>, dirs: set<Path>, dir: Path, e: Entry)
    requires files !! dirs
    ensures e in EntriesOf(files, dirs, dir) <==> dir + [e.name] in (if e.isDir then dirs else files)
  {
    ChildNamed(dir, e.name);
    if e in EntriesOf(files, dirs, dir) {
      var p :| p in files + dirs && IsChild(p, dir) && e == Entry(NameOf(p), p in dirs);
      EntryOfChild(dir, p);
    }
  }

  /** `n` of `was` calls are spent. */
  predicate Spent(was: nat, left: nat, n: nat) {
    was == left + n
  }

  /** The server's files and directories. The connection carries
      `callsLeft` more calls and then fails, at whatever point that is: the
      removal that fails may have taken effect, its answer lost. `refusals`
      counts the calls the server refused. */
  class SftpServer {
    var files: set<Path>
    var dirs: set<Path>
    var callsLeft: nat
    var refusals: nat

    constructor (files: set<Path>, dirs: set<Path>, callsLeft: nat)
      ensures this.files == files && this.dirs == dirs && this.callsLeft == callsLeft && refusals == 0
    {
      this.files, this.dirs, this.callsLeft, refusals := files, dirs, callsLeft, 0;
    }

    /** Whether one more call gets through. */
    method Call() returns (ok: bool)
      modifies this`callsLeft
      ensures ok <==> old(callsLeft) > 0
      ensures ok ==> callsLeft == old(callsLeft) - 1
      ensures !ok ==> callsLeft == 0
    {
      ok := callsLeft > 0;
      if ok {
        callsLeft := callsLeft - 1;
      }
    }

    /** What is at `p`: `None` for nothing. */
    method IsDir(p: Path) returns (ok: bool, isDir: Option<bool>)
      modifies this`callsLeft
      ensures ok <==> old(callsLeft) > 0
      ensures ok ==> Spent(old(callsLeft), callsLeft, 1)
      ensures isDir == if p in dirs then Some(true) else if p in files then Some(false) else None
    {
      ok := Call();
      isDir := if p in dirs then Some(true) else if p in files then Some(false) else None;
    }

    method RemoveFile(p: Path) returns (ok: bool)
      modifies this`files, this`callsLeft, this`refusals
      ensures p in old(files) ==> refusals == old(refusals) && (ok <==> old(callsLeft) > 0)
      ensures ok ==> Spent(old(callsLeft), callsLeft, 1)
      ensures !ok ==> files == old(files) || files == old(files) - {p}
      ensures ok ==> p in old(files) && files == old(files) - {p}
    {
      ok := Call();
      if ok && p !in files {
        refusals := refusals + 1;
        return false;
      }
      var arrived: bool := *;
      if ok || arrived {
        files := files - {p};
      }
    }

    /** Removes a directory, which must be empty. */
    method RemoveDir(p: Path) returns (ok: bool)
      modifies this`dirs, this`callsLeft, this`refusals
      ensures p in old(dirs) && !HasChild(files, old(dirs), p) ==> refusals == old(refusals) && (ok <==> old(callsLeft) > 0)
      ensures ok ==> Spent(old(callsLeft), callsLeft, 1)
      ensures !ok ==> dirs == old(dirs) || (!HasChild(files, old(dirs), p) && dirs == old(dirs) - {p})
      ensures ok ==> p in old(dirs) && !HasChild(files, old(dirs), p) && dirs == old(dirs) - {p}
    {
      ok := Call();
      if ok && (p !in dirs || HasChild(files, dirs, p)) {
        refusals := refusals + 1;
        return false;
      }
      var arrived: bool := *;
      if ok || (arrived && !HasChild(files, dirs, p)) {
        dirs := dirs - {p};
      }
    }

    /** The entries of a directory. The order is the server's. */
    method ReadDir(dir: Path) returns (ok: bool, entries: set<Entry>)
      modifies this`callsLeft
      ensures ok <==> old(callsLeft) > 0
      ensures ok ==> Spent(old(callsLeft), callsLeft, 1)
      ensures entries == EntriesOf(files, dirs, dir)
    {
      ok := Call();
      entries := EntriesOf(files, dirs, dir);
    }
  }

  // ---------- one directory ----------

  /** What is left of `files` once the entries of `dir` other than `rest` have
      been dealt with. */
  ghost predicate Remaining(left: set<Path>, files: set<Path>, dir: Path, rest: set<Entry>) {
    forall p :: p in left <==> p in files && (IsChild(p, dir) ==> Entry(NameOf(p), false) in rest)
  }

  /** The subdirectories of `dir` among those dealt with. */
  ghost predicate Noted(found: seq<Path>, dirs: set<Path>, dir: Path, rest: set<Entry>) {
    forall p :: p in found <==> p in dirs && IsChild(p, dir) && Entry(NameOf(p), true) !in rest
  }

  lemma DealtWith(files: set<Path>, dirs: set<Path>, dir: Path, left: set<Path>, found: seq<Path>,
                  rest: set<Entry>, e: Entry)
    requires Remaining(left, files, dir, rest) && Noted(found, dirs, dir, rest) && e in rest
    ensures e.isDir ==> Remaining(left, files, dir, rest - {e})
    ensures !e.isDir ==> Noted(found, dirs, dir, rest - {e})
    ensures dir + [e.name] in files && !e.isDir ==> Remaining(left - {dir + [e.name]}, files, dir, rest - {e})
    ensures dir + [e.name] in dirs && e.isDir ==> Noted(found + [dir + [e.name]], dirs, dir, rest - {e})
    ensures e.isDir ==> dir + [e.name] !in found
    ensures !e.isDir && dir + [e.name] in files ==> dir + [e.name] in left
  {
    var child := dir + [e.name];
    ChildNamed(dir, e.name);
    forall p | IsChild(p, dir) && NameOf(p) == e.name ensures p == child {
      EntryOfChild(dir, p);
    }
  }

  ghost function FilesIn(files: set<Path>, dir: Path): set<Path> {
    set p | p in files && IsChild(p, dir)
  }

  /** One more file of a directory is gone. */
  lemma OneMoreGone(files: set<Path>, left: set<Path>, gone: set<Path>, dir: Path, p: Path)
    requires gone == files - left && gone <= FilesIn(files, dir)
    requires p in files && p in left && IsChild(p, dir)
    ensures gone + {p} == files - (left - {p}) && gone + {p} <= FilesIn(files, dir)
    ensures |gone + {p}| == |gone| + 1 <= |FilesIn(files, dir)|
  {
    Fewer(gone + {p}, FilesIn(files, dir));
  }

  lemma {:induction false} Fewer<T>(a: set<T>, b: set<T>)
    requires a <= b
    ensures |a| <= |b|
  {
    if a != {} {
      var x :| x in a;
      Fewer(a - {x}, b - {x});
    }
  }

  /** Reads a directory: its files are removed as they are found, and its
      subdirectories returned. */
  method Clear(server: SftpServer, dir: Path) returns (ok: bool, found: seq<Path>)
    requires server.files !! server.dirs
    modifies server`files, server`callsLeft, server`refusals
    ensures server.refusals == old(server.refusals)
    // One call to read it, and one for each of its files.
    ensures ok <==> old(server.callsLeft) > |FilesIn(old(server.files), dir)|
    ensures ok ==> Spent(old(server.callsLeft), server.callsLeft, 1 + |FilesIn(old(server.files), dir)|)
    ensures server.files <= old(server.files)
    ensures forall p :: p in old(server.files) && !IsChild(p, dir) ==> p in server.files
    ensures ok ==> forall p :: p in server.files <==> p in old(server.files) && !IsChild(p, dir)
    ensures ok ==> forall p :: p in found <==> p in server.dirs && IsChild(p, dir)
    ensures ok ==> NoDuplicates(found)
  {
    hide Remaining, Noted, NoDuplicates, EntriesOf, FilesIn, IsChild, NameOf;
    ghost var files, dirs := server.files, server.dirs;
    found := [];
    var rest;
    ok, rest := server.ReadDir(dir);
    ghost var gone: set<Path> := {};
    AllRemain(files, dirs, dir, rest);
    if !ok {
      return;
    }
    while rest != {}
      invariant ok && server.refusals == old(server.refusals)
      invariant forall e :: e in rest ==> e in EntriesOf(files, dirs, dir)
      invariant Remaining(server.files, files, dir, rest)
      invariant Noted(found, dirs, dir, rest) && NoDuplicates(found)
      invariant gone == files - server.files && gone <= FilesIn(files, dir) && server.files <= files
      invariant Spent(old(server.callsLeft), server.callsLeft, 1 + |gone|)
    {
      var entry :| entry in rest;
      EntriesExactly(files, dirs, dir, entry);
      DealtWith(files, dirs, dir, server.files, found, rest, entry);
      rest := rest - {entry};
      var child := dir + [entry.name];
      ChildNamed(dir, entry.name);
      if entry.isDir {
        OneNew(found, child);
        found := found + [child];
      } else {
        OneMoreGone(files, server.files, gone, dir, child);
        ok := server.RemoveFile(child);
        if !ok {
          return;
        }
        gone := gone + {child};
      }
    }
    AllDealtWith(files, dirs, dir, server.files, found);
  }

  lemma OneNew<T>(a: seq<T>, x: T)
    requires NoDuplicates(a) && x !in a
    ensures NoDuplicates(a + [x])
  {
  }

  lemma AllDealtWith(files: set<Path>, dirs: set<Path>, dir: Path, left: set<Path>, found: seq<Path>)
    requires Remaining(left, files, dir, {}) && Noted(found, dirs, dir, {})
    ensures forall p :: p in left <==> p in files && !IsChild(p, dir)
    ensures forall p :: p in found <==> p in dirs && IsChild(p, dir)
    ensures files - left == FilesIn(files, dir)
  {
  }

  lemma AllRemain(files: set<Path>, dirs: set<Path>, dir: Path, entries: set<Entry>)
    requires files !! dirs && entries == EntriesOf(files, dirs, dir)
    ensures Remaining(files, files, dir, entries) && Noted([], dirs, dir, entries)
    ensures NoDuplicates<Path>([])
  {
  }

  // ---------- the whole tree ----------

  /** `found` lists directories of the tree once each, `top` first and every
      other one behind its parent. */
  ghost predicate ParentsFirst(found: seq<Path>, top: Path, dirs: set<Path>) {
    && |found| > 0 && found[0] == top
    && NoDuplicates(found)
    && (forall p :: p in found ==> p in dirs && IsUnder(p, top))
    && (forall i :: 0 < i < |found| ==> |found[i]| > |top| && ParentOf(found[i]) in found[..i])
  }

  /** Those found have been read or are pending, never both. */
  ghost predicate Worklist(found: seq<Path>, pending: seq<Path>, read: set<Path>) {
    && NoDuplicates(pending)
    && (forall p :: p in found <==> p in read || p in pending)
    && (forall p :: p in pending ==> p !in read)
  }

  /** The directories found are `top` and those in a directory read, and the
      files left are those in no directory read. */
  ghost predicate ReadSoFar(found: seq<Path>, read: set<Path>, top: Path, dirs: set<Path>,
                            files: set<Path>, left: set<Path>) {
    && (forall p :: p in dirs && p != [] ==> (p in found <==> p == top || ParentOf(p) in read))
    && (forall p :: p in left <==> p in files && (p != [] ==> ParentOf(p) !in read))
  }

  lemma AppendNew<T>(a: seq<T>, b: seq<T>)
    requires NoDuplicates(a) && NoDuplicates(b)
    requires forall x :: x in b ==> x !in a
    ensures NoDuplicates(a + b)
  {
    var s := a + b;
    forall i, j | 0 <= i < j < |s| ensures s[i] != s[j] {
      assert j >= |a| ==> s[j] in b;
      assert i < |a| ==> s[i] in a;
    }
  }

  lemma LastIsNew<T>(a: seq<T>, x: T)
    requires NoDuplicates(a + [x])
    ensures NoDuplicates(a) && x !in a
  {
    var s := a + [x];
    assert s[|a|] == x;
    assert forall i :: 0 <= i < |a| ==> a[i] == s[i];
  }

  /** Reading one more directory keeps the worklist. */
  lemma PopAndPush(found: seq<Path>, pending: seq<Path>, read: set<Path>, dir: Path, more: seq<Path>)
    requires Worklist(found, pending + [dir], read)
    requires NoDuplicates(more) && forall p :: p in more ==> p !in found
    ensures Worklist(found + more, pending + more, read + {dir})
    ensures dir in found && dir !in read
  {
    LastIsNew(pending, dir);
    assert forall p :: p in pending + [dir] <==> p in pending || p == dir;
    AppendNew(pending, more);
  }

  /** And the order. */
  lemma ChildrenBehind(found: seq<Path>, top: Path, dirs: set<Path>, dir: Path, more: seq<Path>)
    requires top != [] && ParentsFirst(found, top, dirs) && dir in found
    requires forall p :: p in more ==> p !in found && p in dirs && IsChild(p, dir)
    requires NoDuplicates(more)
    ensures ParentsFirst(found + more, top, dirs)
  {
    AppendNew(found, more);
    var s := found + more;
    forall i | 0 < i < |s| ensures |s[i]| > |top| && ParentOf(s[i]) in s[..i] {
      if i < |found| {
        assert s[i] == found[i] && s[..i] == found[..i];
      } else {
        assert s[i] in more;
        var k :| 0 <= k < |found| && found[k] == dir;
        assert s[..i][k] == dir;
      }
    }
  }

  /** A directory not read yet has no subdirectory among those found. */
  lemma NotYetFound(found: seq<Path>, read: set<Path>, top: Path, dirs: set<Path>, files: set<Path>,
                    left: set<Path>, dir: Path, p: Path)
    requires ReadSoFar(found, read, top, dirs, files, left) && IsUnder(dir, top)
    requires dir !in read && p in dirs && IsChild(p, dir)
    ensures p !in found
  {
    assert |p| > |top|;
  }

  lemma ReadOneMore(found: seq<Path>, read: set<Path>, top: Path, dirs: set<Path>, files: set<Path>,
                    left: set<Path>, dir: Path, more: seq<Path>, left': set<Path>)
    requires ReadSoFar(found, read, top, dirs, files, left)
    requires forall p :: p in more <==> p in dirs && IsChild(p, dir)
    requires forall p :: p in left' <==> p in left && !IsChild(p, dir)
    ensures ReadSoFar(found + more, read + {dir}, top, dirs, files, left')
  {
  }

  ghost function Under(paths: set<Path>, top: Path): set<Path> {
    set p | p in paths && IsUnder(p, top)
  }

  /** Where the worklist stands. */
  ghost predicate Reading(found: seq<Path>, pending: seq<Path>, read: set<Path>, top: Path, dirs: set<Path>,
                          files: set<Path>, left: set<Path>) {
    && ParentsFirst(found, top, dirs) && Worklist(found, pending, read)
    && ReadSoFar(found, read, top, dirs, files, left)
    && read <= dirs && left <= files && (forall p :: p in files && !IsUnder(p, top) ==> p in left)
  }

  lemma FoundIsUnder(found: seq<Path>, pending: seq<Path>, read: set<Path>, top: Path, dirs: set<Path>,
                     files: set<Path>, left: set<Path>, dir: Path)
    requires Reading(found, pending + [dir], read, top, dirs, files, left)
    ensures dir in found && IsUnder(dir, top) && dir in dirs && dir !in read
    ensures read <= Under(dirs, top)
  {
    hide ReadSoFar, NoDuplicates;
    NextIsNew(found, pending, read, dir);
  }

  /** The directory read next: what that takes is part of what is there. */
  lemma NextToRead(found: seq<Path>, pending: seq<Path>, read: set<Path>, top: Path, dirs: set<Path>,
                   files: set<Path>, left: set<Path>, dir: Path)
    requires Reading(found, pending + [dir], read, top, dirs, files, left)
    ensures dir in dirs && dir !in read && (forall p :: IsChild(p, dir) ==> IsUnder(p, top))
    ensures |read| + 1 <= |Under(dirs, top)|
    ensures |files - left| + |FilesIn(left, dir)| <= |Under(files, top)|
  {
    FoundIsUnder(found, pending, read, top, dirs, files, left, dir);
    StillThere(found, pending + [dir], read, top, dirs, files, left);
    ChildrenAreUnder(dir, top);
    hide Reading;
    Fewer(read + {dir}, Under(dirs, top));
    hide IsUnder, IsChild;
    FilesCounted(files, left, top, dir);
  }

  lemma ChildrenAreUnder(dir: Path, top: Path)
    requires IsUnder(dir, top)
    ensures forall p :: IsChild(p, dir) ==> IsUnder(p, top)
  {
  }

  lemma FilesCounted(files: set<Path>, left: set<Path>, top: Path, dir: Path)
    requires left <= files && forall p :: p in files && !IsUnder(p, top) ==> p in left
    requires forall p :: IsChild(p, dir) ==> IsUnder(p, top)
    ensures |files - left| + |FilesIn(left, dir)| <= |Under(files, top)|
  {
    hide IsUnder, IsChild;
    Together(files - left, FilesIn(left, dir));
    Fewer((files - left) + FilesIn(left, dir), Under(files, top));
  }

  lemma Together<T>(a: set<T>, b: set<T>)
    requires a !! b
    ensures |a + b| == |a| + |b|
  {
  }

  /** The worklist after it was read. */
  lemma ReadNext(found: seq<Path>, pending: seq<Path>, read: set<Path>, top: Path, dirs: set<Path>,
                 files: set<Path>, left: set<Path>, dir: Path, more: seq<Path>, left': set<Path>)
    requires Reading(found, pending + [dir], read, top, dirs, files, left) && top != [] && NoDuplicates(more)
    requires forall p :: p in more <==> p in dirs && IsChild(p, dir)
    requires forall p :: p in left' <==> p in left && !IsChild(p, dir)
    ensures Reading(found + more, pending + more, read + {dir}, top, dirs, files, left')
    ensures |files - left'| == |files - left| + |FilesIn(left, dir)|
  {
    NextToRead(found, pending, read, top, dirs, files, left, dir);
    FoundIsUnder(found, pending, read, top, dirs, files, left, dir);
    hide IsUnder, IsChild, ReadSoFar, ParentsFirst, Worklist, NoDuplicates;
    forall p | p in more ensures p !in found {
      NotYetFound(found, read, top, dirs, files, left, dir, p);
    }
    PopAndPush(found, pending, read, dir, more);
    ChildrenBehind(found, top, dirs, dir, more);
    ReadOneMore(found, read, top, dirs, files, left, dir, more, left');
    assert files - left' == (files - left) + FilesIn(left, dir);
    Together(files - left, FilesIn(left, dir));
  }

  /** The worklist: reads directory after directory, removing files. */
  method Discover(server: SftpServer, top: Path) returns (ok: bool, found: seq<Path>, ghost read: set<Path>)
    requires IsTree(server.files, server.dirs) && top in server.dirs
    modifies server`files, server`callsLeft, server`refusals
    ensures server.refusals == old(server.refusals)
    // One call for each directory and each file found.
    ensures ok ==> Spent(old(server.callsLeft), server.callsLeft, |read| + |old(server.files) - server.files|)
    ensures !ok ==> old(server.callsLeft) < |Under(server.dirs, top)| + |Under(old(server.files), top)|
    ensures server.files <= old(server.files)
    ensures forall p :: p in old(server.files) && !IsUnder(p, top) ==> p in server.files
    ensures ok ==> ParentsFirst(found, top, server.dirs)
    ensures ok ==> forall p :: p in found <==> p in read
    ensures ok ==> ReadSoFar(found, read, top, server.dirs, old(server.files), server.files)
  {
    hide Reading, NoDuplicates, IsChild, IsUnder, FilesIn, Under, ParentsFirst, ReadSoFar, Worklist;
    ghost var files, dirs := server.files, server.dirs;
    found := [top];
    var pending := [top];
    read := {};
    ok := true;
    StartsAtTop(top, dirs, files);
    while pending != []
      invariant ok && server.refusals == old(server.refusals)
      invariant Reading(found, pending, read, top, dirs, files, server.files)
      invariant Spent(old(server.callsLeft), server.callsLeft, |read| + |files - server.files|)
      decreases dirs - read
    {
      var dir := pending[|pending| - 1];
      assert pending == pending[..|pending| - 1] + [dir];
      pending := pending[..|pending| - 1];
      ghost var left := server.files;
      NextToRead(found, pending, read, top, dirs, files, left, dir);
      StillThere(found, pending + [dir], read, top, dirs, files, left);
      var more;
      ok, more := Clear(server, dir);
      if !ok {
        return;
      }
      ReadNext(found, pending, read, top, dirs, files, left, dir, more, server.files);
      found := found + more;
      pending := pending + more;
      read := read + {dir};
    }
    StillThere(found, pending, read, top, dirs, files, server.files);
    AllRead(found, read, top, dirs, files, server.files);
  }

  lemma StillThere(found: seq<Path>, pending: seq<Path>, read: set<Path>, top: Path, dirs: set<Path>,
                   files: set<Path>, left: set<Path>)
    requires Reading(found, pending, read, top, dirs, files, left)
    ensures left <= files && forall p :: p in files && !IsUnder(p, top) ==> p in left
  {
  }

  lemma AllRead(found: seq<Path>, read: set<Path>, top: Path, dirs: set<Path>, files: set<Path>, left: set<Path>)
    requires Reading(found, [], read, top, dirs, files, left)
    ensures ParentsFirst(found, top, dirs) && ReadSoFar(found, read, top, dirs, files, left)
    ensures forall p :: p in found <==> p in read
  {
    hide ReadSoFar, ParentsFirst;
    NothingPending(found, read);
  }

  lemma StartsAtTop(top: Path, dirs: set<Path>, files: set<Path>)
    requires top in dirs
    ensures Reading([top], [top], {}, top, dirs, files, files)
  {
  }

  lemma NextIsNew(found: seq<Path>, pending: seq<Path>, read: set<Path>, dir: Path)
    requires Worklist(found, pending + [dir], read)
    ensures dir in found && dir !in read
  {
    assert dir in pending + [dir];
  }

  lemma NothingPending(found: seq<Path>, read: set<Path>)
    requires Worklist(found, [], read)
    ensures forall p :: p in found <==> p in read
  {
  }

  /** Once everything found has been read, every directory of the tree is
      found and every file of it is gone. */
  lemma {:induction false} AllFound(found: seq<Path>, read: set<Path>, top: Path, dirs: set<Path>,
                                    files: set<Path>, left: set<Path>, p: Path)
    requires ReadSoFar(found, read, top, dirs, files, left) && IsTree(files, dirs)
    requires top in dirs && forall q :: q in found <==> q in read
    requires IsUnder(p, top)
    ensures p in dirs ==> p in found
    ensures p !in left
    decreases |p|
  {
    if p != top && p in dirs + files {
      assert |top| <= |p|;
      assert |p| == |top| ==> p == top;
      assert IsUnder(ParentOf(p), top);
      AllFound(found, read, top, dirs, files, left, ParentOf(p));
    }
  }

  /** A directory's subdirectories stand behind it in the list. */
  lemma ChildrenComeLater(found: seq<Path>, top: Path, dirs: set<Path>, i: nat, p: Path)
    requires ParentsFirst(found, top, dirs) && i < |found|
    requires p in found && IsChild(p, found[i])
    ensures p in found[i + 1..]
  {
    var k :| 0 <= k < |found| && found[k] == p;
    assert IsUnder(found[i], top) by {
      assert found[i] in found;
    }
    assert k > 0;
    var j :| 0 <= j < k && found[..k][j] == found[i];
    assert found[j] == found[i];
    assert j == i;
    assert found[i + 1..][k - i - 1] == p;
  }

  /** So, when all those behind it have been removed and no file is left, it
      is empty. */
  lemma IsEmptyByNow(found: seq<Path>, top: Path, dirs: set<Path>, i: nat, files: set<Path>, left: set<Path>)
    requires ParentsFirst(found, top, dirs) && i < |found|
    requires forall p :: IsUnder(p, top) && p in dirs ==> p in found
    requires forall p :: p in files ==> !IsUnder(p, top)
    requires forall p :: p in left <==> p in dirs && p !in found[i + 1..]
    ensures !HasChild(files, left, found[i]) && found[i] in left
  {
    var dir := found[i];
    assert dir in found;
    if HasChild(files, left, dir) {
      var p :| p in files + left && IsChild(p, dir);
      assert IsUnder(p, top);
      ChildrenComeLater(found, top, dirs, i, p);
    }
  }

  lemma TailFrom(found: seq<Path>, i: nat)
    requires i < |found|
    ensures forall p :: p in found[i..] <==> p == found[i] || p in found[i + 1..]
  {
    assert found[i..] == [found[i]] + found[i + 1..];
  }

  /** What is found is in the tree. */
  lemma OnlyTheTree(found: seq<Path>, top: Path, dirs: set<Path>)
    requires ParentsFirst(found, top, dirs)
    ensures forall p :: p in found ==> p in dirs && IsUnder(p, top)
  {
  }

  /** The directories, last found first. */
  method RemoveDirs(server: SftpServer, found: seq<Path>, ghost top: Path)
    returns (ok: bool)
    requires ParentsFirst(found, top, server.dirs)
    requires forall p :: IsUnder(p, top) && p in server.dirs ==> p in found
    requires forall p :: p in server.files ==> !IsUnder(p, top)
    modifies server`dirs, server`callsLeft, server`refusals
    ensures server.refusals == old(server.refusals)
    ensures ok <==> old(server.callsLeft) >= |found|
    ensures ok ==> Spent(old(server.callsLeft), server.callsLeft, |found|)
    ensures server.dirs <= old(server.dirs)
    ensures forall p :: p in old(server.dirs) && !IsUnder(p, top) ==> p in server.dirs
    ensures ok ==> forall p :: p in server.dirs <==> p in old(server.dirs) && !IsUnder(p, top)
  {
    hide ParentsFirst, IsUnder, HasChild;
    ghost var dirs := server.dirs;
    OnlyTheTree(found, top, dirs);
    ok := true;
    var i := |found|;
    while i > 0
      invariant 0 <= i <= |found| && ok && server.refusals == old(server.refusals)
      invariant forall p :: p in server.dirs <==> p in dirs && p !in found[i..]
      invariant Spent(old(server.callsLeft), server.callsLeft, |found| - i)
    {
      i := i - 1;
      IsEmptyByNow(found, top, dirs, i, server.files, server.dirs);
      TailFrom(found, i);
      ok := server.RemoveDir(found[i]);
      if !ok {
        return;
      }
    }
    assert found[0..] == found;
  }

  /** The calls a removal takes. */
  ghost function Calls(files: set<Path>, dirs: set<Path>, top: Path): nat {
    1 + |Under(files, top)| + 2 * |Under(dirs, top)|
  }

  lemma {:induction false} AsMany<T>(s: seq<T>, a: set<T>)
    requires NoDuplicates(s) && forall x :: x in a <==> x in s
    ensures |s| == |a|
  {
    if s != [] {
      var x, rest := s[|s| - 1], s[..|s| - 1];
      assert s == rest + [x];
      LastIsNew(rest, x);
      AsMany(rest, a - {x});
    } else {
      assert a == {};
    }
  }

  lemma AllCounted(found: seq<Path>, read: set<Path>, top: Path, files: set<Path>, dirs: set<Path>, left: set<Path>)
    requires ParentsFirst(found, top, dirs) && forall p :: p in found <==> p in read
    requires forall p :: IsUnder(p, top) ==> (p in dirs ==> p in found) && p !in left
    requires left <= files && forall p :: p in files && !IsUnder(p, top) ==> p in left
    ensures |found| == |read| == |Under(dirs, top)| && |files - left| == |Under(files, top)|
  {
    AsMany(found, read);
    AsMany(found, Under(dirs, top));
    assert files - left == Under(files, top);
  }

  /** Removes everything at and below `top`: files as they are found, then
      directories from the end of the list. */
  method RemoveTree(server: SftpServer, top: Path) returns (ok: bool)
    requires IsTree(server.files, server.dirs) && top != []
    modifies server
    // Success leaves exactly the tree without what was at and below `top`.
    ensures ok ==> forall p :: p in server.files <==> p in old(server.files) && !IsUnder(p, top)
    ensures ok ==> forall p :: p in server.dirs <==> p in old(server.dirs) && !IsUnder(p, top)
    // It takes one call to look at `top`, one for each file, and two for each
    // directory, and fails only when the connection carries fewer. No call is
    // ever refused: every directory is empty when its removal is asked for.
    ensures ok <==> old(server.callsLeft) >= Calls(old(server.files), old(server.dirs), top)
    ensures ok ==> Spent(old(server.callsLeft), server.callsLeft, Calls(old(server.files), old(server.dirs), top))
    ensures server.refusals == old(server.refusals)
    // Nothing outside the tree is ever touched, and nothing is added.
    ensures server.files <= old(server.files) && server.dirs <= old(server.dirs)
    ensures forall p :: p in old(server.files) && !IsUnder(p, top) ==> p in server.files
    ensures forall p :: p in old(server.dirs) && !IsUnder(p, top) ==> p in server.dirs
  {
    hide ParentsFirst, ReadSoFar, IsUnder, Under;
    ghost var files, dirs := server.files, server.dirs;
    var isDir;
    ok, isDir := server.IsDir(top);
    if !ok {
      return;
    }
    if isDir.None? {
      NothingUnder(files, dirs, top);
      return;
    }
    if !isDir.value {
      NothingUnder(files, dirs, top);
      ok := server.RemoveFile(top);
      return;
    }
    var found;
    ghost var read;
    ok, found, read := Discover(server, top);
    if !ok {
      return;
    }
    forall p | IsUnder(p, top) ensures (p in dirs ==> p in found) && p !in server.files {
      AllFound(found, read, top, dirs, files, server.files, p);
    }
    AllCounted(found, read, top, files, dirs, server.files);
    ok := RemoveDirs(server, found, top);
  }

  /** Where `top` is no directory, nothing lies below it. */
  lemma NothingUnder(files: set<Path>, dirs: set<Path>, top: Path)
    requires IsTree(files, dirs) && top !in dirs && top != []
    ensures forall p :: p in files + dirs ==> (IsUnder(p, top) <==> p == top)
    ensures Under(dirs, top) == {} && Under(files, top) == (if top in files then {top} else {})
  {
    forall p | p in files + dirs && p != top ensures !IsUnder(p, top) {
      NotUnder(files, dirs, top, p);
    }
  }

  lemma {:induction false} NotUnder(files: set<Path>, dirs: set<Path>, top: Path, p: Path)
    requires IsTree(files, dirs) && top !in dirs && top != []
    requires p in files + dirs && p != top
    ensures !IsUnder(p, top)
    decreases |p|
  {
    if IsUnder(p, top) {
      assert |p| == |top| ==> p == top;
      assert IsUnder(ParentOf(p), top);
      NotUnder(files, dirs, top, ParentOf(p));
    }
  }
}
