/** Downloads into one directory, any number of them at once, as steps on a
    shared directory of hard links. Every step is one call the filesystem
    carries out in one go; other programs add and delete files in between. */
module DownloadRuns {
  import opened Prelude
  import opened DownloadNames

  type Name = string
  type Inode = nat

  /** A digest function; nothing is assumed of it. */
  type Hash = Bytes -> string

  datatype Meta = Meta(size: nat, sha256: string)

  datatype DownloadError = ReadError | CreateError | WriteError | IntegrityError | NoFreeName

  type Outcome = Result<Name, DownloadError>

  const PART_TRIES: nat := 16

  datatype Phase = Creating(tries: nat) | Opening | Streaming | Linking(n: nat) | Removing | Done

  /** The part file of a run. */
  datatype Part = Part(name: Name, inode: Inode)

  /** `hashed` is what the run has hashed so far; `removed` says that it has
      removed its part file. */
  datatype Run = Run(name: Name, meta: Meta, phase: Phase, part: Option<Part>, hashed: Bytes,
                     outcome: Option<Outcome>, removed: bool)

  function NewRun(name: Name, meta: Meta): Run {
    Run(name, meta, Creating(0), None, [], None, false)
  }

  /** The directory's names, the content of each inode (kept when its last
      name goes), the next unused inode, and the runs. */
  datatype World = World(dir: map<Name, Inode>, data: map<Inode, Bytes>, next: Inode, runs: seq<Run>)

  datatype Action =
    | TryCreate(i: nat, random: nat, refused: bool)
    | Open(i: nat, ok: bool)
    | Read(i: nat, chunk: Bytes)
    | ReadFails(i: nat)
    | WriteFails(i: nat, chunk: Bytes, kept: nat)
    | End(i: nat, flushed: bool)
    | Link(i: nat, refused: bool)
    | Remove(i: nat, ok: bool)
    | Add(name: Name, content: Bytes)
    | Delete(name: Name)

  predicate IsRuns(a: Action) {
    !a.Add? && !a.Delete?
  }

  // ---------- what each call does to its run ----------

  function Fail(r: Run, error: DownloadError): Run {
    r.(phase := Removing, outcome := Some(Err(error)))
  }

  /** After the end of the content: size and digest must be the item's. */
  function Checked(hash: Hash, r: Run): Run {
    if |r.hashed| == r.meta.size && hash(r.hashed) == r.meta.sha256 then r.(phase := Linking(0))
    else Fail(r, IntegrityError)
  }

  /** A new file of `content` under a free name. */
  function Created(w: World, name: Name, content: Bytes): World {
    w.(dir := w.dir[name := w.next], data := w.data[w.next := content], next := w.next + 1)
  }

  function SetRun(w: World, i: nat, r: Run): World
    requires i < |w.runs|
  {
    w.(runs := w.runs[i := r])
  }

  function ApplyCreate(w: World, i: nat, random: nat, refused: bool): World
    requires i < |w.runs| && w.runs[i].phase.Creating?
  {
    var r := w.runs[i];
    var part := PartName(r.name, random);
    if refused then
      SetRun(w, i, r.(phase := Done, outcome := Some(Err(CreateError))))
    else if part in w.dir then
      SetRun(w, i, if r.phase.tries + 1 < PART_TRIES then r.(phase := Creating(r.phase.tries + 1))
                   else r.(phase := Done, outcome := Some(Err(CreateError))))
    else
      SetRun(Created(w, part, []), i, r.(phase := Opening, part := Some(Part(part, w.next))))
  }

  /** The part file is opened again by its name, and created or cut to
      nothing. */
  function ApplyOpen(w: World, i: nat, ok: bool): World
    requires i < |w.runs| && w.runs[i].part.Some?
  {
    var r := w.runs[i];
    var part := r.part.value.name;
    if !ok then SetRun(w, i, Fail(r, CreateError))
    else if part in w.dir then
      SetRun(w.(data := w.data[w.dir[part] := []]), i, r.(phase := Streaming, part := Some(Part(part, w.dir[part]))))
    else
      SetRun(Created(w, part, []), i, r.(phase := Streaming, part := Some(Part(part, w.next))))
  }

  /** `written` of the `chunk` that was read and hashed goes to the file. */
  function ApplyWrite(w: World, i: nat, chunk: Bytes, written: Bytes): World
    requires i < |w.runs| && w.runs[i].part.Some? && w.runs[i].part.value.inode in w.data
  {
    var r := w.runs[i];
    var inode := r.part.value.inode;
    SetRun(w.(data := w.data[inode := w.data[inode] + written]), i, r.(hashed := r.hashed + chunk))
  }

  function ApplyLink(w: World, i: nat, refused: bool): World
    requires i < |w.runs| && w.runs[i].part.Some? && w.runs[i].phase.Linking?
  {
    var r := w.runs[i];
    var n := r.phase.n;
    var candidate := CandidateName(r.name, n);
    if refused || r.part.value.name !in w.dir then
      SetRun(w, i, Fail(r, WriteError))
    else if candidate in w.dir then
      SetRun(w, i, if n < MAX_NUMBERED_NAMES then r.(phase := Linking(n + 1)) else Fail(r, NoFreeName))
    else
      SetRun(w.(dir := w.dir[candidate := w.dir[r.part.value.name]]), i,
             r.(phase := Removing, outcome := Some(Ok(candidate))))
  }

  function ApplyRemove(w: World, i: nat, ok: bool): World
    requires i < |w.runs| && w.runs[i].part.Some?
  {
    var r := w.runs[i];
    if ok then SetRun(w.(dir := w.dir - {r.part.value.name}), i, r.(phase := Done, removed := true))
    else SetRun(w, i, r.(phase := Done))
  }

  /** A run that has a part file and is not done with it. */
  predicate IsLive(r: Run) {
    r.part.Some? && r.phase != Done
  }

  predicate IsLivePart(w: World, name: Name) {
    exists i :: 0 <= i < |w.runs| && IsLive(w.runs[i]) && w.runs[i].part.value.name == name
  }

  /** Whether the action can be the next one. Other programs leave the part
      files of downloads in progress alone. */
  predicate CanHappen(w: World, a: Action) {
    if a.Add? then a.name !in w.dir
    else if a.Delete? then !IsLivePart(w, a.name)
    else
      && a.i < |w.runs|
      && var r := w.runs[a.i];
      if a.TryCreate? then r.phase.Creating?
      else
        && r.part.Some?
        && r.part.value.inode in w.data
        && (a.Open? ==> r.phase == Opening)
        && (a.Read? || a.ReadFails? || a.WriteFails? || a.End? ==> r.phase == Streaming)
        && (a.Read? ==> a.chunk != [])
        && (a.WriteFails? ==> a.kept <= |a.chunk|)
        && (a.Link? ==> r.phase.Linking?)
        && (a.Remove? ==> r.phase == Removing)
  }

  function Apply(hash: Hash, w: World, a: Action): World
    requires CanHappen(w, a)
  {
    match a
    case TryCreate(i, random, refused) => ApplyCreate(w, i, random, refused)
    case Open(i, ok) => ApplyOpen(w, i, ok)
    case Read(i, chunk) => ApplyWrite(w, i, chunk, chunk)
    case ReadFails(i) => SetRun(w, i, Fail(w.runs[i], ReadError))
    case WriteFails(i, chunk, kept) =>
      var written := ApplyWrite(w, i, chunk, chunk[..kept]);
      SetRun(written, i, Fail(written.runs[i], WriteError))
    case End(i, flushed) => SetRun(w, i, if flushed then Checked(hash, w.runs[i]) else Fail(w.runs[i], WriteError))
    case Link(i, refused) => ApplyLink(w, i, refused)
    case Remove(i, ok) => ApplyRemove(w, i, ok)
    case Add(name, content) => Created(w, name, content)
    case Delete(name) => w.(dir := w.dir - {name})
  }

  /** An action that cannot happen is passed over. */
  function Next(hash: Hash, w: World, a: Action): World {
    if CanHappen(w, a) then Apply(hash, w, a) else w
  }

  /** Any interleaving at all of any number of runs. */
  function After(hash: Hash, w: World, actions: seq<Action>): World {
    if actions == [] then w else Next(hash, After(hash, w, actions[..|actions| - 1]), actions[|actions| - 1])
  }

  /** Before any run has done anything. */
  ghost predicate IsStart(w: World) {
    && (forall p :: p in w.dir ==> w.dir[p] in w.data)
    && (forall n :: n in w.data ==> n < w.next)
    && (forall i :: 0 <= i < |w.runs| ==> w.runs[i] == NewRun(w.runs[i].name, w.runs[i].meta))
  }

  // ---------- the invariant ----------

  /** Every name has content, and inodes are never reused. */
  ghost predicate FilesOk(w: World) {
    && (forall p :: p in w.dir ==> w.dir[p] in w.data)
    && (forall n :: n in w.data ==> n < w.next)
  }

  predicate Published(r: Run) {
    r.outcome.Some? && r.outcome.value.Ok?
  }

  /** Past the check of size and digest. */
  predicate Passed(r: Run) {
    r.phase.Linking? || Published(r)
  }

  /** What holds of a run by itself. */
  ghost predicate RunOk(hash: Hash, r: Run) {
    && (r.phase.Creating? ==> r.part.None? && r.hashed == [])
    && (r.phase.Opening? ==> r.hashed == [])
    && (r.phase.Opening? || r.phase.Streaming? || r.phase.Linking? || r.phase.Removing? ==> r.part.Some? && !r.removed)
    && (r.phase.Linking? ==> r.phase.n <= MAX_NUMBERED_NAMES)
    && (r.outcome.Some? <==> r.phase == Removing || r.phase == Done)
    && (r.removed ==> r.phase == Done && r.part.Some?)
    && (Passed(r) ==> r.part.Some? && |r.hashed| == r.meta.size && hash(r.hashed) == r.meta.sha256)
    && (r.outcome == Some(Err(IntegrityError)) ==> |r.hashed| != r.meta.size || hash(r.hashed) != r.meta.sha256)
    && (Published(r) ==> exists n: nat :: n <= MAX_NUMBERED_NAMES && r.outcome.value.value == CandidateName(r.name, n))
    && (r.part.Some? ==> exists random: nat :: r.part.value.name == PartName(r.name, random))
  }

  /** The names a run's file may be found under. */
  predicate IsNameOf(r: Run, p: Name) {
    (r.part.Some? && p == r.part.value.name && !r.removed) || (Published(r) && p == r.outcome.value.value)
  }

  /** What ties a run to the directory. */
  ghost predicate Anchored(w: World, r: Run) {
    r.part.Some? ==>
      var inode := r.part.value.inode;
      && inode in w.data
      && (IsLive(r) ==> r.part.value.name in w.dir && w.dir[r.part.value.name] == inode)
      && (forall p :: p in w.dir && w.dir[p] == inode ==> IsNameOf(r, p))
      && (r.phase == Streaming || Passed(r) ==> w.data[inode] == r.hashed)
  }

  /** No two runs have one file. */
  ghost predicate Apart(runs: seq<Run>) {
    forall i, j :: 0 <= i < j < |runs| && runs[i].part.Some? && runs[j].part.Some? ==>
      runs[i].part.value.inode != runs[j].part.value.inode
  }

  ghost predicate Invariant(hash: Hash, w: World) {
    && FilesOk(w)
    && Apart(w.runs)
    && (forall i :: 0 <= i < |w.runs| ==> RunOk(hash, w.runs[i]) && Anchored(w, w.runs[i]))
  }

  // ---------- every step keeps it ----------

  /** A run stays anchored when nothing of its file changes. */
  lemma StaysAnchored(w: World, w': World, r: Run)
    requires Anchored(w, r)
    requires r.part.Some? ==>
      var inode := r.part.value.inode;
      && inode in w'.data && (inode in w.data ==> w'.data[inode] == w.data[inode])
      && (forall p :: p in w'.dir && w'.dir[p] == inode ==> p in w.dir && w.dir[p] == inode)
      && (IsLive(r) && r.part.value.name in w.dir ==>
          r.part.value.name in w'.dir && w'.dir[r.part.value.name] == w.dir[r.part.value.name])
    ensures Anchored(w', r)
  {
  }

  /** It is enough that the one run that moved is well, and that the others
      keep their files. */
  lemma OneRunMoved(hash: Hash, w: World, w': World, i: nat)
    requires Invariant(hash, w) && i < |w.runs| && FilesOk(w')
    requires |w'.runs| == |w.runs| && w'.runs == w.runs[i := w'.runs[i]]
    requires RunOk(hash, w'.runs[i]) && Anchored(w', w'.runs[i])
    requires forall j :: 0 <= j < |w.runs| && j != i ==> Anchored(w', w.runs[j])
    requires w'.runs[i].part.Some? ==>
      w'.runs[i].part.value.inode !in w.data || w'.runs[i].part == w.runs[i].part
    ensures Invariant(hash, w')
  {
    hide RunOk;
    assert forall j :: 0 <= j < |w.runs| && w.runs[j].part.Some? ==> w.runs[j].part.value.inode in w.data by {
      forall j | 0 <= j < |w.runs| && w.runs[j].part.Some? ensures w.runs[j].part.value.inode in w.data {
        assert Anchored(w, w.runs[j]);
      }
    }
    hide Anchored;
  }

  lemma LocalStep(hash: Hash, w: World, i: nat, r: Run)
    requires Invariant(hash, w) && i < |w.runs|
    requires r.part == w.runs[i].part && RunOk(hash, r)
    requires IsLive(r) ==> IsLive(w.runs[i])
    requires forall p :: IsNameOf(w.runs[i], p) ==> IsNameOf(r, p)
    requires r.phase == Streaming || Passed(r) ==>
      r.hashed == w.runs[i].hashed && (w.runs[i].phase == Streaming || Passed(w.runs[i]))
    ensures Invariant(hash, SetRun(w, i, r))
  {
    hide RunOk;
    var w' := SetRun(w, i, r);
    assert Anchored(w, w.runs[i]);
    assert Anchored(w', r);
    forall j | 0 <= j < |w.runs| && j != i ensures Anchored(w', w.runs[j]) {
      assert Anchored(w, w.runs[j]);
      StaysAnchored(w, w', w.runs[j]);
    }
    OneRunMoved(hash, w, w', i);
  }

  /** Creating a file under a free name touches nobody's. */
  lemma OthersKeepOnCreate(w: World, w': World, name: Name, r: Run)
    requires FilesOk(w) && Anchored(w, r) && name !in w.dir
    requires w'.dir == w.dir[name := w.next] && w'.data.Keys == w.data.Keys + {w.next}
    requires forall n :: n in w.data ==> w'.data[n] == w.data[n]
    ensures Anchored(w', r)
  {
    StaysAnchored(w, w', r);
  }

  lemma CreateKeeps(hash: Hash, w: World, i: nat, random: nat, refused: bool)
    requires Invariant(hash, w) && i < |w.runs| && w.runs[i].phase.Creating?
    ensures Invariant(hash, ApplyCreate(w, i, random, refused))
  {
    hide PartName, CandidateName, Anchored;
    var r := w.runs[i];
    assert RunOk(hash, r);
    var w' := ApplyCreate(w, i, random, refused);
    var part := PartName(r.name, random);
    if refused || part in w.dir {
      LocalStep(hash, w, i, w'.runs[i]);
    } else {
      forall j | 0 <= j < |w.runs| && j != i ensures Anchored(w', w.runs[j]) {
        OthersKeepOnCreate(w, w', part, w.runs[j]);
      }
      NewPart(w, w', w'.runs[i], part);
      OneRunMoved(hash, w, w', i);
    }
  }

  lemma NewPart(w: World, w': World, r: Run, part: Name)
    requires FilesOk(w) && r.part == Some(Part(part, w.next)) && r.phase == Opening && !r.removed && r.outcome.None?
    requires w'.dir == w.dir[part := w.next] && w'.data == w.data[w.next := []]
    ensures Anchored(w', r)
  {
  }

  /** Writing to a run's own file touches no other run's. */
  lemma WriteKeeps(hash: Hash, w: World, i: nat, content: Bytes, r: Run)
    requires Invariant(hash, w) && i < |w.runs| && w.runs[i].part.Some? && w.runs[i].outcome.None?
    requires r.part == w.runs[i].part && r.removed == w.runs[i].removed && !Published(r)
    requires IsLive(r) ==> IsLive(w.runs[i])
    requires RunOk(hash, r) && (r.phase == Streaming || Passed(r) ==> r.hashed == content)
    ensures w.runs[i].part.value.inode in w.data
    ensures Invariant(hash, SetRun(w.(data := w.data[r.part.value.inode := content]), i, r))
  {
    hide RunOk;
    var inode := r.part.value.inode;
    var w' := SetRun(w.(data := w.data[inode := content]), i, r);
    assert Anchored(w, w.runs[i]);
    assert Anchored(w', r);
    forall j | 0 <= j < |w.runs| && j != i ensures Anchored(w', w.runs[j]) {
      assert Anchored(w, w.runs[j]);
      StaysAnchored(w, w', w.runs[j]);
    }
    hide Anchored;
    assert FilesOk(w');
    OneRunMoved(hash, w, w', i);
  }

  lemma LinkKeeps(hash: Hash, w: World, i: nat, refused: bool)
    requires Invariant(hash, w) && i < |w.runs| && w.runs[i].part.Some? && w.runs[i].phase.Linking?
    ensures Invariant(hash, ApplyLink(w, i, refused))
  {
    hide PartName, CandidateName;
    var r := w.runs[i];
    assert RunOk(hash, r) && Anchored(w, r);
    var w' := ApplyLink(w, i, refused);
    var candidate := CandidateName(r.name, r.phase.n);
    if refused || candidate in w.dir {
      LocalStep(hash, w, i, w'.runs[i]);
    } else {
      var r' := w'.runs[i];
      assert RunOk(hash, r');
      forall j | 0 <= j < |w.runs| && j != i ensures Anchored(w', w.runs[j]) {
        assert Anchored(w, w.runs[j]);
        StaysAnchored(w, w', w.runs[j]);
      }
      assert Anchored(w', r');
      hide RunOk, Anchored;
      OneRunMoved(hash, w, w', i);
    }
  }

  lemma RemoveKeeps(hash: Hash, w: World, i: nat, ok: bool)
    requires Invariant(hash, w) && i < |w.runs| && w.runs[i].part.Some? && w.runs[i].phase == Removing
    ensures Invariant(hash, ApplyRemove(w, i, ok))
  {
    hide PartName, CandidateName;
    var r := w.runs[i];
    assert RunOk(hash, r) && Anchored(w, r);
    var w' := ApplyRemove(w, i, ok);
    var r' := w'.runs[i];
    assert RunOk(hash, r');
    if !ok {
      hide RunOk;
      LocalStep(hash, w, i, r');
    } else {
      hide RunOk;
      forall j | 0 <= j < |w.runs| && j != i ensures Anchored(w', w.runs[j]) {
        assert Anchored(w, w.runs[j]);
        StaysAnchored(w, w', w.runs[j]);
      }
      assert Anchored(w', r');
      hide Anchored;
      OneRunMoved(hash, w, w', i);
    }
  }

  /** Another program's new file is nobody's part. */
  lemma AddKeeps(hash: Hash, w: World, name: Name, content: Bytes)
    requires Invariant(hash, w) && name !in w.dir
    ensures Invariant(hash, Created(w, name, content))
  {
    hide RunOk, Anchored;
    var w' := Created(w, name, content);
    forall j | 0 <= j < |w.runs| ensures Anchored(w', w.runs[j]) {
      OthersKeepOnCreate(w, w', name, w.runs[j]);
    }
  }

  lemma DeleteKeeps(hash: Hash, w: World, name: Name)
    requires Invariant(hash, w) && !IsLivePart(w, name)
    ensures Invariant(hash, w.(dir := w.dir - {name}))
  {
    hide RunOk;
    var w' := w.(dir := w.dir - {name});
    forall j | 0 <= j < |w.runs| ensures Anchored(w', w.runs[j]) {
      assert Anchored(w, w.runs[j]);
      StaysAnchored(w, w', w.runs[j]);
    }
  }

  lemma OpenKeeps(hash: Hash, w: World, i: nat, ok: bool)
    requires Invariant(hash, w) && i < |w.runs| && w.runs[i].part.Some? && w.runs[i].phase == Opening
    ensures Invariant(hash, ApplyOpen(w, i, ok))
  {
    hide PartName, CandidateName;
    var r := w.runs[i];
    assert RunOk(hash, r) && Anchored(w, r);
    var w' := ApplyOpen(w, i, ok);
    if ok {
      WriteKeeps(hash, w, i, [], w'.runs[i]);
    } else {
      LocalStep(hash, w, i, w'.runs[i]);
    }
  }

  lemma ReadKeeps(hash: Hash, w: World, i: nat, chunk: Bytes)
    requires Invariant(hash, w) && i < |w.runs| && w.runs[i].part.Some? && w.runs[i].phase == Streaming
    requires w.runs[i].part.value.inode in w.data
    ensures Invariant(hash, ApplyWrite(w, i, chunk, chunk))
  {
    hide PartName, CandidateName;
    var r := w.runs[i];
    assert RunOk(hash, r) && Anchored(w, r);
    WriteKeeps(hash, w, i, w.data[r.part.value.inode] + chunk, r.(hashed := r.hashed + chunk));
  }

  lemma WriteFailsKeeps(hash: Hash, w: World, i: nat, chunk: Bytes, kept: nat)
    requires CanHappen(w, WriteFails(i, chunk, kept)) && Invariant(hash, w)
    ensures Invariant(hash, Apply(hash, w, WriteFails(i, chunk, kept)))
  {
    hide PartName, CandidateName;
    var r := w.runs[i];
    assert RunOk(hash, r) && Anchored(w, r);
    WriteKeeps(hash, w, i, w.data[r.part.value.inode] + chunk[..kept],
               Fail(r.(hashed := r.hashed + chunk), WriteError));
    assert Apply(hash, w, WriteFails(i, chunk, kept))
        == SetRun(w.(data := w.data[r.part.value.inode := w.data[r.part.value.inode] + chunk[..kept]]), i,
                  Fail(r.(hashed := r.hashed + chunk), WriteError));
  }

  lemma LocalKeeps(hash: Hash, w: World, a: Action)
    requires (a.ReadFails? || a.End?) && CanHappen(w, a) && Invariant(hash, w)
    ensures Invariant(hash, Apply(hash, w, a))
  {
    hide PartName, CandidateName;
    assert RunOk(hash, w.runs[a.i]);
    LocalStep(hash, w, a.i, Apply(hash, w, a).runs[a.i]);
  }

  /** Every step keeps the invariant. */
  lemma NextKeeps(hash: Hash, w: World, a: Action)
    requires Invariant(hash, w)
    ensures Invariant(hash, Next(hash, w, a))
  {
    hide Invariant, ApplyCreate, ApplyOpen, ApplyWrite, ApplyLink, ApplyRemove, Created;
    if CanHappen(w, a) {
      match a
      case TryCreate(i, random, refused) => CreateKeeps(hash, w, i, random, refused);
      case Open(i, ok) => OpenKeeps(hash, w, i, ok);
      case Read(i, chunk) => ReadKeeps(hash, w, i, chunk);
      case ReadFails(i) => LocalKeeps(hash, w, a);
      case WriteFails(i, chunk, kept) => WriteFailsKeeps(hash, w, i, chunk, kept);
      case End(i, flushed) => LocalKeeps(hash, w, a);
      case Link(i, refused) => LinkKeeps(hash, w, i, refused);
      case Remove(i, ok) => RemoveKeeps(hash, w, i, ok);
      case Add(name, content) => AddKeeps(hash, w, name, content);
      case Delete(name) => DeleteKeeps(hash, w, name);
    }
  }

  /** So it holds in every state any interleaving can reach. */
  lemma {:induction false} AlwaysInvariant(hash: Hash, w: World, actions: seq<Action>)
    requires IsStart(w)
    ensures Invariant(hash, After(hash, w, actions))
  {
    if actions == [] {
      forall i | 0 <= i < |w.runs| ensures RunOk(hash, w.runs[i]) && Anchored(w, w.runs[i]) {
        assert w.runs[i].part.None?;
      }
    } else {
      hide IsStart, Invariant, Next;
      AlwaysInvariant(hash, w, actions[..|actions| - 1]);
      NextKeeps(hash, After(hash, w, actions[..|actions| - 1]), actions[|actions| - 1]);
    }
  }
}
