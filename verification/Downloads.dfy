/** One download as it is carried out, call by call, while other downloads and
    other programs work in the same directory. */
module Downloads {
  import opened Prelude
  import opened DownloadNames
  import opened DownloadRuns
  import opened DownloadSafety

  predicate IsOthers(a: Action, i: nat) {
    IsRuns(a) ==> a.i != i
  }

  /** Those of the actions that are not the `i`th run's. */
  function OthersOf(actions: seq<Action>, i: nat): seq<Action> {
    if actions == [] then []
    else
      var last := actions[|actions| - 1];
      OthersOf(actions[..|actions| - 1], i) + if IsOthers(last, i) then [last] else []
  }

  /** How many part files the `i`th run has asked for. */
  ghost function Creations(log: seq<Action>, i: nat): nat {
    if log == [] then 0
    else
      var last := log[|log| - 1];
      Creations(log[..|log| - 1], i) + if last.TryCreate? && last.i == i then 1 else 0
  }

  /** The `k`th action created the part file of the `i`th run: its name was
      free, and the file is new. */
  ghost predicate CreatedAt(hash: Hash, start: World, log: seq<Action>, i: nat, k: nat) {
    && k < |log| && log[k].TryCreate? && log[k].i == i
    && CreatesAlone(hash, After(hash, start, log[..k]), log[k], i)
  }

  /** One of the actions from `since` on did, under this random name. */
  ghost predicate CreatedSince(hash: Hash, start: World, log: seq<Action>, i: nat, random: nat, since: nat) {
    exists k: nat :: since <= k && CreatedAt(hash, start, log, i, k) && log[k].random == random
  }

  lemma CreatedSinceEarlier(hash: Hash, start: World, log: seq<Action>, i: nat, random: nat, since: nat, earlier: nat)
    requires CreatedSince(hash, start, log, i, random, since) && earlier <= since
    ensures CreatedSince(hash, start, log, i, random, earlier)
  {
    hide CreatedAt;
  }

  ghost predicate CreatesAlone(hash: Hash, w: World, a: Action, i: nat)
    requires a.TryCreate? && a.i == i
  {
    && i < |w.runs|
    && var part := PartName(w.runs[i].name, a.random);
      var w' := Next(hash, w, a);
      && part !in w.dir && w.next !in w.data
      && w'.dir == w.dir[part := w.next] && w'.data == w.data[w.next := []]
      && i < |w'.runs| && w'.runs[i].part == Some(Part(part, w.next))
  }

  /** What a call that makes a new name answers. */
  datatype Made = Fine | AlreadyExists | Refused

  /** What befalls a run's next call: what others do before it, whether it
      fails, the random number it gets, and how much of a chunk it writes when
      it fails. */
  datatype Fate = Fate(others: seq<Action>, fails: bool, random: nat, kept: nat)

  /** What the calls of a run meet, in their order; then nothing more. */
  type Fates = seq<Fate>

  function FateOf(fate: Fates, n: nat): Fate {
    if n < |fate| then fate[n] else Fate([], false, 0, 0)
  }

  /** None of the calls from `first` up to `end` fails. */
  ghost predicate AllFine(fate: Fates, first: nat, end: nat) {
    forall n :: first <= n < end ==> !FateOf(fate, n).fails
  }

  /** The shared directory. `log` is all that has happened in it since
      `start`, and `turn` how many calls were made through this object. */
  class Folder {
    const hash: Hash
    const fate: Fates
    var turn: nat
    var world: World
    ghost const start: World
    ghost var log: seq<Action>

    ghost predicate Valid()
      reads this
    {
      IsStart(start) && world == After(hash, start, log)
    }

    constructor (hash: Hash, fate: Fates, start: World)
      requires IsStart(start)
      ensures Valid() && world == start && this.hash == hash && this.fate == fate && this.start == start
      ensures log == [] && turn == 0
    {
      this.hash, this.fate, this.start, world, log, turn := hash, fate, start, start, [], 0;
    }

    /** One action. */
    method Do(a: Action)
      requires Valid()
      modifies this`world, this`log
      ensures Valid() && world == Next(hash, old(world), a) && log == old(log) + [a]
      ensures |world.runs| == |old(world).runs|
    {
      SameRuns(hash, world, a);
      world := Next(hash, world, a);
      log := log + [a];
      assert log[..|log| - 1] == old(log);
    }

    /** A call of a run, once others have done what they do before it. */
    method Call(a: Action)
      requires Valid()
      modifies this
      ensures Valid() && world == Next(hash, old(world), a) && log == old(log) + [a]
      ensures |world.runs| == |old(world).runs| && turn == old(turn) + 1
    {
      Do(a);
      turn := turn + 1;
    }

    /** Whatever others do until the `i`th run makes its next call. */
    method Others(i: nat)
      requires Valid() && i < |world.runs|
      modifies this`world, this`log
      ensures Valid() && i < |world.runs| && world.runs[i] == old(world.runs[i])
      ensures old(log) <= log && log == old(log) + OthersOf(FateOf(fate, turn).others, i)
      ensures Creations(log, i) == old(Creations(log, i))
    {
      var actions := FateOf(fate, turn).others;
      for k := 0 to |actions|
        invariant Valid() && i < |world.runs| && world.runs[i] == old(world.runs[i])
        invariant log == old(log) + OthersOf(actions[..k], i)
        invariant Creations(log, i) == old(Creations(log, i))
      {
        assert actions[..k + 1][..k] == actions[..k];
        if IsOthers(actions[k], i) {
          OthersUnmoved(hash, world, actions[k], i);
          Do(actions[k]);
        }
      }
      assert actions[..|actions|] == actions;
    }
  }

  /** The `k`th action asked for a part file under a name that was taken. */
  ghost predicate FoundPart(hash: Hash, start: World, log: seq<Action>, i: nat, random: nat, k: nat) {
    && k < |log| && log[k] == TryCreate(i, random, false)
    && var w := After(hash, start, log[..k]);
      i < |w.runs| && PartName(w.runs[i].name, random) in w.dir
  }

  /** Each of the random names a run got was taken when it was tried. */
  ghost predicate AllPartsTaken(hash: Hash, start: World, log: seq<Action>, i: nat, fate: Fates, first: nat, end: nat) {
    forall n :: first <= n < end ==> PartTaken(hash, start, log, i, fate, n)
  }

  ghost predicate PartTaken(hash: Hash, start: World, log: seq<Action>, i: nat, fate: Fates, n: nat) {
    exists k: nat :: FoundPart(hash, start, log, i, FateOf(fate, n).random, k)
  }

  /** A run that has asked for `tries` part files in vain. */
  predicate HasTried(r: Run, tries: nat) {
    && r.part.None?
    && if tries < PART_TRIES then r.phase == Creating(tries) else HasGivenUp(r)
  }

  predicate HasGivenUp(r: Run) {
    r.part.None? && r.phase == Done && r.outcome == Some(Err(CreateError))
  }

  /** Asks for a part file under one random name. */
  method TryPart(folder: Folder, i: nat, tries: nat) returns (made: Made)
    requires folder.Valid() && i < |folder.world.runs|
    requires HasTried(folder.world.runs[i], tries) && tries < PART_TRIES
    modifies folder
    ensures folder.Valid() && old(folder.log) <= folder.log && i < |folder.world.runs|
    ensures folder.turn == old(folder.turn) + 1
    ensures Creations(folder.log, i) == old(Creations(folder.log, i)) + 1
    ensures made == Refused <==> FateOf(folder.fate, old(folder.turn)).fails
    ensures made == Fine ==> folder.world.runs[i].phase == Opening
    ensures made == Fine ==>
      CreatedSince(folder.hash, folder.start, folder.log, i, FateOf(folder.fate, old(folder.turn)).random, |old(folder.log)|)
    ensures made == AlreadyExists ==> PartTaken(folder.hash, folder.start, folder.log, i, folder.fate, old(folder.turn))
    ensures made == AlreadyExists ==> HasTried(folder.world.runs[i], tries + 1)
    ensures made == Refused ==> HasGivenUp(folder.world.runs[i])
  {
    hide IsStart, After, OthersOf, PartName, CreatedSince, PartTaken, Next, HasGivenUp, HasTried, Creations, Folder.Valid;
    folder.Others(i);
    var fate := FateOf(folder.fate, folder.turn);
    var part := PartName(folder.world.runs[i].name, fate.random);
    made := if fate.fails then Refused else if part in folder.world.dir then AlreadyExists else Fine;
    ghost var before := folder.log;
    Tried(folder, i, tries, fate.random, fate.fails);
    folder.Call(TryCreate(i, fate.random, fate.fails));
    OneCreation(before, i, fate.random, fate.fails);
    if made == Fine {
      CreatedNow(folder, before, i, fate.random, |old(folder.log)|);
    } else if made == AlreadyExists {
      TakenNow(folder, before, i, folder.turn - 1);
    }
  }

  /** How the search for a part file ends, which began with the call `first`:
      with a file of its own, under a name that was free; or with a call that
      failed; or, after sixteen names, with all of them taken. */
  ghost predicate PartEnds(folder: Folder, i: nat, ok: bool, since: nat, first: nat, created: nat)
    reads folder
  {
    && i < |folder.world.runs| && first < folder.turn && AllFine(folder.fate, first, folder.turn - 1)
    && Creations(folder.log, i) <= created + 16
    && var last := FateOf(folder.fate, folder.turn - 1);
      if ok then
        && !last.fails && folder.world.runs[i].phase == Opening
        && CreatedSince(folder.hash, folder.start, folder.log, i, last.random, since)
      else
        && HasGivenUp(folder.world.runs[i])
        && (last.fails || AllPartsTaken(folder.hash, folder.start, folder.log, i, folder.fate, first, first + 16))
  }

  /** Opens a new part file, trying one random name after another, sixteen at
      most. */
  method CreatePart(folder: Folder, i: nat) returns (ok: bool)
    requires folder.Valid() && i < |folder.world.runs|
    requires folder.world.runs[i].phase == Creating(0)
    modifies folder
    ensures folder.Valid() && old(folder.log) <= folder.log
    ensures PartEnds(folder, i, ok, |old(folder.log)|, old(folder.turn), old(Creations(folder.log, i)))
  {
    IsOk(folder, i);
    NoneTried(folder, i);
    hide *;
    ghost var since, first, created := |folder.log|, folder.turn, Creations(folder.log, i);
    for tries := 0 to PART_TRIES
      invariant folder.Valid() && old(folder.log) <= folder.log && i < |folder.world.runs|
      invariant HasTried(folder.world.runs[i], tries) && folder.turn == first + tries
      invariant AllTried(folder, i, folder.log, first, folder.turn, created)
    {
      ghost var before := folder.log;
      var made := TryPart(folder, i, tries);
      OneMoreTried(folder, i, before, first, folder.turn - 1, created, tries);
      if made == Fine {
        MadeIt(folder, i, |before|, since, first, created, tries);
        return true;
      } else if made == Refused {
        return false;
      }
    }
    GivesUp(folder, i, since, first, created);
    ok := false;
  }

  lemma MadeIt(folder: Folder, i: nat, before: nat, since: nat, first: nat, created: nat, tries: nat)
    requires since <= before && first < folder.turn && AllFine(folder.fate, first, folder.turn - 1)
    requires i < |folder.world.runs| && folder.world.runs[i].phase == Opening
    requires Creations(folder.log, i) <= created + 16 && !FateOf(folder.fate, folder.turn - 1).fails
    requires CreatedSince(folder.hash, folder.start, folder.log, i, FateOf(folder.fate, folder.turn - 1).random, before)
    ensures PartEnds(folder, i, true, since, first, created)
  {
    hide AllFine, Creations;
    CreatedSinceEarlier(folder.hash, folder.start, folder.log, i, FateOf(folder.fate, folder.turn - 1).random, before, since);
  }

  /** The calls from `first` up to `end` asked for part files, and found each
      name taken. */
  ghost predicate AllTried(folder: Folder, i: nat, log: seq<Action>, first: nat, end: nat, created: nat) {
    && first <= end && AllFine(folder.fate, first, end) && Creations(log, i) == created + end - first
    && AllPartsTaken(folder.hash, folder.start, log, i, folder.fate, first, end)
  }

  lemma NoneTried(folder: Folder, i: nat)
    requires i < |folder.world.runs| && RunOk(folder.hash, folder.world.runs[i]) && folder.world.runs[i].phase == Creating(0)
    ensures AllTried(folder, i, folder.log, folder.turn, folder.turn, Creations(folder.log, i))
    ensures HasTried(folder.world.runs[i], 0)
  {
  }

  lemma OneMoreTried(folder: Folder, i: nat, before: seq<Action>, first: nat, end: nat, created: nat, tries: nat)
    requires AllTried(folder, i, before, first, end, created) && before <= folder.log
    requires Creations(folder.log, i) == Creations(before, i) + 1
    requires tries < PART_TRIES && end == first + tries && folder.turn == end + 1
    ensures AllFine(folder.fate, first, end) && Creations(folder.log, i) <= created + 16
    ensures PartTaken(folder.hash, folder.start, folder.log, i, folder.fate, end) && !FateOf(folder.fate, end).fails ==>
      AllTried(folder, i, folder.log, first, end + 1, created)
    ensures i < |folder.world.runs| && FateOf(folder.fate, end).fails && HasGivenUp(folder.world.runs[i]) ==>
      forall since :: PartEnds(folder, i, false, since, first, created)
  {
    hide PartTaken, Creations, HasGivenUp;
    TakenStay(folder, before, i, first, end);
  }

  lemma GivesUp(folder: Folder, i: nat, since: nat, first: nat, created: nat)
    requires i < |folder.world.runs| && HasTried(folder.world.runs[i], PART_TRIES)
    requires folder.turn == first + PART_TRIES && AllTried(folder, i, folder.log, first, folder.turn, created)
    ensures PartEnds(folder, i, false, since, first, created)
  {
    hide Creations, AllPartsTaken;
  }

  lemma TakenNow(folder: Folder, before: seq<Action>, i: nat, n: nat)
    requires folder.Valid() && folder.log == before + [TryCreate(i, FateOf(folder.fate, n).random, false)]
    requires var w := After(folder.hash, folder.start, before);
      i < |w.runs| && PartName(w.runs[i].name, FateOf(folder.fate, n).random) in w.dir
    ensures PartTaken(folder.hash, folder.start, folder.log, i, folder.fate, n)
  {
    assert folder.log[..|before|] == before;
    assert FoundPart(folder.hash, folder.start, folder.log, i, FateOf(folder.fate, n).random, |before|);
  }

  lemma TakenStay(folder: Folder, before: seq<Action>, i: nat, first: nat, end: nat)
    requires AllPartsTaken(folder.hash, folder.start, before, i, folder.fate, first, end) && before <= folder.log
    ensures AllPartsTaken(folder.hash, folder.start, folder.log, i, folder.fate, first, end)
  {
    forall n | first <= n < end ensures PartTaken(folder.hash, folder.start, folder.log, i, folder.fate, n) {
      assert PartTaken(folder.hash, folder.start, before, i, folder.fate, n);
      var k: nat :| FoundPart(folder.hash, folder.start, before, i, FateOf(folder.fate, n).random, k);
      assert before[..k] == folder.log[..k];
      assert FoundPart(folder.hash, folder.start, folder.log, i, FateOf(folder.fate, n).random, k);
    }
  }

  lemma OneCreation(log: seq<Action>, i: nat, random: nat, refused: bool)
    ensures Creations(log + [TryCreate(i, random, refused)], i) == Creations(log, i) + 1
  {
    assert (log + [TryCreate(i, random, refused)])[..|log|] == log;
  }

  /** What the call does to its run. */
  lemma Tried(folder: Folder, i: nat, tries: nat, random: nat, refused: bool)
    requires folder.Valid() && i < |folder.world.runs| && HasTried(folder.world.runs[i], tries) && tries < PART_TRIES
    ensures var w, w' := folder.world, Next(folder.hash, folder.world, TryCreate(i, random, refused));
      && folder.world == After(folder.hash, folder.start, folder.log)
      && w.runs[i].phase.Creating? && i < |w'.runs|
      && if refused then HasGivenUp(w'.runs[i])
         else if PartName(w.runs[i].name, random) in w.dir then HasTried(w'.runs[i], tries + 1)
         else w'.runs[i].phase == Opening
  {
    hide IsStart, After, PartName;
  }

  lemma CreatedNow(folder: Folder, before: seq<Action>, i: nat, random: nat, since: nat)
    requires since <= |before|
    requires folder.Valid() && folder.log == before + [TryCreate(i, random, false)]
    requires var w := After(folder.hash, folder.start, before);
      i < |w.runs| && w.runs[i].phase.Creating? && PartName(w.runs[i].name, random) !in w.dir
    ensures CreatedSince(folder.hash, folder.start, folder.log, i, random, since)
  {
    assert folder.log[..|before|] == before;
    AlwaysInvariant(folder.hash, folder.start, before);
    hide IsStart, After, OthersOf, PartName;
    NextIsUnused(folder.hash, After(folder.hash, folder.start, before));
    assert CreatedAt(folder.hash, folder.start, folder.log, i, |before|);
  }

  lemma NextIsUnused(hash: Hash, w: World)
    requires Invariant(hash, w)
    ensures w.next !in w.data
  {
  }

  /** In a state that can be reached, a run with a part file can always make
      its next call. */
  lemma CanGoOn(folder: Folder, i: nat)
    requires folder.Valid() && i < |folder.world.runs| && IsLive(folder.world.runs[i])
    ensures folder.world.runs[i].part.value.inode in folder.world.data
    ensures folder.world.runs[i].part.value.name in folder.world.dir
  {
    AlwaysInvariant(folder.hash, folder.start, folder.log);
    assert Anchored(folder.world, folder.world.runs[i]);
  }

  lemma IsOk(folder: Folder, i: nat)
    requires folder.Valid() && i < |folder.world.runs|
    ensures RunOk(folder.hash, folder.world.runs[i])
  {
    AlwaysInvariant(folder.hash, folder.start, folder.log);
  }

  predicate HasFailed(r: Run) {
    && r.phase == Removing && r.outcome.Some?
    && r.outcome.value.Err? && r.outcome.value.error != NoFreeName
  }

  /** What the calls of a streaming run do to it. */
  lemma Opened(hash: Hash, w: World, i: nat, ok: bool)
    requires i < |w.runs| && w.runs[i].phase == Opening && w.runs[i].part.Some?
    requires w.runs[i].part.value.inode in w.data
    ensures i < |Next(hash, w, Open(i, ok)).runs|
    ensures var r := Next(hash, w, Open(i, ok)).runs[i];
      && r.meta == w.runs[i].meta
      && if ok then r.phase == Streaming && r.part.Some? && r.hashed == w.runs[i].hashed
         else HasFailed(r) && r.outcome == Some(Err(CreateError))
  {
    hide PartName;
  }

  lemma Streamed(hash: Hash, w: World, i: nat, chunk: Bytes, kept: nat)
    requires i < |w.runs| && w.runs[i].phase == Streaming && w.runs[i].part.Some?
    requires w.runs[i].part.value.inode in w.data && kept <= |chunk| && chunk != []
    ensures i < |Next(hash, w, Read(i, chunk)).runs|
    ensures Next(hash, w, Read(i, chunk)).runs[i] == w.runs[i].(hashed := w.runs[i].hashed + chunk)
    ensures i < |Next(hash, w, WriteFails(i, chunk, kept)).runs|
    ensures var r := Next(hash, w, WriteFails(i, chunk, kept)).runs[i];
      HasFailed(r) && r.outcome == Some(Err(WriteError)) && r.meta == w.runs[i].meta
  {
    hide PartName;
  }

  lemma Ended(hash: Hash, w: World, i: nat, flushed: bool)
    requires i < |w.runs| && w.runs[i].phase == Streaming && w.runs[i].part.Some?
    requires w.runs[i].part.value.inode in w.data
    ensures i < |Next(hash, w, ReadFails(i)).runs|
    ensures var r := Next(hash, w, ReadFails(i)).runs[i];
      HasFailed(r) && r == Fail(w.runs[i], ReadError)
    ensures i < |Next(hash, w, End(i, flushed)).runs|
    ensures Next(hash, w, End(i, flushed)).runs[i]
         == if flushed then Checked(hash, w.runs[i]) else Fail(w.runs[i], WriteError)
  {
    hide PartName;
  }

  lemma ConcatNone(parts: seq<Bytes>)
    ensures Concat(parts[..0]) == []
  {
  }

  lemma ConcatNext(parts: seq<Bytes>, k: nat)
    requires k < |parts|
    ensures Concat(parts[..k + 1]) == Concat(parts[..k]) + parts[k]
  {
    ConcatSnoc(parts[..k], parts[k]);
    assert parts[..k + 1] == parts[..k] + [parts[k]];
  }

  lemma CheckedExactly(hash: Hash, r: Run)
    ensures if IsWhole(hash, r.meta, r.hashed) then Checked(hash, r) == r.(phase := Linking(0))
            else Checked(hash, r) == Fail(r, IntegrityError)
  {
  }

  /** `content` has the size and the digest of the item. */
  predicate IsWhole(hash: Hash, meta: Meta, content: Bytes) {
    |content| == meta.size && hash(content) == meta.sha256
  }

  /** What stays while a run streams and links. */
  twostate predicate GoesOn(folder: Folder, i: nat)
    requires old(i < |folder.world.runs|)
    reads folder
  {
    && folder.Valid() && old(folder.log) <= folder.log && i < |folder.world.runs|
    && folder.world.runs[i].meta == old(folder.world.runs[i].meta)
  }

  /** Opens the part file for writing. */
  method OpenPart(folder: Folder, i: nat) returns (ok: bool)
    requires folder.Valid() && i < |folder.world.runs| && folder.world.runs[i].phase == Opening
    modifies folder
    ensures GoesOn(folder, i) && folder.turn == old(folder.turn) + 1
    ensures ok <==> !FateOf(folder.fate, old(folder.turn)).fails
    ensures var r := folder.world.runs[i];
      if ok then r.phase == Streaming && r.part.Some? && r.hashed == []
      else HasFailed(r) && r.outcome == Some(Err(CreateError))
  {
    hide IsStart, After, OthersOf, Next, RunOk;
    folder.Others(i);
    CanGoOnOpening(folder, i);
    ok := !FateOf(folder.fate, folder.turn).fails;
    Opened(folder.hash, folder.world, i, ok);
    folder.Call(Open(i, ok));
  }

  /** Hashes a chunk and writes it. */
  method WriteChunk(folder: Folder, i: nat, chunk: Bytes) returns (ok: bool)
    requires folder.Valid() && i < |folder.world.runs|
    requires folder.world.runs[i].phase == Streaming && folder.world.runs[i].part.Some? && chunk != []
    modifies folder
    ensures GoesOn(folder, i) && folder.turn == old(folder.turn) + 1
    ensures ok <==> !FateOf(folder.fate, old(folder.turn)).fails
    ensures var r := folder.world.runs[i];
      if ok then r == old(folder.world.runs[i]).(hashed := old(folder.world.runs[i].hashed) + chunk)
      else HasFailed(r) && r.outcome == Some(Err(WriteError))
  {
    hide IsStart, After, OthersOf, Next;
    folder.Others(i);
    CanGoOn(folder, i);
    var fate := FateOf(folder.fate, folder.turn);
    var kept := if fate.kept <= |chunk| then fate.kept else |chunk|;
    Streamed(folder.hash, folder.world, i, chunk, kept);
    ok := !fate.fails;
    if ok {
      folder.Call(Read(i, chunk));
    } else {
      folder.Call(WriteFails(i, chunk, kept));
    }
  }

  /** The content ends, or breaks off. */
  method EndContent(folder: Folder, i: nat, ends: bool) returns (ok: bool)
    requires folder.Valid() && i < |folder.world.runs|
    requires folder.world.runs[i].phase == Streaming && folder.world.runs[i].part.Some?
    modifies folder
    ensures GoesOn(folder, i) && folder.turn == old(folder.turn) + 1
    ensures ok <==>
      && ends && !FateOf(folder.fate, old(folder.turn)).fails
      && IsWhole(folder.hash, old(folder.world.runs[i].meta), old(folder.world.runs[i].hashed))
    ensures folder.world.runs[i].hashed == old(folder.world.runs[i].hashed)
    ensures var r := folder.world.runs[i];
      if ok then r.phase == Linking(0)
      else HasFailed(r) && r.outcome == Some(Err(
        if !ends then ReadError else if FateOf(folder.fate, old(folder.turn)).fails then WriteError else IntegrityError))
  {
    hide IsStart, After, OthersOf, Next, Checked, IsWhole;
    folder.Others(i);
    CanGoOn(folder, i);
    var flushed := !FateOf(folder.fate, folder.turn).fails;
    Ended(folder.hash, folder.world, i, flushed);
    CheckedExactly(folder.hash, folder.world.runs[i]);
    ok := ends && flushed && IsWhole(folder.hash, folder.world.runs[i].meta, folder.world.runs[i].hashed);
    if ends {
      folder.Call(End(i, flushed));
    } else {
      folder.Call(ReadFails(i));
    }
  }

  /** Chunk by chunk, hashes the content and writes it to the part file; at its
      end, compares. `ends` says that the content ends after the last chunk,
      rather than fails. */
  method StreamTo(folder: Folder, i: nat, content: seq<Bytes>, ends: bool) returns (ok: bool)
    requires folder.Valid() && i < |folder.world.runs|
    requires folder.world.runs[i].phase == Opening
    requires forall k :: 0 <= k < |content| ==> content[k] != []
    modifies folder
    ensures GoesOn(folder, i)
    ensures ok ==> folder.world.runs[i].phase == Linking(0) && folder.world.runs[i].hashed == Concat(content)
    ensures ok ==> ends && IsWhole(folder.hash, folder.world.runs[i].meta, Concat(content))
    ensures !ok ==> HasFailed(folder.world.runs[i])
    // It stops at the first call that fails, and its error says what failed.
    ensures old(folder.turn) < folder.turn && AllFine(folder.fate, old(folder.turn), folder.turn - 1)
    ensures ok ==> !FateOf(folder.fate, folder.turn - 1).fails
    ensures !ok ==>
      match folder.world.runs[i].outcome.value.error
      case ReadError => !ends
      case IntegrityError => ends && !IsWhole(folder.hash, folder.world.runs[i].meta, Concat(content))
      case CreateError => FateOf(folder.fate, folder.turn - 1).fails && folder.turn == old(folder.turn) + 1
      case WriteError => FateOf(folder.fate, folder.turn - 1).fails && folder.turn > old(folder.turn) + 1
      case NoFreeName => false
    ensures !ok && folder.world.runs[i].outcome == Some(Err(IntegrityError)) ==>
      folder.world.runs[i].hashed == Concat(content)
  {
    hide Concat, Folder.Valid, IsWhole;
    ConcatNone(content);
    ok := OpenPart(folder, i);
    if !ok {
      return;
    }
    for k := 0 to |content|
      invariant GoesOn(folder, i)
      invariant folder.world.runs[i].phase == Streaming && folder.world.runs[i].part.Some?
      invariant folder.world.runs[i].hashed == Concat(content[..k])
      invariant folder.turn == old(folder.turn) + 1 + k && AllFine(folder.fate, old(folder.turn), folder.turn)
    {
      ok := WriteChunk(folder, i, content[k]);
      if !ok {
        return;
      }
      ConcatNext(content, k);
    }
    assert content[..|content|] == content;
    ok := EndContent(folder, i, ends);
  }

  lemma CanGoOnOpening(folder: Folder, i: nat)
    requires folder.Valid() && i < |folder.world.runs| && folder.world.runs[i].phase == Opening
    ensures IsLive(folder.world.runs[i]) && folder.world.runs[i].hashed == []
    ensures folder.world.runs[i].part.value.inode in folder.world.data
    ensures folder.world.runs[i].part.value.name in folder.world.dir
  {
    IsOk(folder, i);
    CanGoOn(folder, i);
  }

  /** Tries to link the part file to its `n`th candidate. */
  method TryName(folder: Folder, i: nat, n: nat) returns (made: Made, candidate: Name)
    requires folder.Valid() && i < |folder.world.runs|
    requires folder.world.runs[i].phase == Linking(n) && folder.world.runs[i].part.Some?
    modifies folder
    ensures GoesOn(folder, i) && folder.turn == old(folder.turn) + 1
    ensures made == Refused <==> FateOf(folder.fate, old(folder.turn)).fails
    ensures folder.world.runs[i].hashed == old(folder.world.runs[i].hashed)
    ensures var r := folder.world.runs[i];
      && r.part.Some?
      && if made == AlreadyExists && n < MAX_NUMBERED_NAMES then r.phase == Linking(n + 1)
         else r.phase == Removing && r.outcome == Some(
           if made == Fine then Ok(candidate) else if made == Refused then Err(WriteError) else Err(NoFreeName))
  {
    hide IsStart, After, OthersOf, PartName, CandidateName;
    folder.Others(i);
    CanGoOn(folder, i);
    var refused := FateOf(folder.fate, folder.turn).fails;
    candidate := CandidateName(folder.world.runs[i].name, n);
    made := if refused then Refused else if candidate in folder.world.dir then AlreadyExists else Fine;
    folder.Call(Link(i, refused));
  }

  /** Tries to link the part file to one candidate after another. */
  method LinkToFreeName(folder: Folder, i: nat) returns (result: Outcome)
    requires folder.Valid() && i < |folder.world.runs|
    requires folder.world.runs[i].phase == Linking(0) && folder.world.runs[i].part.Some?
    modifies folder
    ensures GoesOn(folder, i)
    ensures folder.world.runs[i].phase == Removing && folder.world.runs[i].outcome == Some(result)
    ensures folder.world.runs[i].hashed == old(folder.world.runs[i].hashed)
    ensures result.Ok? || result == Err(NoFreeName) || result == Err(WriteError)
    ensures old(folder.turn) < folder.turn && AllFine(folder.fate, old(folder.turn), folder.turn - 1)
    ensures result == Err(WriteError) <==> FateOf(folder.fate, folder.turn - 1).fails
  {
    hide Folder.Valid;
    for n := 0 to MAX_NUMBERED_NAMES + 1
      invariant GoesOn(folder, i)
      invariant n <= MAX_NUMBERED_NAMES ==> folder.world.runs[i].phase == Linking(n)
      invariant n > MAX_NUMBERED_NAMES ==>
        folder.world.runs[i].phase == Removing && folder.world.runs[i].outcome == Some(Err(NoFreeName))
      invariant folder.world.runs[i].part.Some?
      invariant folder.world.runs[i].hashed == old(folder.world.runs[i].hashed)
      invariant folder.turn == old(folder.turn) + n && AllFine(folder.fate, old(folder.turn), folder.turn)
    {
      var made, candidate := TryName(folder, i, n);
      if made == Fine {
        return Ok(candidate);
      } else if made == Refused {
        return Err(WriteError);
      }
    }
    result := Err(NoFreeName);
  }

  /** Removes the part file, if that works. */
  method RemovePart(folder: Folder, i: nat)
    requires folder.Valid() && i < |folder.world.runs| && folder.world.runs[i].phase == Removing
    modifies folder
    ensures folder.Valid() && old(folder.log) <= folder.log && folder.turn == old(folder.turn) + 1
    ensures i < |folder.world.runs| && folder.world.runs[i]
      == old(folder.world.runs[i]).(phase := Done, removed := !FateOf(folder.fate, old(folder.turn)).fails)
  {
    hide IsStart, After, OthersOf, Next, RunOk;
    LinkingHasPart(folder, i);
    folder.Others(i);
    CanGoOn(folder, i);
    var removed := !FateOf(folder.fate, folder.turn).fails;
    Removed(folder.hash, folder.world, i, removed);
    folder.Call(Remove(i, removed));
  }

  /** Downloads `content` under the first free candidate of the run's name. */
  method DownloadInto(folder: Folder, i: nat, content: seq<Bytes>, ends: bool) returns (result: Outcome)
    requires folder.Valid() && i < |folder.world.runs|
    requires folder.world.runs[i].phase == Creating(0)
    requires forall k :: 0 <= k < |content| ==> content[k] != []
    modifies folder
    ensures folder.Valid() && old(folder.log) <= folder.log && i < |folder.world.runs|
    ensures folder.world.runs[i].phase == Done && folder.world.runs[i].outcome == Some(result)
    // A success is of the whole content, and of what the item says it is.
    ensures result.Ok? ==> ends && folder.world.runs[i].hashed == Concat(content)
    ensures result.Ok? ==> IsWhole(folder.hash, folder.world.runs[i].meta, Concat(content))
    ensures result.Ok? ==>
      FirstFree(folder.hash, folder.start, folder.log, i, folder.world.runs[i].name, result.value)
    // It is only refused for what it is when it is not.
    ensures result == Err(IntegrityError) ==>
      ends && !IsWhole(folder.hash, folder.world.runs[i].meta, Concat(content))
    ensures result == Err(NoFreeName) ==>
      forall n: nat :: n <= 999 ==> FoundTaken(folder.hash, folder.start, folder.log, i, n)
    // Content that breaks off is never published, and is what a reading error
    // means.
    ensures result == Err(ReadError) ==> !ends
    // The other errors are a failed call, or sixteen names taken; the removal
    // at the end fails no download.
    ensures old(folder.turn) < folder.turn
    ensures result == Err(WriteError) ==> !AllFine(folder.fate, old(folder.turn), folder.turn - 1)
    ensures result == Err(CreateError) && AllFine(folder.fate, old(folder.turn), folder.turn) ==>
      AllPartsTaken(folder.hash, folder.start, folder.log, i, folder.fate, old(folder.turn), old(folder.turn) + 16)
    ensures result.Ok? ==> AllFine(folder.fate, old(folder.turn), folder.turn - 1)
    // So nothing else comes of whole content whose calls all work.
    ensures ends && IsWhole(folder.hash, folder.world.runs[i].meta, Concat(content))
      && AllFine(folder.fate, old(folder.turn), folder.turn)
      ==> || result.Ok? || result == Err(NoFreeName)
          || AllPartsTaken(folder.hash, folder.start, folder.log, i, folder.fate, old(folder.turn), old(folder.turn) + 16)
    // The part file is gone, unless that removal failed.
    ensures folder.world.runs[i].part.Some? ==>
      (folder.world.runs[i].removed <==> !FateOf(folder.fate, folder.turn - 1).fails)
  {
    hide FirstFree, FoundTaken, Creations, CreatedSince, AllPartsTaken, Folder.Valid, IsWhole, Concat;
    var ok := CreatePart(folder, i);
    if !ok {
      result := Err(CreateError);
      return;
    }
    ghost var created := folder.turn;
    ok := StreamTo(folder, i, content, ends);
    if ok {
      LinkingHasPart(folder, i);
      result := LinkToFreeName(folder, i);
    } else {
      result := folder.world.runs[i].outcome.value;
    }
    RemovePart(folder, i);
    Settled(folder, i, result);
  }

  lemma LinkingHasPart(folder: Folder, i: nat)
    requires folder.Valid() && i < |folder.world.runs|
    requires folder.world.runs[i].phase.Linking? || folder.world.runs[i].phase.Removing?
    ensures folder.world.runs[i].part.Some? && IsLive(folder.world.runs[i]) && !folder.world.runs[i].removed
  {
    IsOk(folder, i);
  }

  lemma Removed(hash: Hash, w: World, i: nat, ok: bool)
    requires i < |w.runs| && w.runs[i].phase == Removing && w.runs[i].part.Some? && !w.runs[i].removed
    requires w.runs[i].part.value.inode in w.data
    ensures i < |Next(hash, w, Remove(i, ok)).runs|
    ensures Next(hash, w, Remove(i, ok)).runs[i] == w.runs[i].(phase := Done, removed := ok)
  {
  }

  lemma Settled(folder: Folder, i: nat, result: Outcome)
    requires folder.Valid() && i < |folder.world.runs| && folder.world.runs[i].outcome == Some(result)
    ensures result.Ok? ==> IsWhole(folder.hash, folder.world.runs[i].meta, folder.world.runs[i].hashed)
    ensures result.Ok? ==>
      FirstFree(folder.hash, folder.start, folder.log, i, folder.world.runs[i].name, result.value)
    ensures result == Err(IntegrityError) ==>
      !IsWhole(folder.hash, folder.world.runs[i].meta, folder.world.runs[i].hashed)
    ensures result == Err(NoFreeName) ==>
      forall n: nat :: n <= 999 ==> FoundTaken(folder.hash, folder.start, folder.log, i, n)
  {
    IsOk(folder, i);
    hide IsStart, After, OthersOf, PartName, CandidateName, FirstFree, FoundTaken;
    if result.Ok? {
      FirstFreeName(folder.hash, folder.start, folder.log, i, result.value);
    } else if result == Err(NoFreeName) {
      NoFreeNameMeansAllTaken(folder.hash, folder.start, folder.log, i);
    }
  }
}
