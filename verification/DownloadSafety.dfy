/** What downloads into one directory promise, over any interleaving of any
    number of them with other programs. */
module DownloadSafety {
  import opened Prelude
  import opened DownloadNames
  import opened DownloadRuns

  // ---------- nothing is replaced ----------

  /** A run is found again in a later state. */
  lemma {:induction false} RunsStay(hash: Hash, w: World, actions: seq<Action>, i: nat)
    requires i < |w.runs|
    ensures i < |After(hash, w, actions).runs| == |w.runs|
    ensures After(hash, w, actions).runs[i].name == w.runs[i].name
    ensures After(hash, w, actions).runs[i].meta == w.runs[i].meta
  {
    if actions != [] {
      RunsStay(hash, w, actions[..|actions| - 1], i);
      RunStays(hash, After(hash, w, actions[..|actions| - 1]), actions[|actions| - 1], i);
    }
  }

  /** A step moves the run it is of, and no other. */
  lemma OthersUnmoved(hash: Hash, w: World, a: Action, i: nat)
    requires i < |w.runs| && (IsRuns(a) && CanHappen(w, a) ==> a.i != i)
    ensures |Next(hash, w, a).runs| == |w.runs| && Next(hash, w, a).runs[i] == w.runs[i]
  {
    hide PartName, CandidateName;
  }

  lemma RunStays(hash: Hash, w: World, a: Action, i: nat)
    requires i < |w.runs|
    ensures |Next(hash, w, a).runs| == |w.runs|
    ensures Next(hash, w, a).runs[i].name == w.runs[i].name && Next(hash, w, a).runs[i].meta == w.runs[i].meta
  {
    hide PartName, CandidateName;
    if !(CanHappen(w, a) && IsRuns(a) && a.i == i) {
      hide Next;
      OthersUnmoved(hash, w, a, i);
    }
  }

  /** `p` names one file, unchanged, in both worlds. */
  predicate SameFile(w: World, w': World, p: Name) {
    && p in w.dir && p in w'.dir && w'.dir[p] == w.dir[p]
    && w.dir[p] in w.data && w.dir[p] in w'.data && w'.data[w.dir[p]] == w.data[w.dir[p]]
  }

  /** A file that is no part of a download in progress is never the file such
      a download writes to. */
  lemma NotWrittenTo(hash: Hash, w: World, p: Name, i: nat)
    requires Invariant(hash, w) && p in w.dir && !IsLivePart(w, p)
    requires i < |w.runs| && w.runs[i].phase in {Opening, Streaming}
    ensures w.runs[i].part.Some? && w.runs[i].part.value.inode != w.dir[p]
  {
    hide PartName, CandidateName;
    var r := w.runs[i];
    assert RunOk(hash, r) && Anchored(w, r);
    assert IsLive(r);
    assert w.dir[p] == r.part.value.inode ==> IsNameOf(r, p);
  }

  /** Only the part files of downloads in progress are ever written to or
      removed by a download, and nothing is ever put in the place of a file. */
  lemma FileStays(hash: Hash, w: World, a: Action, p: Name)
    requires Invariant(hash, w) && p in w.dir && !IsLivePart(w, p) && a != Delete(p)
    ensures SameFile(w, Next(hash, w, a), p)
  {
    hide PartName, CandidateName, RunOk, Anchored, Apart;
    assert w.dir[p] in w.data;
    if CanHappen(w, a) {
      match a
      case TryCreate(i, random, refused) =>
      case Open(i, ok) => OwnPart(hash, w, i); NotWrittenTo(hash, w, p, i);
      case Read(i, chunk) => NotWrittenTo(hash, w, p, i);
      case ReadFails(i) =>
      case WriteFails(i, chunk, kept) => NotWrittenTo(hash, w, p, i);
      case End(i, flushed) =>
      case Link(i, refused) =>
      case Remove(i, ok) => assert IsLive(w.runs[i]);
      case Add(name, content) =>
      case Delete(name) =>
    }
  }

  lemma OwnPart(hash: Hash, w: World, i: nat)
    requires Invariant(hash, w) && i < |w.runs| && IsLive(w.runs[i])
    ensures w.runs[i].part.value.name in w.dir && w.dir[w.runs[i].part.value.name] == w.runs[i].part.value.inode
  {
    assert Anchored(w, w.runs[i]);
  }

  /** And it does not become one. */
  lemma StaysNoPart(hash: Hash, w: World, a: Action, p: Name)
    requires Invariant(hash, w) && p in w.dir && !IsLivePart(w, p)
    ensures !IsLivePart(Next(hash, w, a), p)
  {
    hide PartName, CandidateName, Invariant, FilesOk, RunOk, Anchored;
    var w' := Next(hash, w, a);
    if CanHappen(w, a) && IsLivePart(w', p) {
      var i :| 0 <= i < |w'.runs| && IsLive(w'.runs[i]) && w'.runs[i].part.value.name == p;
      PartKept(hash, w, a, i);
    }
  }

  lemma PartKept(hash: Hash, w: World, a: Action, i: nat)
    requires CanHappen(w, a) && i < |Apply(hash, w, a).runs| && IsLive(Apply(hash, w, a).runs[i])
    ensures i < |w.runs|
    ensures (IsLive(w.runs[i]) && w.runs[i].part.value.name == Apply(hash, w, a).runs[i].part.value.name)
         || Apply(hash, w, a).runs[i].part.value.name !in w.dir
  {
    hide PartName, CandidateName;
    SameRuns(hash, w, a);
    if !(IsRuns(a) && a.i == i) {
      hide Apply;
      OthersUnmoved(hash, w, a, i);
    }
  }

  /** A file in the directory at any time, unless it is the part of a download
      in progress, is there ever after, unchanged, until another program
      deletes it. */
  lemma {:induction false} NothingIsReplaced(hash: Hash, w: World, earlier: seq<Action>, later: seq<Action>, p: Name)
    requires IsStart(w)
    requires p in After(hash, w, earlier).dir && !IsLivePart(After(hash, w, earlier), p)
    requires Delete(p) !in later
    ensures SameFile(After(hash, w, earlier), After(hash, w, earlier + later), p)
    ensures !IsLivePart(After(hash, w, earlier + later), p)
    decreases |later|
  {
    hide IsLivePart, Next, Invariant, IsStart;
    AlwaysInvariant(hash, w, earlier);
    if later == [] {
      assert earlier + later == earlier;
      FilePresent(hash, After(hash, w, earlier), p);
    } else {
      var before, last := later[..|later| - 1], later[|later| - 1];
      assert (earlier + later)[..|earlier + later| - 1] == earlier + before;
      assert (earlier + later)[|earlier + later| - 1] == last;
      assert last in later;
      NothingIsReplaced(hash, w, earlier, before, p);
      AlwaysInvariant(hash, w, earlier + before);
      FileStays(hash, After(hash, w, earlier + before), last, p);
      StaysNoPart(hash, After(hash, w, earlier + before), last, p);
    }
  }

  lemma FilePresent(hash: Hash, w: World, p: Name)
    requires Invariant(hash, w) && p in w.dir
    ensures SameFile(w, w, p)
  {
  }

  // ---------- what is published ----------

  /** The file under `p` is the one the `i`th run downloaded. */
  predicate IsFileOf(w: World, i: nat, p: Name) {
    i < |w.runs| && w.runs[i].part.Some? && p in w.dir && w.dir[p] == w.runs[i].part.value.inode
  }

  /** It is found under its part name, until removed, and where it was
      published, and nowhere else. */
  lemma OnlyThere(hash: Hash, w: World, i: nat, p: Name)
    requires Invariant(hash, w) && IsFileOf(w, i, p)
    ensures IsNameOf(w.runs[i], p)
  {
    assert Anchored(w, w.runs[i]);
  }

  lemma NobodyElses(hash: Hash, w: World, i: nat, j: nat, p: Name)
    requires Invariant(hash, w) && IsFileOf(w, i, p) && IsFileOf(w, j, p)
    ensures i == j
  {
  }

  lemma PublishedIsNoPart(hash: Hash, w: World, i: nat, p: Name)
    requires Invariant(hash, w) && IsFileOf(w, i, p)
    requires w.runs[i].phase == Done || (Published(w.runs[i]) && p == w.runs[i].outcome.value.value)
    ensures !IsLivePart(w, p)
  {
    hide PartName, CandidateName;
    var r := w.runs[i];
    assert RunOk(hash, r);
    forall j | 0 <= j < |w.runs| && IsLive(w.runs[j]) ensures w.runs[j].part.value.name != p {
      OwnPart(hash, w, j);
      if w.runs[j].part.value.name == p {
        NobodyElses(hash, w, i, j, p);
        var n: nat :| n <= MAX_NUMBERED_NAMES && p == CandidateName(r.name, n);
        var random: nat :| p == PartName(r.name, random);
        PartIsNoCandidate(r.name, random, n);
      }
    }
  }

  lemma SameRuns(hash: Hash, w: World, a: Action)
    ensures |Next(hash, w, a).runs| == |w.runs|
  {
    hide PartName, CandidateName;
  }

  /** The `i`th run writes to its file under `p` no more: it is done, or `p` is
      where it has published it. */
  predicate Settled(w: World, i: nat, p: Name) {
    && i < |w.runs| && w.runs[i].part.Some?
    && (w.runs[i].phase == Done || w.runs[i].outcome == Some(Ok(p)))
  }

  lemma SettledStays(hash: Hash, w: World, a: Action, i: nat, p: Name)
    requires Invariant(hash, w) && Settled(w, i, p)
    ensures Settled(Next(hash, w, a), i, p)
    ensures Next(hash, w, a).runs[i].part == w.runs[i].part && Next(hash, w, a).runs[i].outcome == w.runs[i].outcome
  {
    hide PartName, CandidateName, FilesOk, Apart, Anchored;
    assert RunOk(hash, w.runs[i]);
    if !(CanHappen(w, a) && IsRuns(a) && a.i == i) {
      hide Next, RunOk;
      OthersUnmoved(hash, w, a, i);
    }
  }

  /** Once gone from a name, its file does not come back under it. */
  lemma StaysAway(hash: Hash, w: World, a: Action, i: nat, p: Name)
    requires Invariant(hash, w) && Settled(w, i, p) && !IsFileOf(w, i, p)
    ensures !IsFileOf(Next(hash, w, a), i, p)
  {
    SettledStays(hash, w, a, i, p);
    var inode := w.runs[i].part.value.inode;
    assert Anchored(w, w.runs[i]);
    if CanHappen(w, a) {
      if a.Link? {
        LinksOwnFile(hash, w, a, i);
      }
      hide PartName, CandidateName, Apart, RunOk, Anchored;
    }
  }

  /** A link is to the file of the run that makes it. */
  lemma LinksOwnFile(hash: Hash, w: World, a: Action, i: nat)
    requires Invariant(hash, w) && a.Link? && CanHappen(w, a)
    requires i < |w.runs| && w.runs[i].part.Some? && w.runs[i].outcome.Some?
    ensures w.runs[a.i].part.value.name in w.dir
    ensures w.dir[w.runs[a.i].part.value.name] != w.runs[i].part.value.inode
  {
    hide PartName, CandidateName;
    assert RunOk(hash, w.runs[a.i]) && Anchored(w, w.runs[a.i]);
  }

  lemma StillThere(hash: Hash, w: World, a: Action, i: nat, p: Name)
    requires Invariant(hash, w) && IsFileOf(w, i, p) && !IsLivePart(w, p) && a != Delete(p)
    requires i < |Next(hash, w, a).runs| && Next(hash, w, a).runs[i].part == w.runs[i].part
    ensures IsFileOf(Next(hash, w, a), i, p)
  {
    hide Next, Invariant, IsLivePart;
    FileStays(hash, w, a, p);
  }

  lemma IsDeleted(hash: Hash, w: World, i: nat, p: Name)
    requires !IsLivePart(w, p)
    ensures !IsFileOf(Next(hash, w, Delete(p)), i, p)
  {
    hide IsLivePart;
  }

  /** From when a run is done with it, its file is found under a name exactly
      until another program deletes that name. */
  lemma {:induction false} UntilDeleted(hash: Hash, w: World, earlier: seq<Action>, later: seq<Action>, i: nat, p: Name)
    requires IsStart(w)
    requires Settled(After(hash, w, earlier), i, p) && IsFileOf(After(hash, w, earlier), i, p)
    ensures Settled(After(hash, w, earlier + later), i, p)
    ensures After(hash, w, earlier + later).runs[i].part == After(hash, w, earlier).runs[i].part
    ensures IsFileOf(After(hash, w, earlier + later), i, p) <==> Delete(p) !in later
    decreases |later|
  {
    if later == [] {
      assert earlier + later == earlier;
    } else {
      var before, last := later[..|later| - 1], later[|later| - 1];
      assert (earlier + later)[..|earlier + later| - 1] == earlier + before;
      assert (earlier + later)[|earlier + later| - 1] == last;
      assert later == before + [last];
      UntilDeleted(hash, w, earlier, before, i, p);
      AlwaysInvariant(hash, w, earlier + before);
      var was := After(hash, w, earlier + before);
      SettledStays(hash, was, last, i, p);
      if IsFileOf(was, i, p) {
        SettledIsNoPart(hash, was, i, p);
        hide IsStart, Next, Invariant, IsLivePart, IsFileOf, Settled;
        if last == Delete(p) {
          IsDeleted(hash, was, i, p);
        } else {
          StillThere(hash, was, last, i, p);
        }
      } else {
        hide IsStart, Next, Invariant, IsLivePart, IsFileOf;
        StaysAway(hash, was, last, i, p);
      }
    }
  }

  lemma SettledIsNoPart(hash: Hash, w: World, i: nat, p: Name)
    requires Invariant(hash, w) && IsFileOf(w, i, p) && Settled(w, i, p)
    ensures !IsLivePart(w, p)
  {
    PublishedIsNoPart(hash, w, i, p);
  }

  /** The `k`th action is the link by which the `i`th run publishes its file
      under `p`, which was free. */
  ghost predicate PublishesAt(hash: Hash, w: World, actions: seq<Action>, i: nat, p: Name, k: nat) {
    && k < |actions| && LinksAt(hash, After(hash, w, actions[..k]), actions[k], i, p)
  }

  ghost predicate LinksAt(hash: Hash, w: World, a: Action, i: nat, p: Name) {
    && a == Link(i, false) && i < |w.runs| && w.runs[i].outcome.None? && p !in w.dir
    && Settled(Next(hash, w, a), i, p) && IsFileOf(Next(hash, w, a), i, p)
  }

  lemma LinkedNow(hash: Hash, w: World, a: Action, i: nat, p: Name)
    requires Invariant(hash, w) && i < |w.runs| && i < |Next(hash, w, a).runs|
    requires Next(hash, w, a).runs[i].outcome == Some(Ok(p)) && w.runs[i].outcome != Some(Ok(p))
    ensures w.runs[i].phase.Linking? && w.runs[i].phase.n <= MAX_NUMBERED_NAMES
    ensures p == CandidateName(w.runs[i].name, w.runs[i].phase.n)
    ensures LinksAt(hash, w, a, i, p)
  {
    hide PartName, CandidateName, FilesOk, Apart;
    assert RunOk(hash, w.runs[i]) && Anchored(w, w.runs[i]);
    if !(CanHappen(w, a) && IsRuns(a) && a.i == i) {
      hide Next, RunOk, Anchored;
      OthersUnmoved(hash, w, a, i);
    }
  }

  /** Every published file was published by a link of its run. */
  lemma {:induction false} PublishedByALink(hash: Hash, w: World, actions: seq<Action>, i: nat, p: Name) returns (k: nat)
    requires IsStart(w) && i < |After(hash, w, actions).runs|
    requires After(hash, w, actions).runs[i].outcome == Some(Ok(p))
    ensures PublishesAt(hash, w, actions, i, p, k)
  {
    k := 0;
    if actions != [] {
      var before, last := actions[..|actions| - 1], actions[|actions| - 1];
      var was := After(hash, w, before);
      AlwaysInvariant(hash, w, before);
      hide IsStart, Invariant, Next, LinksAt;
      SameRuns(hash, was, last);
      if was.runs[i].outcome == Some(Ok(p)) {
        k := PublishedByALink(hash, w, before, i, p);
        assert before[..k] == actions[..k];
      } else {
        LinkedNow(hash, was, last, i, p);
        k := |before|;
      }
    }
  }

  /** From its link on, a published file is there under the path its run
      returned exactly until another program deletes it, and as long as it is
      there it has its item's size and digest. */
  lemma PublishedIsWhole(hash: Hash, w: World, actions: seq<Action>, i: nat, p: Name) returns (k: nat)
    requires IsStart(w) && i < |w.runs|
    requires i < |After(hash, w, actions).runs| && After(hash, w, actions).runs[i].outcome == Some(Ok(p))
    ensures PublishesAt(hash, w, actions, i, p, k)
    ensures IsFileOf(After(hash, w, actions), i, p) <==> Delete(p) !in actions[k + 1..]
    ensures var end := After(hash, w, actions);
      IsFileOf(end, i, p) ==>
        && end.dir[p] in end.data
        && |end.data[end.dir[p]]| == w.runs[i].meta.size
        && hash(end.data[end.dir[p]]) == w.runs[i].meta.sha256
  {
    k := PublishedByALink(hash, w, actions, i, p);
    SincePublished(hash, w, actions, i, p, k);
    AlwaysInvariant(hash, w, actions);
    RunsStay(hash, w, actions, i);
    hide PartName, CandidateName, After, PublishesAt;
    var end := After(hash, w, actions);
    assert RunOk(hash, end.runs[i]) && Anchored(end, end.runs[i]);
  }

  lemma SincePublished(hash: Hash, w: World, actions: seq<Action>, i: nat, p: Name, k: nat)
    requires IsStart(w) && PublishesAt(hash, w, actions, i, p, k)
    ensures IsFileOf(After(hash, w, actions), i, p) <==> Delete(p) !in actions[k + 1..]
  {
    hide IsStart, Next, Settled, IsFileOf;
    assert actions[..k + 1][..k] == actions[..k];
    assert actions[..k + 1] + actions[k + 1..] == actions;
    UntilDeleted(hash, w, actions[..k + 1], actions[k + 1..], i, p);
  }

  /** Two files published under one path: another program deleted the first
      between the two links. */
  lemma DeletedBetween(hash: Hash, w: World, actions: seq<Action>, i: nat, j: nat, p: Name, a: nat, b: nat)
    requires IsStart(w) && a < b
    requires PublishesAt(hash, w, actions, i, p, a) && PublishesAt(hash, w, actions, j, p, b)
    ensures Delete(p) in actions[a + 1..b]
  {
    var before := actions[..b];
    assert before[..a] == actions[..a] && before[a + 1..] == actions[a + 1..b];
    SincePublished(hash, w, before, i, p, a);
  }

  /** No two runs return the same path, unless another program deleted the
      first file between the two publications. */
  lemma PathsDiffer(hash: Hash, w: World, actions: seq<Action>, i: nat, j: nat, p: Name) returns (a: nat, b: nat)
    requires IsStart(w) && i != j
    requires i < |After(hash, w, actions).runs| && After(hash, w, actions).runs[i].outcome == Some(Ok(p))
    requires j < |After(hash, w, actions).runs| && After(hash, w, actions).runs[j].outcome == Some(Ok(p))
    ensures PublishesAt(hash, w, actions, i, p, a) && PublishesAt(hash, w, actions, j, p, b) && a != b
    ensures Delete(p) in if a < b then actions[a + 1..b] else actions[b + 1..a]
  {
    a := PublishedByALink(hash, w, actions, i, p);
    b := PublishedByALink(hash, w, actions, j, p);
    if a < b {
      DeletedBetween(hash, w, actions, i, j, p, a, b);
    } else if b < a {
      DeletedBetween(hash, w, actions, j, i, p, b, a);
    }
  }

  // ---------- what is left behind ----------

  /** The `k`th action is the attempt to remove the part file that ends the
      `i`th run. */
  ghost predicate FinishesAt(hash: Hash, w: World, actions: seq<Action>, i: nat, k: nat) {
    && k < |actions| && RemovesAt(hash, After(hash, w, actions[..k]), actions[k], i)
  }

  ghost predicate RemovesAt(hash: Hash, w: World, a: Action, i: nat) {
    && a.Remove? && a.i == i && i < |w.runs| && w.runs[i].phase == Removing && IsLive(w.runs[i])
    && var w' := Next(hash, w, a);
      && i < |w'.runs| && w'.runs[i].phase == Done
      && w'.runs[i].part == w.runs[i].part && w'.runs[i].removed == a.ok
      && (!a.ok ==> IsFileOf(w', i, w.runs[i].part.value.name))
  }

  lemma FinishedNow(hash: Hash, w: World, a: Action, i: nat)
    requires Invariant(hash, w) && i < |w.runs| && i < |Next(hash, w, a).runs|
    requires Next(hash, w, a).runs[i].phase == Done && w.runs[i].phase != Done && Next(hash, w, a).runs[i].part.Some?
    ensures RemovesAt(hash, w, a, i)
  {
    hide PartName, CandidateName, FilesOk, Apart;
    assert RunOk(hash, w.runs[i]) && Anchored(w, w.runs[i]);
    if !(CanHappen(w, a) && IsRuns(a) && a.i == i) {
      hide Next, RunOk, Anchored;
      OthersUnmoved(hash, w, a, i);
    }
  }

  lemma DoneStays(hash: Hash, w: World, a: Action, i: nat)
    requires Invariant(hash, w) && i < |w.runs| && w.runs[i].phase == Done
    ensures |Next(hash, w, a).runs| == |w.runs| && Next(hash, w, a).runs[i] == w.runs[i]
  {
    hide PartName, CandidateName, FilesOk, Apart, Anchored, Apply;
    assert RunOk(hash, w.runs[i]);
    if CanHappen(w, a) {
      OthersUnmoved(hash, w, a, i);
    }
  }

  lemma FinishedEarlier(hash: Hash, w: World, actions: seq<Action>, i: nat, k: nat)
    requires actions != [] && FinishesAt(hash, w, actions[..|actions| - 1], i, k)
    ensures FinishesAt(hash, w, actions, i, k)
    ensures actions[..|actions| - 1][..k + 1] == actions[..k + 1]
  {
    hide RemovesAt, After;
    assert actions[..|actions| - 1][..k] == actions[..k];
  }

  lemma FinishedLast(hash: Hash, w: World, actions: seq<Action>, i: nat)
    requires actions != []
    requires RemovesAt(hash, After(hash, w, actions[..|actions| - 1]), actions[|actions| - 1], i)
    ensures FinishesAt(hash, w, actions, i, |actions| - 1) && actions[..|actions| - 1 + 1] == actions
  {
    hide RemovesAt, After;
  }

  /** A finished run with a part file tried to remove it once, and nothing has
      happened to the run since. */
  lemma {:induction false} FinishedByARemoval(hash: Hash, w: World, actions: seq<Action>, i: nat) returns (k: nat)
    requires IsStart(w) && i < |After(hash, w, actions).runs|
    requires After(hash, w, actions).runs[i].phase == Done && After(hash, w, actions).runs[i].part.Some?
    ensures FinishesAt(hash, w, actions, i, k)
    ensures i < |After(hash, w, actions[..k + 1]).runs|
    ensures After(hash, w, actions).runs[i] == After(hash, w, actions[..k + 1]).runs[i]
  {
    k := 0;
    if actions != [] {
      var before, last := actions[..|actions| - 1], actions[|actions| - 1];
      var was := After(hash, w, before);
      AlwaysInvariant(hash, w, before);
      hide IsStart, Invariant, Next, FinishesAt, RemovesAt;
      SameRuns(hash, was, last);
      if was.runs[i].phase == Done {
        DoneStays(hash, was, last, i);
        k := FinishedByARemoval(hash, w, before, i);
        FinishedEarlier(hash, w, actions, i, k);
      } else {
        FinishedNow(hash, was, last, i);
        k := |before|;
        FinishedLast(hash, w, actions, i);
      }
    }
  }

  /** A run that is done leaves its part file behind exactly when it could not
      remove it, until another program does; what it downloaded is found there
      and under the path it returned, until another program deletes it, and
      nowhere else. In particular a failed run whose part was removed leaves
      nothing. */
  lemma FinishedRun(hash: Hash, w: World, actions: seq<Action>, i: nat)
    requires IsStart(w) && i < |w.runs|
    requires i < |After(hash, w, actions).runs| && After(hash, w, actions).runs[i].phase == Done
    ensures After(hash, w, actions).runs[i].outcome.Some?
    ensures var end := After(hash, w, actions); var r := end.runs[i];
      forall p :: IsFileOf(end, i, p) ==> r.outcome == Some(Ok(p)) || (p == r.part.value.name && !r.removed)
    ensures var end := After(hash, w, actions); var r := end.runs[i];
      r.part.Some? ==> exists k: nat ::
        && FinishesAt(hash, w, actions, i, k)
        && (IsFileOf(end, i, r.part.value.name) <==> !r.removed && Delete(r.part.value.name) !in actions[k + 1..])
    ensures var end := After(hash, w, actions); var r := end.runs[i];
      Published(r) ==> exists k: nat ::
        && PublishesAt(hash, w, actions, i, r.outcome.value.value, k)
        && (IsFileOf(end, i, r.outcome.value.value) <==> Delete(r.outcome.value.value) !in actions[k + 1..])
  {
    hide PartName, CandidateName;
    AlwaysInvariant(hash, w, actions);
    var end := After(hash, w, actions);
    var r := end.runs[i];
    assert RunOk(hash, r) && Anchored(end, r);
    hide After, RunOk, FinishesAt, PublishesAt;
    if Published(r) {
      var k := PublishedIsWhole(hash, w, actions, i, r.outcome.value.value);
    }
    if r.part.Some? {
      var k := FinishedByARemoval(hash, w, actions, i);
      SinceFinished(hash, w, actions, i, k);
    }
  }

  /** What is found under the part's name after the removal was tried. */
  lemma SinceFinished(hash: Hash, w: World, actions: seq<Action>, i: nat, k: nat)
    requires IsStart(w) && FinishesAt(hash, w, actions, i, k)
    requires i < |After(hash, w, actions).runs| && i < |After(hash, w, actions[..k + 1]).runs|
    requires After(hash, w, actions).runs[i] == After(hash, w, actions[..k + 1]).runs[i]
    ensures var end := After(hash, w, actions); var r := end.runs[i];
      r.part.Some? && (IsFileOf(end, i, r.part.value.name) <==> !r.removed && Delete(r.part.value.name) !in actions[k + 1..])
  {
    var ending := actions[..k + 1];
    assert ending[..k] == actions[..k];
    assert ending + actions[k + 1..] == actions;
    var end := After(hash, w, actions);
    var r := end.runs[i];
    if r.removed {
      AlwaysInvariant(hash, w, actions);
      hide After, PartName, CandidateName;
      RemovedIsGone(hash, end, i);
    } else {
      hide IsStart, Next;
      UntilDeleted(hash, w, ending, actions[k + 1..], i, r.part.value.name);
    }
  }

  lemma RemovedIsGone(hash: Hash, w: World, i: nat)
    requires Invariant(hash, w) && i < |w.runs| && w.runs[i].removed
    ensures w.runs[i].part.Some? && !IsFileOf(w, i, w.runs[i].part.value.name)
  {
    hide PartName, CandidateName;
    var r := w.runs[i];
    assert RunOk(hash, r) && Anchored(w, r);
    if IsFileOf(w, i, r.part.value.name) {
      OnlyThere(hash, w, i, r.part.value.name);
      var n: nat :| n <= MAX_NUMBERED_NAMES && r.part.value.name == CandidateName(r.name, n);
      var random: nat :| r.part.value.name == PartName(r.name, random);
      PartIsNoCandidate(r.name, random, n);
    }
  }

  // ---------- which name is taken ----------

  /** At some moment the `i`th run tried its `n`th candidate and found it
      taken. */
  ghost predicate FoundTaken(hash: Hash, w: World, actions: seq<Action>, i: nat, n: nat) {
    exists k :: 0 <= k < |actions| && TakenAt(hash, After(hash, w, actions[..k]), actions[k], i, n)
  }

  predicate TakenAt(hash: Hash, w: World, a: Action, i: nat, n: nat) {
    && a == Link(i, false) && i < |w.runs| && w.runs[i].phase == Linking(n)
    && CandidateName(w.runs[i].name, n) in w.dir
  }

  lemma FoundTakenStays(hash: Hash, w: World, actions: seq<Action>, i: nat, n: nat)
    requires actions != [] && FoundTaken(hash, w, actions[..|actions| - 1], i, n)
    ensures FoundTaken(hash, w, actions, i, n)
  {
    hide TakenAt, After;
    var before := actions[..|actions| - 1];
    var k :| 0 <= k < |before| && TakenAt(hash, After(hash, w, before[..k]), before[k], i, n);
    assert before[..k] == actions[..k];
  }

  lemma FoundTakenNow(hash: Hash, w: World, actions: seq<Action>, i: nat, n: nat)
    requires actions != []
    requires TakenAt(hash, After(hash, w, actions[..|actions| - 1]), actions[|actions| - 1], i, n)
    ensures FoundTaken(hash, w, actions, i, n)
  {
    hide TakenAt, After;
  }

  /** How many candidates a run has found taken, as far as its state tells. */
  function FirstTries(r: Run): nat {
    if r.phase.Linking? then r.phase.n
    else if r.outcome == Some(Err(NoFreeName)) then MAX_NUMBERED_NAMES + 1
    else 0
  }

  lemma TriesStep(hash: Hash, w: World, a: Action, i: nat)
    requires Invariant(hash, w) && i < |w.runs|
    ensures i < |Next(hash, w, a).runs|
    ensures FirstTries(Next(hash, w, a).runs[i]) <= FirstTries(w.runs[i])
      || (FirstTries(Next(hash, w, a).runs[i]) == FirstTries(w.runs[i]) + 1 && TakenAt(hash, w, a, i, FirstTries(w.runs[i])))
  {
    hide PartName, CandidateName, FilesOk, Apart;
    assert RunOk(hash, w.runs[i]) && Anchored(w, w.runs[i]);
    if !(CanHappen(w, a) && IsRuns(a) && a.i == i) {
      hide Next, Anchored, RunOk;
      OthersUnmoved(hash, w, a, i);
    } else {
      hide Anchored;
    }
  }

  /** A run that fails for want of a free name found each of the 1000
      candidates taken when it tried it, and one that is at its `n`th found
      each earlier one taken. */
  lemma {:induction false} TriedInOrder(hash: Hash, w: World, actions: seq<Action>, i: nat, n: nat)
    requires IsStart(w) && i < |After(hash, w, actions).runs|
    requires n < FirstTries(After(hash, w, actions).runs[i])
    ensures FoundTaken(hash, w, actions, i, n)
  {
    if actions != [] {
      var before := actions[..|actions| - 1];
      var was := After(hash, w, before);
      AlwaysInvariant(hash, w, before);
      hide IsStart, Invariant, FoundTaken, TakenAt, FirstTries, Next;
      SameRuns(hash, was, actions[|actions| - 1]);
      TriesStep(hash, was, actions[|actions| - 1], i);
      if n < FirstTries(was.runs[i]) {
        TriedInOrder(hash, w, before, i, n);
        FoundTakenStays(hash, w, actions, i, n);
      } else {
        FoundTakenNow(hash, w, actions, i, n);
      }
    }
  }

  lemma NoFreeNameMeansAllTaken(hash: Hash, w: World, actions: seq<Action>, i: nat)
    requires IsStart(w) && i < |After(hash, w, actions).runs|
    requires After(hash, w, actions).runs[i].outcome == Some(Err(NoFreeName))
    ensures forall n: nat :: n <= 999 ==> FoundTaken(hash, w, actions, i, n)
  {
    AlwaysInvariant(hash, w, actions);
    assert RunOk(hash, After(hash, w, actions).runs[i]);
    forall n: nat | n <= 999 ensures FoundTaken(hash, w, actions, i, n) {
      hide FoundTaken, IsStart, After, Invariant;
      TriedInOrder(hash, w, actions, i, n);
    }
  }

  /** `p` is a candidate, and each earlier one was found taken. */
  ghost predicate FirstFree(hash: Hash, w: World, actions: seq<Action>, i: nat, name: Name, p: Name) {
    exists n: nat :: n <= MAX_NUMBERED_NAMES && p == CandidateName(name, n)
      && forall m: nat :: m < n ==> FoundTaken(hash, w, actions, i, m)
  }

  /** The path a run returns is the first candidate it did not find taken. */
  lemma {:induction false} FirstFreeName(hash: Hash, w: World, actions: seq<Action>, i: nat, p: Name)
    requires IsStart(w) && i < |After(hash, w, actions).runs|
    requires After(hash, w, actions).runs[i].outcome == Some(Ok(p))
    ensures FirstFree(hash, w, actions, i, After(hash, w, actions).runs[i].name, p)
  {
    if actions != [] {
      var before, last := actions[..|actions| - 1], actions[|actions| - 1];
      var was := After(hash, w, before);
      AlwaysInvariant(hash, w, before);
      hide IsStart, Invariant, FoundTaken, FirstFree, Next;
      SameRuns(hash, was, last);
      RunStays(hash, was, last, i);
      if was.runs[i].outcome == Some(Ok(p)) {
        FirstFreeName(hash, w, before, i, p);
        FirstFreeStays(hash, w, actions, i, was.runs[i].name, p);
      } else {
        LinkedNow(hash, was, last, i, p);
        var n := was.runs[i].phase.n;
        forall m: nat | m < n ensures FoundTaken(hash, w, actions, i, m) {
          TriedInOrder(hash, w, before, i, m);
          FoundTakenStays(hash, w, actions, i, m);
        }
        FirstFreeIs(hash, w, actions, i, was.runs[i].name, p, n);
      }
    }
  }

  lemma FirstFreeIs(hash: Hash, w: World, actions: seq<Action>, i: nat, name: Name, p: Name, n: nat)
    requires n <= MAX_NUMBERED_NAMES && p == CandidateName(name, n)
    requires forall m: nat :: m < n ==> FoundTaken(hash, w, actions, i, m)
    ensures FirstFree(hash, w, actions, i, name, p)
  {
    hide FoundTaken, CandidateName;
  }

  lemma FirstFreeStays(hash: Hash, w: World, actions: seq<Action>, i: nat, name: Name, p: Name)
    requires actions != [] && FirstFree(hash, w, actions[..|actions| - 1], i, name, p)
    ensures FirstFree(hash, w, actions, i, name, p)
  {
    hide FoundTaken, CandidateName;
    var before := actions[..|actions| - 1];
    var n: nat :| n <= MAX_NUMBERED_NAMES && p == CandidateName(name, n)
      && forall m: nat :: m < n ==> FoundTaken(hash, w, before, i, m);
    forall m: nat | m < n ensures FoundTaken(hash, w, actions, i, m) {
      FoundTakenStays(hash, w, actions, i, m);
    }
  }
}
