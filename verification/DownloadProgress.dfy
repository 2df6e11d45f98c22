/** A download nobody disturbs: what it leaves in the directory, exactly. */
module DownloadProgress {
  import opened Prelude
  import opened DownloadNames
  import opened DownloadRuns

  lemma {:induction false} AfterConcat(hash: Hash, w: World, a: seq<Action>, b: seq<Action>)
    ensures After(hash, w, a + b) == After(hash, After(hash, w, a), b)
  {
    if b == [] {
      assert a + b == a;
    } else {
      assert (a + b)[..|a + b| - 1] == a + b[..|b| - 1];
      AfterConcat(hash, w, a, b[..|b| - 1]);
    }
  }

  function Reads(i: nat, content: seq<Bytes>): (actions: seq<Action>)
    ensures |actions| == |content|
  {
    seq(|content|, k requires 0 <= k < |content| => Read(i, content[k]))
  }

  /** The candidates tried up to the `n`th, and that one. */
  function Links(i: nat, n: nat): (actions: seq<Action>)
    ensures |actions| == n + 1
  {
    seq(n + 1, _ => Link(i, false))
  }

  /** The whole download: its calls in their order, none of which fails. */
  function Calls(i: nat, random: nat, content: seq<Bytes>, n: nat): seq<Action> {
    [TryCreate(i, random, false), Open(i, true)] + Reads(i, content) + [End(i, true)] + Links(i, n) + [Remove(i, true)]
  }

  /** What the run is while it streams, with `hashed` in its file. */
  predicate IsStreaming(w: World, start: World, i: nat, part: Name, hashed: Bytes) {
    && i < |start.runs|
    && w == start.(dir := start.dir[part := start.next], data := start.data[start.next := hashed], next := start.next + 1,
                   runs := start.runs[i := start.runs[i].(phase := Streaming, part := Some(Part(part, start.next)),
                                                         hashed := hashed)])
  }

  lemma Begins(hash: Hash, start: World, i: nat, random: nat)
    requires i < |start.runs| && start.runs[i] == NewRun(start.runs[i].name, start.runs[i].meta)
    requires PartName(start.runs[i].name, random) !in start.dir
    ensures IsStreaming(After(hash, start, [TryCreate(i, random, false), Open(i, true)]), start, i,
                        PartName(start.runs[i].name, random), [])
  {
    hide PartName;
    var create, open := TryCreate(i, random, false), Open(i, true);
    assert [create, open][..1] == [create] && [create][..0] == [];
    var created := Next(hash, start, create);
    assert After(hash, start, [create]) == created;
    var part := PartName(start.runs[i].name, random);
    assert created.data[start.next := []] == created.data;
    assert Next(hash, created, open).runs[i] == start.runs[i].(phase := Streaming, part := Some(Part(part, start.next)));
  }

  lemma ReadOn(hash: Hash, w: World, start: World, i: nat, part: Name, hashed: Bytes, chunk: Bytes)
    requires IsStreaming(w, start, i, part, hashed) && chunk != []
    ensures IsStreaming(Next(hash, w, Read(i, chunk)), start, i, part, hashed + chunk)
  {
    var w' := Next(hash, w, Read(i, chunk));
    assert w'.data == start.data[start.next := hashed + chunk];
  }

  lemma {:induction false} ReadsAll(hash: Hash, w: World, start: World, i: nat, part: Name, content: seq<Bytes>)
    requires IsStreaming(w, start, i, part, [])
    requires forall k :: 0 <= k < |content| ==> content[k] != []
    ensures IsStreaming(After(hash, w, Reads(i, content)), start, i, part, Concat(content))
  {
    if content != [] {
      hide IsStreaming, Next;
      var before, last := content[..|content| - 1], content[|content| - 1];
      assert Reads(i, content)[..|content| - 1] == Reads(i, before);
      assert content == before + [last];
      ReadsAll(hash, w, start, i, part, before);
      ReadOn(hash, After(hash, w, Reads(i, before)), start, i, part, Concat(before), last);
      ConcatSnoc(before, last);
    }
  }

  /** The first candidates are taken. */
  predicate Taken(w: World, name: Name, n: nat) {
    forall m: nat :: m < n ==> CandidateName(name, m) in w.dir
  }

  /** The run has its part file, and tries its `n`th candidate. */
  predicate Tries(w: World, i: nat, n: nat) {
    && i < |w.runs| && w.runs[i].phase == Linking(n) && n <= MAX_NUMBERED_NAMES
    && w.runs[i].part.Some? && w.runs[i].part.value.inode in w.data && w.runs[i].part.value.name in w.dir
  }

  lemma TryTaken(hash: Hash, w: World, i: nat, n: nat)
    requires Tries(w, i, n) && n < MAX_NUMBERED_NAMES && CandidateName(w.runs[i].name, n) in w.dir
    ensures Next(hash, w, Link(i, false)) == SetRun(w, i, w.runs[i].(phase := Linking(n + 1)))
  {
    hide CandidateName;
  }

  lemma TryFree(hash: Hash, w: World, i: nat, n: nat)
    requires Tries(w, i, n) && CandidateName(w.runs[i].name, n) !in w.dir
    ensures var r := w.runs[i]; var candidate := CandidateName(r.name, n);
      Next(hash, w, Link(i, false))
      == SetRun(w.(dir := w.dir[candidate := w.dir[r.part.value.name]]), i,
                r.(phase := Removing, outcome := Some(Ok(candidate))))
  {
    hide CandidateName;
  }

  lemma RemovesPart(hash: Hash, w: World, i: nat)
    requires i < |w.runs| && w.runs[i].phase == Removing && w.runs[i].part.Some?
    requires w.runs[i].part.value.inode in w.data
    ensures Next(hash, w, Remove(i, true))
         == SetRun(w.(dir := w.dir - {w.runs[i].part.value.name}), i, w.runs[i].(phase := Done, removed := true))
  {
  }

  /** Each taken candidate is one step on, and changes nothing else. */
  lemma {:induction false} TriesAll(hash: Hash, w: World, i: nat, n: nat)
    requires n <= MAX_NUMBERED_NAMES && Tries(w, i, 0) && Taken(w, w.runs[i].name, n)
    ensures After(hash, w, Links(i, n)[..n]) == SetRun(w, i, w.runs[i].(phase := Linking(n)))
  {
    hide CandidateName, Next;
    if n == 0 {
      assert Links(i, n)[..n] == [];
      assert w.runs[i := w.runs[i]] == w.runs;
    } else {
      TriesAll(hash, w, i, n - 1);
      var tried := Links(i, n)[..n];
      assert tried[..|tried| - 1] == Links(i, n - 1)[..n - 1] && tried[|tried| - 1] == Link(i, false);
      TryTaken(hash, After(hash, w, Links(i, n - 1)[..n - 1]), i, n - 1);
    }
  }

  lemma AfterOne(hash: Hash, w: World, a: Action)
    ensures After(hash, w, [a]) == Next(hash, w, a)
  {
    assert [a][..0] == [];
  }

  lemma Ends(hash: Hash, w: World, i: nat, n: nat)
    requires Tries(w, i, n) && CandidateName(w.runs[i].name, n) !in w.dir
    ensures var r := w.runs[i]; var part, candidate := r.part.value.name, CandidateName(r.name, n);
      var end := After(hash, w, [Link(i, false), Remove(i, true)]);
      && end.dir == w.dir[candidate := w.dir[part]] - {part} && end.data == w.data
      && |end.runs| == |w.runs| && end.runs[i].outcome == Some(Ok(candidate))
  {
    hide CandidateName, Next;
    var link, remove := Link(i, false), Remove(i, true);
    assert [link, remove][..1] == [link];
    AfterOne(hash, w, link);
    TryFree(hash, w, i, n);
    RemovesPart(hash, Next(hash, w, link), i);
  }

  /** Undisturbed, a download of the item's own content leaves the directory
      with exactly one file more, under the first free candidate, holding
      exactly the content, and no part file. */
  lemma UndisturbedDownload(hash: Hash, start: World, i: nat, random: nat, content: seq<Bytes>, n: nat)
    requires FilesOk(start) && i < |start.runs| && start.runs[i] == NewRun(start.runs[i].name, start.runs[i].meta)
    requires PartName(start.runs[i].name, random) !in start.dir
    requires forall k :: 0 <= k < |content| ==> content[k] != []
    requires |Concat(content)| == start.runs[i].meta.size && hash(Concat(content)) == start.runs[i].meta.sha256
    requires n <= MAX_NUMBERED_NAMES && Taken(start, start.runs[i].name, n)
    requires CandidateName(start.runs[i].name, n) !in start.dir
    ensures var candidate := CandidateName(start.runs[i].name, n);
      var end := After(hash, start, Calls(i, random, content, n));
      && end.dir == start.dir[candidate := start.next]
      && end.data == start.data[start.next := Concat(content)]
      && |end.runs| == |start.runs| && end.runs[i].outcome == Some(Ok(candidate))
  {
    var part := PartName(start.runs[i].name, random);
    PartIsNoCandidate(start.runs[i].name, random, n);
    Begins(hash, start, i, random);
    hide PartName, CandidateName, Next, After, Concat, Calls, IsStreaming, Taken;
    var w1 := After(hash, start, [TryCreate(i, random, false), Open(i, true)]);
    ReadsAll(hash, w1, start, i, part, content);
    Finishes(hash, After(hash, w1, Reads(i, content)), start, i, part, Concat(content), n);
    InOrder(hash, start, i, random, content, n);
  }

  /** From the end of the content on. */
  lemma Finishes(hash: Hash, w: World, start: World, i: nat, part: Name, whole: Bytes, n: nat)
    requires IsStreaming(w, start, i, part, whole) && part !in start.dir
    requires |whole| == start.runs[i].meta.size && hash(whole) == start.runs[i].meta.sha256
    requires n <= MAX_NUMBERED_NAMES && Taken(start, start.runs[i].name, n)
    requires CandidateName(start.runs[i].name, n) !in start.dir && CandidateName(start.runs[i].name, n) != part
    ensures var w' := After(hash, After(hash, w, [End(i, true)]), Links(i, n)[..n]);
      var end := After(hash, w', [Link(i, false), Remove(i, true)]);
      && end.dir == start.dir[CandidateName(start.runs[i].name, n) := start.next]
      && end.data == start.data[start.next := whole]
      && |end.runs| == |start.runs| && end.runs[i].outcome == Some(Ok(CandidateName(start.runs[i].name, n)))
  {
    hide CandidateName, Next, After;
    Ended(hash, w, start, i, part, whole);
    var w3 := After(hash, w, [End(i, true)]);
    assert Taken(w3, start.runs[i].name, n);
    TriesAll(hash, w3, i, n);
    Ends(hash, After(hash, w3, Links(i, n)[..n]), i, n);
    PartGone(start.dir, part, CandidateName(start.runs[i].name, n), start.next);
  }

  lemma PartGone(dir: map<Name, Inode>, part: Name, candidate: Name, inode: Inode)
    requires part !in dir && candidate != part
    ensures dir[part := inode][candidate := inode] - {part} == dir[candidate := inode]
  {
  }

  lemma Ended(hash: Hash, w: World, start: World, i: nat, part: Name, whole: Bytes)
    requires IsStreaming(w, start, i, part, whole)
    requires |whole| == start.runs[i].meta.size && hash(whole) == start.runs[i].meta.sha256
    ensures After(hash, w, [End(i, true)]) == SetRun(w, i, w.runs[i].(phase := Linking(0)))
  {
    AfterOne(hash, w, End(i, true));
  }

  lemma InOrder(hash: Hash, w: World, i: nat, random: nat, content: seq<Bytes>, n: nat)
    ensures After(hash, w, Calls(i, random, content, n))
         == After(hash, After(hash, After(hash, After(hash, After(hash, w,
              [TryCreate(i, random, false), Open(i, true)]), Reads(i, content)), [End(i, true)]), Links(i, n)[..n]),
              [Link(i, false), Remove(i, true)])
  {
    hide After;
    var a, b, c := [TryCreate(i, random, false), Open(i, true)], Reads(i, content), [End(i, true)];
    var d, e := Links(i, n)[..n], [Link(i, false), Remove(i, true)];
    assert Links(i, n) + [Remove(i, true)] == d + e;
    assert Calls(i, random, content, n) == a + b + c + d + e;
    AfterConcat(hash, w, a + b + c + d, e);
    AfterConcat(hash, w, a + b + c, d);
    AfterConcat(hash, w, a + b, c);
    AfterConcat(hash, w, a, b);
  }
}
