/** A device's encryption operations, call by call, while other devices work on
    the same workspace. */
module EncryptionAdmin {
  import opened Prelude
  import opened EncryptionServer
  import opened EncryptionClient
  import opened EncryptionProtocol
  import opened EncryptionSafety
  import opened EncryptionConnection

  /** At some time since the `since`th state, the words gave this key. */
  ghost predicate Gave(past: seq<Server>, since: nat, words: Words, key: Key) {
    exists j: nat :: since <= j < |past| && Join(past[j], words) == Ok(key)
  }

  /** What an answer that is not `Done` makes an operation fail with. */
  function Failure(reply: Reply): AdminError
    requires !reply.Done?
  {
    if reply.Lost? then Unanswered else Refused(reply.code)
  }

  /** The calls made since there were `calls`. */
  function Since(calls: seq<Answer>, now: seq<Answer>): seq<Answer> {
    if |calls| <= |now| then now[|calls|..] else []
  }

  predicate Extends(calls: seq<Answer>, now: seq<Answer>) {
    |calls| <= |now| && now[..|calls|] == calls
  }

  lemma ExtendsOn(a: seq<Answer>, b: seq<Answer>, c: seq<Answer>)
    requires Extends(a, b) && Extends(b, c)
    ensures Extends(a, c) && Since(a, c) == Since(a, b) + Since(b, c)
  {
    assert c[..|b|][..|a|] == c[..|a|];
  }

  /** A device's new key, once it is the workspace's, was given by the words it
      was wrapped with, and not before the device made it. */
  lemma OwnKeyGiven(c: Connection, was: World, sent: Sent, at: nat, words: Words)
    requires c.Valid() && Invariant(was) && was.past <= c.world.past
    requires sent in c.world.sent && NewKeyOf(sent.request) == Some(IdOf(was.nextKey))
    requires HeaderOf(sent.request) == Wrap(was.nextKey, words)
    requires at < |c.world.past| && KeyIdNow(c.world.past[at]) == Some(IdOf(was.nextKey))
    ensures Gave(c.world.past, |was.past|, words, was.nextKey)
  {
    hide After, IsStart, History, KeysUnique, WordsOk, SessionSent, RequestOk;
    var j := OwnKeySealed(c.start, c.log, sent, at);
    NewKeyIsNew(was);
    assert forall i :: 0 <= i < |was.past| ==> c.world.past[i] == was.past[i];
    assert Join(c.world.past[j], words) == Ok(was.nextKey);
  }

  lemma NewKeyIsNew(w: World)
    requires Invariant(w)
    ensures forall i :: 0 <= i < |w.past| ==> KeyIdNow(w.past[i]) != Some(IdOf(w.nextKey))
  {
    forall i | 0 <= i < |w.past| ensures KeyIdNow(w.past[i]) != Some(IdOf(w.nextKey)) {
      assert ServerOk(w.past[i], w.nextKey);
    }
  }

  lemma IsSound(c: Connection)
    requires c.Valid()
    ensures Invariant(c.world)
  {
    AlwaysInvariant(c.start, c.log);
  }

  lemma GaveEarlier(past: seq<Server>, since: nat, earlier: nat, words: Words, key: Key)
    requires Gave(past, since, words, key) && earlier <= since
    ensures Gave(past, earlier, words, key)
  {
    hide Join;
  }

  /** One request was sent, and its answer is the operation's result: `value`
      when it was carried out. */
  predicate OneCall(made: seq<Answer>, request: Request, value: Key, r: Result<Key, AdminError>) {
    && |made| == 1 && made[0].sent.request == request
    && r == if made[0].reply.Done? then Ok(value) else Err(Failure(made[0].reply))
  }

  /** What set-up sends and answers, having seen this state. */
  ghost predicate SetUpEnds(seen: Server, words: Words, made: seq<Answer>, r: Result<Key, AdminError>) {
    var refused := SetUpRequest(seen, words, 0);
    if refused.Err? then made == [] && r == Err(refused.error)
    else exists key :: OneCall(made, Enable(Wrap(key, words), IdOf(key)), key, r)
  }

  /** Likewise a fresh start. */
  ghost predicate FreshStartEnds(seen: Server, words: Words, made: seq<Answer>, r: Result<Key, AdminError>) {
    var refused := FreshStartRequest(seen, words, 0);
    if refused.Err? then made == [] && r == Err(refused.error)
    else exists key :: OneCall(made, Request.FreshStart(Wrap(key, words), IdOf(key)), key, r)
  }

  /** Likewise a change of words: words that give no key send nothing. */
  predicate ChangeEnds(seen: Server, current: Words, changed: Words, made: seq<Answer>, r: Result<Key, AdminError>) {
    var joined := Join(seen, current);
    if joined.Err? then made == [] && r == joined
    else OneCall(made, ReplaceHeader(IdOf(joined.value), Wrap(joined.value, changed)), joined.value, r)
  }

  /** Encrypts an empty workspace. */
  method SetUp(c: Connection, d: Device, words: Words) returns (r: Result<Key, AdminError>)
    requires c.Valid()
    modifies c
    ensures c.Valid() && c.Grown() && Extends(old(c.calls), c.calls)
    ensures r.Ok? ==> Gave(c.world.past, |old(c.world.past)|, words, r.value)
    // It sends one request, and its answer decides; or it sends nothing, for
    // what it saw.
    ensures exists seen ::
      |old(c.world.past)| - 1 <= seen < |c.world.past|
      && SetUpEnds(c.world.past[seen], words, Since(old(c.calls), c.calls), r)
  {
    hide After, IsStart, Invariant, Gave;
    var seen := c.Look();
    ghost var saw := c.world.past[seen];
    var state := StateOf(c.world.past[seen]);
    assert SetUpRequest(saw, words, 0).Err? <==> !state.Plain? || state.items != 0;
    if !state.Plain? {
      return Err(Refusal(state));
    }
    if state.items != 0 {
      return Err(HasItems);
    }
    IsSound(c);
    var key := c.world.nextKey;
    ghost var was, calls := c.world, c.calls;
    ghost var sent := Sent(d, Enable(Wrap(key, words), IdOf(key)), Some(words));
    assert SentBy(was, Action.SetUp(d, seen, words)) == Some(sent);
    hide SentBy, SetUpRequest;
    var answer := c.Call(Action.SetUp(d, seen, words));
    assert Since(calls, c.calls) == [answer] && c.world.past[seen] == saw;
    if answer.reply.Done? {
      OwnKeyGiven(c, was, sent, answer.at, words);
      GaveEarlier(c.world.past, |was.past|, |old(c.world.past)|, words, key);
      r := Ok(key);
    } else {
      r := Err(Failure(answer.reply));
    }
    assert OneCall(Since(calls, c.calls), Enable(Wrap(key, words), IdOf(key)), key, r);
  }

  /** Encrypts a workspace, setting its items aside. */
  method StartFresh(c: Connection, d: Device, words: Words) returns (r: Result<Key, AdminError>)
    requires c.Valid()
    modifies c
    ensures c.Valid() && c.Grown() && Extends(old(c.calls), c.calls)
    ensures r.Ok? ==> Gave(c.world.past, |old(c.world.past)|, words, r.value)
    ensures exists seen ::
      |old(c.world.past)| - 1 <= seen < |c.world.past|
      && FreshStartEnds(c.world.past[seen], words, Since(old(c.calls), c.calls), r)
  {
    hide After, IsStart, Invariant, Gave;
    var seen := c.Look();
    ghost var saw := c.world.past[seen];
    var state := StateOf(c.world.past[seen]);
    assert FreshStartRequest(saw, words, 0).Err? <==> !state.Plain?;
    if !state.Plain? {
      return Err(Refusal(state));
    }
    IsSound(c);
    var key := c.world.nextKey;
    ghost var was, calls := c.world, c.calls;
    ghost var sent := Sent(d, Request.FreshStart(Wrap(key, words), IdOf(key)), Some(words));
    assert SentBy(was, Action.StartFresh(d, seen, words)) == Some(sent);
    hide SentBy, FreshStartRequest;
    var answer := c.Call(Action.StartFresh(d, seen, words));
    assert Since(calls, c.calls) == [answer] && c.world.past[seen] == saw;
    if answer.reply.Done? {
      OwnKeyGiven(c, was, sent, answer.at, words);
      GaveEarlier(c.world.past, |was.past|, |old(c.world.past)|, words, key);
      r := Ok(key);
    } else {
      r := Err(Failure(answer.reply));
    }
    assert OneCall(Since(calls, c.calls), Request.FreshStart(Wrap(key, words), IdOf(key)), key, r);
  }

  /** Wraps the workspace's key with other words. */
  method ChangeWords(c: Connection, d: Device, current: Words, changed: Words) returns (r: Result<Key, AdminError>)
    requires c.Valid()
    modifies c
    ensures c.Valid() && c.Grown() && Extends(old(c.calls), c.calls)
    ensures r.Ok? ==> Gave(c.world.past, |old(c.world.past)|, changed, r.value)
    // The key stays: the current words gave it.
    ensures exists seen ::
      |old(c.world.past)| - 1 <= seen < |c.world.past|
      && ChangeEnds(c.world.past[seen], current, changed, Since(old(c.calls), c.calls), r)
  {
    hide After, IsStart, Invariant, Gave;
    var seen := c.Look();
    ghost var saw := c.world.past[seen];
    var joined := Join(c.world.past[seen], current);
    if joined.Err? {
      return joined;
    }
    var key := joined.value;
    ghost var calls := c.calls;
    ghost var sent := Sent(d, ReplaceHeader(IdOf(key), Wrap(key, changed)), Some(changed));
    assert SentBy(c.world, Action.ChangeWords(d, seen, current, changed)) == Some(sent);
    hide SentBy;
    var answer := c.Call(Action.ChangeWords(d, seen, current, changed));
    assert Since(calls, c.calls) == [answer] && c.world.past[seen] == saw;
    if answer.reply.Done? {
      HeaderReplaced(c.world.past, sent, answer.at, key, changed);
      GaveAt(c.world.past, answer.at, |old(c.world.past)|, changed, key);
      r := joined;
    } else {
      r := Err(Failure(answer.reply));
    }
  }

  lemma HeaderReplaced(past: seq<Server>, sent: Sent, at: nat, key: Key, words: Words)
    requires 1 <= at < |past| && sent.request == ReplaceHeader(IdOf(key), Wrap(key, words))
    requires Check(past[at - 1], sent.from_, sent.request).None? && past[at] == Apply(past[at - 1], sent.from_, sent.request)
    ensures Join(past[at], words) == Ok(key)
  {
  }

  lemma GaveAt(past: seq<Server>, at: nat, since: nat, words: Words, key: Key)
    requires since <= at < |past| && Join(past[at], words) == Ok(key)
    ensures Gave(past, since, words, key)
  {
    hide Join;
  }

  // ---------- driving a rewrite ----------

  /** The state at `at` is where the rewrite to `key` was committed. */
  predicate CommittedAt(past: seq<Server>, at: nat, key: Key) {
    && 1 <= at < |past| && Opened(past[at - 1], IdOf(key)) && past[at] == Committed(past[at - 1])
    && past[at].items.Keys == past[at - 1].items.Keys
  }

  predicate IsCopy(a: Answer, key: Key) {
    a.sent.request.Stage? && a.sent.request.under == key && a.sent.request.stagedKeyId == IdOf(key)
  }

  /** The item was copied, and the server has the copy. */
  predicate IsCopyOf(a: Answer, item: Item, key: Key) {
    a.sent.request == Stage(item, key, IdOf(key)) && a.reply.Done?
  }

  predicate Copied(made: seq<Answer>, item: Item, key: Key) {
    exists k :: 0 <= k < |made| && IsCopyOf(made[k], item, key)
  }

  predicate AllCopied(made: seq<Answer>, items: set<Item>, key: Key) {
    forall item :: item in items ==> Copied(made, item, key)
  }

  /** All the items of a state read since the `since`th were copied. */
  ghost predicate CopiedSince(past: seq<Server>, since: nat, made: seq<Answer>, key: Key) {
    exists read :: since <= read < |past| && AllCopied(made, past[read].items.Keys, key)
  }

  /** The rewrite to `key` was over in some state since the `since`th. */
  ghost predicate OverSince(past: seq<Server>, since: nat, key: Key) {
    exists read :: since <= read < |past| && !Opened(past[read], IdOf(key))
  }

  predicate AllDone(made: seq<Answer>) {
    forall k :: 0 <= k < |made| ==> made[k].reply.Done?
  }

  predicate OnlyCopies(made: seq<Answer>, key: Key) {
    forall k :: 0 <= k < |made| ==> IsCopy(made[k], key)
  }

  /** How driving a rewrite ends, by the last of its calls: that call's
      failure; or well, when it was the commit; or else with an item that
      could not be read. */
  function DriveFailure(made: seq<Answer>): Option<AdminError> {
    if made != [] && !made[|made| - 1].reply.Done? then Some(Failure(made[|made| - 1].reply))
    else if made != [] && made[|made| - 1].sent.request.Commit? then None
    else Some(Unreadable)
  }

  /** What a device sends while it drives a rewrite: copies, up to the first
      that fails; and the commit behind a copy of every item. */
  ghost predicate Drove(past: seq<Server>, since: nat, made: seq<Answer>, key: Key) {
    || (OnlyCopies(made, key) && (made != [] ==> AllDone(made[..|made| - 1])))
    || (&& made != [] && made[|made| - 1].sent.request == Commit(IdOf(key))
        && OnlyCopies(made[..|made| - 1], key) && AllDone(made[..|made| - 1])
        && CopiedSince(past, since, made[..|made| - 1], key))
  }

  /** Between two states with one session nothing but its copies changes. */
  lemma BetweenOpen(w: World, i: nat, m: nat, j: nat, key: Key)
    requires Invariant(w) && i <= m <= j < |w.past|
    requires Opened(w.past[i], IdOf(key)) && Opened(w.past[j], IdOf(key))
    ensures Opened(w.past[m], IdOf(key)) && w.past[m].items == w.past[i].items == w.past[j].items
    ensures w.past[i].session.value.staged.Keys <= w.past[m].session.value.staged.Keys
    ensures w.past[m].session.value.staged.Keys <= w.past[j].session.value.staged.Keys
  {
    hide KeysUnique, WordsOk, SessionSent, RequestOk;
    assert Follows(w.past[i], w.past[m]) && Follows(w.past[m], w.past[j]) && Follows(w.past[i], w.past[j]);
    assert ServerOk(w.past[j], w.nextKey);
  }

  /** A copy is still there while the session is open. */
  lemma CopyStays(w: World, fate: Fates, made: seq<Answer>, at: nat, item: Item, key: Key)
    requires Invariant(w) && AllHonest(w.past, fate, made) && Copied(made, item, key)
    requires at < |w.past| && Opened(w.past[at], IdOf(key))
    requires forall k :: 0 <= k < |made| && made[k].reply.Done? ==> made[k].at <= at
    ensures item in w.past[at].session.value.staged
  {
    var k :| 0 <= k < |made| && IsCopyOf(made[k], item, key);
    hide Invariant, AllHonest, Copied;
    CopyIsHonest(w.past, fate, made, k, item, key);
    hide Honest, IsCopyOf;
    BetweenOpen(w, made[k].at, made[k].at, at, key);
  }

  lemma CopyIsHonest(past: seq<Server>, fate: Fates, made: seq<Answer>, k: nat, item: Item, key: Key)
    requires AllHonest(past, fate, made) && k < |made| && IsCopyOf(made[k], item, key)
    ensures made[k].reply.Done? && 1 <= made[k].at < |past|
    ensures Opened(past[made[k].at], IdOf(key)) && item in past[made[k].at].session.value.staged
  {
    assert Honest(past, fate, made[k]);
    hide Check, Apply;
    CopyIsStaged(past, made[k], item, key);
  }

  /** A commit behind a copy of every item is never refused as incomplete. */
  lemma NeverIncomplete(w: World, fate: Fates, seen: nat, read: nat, made: seq<Answer>, last: Answer, key: Key)
    requires Invariant(w) && AllHonest(w.past, fate, made) && Honest(w.past, fate, last)
    requires last.sent.request == Commit(IdOf(key))
    requires seen < |w.past| && Opened(w.past[seen], IdOf(key)) && seen <= read
    requires !last.reply.Lost? ==> read <= last.at
    requires forall k :: 0 <= k < |made| && made[k].reply.Done? && !last.reply.Lost? ==> made[k].at <= last.at
    requires read < |w.past| && AllCopied(made, w.past[read].items.Keys, key)
    ensures last.reply != Denied(RewriteIncomplete)
  {
    if last.reply == Denied(RewriteIncomplete) {
      var at := last.at;
      IncompleteIsOpen(w.past[at], last.sent.from_, key);
      hide Invariant, Honest, AllHonest, Copied, Check, Opened;
      BetweenOpen(w, seen, read, at, key);
      forall item | item in w.past[at].items ensures item in w.past[at].session.value.staged {
        CopyStays(w, fate, made, at, item, key);
      }
    }
  }

  lemma IncompleteIsOpen(s: Server, d: Device, key: Key)
    requires Check(s, d, Commit(IdOf(key))) == Some(RewriteIncomplete)
    ensures Opened(s, IdOf(key)) && !(s.items.Keys <= s.session.value.staged.Keys)
  {
  }

  lemma CopyIsStaged(past: seq<Server>, a: Answer, item: Item, key: Key)
    requires IsCopyOf(a, item, key) && 1 <= a.at < |past|
    requires Check(past[a.at - 1], a.sent.from_, a.sent.request).None?
    requires past[a.at] == Apply(past[a.at - 1], a.sent.from_, a.sent.request)
    ensures Opened(past[a.at], IdOf(key)) && item in past[a.at].session.value.staged
  {
  }

  /** Copies one item of the open session, as it is read now. */
  method CopyItem(c: Connection, d: Device, seen: nat, item: Item, source: Option<Key>, key: Key)
    returns (failure: Option<AdminError>, read: nat)
    requires c.Valid() && SawSession(c.world, seen, key)
    modifies c
    ensures c.Valid() && c.Grown() && Extends(old(c.calls), c.calls)
    ensures |old(c.world.past)| - 1 <= read < |c.world.past|
    ensures var made := Since(old(c.calls), c.calls);
      if item in c.world.past[read].items && c.world.past[read].items[item] == source then
        && |made| == 1 && made[0].sent.request == Stage(item, key, IdOf(key))
        && (made[0].reply.Done? ==> |old(c.world.past)| - 1 <= made[0].at < |c.world.past|)
        && failure == (if made[0].reply.Done? then None else Some(Failure(made[0].reply)))
      else made == [] && failure == Some(Unreadable)
  {
    hide After, IsStart, Invariant, SentBy, Honest, AllHonest;
    ghost var calls := c.calls;
    read := c.Look();
    ghost var saw := c.world.past[read];
    if !(item in c.world.past[read].items && c.world.past[read].items[item] == source) {
      return Some(Unreadable), read;
    }
    CopySent(c.world, d, seen, read, item, source, key);
    var answer := c.Call(Copy(d, seen, read, item, source, key));
    assert Since(calls, c.calls) == [answer] && c.world.past[read] == saw;
    failure := if answer.reply.Done? then None else Some(Failure(answer.reply));
  }

  /** An item that was listed cannot be read only when the rewrite is over. */
  lemma UnreadableIsOver(w: World, seen: nat, listed: nat, read: nat, item: Item, source: Option<Key>, key: Key)
    requires Invariant(w) && seen <= listed <= read < |w.past|
    requires Opened(w.past[seen], IdOf(key)) && IsSource(w.past[seen], source)
    requires item in w.past[listed].items && !(item in w.past[read].items && w.past[read].items[item] == source)
    ensures !Opened(w.past[read], IdOf(key))
  {
    hide Invariant, Opened;
    if Opened(w.past[read], IdOf(key)) {
      BetweenOpen(w, seen, listed, read, key);
    }
  }

  /** Every item is under this key, or in plaintext for `None`. */
  predicate IsSource(s: Server, source: Option<Key>) {
    forall item :: item in s.items ==> s.items[item] == source
  }

  /** Each answer names a state there was. */
  predicate AtMost(made: seq<Answer>, n: nat) {
    forall k :: 0 <= k < |made| && made[k].reply.Done? ==> made[k].at < n
  }

  /** So far every copy is there. */
  predicate CopiedSoFar(made: seq<Answer>, items: set<Item>, key: Key, n: nat) {
    AllCopied(made, items, key) && OnlyCopies(made, key) && AllDone(made) && AtMost(made, n)
  }

  /** How copying the items of a state read since the `since`th ends: with a
      copy of each; or with a copy that fails; or with an item that cannot be
      read, the rewrite being over. */
  ghost predicate CopyEnds(past: seq<Server>, since: nat, made: seq<Answer>, key: Key, failure: Option<AdminError>) {
    && OnlyCopies(made, key) && AtMost(made, |past|)
    && if failure.None? then AllDone(made) && CopiedSince(past, since, made, key)
       else
         && failure == DriveFailure(made) && (made != [] ==> AllDone(made[..|made| - 1]))
         && (failure == Some(Unreadable) ==> OverSince(past, since, key))
  }

  lemma NothingCopied(key: Key, n: nat)
    ensures CopiedSoFar([], {}, key, n)
  {
  }

  lemma CopiedMore(made: seq<Answer>, a: Answer, items: set<Item>, item: Item, key: Key, n: nat, m: nat)
    requires CopiedSoFar(made, items, key, n) && n <= m
    requires a.sent.request == Stage(item, key, IdOf(key)) && a.reply.Done? && a.at < m
    ensures CopiedSoFar(made + [a], items + {item}, key, m)
  {
    var now := made + [a];
    assert now[|made|] == a && IsCopyOf(now[|made|], item, key);
    forall i | i in items ensures Copied(now, i, key) {
      assert Copied(made, i, key);
      var k :| 0 <= k < |made| && IsCopyOf(made[k], i, key);
      assert IsCopyOf(now[k], i, key);
    }
  }

  lemma CopyFailed(past: seq<Server>, since: nat, made: seq<Answer>, a: Answer, items: set<Item>, item: Item, key: Key, n: nat)
    requires CopiedSoFar(made, items, key, n) && n <= |past|
    requires a.sent.request == Stage(item, key, IdOf(key)) && !a.reply.Done?
    ensures CopyEnds(past, since, made + [a], key, Some(Failure(a.reply)))
  {
    var now := made + [a];
    assert now[..|now| - 1] == made && now[|made|] == a;
  }

  lemma CopyStops(w: World, seen: nat, listed: nat, read: nat, made: seq<Answer>, items: set<Item>, item: Item,
                  source: Option<Key>, key: Key, since: nat, n: nat)
    requires CopiedSoFar(made, items, key, n) && n <= |w.past|
    requires Invariant(w) && seen <= listed <= read < |w.past| && since <= read
    requires SawSession(w, seen, key) && IsSource(w.past[seen], source)
    requires item in w.past[listed].items && !(item in w.past[read].items && w.past[read].items[item] == source)
    ensures CopyEnds(w.past, since, made, key, Some(Unreadable))
  {
    UnreadableIsOver(w, seen, listed, read, item, source, key);
  }

  lemma CopiedAll(past: seq<Server>, read: nat, since: nat, made: seq<Answer>, key: Key, n: nat)
    requires since <= read < |past| && CopiedSoFar(made, past[read].items.Keys, key, n) && n <= |past|
    ensures CopyEnds(past, since, made, key, None)
  {
  }

  /** Copies the next item of those listed, after `done`. */
  method CopyNext(c: Connection, d: Device, seen: nat, item: Item, source: Option<Key>, key: Key,
                  ghost calls: seq<Answer>, ghost done: set<Item>, ghost listed: nat, ghost since: nat)
    returns (failure: Option<AdminError>)
    requires c.Valid() && SawSession(c.world, seen, key) && IsSource(c.world.past[seen], source)
    requires seen <= listed < |c.world.past| && item in c.world.past[listed].items && since < |c.world.past|
    requires Extends(calls, c.calls) && CopiedSoFar(Since(calls, c.calls), done, key, |c.world.past|)
    modifies c
    ensures c.Valid() && c.Grown() && Extends(calls, c.calls)
    ensures failure.None? ==> CopiedSoFar(Since(calls, c.calls), done + {item}, key, |c.world.past|)
    ensures failure.Some? ==> CopyEnds(c.world.past, since, Since(calls, c.calls), key, failure)
  {
    hide After, IsStart, Invariant, Connection.Valid, CopiedSoFar, CopyEnds, IsSource, Opened;
    ghost var before, size, made, saw := c.calls, |c.world.past|, Since(calls, c.calls), c.world.past[seen];
    var read;
    failure, read := CopyItem(c, d, seen, item, source, key);
    ExtendsOn(calls, before, c.calls);
    ghost var copy := Since(before, c.calls);
    if failure == Some(Unreadable) {
      IsSound(c);
      assert c.world.past[seen] == saw;
      CopyStops(c.world, seen, listed, read, made, done, item, source, key, since, size);
      assert made + [] == made;
      return;
    }
    assert copy == [copy[0]];
    if failure.Some? {
      CopyFailed(c.world.past, since, made, copy[0], done, item, key, size);
    } else {
      CopiedMore(made, copy[0], done, item, key, size, |c.world.past|);
    }
  }

  /** Copies every item of the open session, one after another. */
  method CopyItems(c: Connection, d: Device, seen: nat, source: Option<Key>, key: Key)
    returns (failure: Option<AdminError>)
    requires c.Valid() && SawSession(c.world, seen, key) && IsSource(c.world.past[seen], source)
    modifies c
    ensures c.Valid() && c.Grown() && Extends(old(c.calls), c.calls)
    ensures CopyEnds(c.world.past, |old(c.world.past)| - 1, Since(old(c.calls), c.calls), key, failure)
  {
    ghost var since, first := |c.world.past| - 1, c.world;
    Sees(first, seen, key);
    hide *;
    var listed := c.Look();
    StillSaw(first, c.world, seen, key);
    var all := c.world.past[listed].items.Keys;
    ghost var calls, then_ := c.calls, c.world;
    var rest := all;
    failure := None;
    NothingCopied(key, |c.world.past|);
    assert all - rest == {} && Since(calls, c.calls) == [];
    while rest != {}
      invariant c.Valid() && c.Grown() && Extends(calls, c.calls) && failure.None?
      invariant then_.past <= c.world.past && SawSession(c.world, seen, key) && rest <= all
      invariant CopiedSoFar(Since(calls, c.calls), all - rest, key, |c.world.past|)
      decreases |rest|
    {
      var item :| item in rest;
      ghost var was := c.world;
      StillLists(first, then_, was, seen, listed, key);
      OneLess(all, rest, item);
      failure := CopyNext(c, d, seen, item, source, key, calls, all - rest, listed, since);
      StillSaw(was, c.world, seen, key);
      if failure.Some? {
        return;
      }
      rest := rest - {item};
    }
    assert all - rest == all;
    CopiedAll(c.world.past, listed, since, Since(calls, c.calls), key, |c.world.past|);
  }

  lemma Sees(w: World, seen: nat, key: Key)
    requires SawSession(w, seen, key)
    ensures seen < |w.past|
  {
  }

  /** What was seen and listed stands where it stood. */
  lemma StillLists(first: World, then_: World, now: World, seen: nat, listed: nat, key: Key)
    requires first.past <= then_.past <= now.past && seen < |first.past| && listed < |then_.past|
    ensures now.past[seen] == first.past[seen] && now.past[listed] == then_.past[listed]
  {
  }

  lemma OneLess<T>(all: set<T>, rest: set<T>, x: T)
    requires x in rest && rest <= all
    ensures all - (rest - {x}) == all - rest + {x} && |rest - {x}| < |rest|
  {
  }

  lemma StillSaw(w: World, w': World, seen: nat, key: Key)
    requires SawSession(w, seen, key) && w.past <= w'.past
    ensures seen < |w'.past| && w'.past[seen] == w.past[seen] && SawSession(w', seen, key)
  {
  }

  /** How driving a rewrite to `key` ends, after the `since`th state. */
  ghost predicate DriveEnds(past: seq<Server>, since: nat, made: seq<Answer>, key: Key, failure: Option<AdminError>) {
    && Drove(past, since, made, key) && failure == DriveFailure(made)
    && (failure == Some(Unreadable) ==> OverSince(past, since, key))
    && failure != Some(Refused(RewriteIncomplete))
  }

  lemma CopiesEnd(past: seq<Server>, since: nat, fate: Fates, made: seq<Answer>, key: Key, failure: Option<AdminError>)
    requires CopyEnds(past, since, made, key, failure) && failure.Some? && AllHonest(past, fate, made)
    ensures DriveEnds(past, since, made, key, failure)
  {
    if made != [] && !made[|made| - 1].reply.Done? {
      assert Honest(past, fate, made[|made| - 1]) && IsCopy(made[|made| - 1], key);
    }
  }

  lemma CommitEnds(w: World, fate: Fates, seen: nat, since: nat, past: seq<Server>, made: seq<Answer>, last: Answer, key: Key)
    requires Invariant(w) && past <= w.past && past != [] && AllHonest(w.past, fate, made) && Honest(w.past, fate, last)
    requires CopyEnds(past, since, made, key, None) && seen <= since < |past| && SawSession(w, seen, key)
    requires last.sent.request == Commit(IdOf(key)) && (!last.reply.Lost? ==> |past| - 1 <= last.at)
    ensures DriveEnds(w.past, since, made + [last], key, if last.reply.Done? then None else Some(Failure(last.reply)))
  {
    CommitDrove(past, w.past, since, made, last, key);
    hide *;
    var read := AllWasCopied(past, since, made, key);
    assert w.past[read] == past[read];
    SawOpen(w, seen, key);
    NeverIncomplete(w, fate, seen, read, made, last, key);
    DroveToTheEnd(w.past, since, made, last, key);
  }

  lemma SawOpen(w: World, seen: nat, key: Key)
    requires SawSession(w, seen, key)
    ensures seen < |w.past| && Opened(w.past[seen], IdOf(key))
  {
  }

  lemma DroveToTheEnd(past: seq<Server>, since: nat, made: seq<Answer>, last: Answer, key: Key)
    requires Drove(past, since, made + [last], key) && last.reply != Denied(RewriteIncomplete)
    requires DriveFailure(made + [last]) == if last.reply.Done? then None else Some(Failure(last.reply))
    ensures DriveEnds(past, since, made + [last], key, if last.reply.Done? then None else Some(Failure(last.reply)))
  {
    hide Drove, DriveFailure;
  }

  lemma AllWasCopied(past: seq<Server>, since: nat, made: seq<Answer>, key: Key) returns (read: nat)
    requires CopyEnds(past, since, made, key, None)
    ensures since <= read < |past| && AllCopied(made, past[read].items.Keys, key)
    ensures forall k :: 0 <= k < |made| && made[k].reply.Done? ==> made[k].at < |past|
  {
    hide AllCopied;
    read :| since <= read < |past| && AllCopied(made, past[read].items.Keys, key);
  }

  lemma CommitDrove(past: seq<Server>, later: seq<Server>, since: nat, made: seq<Answer>, last: Answer, key: Key)
    requires CopyEnds(past, since, made, key, None) && past <= later
    requires last.sent.request == Commit(IdOf(key))
    ensures Drove(later, since, made + [last], key)
    ensures DriveFailure(made + [last]) == if last.reply.Done? then None else Some(Failure(last.reply))
  {
    var all := made + [last];
    assert all[..|all| - 1] == made && all[|all| - 1] == last;
    var read :| since <= read < |past| && AllCopied(made, past[read].items.Keys, key);
    assert later[read] == past[read];
    hide AllCopied, OnlyCopies, AllDone, AtMost;
  }

  lemma SomeAreHonest(past: seq<Server>, fate: Fates, calls: seq<Answer>, now: seq<Answer>)
    requires AllHonest(past, fate, now) && Extends(calls, now)
    ensures AllHonest(past, fate, Since(calls, now))
  {
    forall k | 0 <= k < |Since(calls, now)| ensures Honest(past, fate, Since(calls, now)[k]) {
      assert Honest(past, fate, now[|calls| + k]);
    }
  }

  /** Copies every item of the open session, then commits. */
  method Drive(c: Connection, d: Device, seen: nat, source: Option<Key>, key: Key)
    returns (failure: Option<AdminError>, at: nat)
    requires c.Valid() && SawSession(c.world, seen, key) && IsSource(c.world.past[seen], source)
    modifies c
    ensures c.Valid() && c.Grown() && Extends(old(c.calls), c.calls)
    ensures DriveEnds(c.world.past, |old(c.world.past)| - 1, Since(old(c.calls), c.calls), key, failure)
    ensures failure.None? ==> |old(c.world.past)| <= at && CommittedAt(c.world.past, at, key)
  {
    hide After, IsStart, Invariant, SentBy, CommittedAt, Honest, AllHonest, CopyEnds, DriveEnds, IsSource;
    at := 0;
    ghost var calls, since, saw := c.calls, |c.world.past| - 1, c.world;
    failure := CopyItems(c, d, seen, source, key);
    StillSaw(saw, c.world, seen, key);
    hide SawSession;
    SomeAreHonest(c.world.past, c.fate, calls, c.calls);
    if failure.Some? {
      CopiesEnd(c.world.past, since, c.fate, Since(calls, c.calls), key, failure);
      return;
    }
    ghost var copied, copies, then_ := c.calls, Since(calls, c.calls), c.world;
    FinishSent(c.world, d, seen, key);
    var answer := c.Call(Finish(d, seen, key));
    ExtendsOn(calls, copied, c.calls);
    assert Since(copied, c.calls) == [answer];
    IsSound(c);
    StillSaw(then_, c.world, seen, key);
    StaysHonest(then_.past, c.world.past, c.fate, copies);
    CommitEnds(c.world, c.fate, seen, since, then_.past, copies, answer, key);
    if answer.reply.Done? {
      at := answer.at;
      CommitAnswered(c.world, c.fate, answer, key);
    } else {
      failure := Some(Failure(answer.reply));
    }
  }

  lemma CommitAnswered(w: World, fate: Fates, a: Answer, key: Key)
    requires Invariant(w) && Honest(w.past, fate, a) && a.reply.Done? && a.sent.request == Commit(IdOf(key))
    ensures CommittedAt(w.past, a.at, key)
  {
    hide History, KeysUnique, WordsOk, SessionSent, RequestOk;
    assert ServerOk(w.past[a.at - 1], w.nextKey);
    CommitIsWhole(w.past[a.at - 1], a.sent, w.nextKey);
  }

  // ---------- rewrites ----------

  function KindOf(source: Option<Key>): Kind {
    if source.None? then Kind.Migrate else Kind.Rotate
  }

  /** The state at `at` is where a rewrite from `source` to `key` was
      committed: a migration from plaintext, or a rotation from that key. */
  predicate RewroteAt(past: seq<Server>, at: nat, source: Option<Key>, key: Key) {
    && CommittedAt(past, at, key)
    && past[at - 1].session.value.kind == KindOf(source) && KeyIdNow(past[at - 1]) == KeyIdOf(source)
  }

  predicate IsBegin(r: Request, source: Option<Key>) {
    r.Begin? && r.kind == KindOf(source) && r.expectedNow == KeyIdOf(source)
  }

  /** The result of a rewrite to `key` that was driven like this. */
  function DriveResult(made: seq<Answer>, key: Key): Result<Key, AdminError> {
    var failure := DriveFailure(made);
    if failure.Some? then Err(failure.value) else Ok(key)
  }

  /** One beginning of a rewrite from `source`, and, if it was carried out, what
      follows it. */
  ghost predicate BeganOnce(past: seq<Server>, made: seq<Answer>, source: Option<Key>, r: Result<Key, AdminError>) {
    && |made| >= 1 && IsBegin(made[0].sent.request, source)
    && if !made[0].reply.Done? then |made| == 1 && r == Err(Failure(made[0].reply))
       else
         var key := made[0].sent.request.newKeyId.number;
         exists failure :: DriveEnds(past, made[0].at, made[1..], key, failure) && r == DriveResult(made[1..], key)
  }

  /** What a device sends for a rewrite, and what comes of it: one beginning;
      or, exactly when the server says that it ended a rewrite to that key,
      one more under another key. */
  ghost predicate Rewrote(past: seq<Server>, made: seq<Answer>, source: Option<Key>, r: Result<Key, AdminError>) {
    && |made| >= 1 && IsBegin(made[0].sent.request, source)
    && if made[0].reply != Denied(RewriteEnded) then BeganOnce(past, made, source, r)
       else
         && |made| >= 2 && BeganOnce(past, made[1..], source, r)
         && made[1].sent.request.newKeyId != made[0].sent.request.newKeyId
  }

  lemma SinceEarlier(past: seq<Server>, since: nat, earlier: nat, made: seq<Answer>, key: Key, failure: Option<AdminError>)
    requires DriveEnds(past, since, made, key, failure) && earlier <= since
    ensures DriveEnds(past, earlier, made, key, failure)
  {
    hide AllCopied, OnlyCopies, AllDone;
  }

  /** One beginning, and when it is accepted the rewrite. */
  method RewriteOnce(c: Connection, d: Device, seen: nat, source: Option<Key>, words: Words)
    returns (r: Result<Key, AdminError>, begun: Reply)
    requires c.Valid() && seen < |c.world.past|
    requires if source.None? then CheckMigrate(c.world.past[seen]).None?
             else CheckRotate(c.world.past[seen], source.value).None?
    modifies c
    ensures c.Valid() && c.Grown() && Extends(old(c.calls), c.calls)
    ensures r.Ok? ==> Gave(c.world.past, |old(c.world.past)|, words, r.value)
    ensures r.Ok? ==> exists at :: |old(c.world.past)| <= at && RewroteAt(c.world.past, at, source, r.value)
    ensures var made := Since(old(c.calls), c.calls);
      && BeganOnce(c.world.past, made, source, r) && begun == made[0].reply
      && old(c.world.nextKey) <= made[0].sent.request.newKeyId.number < c.world.nextKey
  {
    hide After, IsStart, Invariant, Gave, CommittedAt, SentBy, Honest, DriveEnds, DriveFailure;
    IsSound(c);
    var key := c.world.nextKey;
    var begin := if source.None? then BeginMigrate(d, seen, words) else BeginRotate(d, seen, source.value, words);
    ghost var was, calls := c.world, c.calls;
    BeginSent(was, d, seen, source, words);
    var answer := c.Call(begin);
    begun := answer.reply;
    assert Since(calls, c.calls) == [answer];
    if !answer.reply.Done? {
      return Err(Failure(answer.reply)), begun;
    }
    BeginAnswered(c, answer, source, key);
    ghost var began, size := c.calls, |c.world.past|;
    var failure, at := Drive(c, d, answer.at, source, key);
    ExtendsOn(calls, began, c.calls);
    ghost var driven := Since(began, c.calls);
    assert Since(calls, c.calls)[1..] == driven;
    SinceEarlier(c.world.past, size - 1, answer.at, driven, key, failure);
    DrivenWell(c.world.past, answer.at, driven, key, failure);
    if failure.Some? {
      return Err(failure.value), begun;
    }
    CommittedKey(c.world.past, at, key);
    OwnKeyGiven(c, was, answer.sent, at, words);
    GaveEarlier(c.world.past, |was.past|, |old(c.world.past)|, words, key);
    OwnRewrite(c, answer.sent, at, source, key);
    r := Ok(key);
  }

  lemma DrivenWell(past: seq<Server>, since: nat, made: seq<Answer>, key: Key, failure: Option<AdminError>)
    requires DriveEnds(past, since, made, key, failure)
    ensures DriveResult(made, key) == if failure.Some? then Err(failure.value) else Ok(key)
  {
  }

  /** The session committed is the one this device began. */
  lemma OwnRewrite(c: Connection, sent: Sent, at: nat, source: Option<Key>, key: Key)
    requires c.Valid() && sent in c.world.sent && IsBegin(sent.request, source)
    requires sent.request.newKeyId == IdOf(key) && CommittedAt(c.world.past, at, key)
    ensures RewroteAt(c.world.past, at, source, key)
  {
    OwnSession(c.start, c.log, sent, at - 1);
  }

  lemma BeginSent(w: World, d: Device, seen: nat, source: Option<Key>, words: Words)
    requires seen < |w.past|
    requires if source.None? then CheckMigrate(w.past[seen]).None? else CheckRotate(w.past[seen], source.value).None?
    ensures var begin := if source.None? then BeginMigrate(d, seen, words) else BeginRotate(d, seen, source.value, words);
      && SentBy(w, begin).Some? && IsBegin(SentBy(w, begin).value.request, source)
      && SentBy(w, begin).value.request.newKeyId == IdOf(w.nextKey)
      && SentBy(w, begin).value.request.newHeader == Wrap(w.nextKey, words)
  {
  }

  /** The session this device opened, and the key its items are under. */
  lemma BeginAnswered(c: Connection, a: Answer, source: Option<Key>, key: Key)
    requires c.Valid() && Honest(c.world.past, c.fate, a) && a.reply.Done? && a.sent in c.world.sent
    requires IsBegin(a.sent.request, source) && a.sent.request.newKeyId == IdOf(key)
    ensures SawSession(c.world, a.at, key) && IsSource(c.world.past[a.at], source)
  {
    var s := c.world.past[a.at];
    assert Opened(s, IdOf(key));
    OwnSession(c.start, c.log, a.sent, a.at);
    IsSound(c);
    hide After, IsStart, History, KeysUnique, WordsOk, SessionSent, RequestOk, Honest;
    assert ServerOk(s, c.world.nextKey);
  }

  lemma CommittedKey(past: seq<Server>, at: nat, key: Key)
    requires CommittedAt(past, at, key)
    ensures at < |past| && KeyIdNow(past[at]) == Some(IdOf(key))
  {
  }

  /** A whole rewrite. Where an abort has ended a rewrite to its key, it begins
      again under another, once. */
  method Rewrite(c: Connection, d: Device, seen: nat, source: Option<Key>, words: Words)
    returns (r: Result<Key, AdminError>)
    requires c.Valid() && seen < |c.world.past|
    requires if source.None? then CheckMigrate(c.world.past[seen]).None?
             else CheckRotate(c.world.past[seen], source.value).None?
    modifies c
    ensures c.Valid() && c.Grown() && Extends(old(c.calls), c.calls)
    ensures r.Ok? ==> Gave(c.world.past, |old(c.world.past)|, words, r.value)
    ensures r.Ok? ==> exists at :: |old(c.world.past)| <= at && RewroteAt(c.world.past, at, source, r.value)
    ensures Rewrote(c.world.past, Since(old(c.calls), c.calls), source, r)
  {
    hide After, IsStart, Invariant, Gave, RewroteAt, Rewrote, BeganOnce;
    ghost var calls := c.calls;
    for attempt := 0 to 2
      invariant c.Valid() && c.Grown() && seen < |c.world.past| && Extends(calls, c.calls)
      invariant c.world.past[seen] == old(c.world.past[seen]) && attempt < 2
      invariant attempt == 0 ==> c.calls == calls
      invariant attempt == 1 ==> EndedOnce(Since(calls, c.calls), source, c.world.nextKey)
    {
      ghost var before, past := c.calls, c.world.past;
      var begun;
      r, begun := RewriteOnce(c, d, seen, source, words);
      if r.Ok? {
        GaveEarlier(c.world.past, |past|, |old(c.world.past)|, words, r.value);
      }
      ExtendsOn(calls, before, c.calls);
      ghost var made := Since(before, c.calls);
      if attempt == 0 {
        assert Since(calls, c.calls) == made;
        RewroteOnce(c.world.past, made, source, r, c.world.nextKey);
      } else {
        RewroteTwice(c.world.past, Since(calls, before), made, source, r);
      }
      if !(begun == Denied(RewriteEnded) && attempt == 0) {
        return;
      }
    }
    r := Err(EndedTwice);
  }

  /** So far one beginning, which the server had ended. */
  predicate EndedOnce(made: seq<Answer>, source: Option<Key>, nextKey: Key) {
    && |made| == 1 && IsBegin(made[0].sent.request, source) && made[0].reply == Denied(RewriteEnded)
    && made[0].sent.request.newKeyId.number < nextKey
  }

  lemma RewroteOnce(past: seq<Server>, made: seq<Answer>, source: Option<Key>, r: Result<Key, AdminError>, nextKey: Key)
    requires BeganOnce(past, made, source, r) && made[0].sent.request.newKeyId.number < nextKey
    ensures if made[0].reply == Denied(RewriteEnded) then EndedOnce(made, source, nextKey) else Rewrote(past, made, source, r)
  {
    hide DriveEnds, DriveFailure;
  }

  lemma RewroteTwice(past: seq<Server>, first: seq<Answer>, made: seq<Answer>, source: Option<Key>, r: Result<Key, AdminError>)
    requires BeganOnce(past, made, source, r)
    requires EndedOnce(first, source, made[0].sent.request.newKeyId.number)
    ensures Rewrote(past, first + made, source, r)
  {
    hide DriveEnds, DriveFailure;
    assert (first + made)[1..] == made;
  }

  /** What a rewrite that checks a state first sends, and what comes of it. */
  ghost predicate RewriteEnds(refusal: Option<AdminError>, past: seq<Server>, made: seq<Answer>, source: Option<Key>,
                              r: Result<Key, AdminError>) {
    if refusal.Some? then made == [] && r == Err(refusal.value) else Rewrote(past, made, source, r)
  }

  method Migrate(c: Connection, d: Device, words: Words) returns (r: Result<Key, AdminError>)
    requires c.Valid()
    modifies c
    ensures c.Valid() && c.Grown() && Extends(old(c.calls), c.calls)
    ensures r.Ok? ==> Gave(c.world.past, |old(c.world.past)|, words, r.value)
    ensures r.Ok? ==> exists at :: |old(c.world.past)| <= at && RewroteAt(c.world.past, at, None, r.value)
    // Only a workspace seen in plaintext is begun with.
    ensures exists seen ::
      |old(c.world.past)| - 1 <= seen < |c.world.past|
      && RewriteEnds(CheckMigrate(c.world.past[seen]), c.world.past, Since(old(c.calls), c.calls), None, r)
  {
    hide After, IsStart, Invariant, Gave, RewroteAt, Rewrote, CheckMigrate;
    var seen := c.Look();
    ghost var saw, past := c.world.past[seen], c.world.past;
    var refusal := CheckMigrate(c.world.past[seen]);
    if refusal.Some? {
      return Err(refusal.value);
    }
    r := Rewrite(c, d, seen, None, words);
    assert c.world.past[seen] == saw;
    if r.Ok? {
      GaveEarlier(c.world.past, |past|, |old(c.world.past)|, words, r.value);
    }
  }

  method Rotate(c: Connection, d: Device, oldKey: Key, words: Words) returns (r: Result<Key, AdminError>)
    requires c.Valid()
    modifies c
    ensures c.Valid() && c.Grown() && Extends(old(c.calls), c.calls)
    ensures r.Ok? ==> Gave(c.world.past, |old(c.world.past)|, words, r.value)
    ensures r.Ok? ==> exists at :: |old(c.world.past)| <= at && RewroteAt(c.world.past, at, Some(oldKey), r.value)
    // Only a workspace seen under the device's own key is begun with.
    ensures exists seen ::
      |old(c.world.past)| - 1 <= seen < |c.world.past|
      && RewriteEnds(CheckRotate(c.world.past[seen], oldKey), c.world.past, Since(old(c.calls), c.calls), Some(oldKey), r)
  {
    hide After, IsStart, Invariant, Gave, RewroteAt, Rewrote, CheckRotate;
    var seen := c.Look();
    ghost var saw, past := c.world.past[seen], c.world.past;
    var refusal := CheckRotate(c.world.past[seen], oldKey);
    if refusal.Some? {
      return Err(refusal.value);
    }
    r := Rewrite(c, d, seen, Some(oldKey), words);
    assert c.world.past[seen] == saw;
    if r.Ok? {
      GaveEarlier(c.world.past, |past|, |old(c.world.past)|, words, r.value);
    }
  }

  // ---------- recovery ----------

  predicate HeldBy(s: Server, d: Device) {
    s.session.Some? && s.session.value.holder == d && !s.session.value.leaseEnded
  }

  /** Makes this device the holder of the session it saw open. */
  method HoldSession(c: Connection, d: Device, seen: nat) returns (answer: Answer)
    requires c.Valid() && seen < |c.world.past| && c.world.past[seen].session.Some?
    modifies c
    ensures c.Valid() && c.Grown() && c.calls == old(c.calls) + [answer]
    ensures answer.sent.request == if old(c.world.past[seen]).session.value.holder == d then Heartbeat else TakeOver
    ensures answer.reply.Done? ==> |old(c.world.past)| <= answer.at < |c.world.past| && HeldBy(c.world.past[answer.at], d)
  {
    hide After, IsStart, Invariant, AllHonest;
    ghost var sent := Sent(d, HoldRequest(c.world.past[seen], d).value, None);
    assert SentBy(c.world, Hold(d, seen)) == Some(sent);
    hide SentBy;
    answer := c.Call(Hold(d, seen));
  }

  /** What resuming sends, having seen this state, and what comes of it: without
      the words or the keys it needs, nothing. */
  ghost predicate ResumeEnds(seen: Server, d: Device, words: Words, device: Option<Key>, oldWords: Option<Words>,
                             past: seq<Server>, made: seq<Answer>, r: Result<Key, AdminError>) {
    var newKey := NewKeyOfSession(seen, words);
    if newKey.Err? then made == [] && r == newKey
    else
      var source := OldKeyOfSession(seen, device, oldWords);
      if source.Err? then made == [] && r == Err(source.error)
      else
        && |made| >= 1 && made[0].sent.request == HoldRequest(seen, d).value
        && if !made[0].reply.Done? then |made| == 1 && r == Err(Failure(made[0].reply))
           else exists failure ::
             && DriveEnds(past, made[0].at, made[1..], newKey.value, failure)
             && r == DriveResult(made[1..], newKey.value)
  }

  /** Finishes an open rewrite with its new words; the items are read with the
      key this device has, or with the old words. */
  method ResumeRewrite(c: Connection, d: Device, words: Words, device: Option<Key>, oldWords: Option<Words>)
    returns (r: Result<Key, AdminError>)
    requires c.Valid()
    modifies c
    ensures c.Valid() && c.Grown() && Extends(old(c.calls), c.calls)
    ensures r.Ok? ==> Gave(c.world.past, |old(c.world.past)|, words, r.value)
    ensures r.Ok? ==> exists at :: |old(c.world.past)| <= at && CommittedAt(c.world.past, at, r.value)
    ensures exists seen ::
      |old(c.world.past)| - 1 <= seen < |c.world.past|
      && ResumeEnds(c.world.past[seen], d, words, device, oldWords, c.world.past, Since(old(c.calls), c.calls), r)
  {
    hide After, IsStart, Invariant, Gave, CommittedAt, AllHonest;
    var seen := c.Look();
    ghost var saw, calls := c.world.past[seen], c.calls;
    var newKey := NewKeyOfSession(c.world.past[seen], words);
    if newKey.Err? {
      return newKey;
    }
    var key := newKey.value;
    var source := OldKeyOfSession(c.world.past[seen], device, oldWords);
    if source.Err? {
      return Err(source.error);
    }
    IsSound(c);
    ResumesFrom(c.world, seen, words, device, oldWords);
    ghost var was := c.world;
    var answer := HoldSession(c, d, seen);
    assert Since(calls, c.calls) == [answer] && c.world.past[seen] == saw;
    if !answer.reply.Done? {
      return Err(Failure(answer.reply));
    }
    ghost var held, size := c.calls, |c.world.past|;
    StillSaw(was, c.world, seen, key);
    hide NewKeyOfSession, OldKeyOfSession, HoldRequest, DriveEnds, DriveFailure, IsSource;
    var failure, at := Drive(c, d, seen, source.value, key);
    ExtendsOn(calls, held, c.calls);
    ghost var driven := Since(held, c.calls);
    assert Since(calls, c.calls)[1..] == driven && c.world.past[seen] == saw;
    SinceEarlier(c.world.past, size - 1, answer.at, driven, key, failure);
    DrivenWell(c.world.past, answer.at, driven, key, failure);
    if failure.Some? {
      return Err(failure.value);
    }
    IsSound(c);
    ResumedKey(c.world, seen, at, words, key);
    GaveAt(c.world.past, at, |old(c.world.past)|, words, key);
    r := Ok(key);
  }

  lemma ResumesFrom(w: World, seen: nat, words: Words, device: Option<Key>, oldWords: Option<Words>)
    requires Invariant(w) && seen < |w.past| && NewKeyOfSession(w.past[seen], words).Ok?
    requires OldKeyOfSession(w.past[seen], device, oldWords).Ok?
    ensures SawSession(w, seen, NewKeyOfSession(w.past[seen], words).value)
    ensures IsSource(w.past[seen], OldKeyOfSession(w.past[seen], device, oldWords).value)
  {
    hide History, KeysUnique, WordsOk, SessionSent, RequestOk;
    assert ServerOk(w.past[seen], w.nextKey);
    SourceOpensEveryItem(w.past[seen], w.nextKey, device, oldWords);
  }

  /** The session committed is the one whose header the words opened. */
  lemma ResumedKey(w: World, seen: nat, at: nat, words: Words, key: Key)
    requires Invariant(w) && seen < at && CommittedAt(w.past, at, key)
    requires NewKeyOfSession(w.past[seen], words) == Ok(key)
    ensures at < |w.past| && Join(w.past[at], words) == Ok(key)
  {
    hide KeysUnique, WordsOk, SessionSent, RequestOk;
    assert Follows(w.past[seen], w.past[at - 1]);
    assert ServerOk(w.past[at - 1], w.nextKey);
  }

  predicate AbortedAt(past: seq<Server>, at: nat, keyId: KeyId) {
    && 1 <= at < |past| && Opened(past[at - 1], keyId)
    && past[at] == past[at - 1].(session := None, ended := past[at - 1].ended + {keyId})
  }

  /** What an abort sends, having seen this state, and what comes of it: the
      rewrite ended is that of the session held. */
  predicate AbortEnds(seen: Server, d: Device, past: seq<Server>, made: seq<Answer>, r: Result<KeyId, AdminError>) {
    if seen.session.None? then made == [] && r == Err(NoSession)
    else
      && |made| >= 1 && made[0].sent.request == HoldRequest(seen, d).value
      && if !made[0].reply.Done? then |made| == 1 && r == Err(Failure(made[0].reply))
         else
           && |made| == 2 && made[0].at < |past| && past[made[0].at].session.Some?
           && var keyId := past[made[0].at].session.value.newKeyId;
             && made[1].sent.request == Abort(keyId)
             && r == if made[1].reply.Done? then Ok(keyId) else Err(Failure(made[1].reply))
  }

  /** Undoes an open rewrite. */
  method AbortRewrite(c: Connection, d: Device) returns (r: Result<KeyId, AdminError>)
    requires c.Valid()
    modifies c
    ensures c.Valid() && c.Grown() && Extends(old(c.calls), c.calls)
    // The workspace was then as before, and no rewrite to that key begins again.
    ensures r.Ok? ==> exists at :: |old(c.world.past)| <= at && AbortedAt(c.world.past, at, r.value)
    ensures exists seen ::
      |old(c.world.past)| - 1 <= seen < |c.world.past|
      && AbortEnds(c.world.past[seen], d, c.world.past, Since(old(c.calls), c.calls), r)
  {
    hide After, IsStart, Invariant, AllHonest;
    var seen := c.Look();
    ghost var saw, calls := c.world.past[seen], c.calls;
    if c.world.past[seen].session.None? {
      return Err(NoSession);
    }
    var held := HoldSession(c, d, seen);
    assert Since(calls, c.calls) == [held] && c.world.past[seen] == saw;
    if !held.reply.Done? {
      return Err(Failure(held.reply));
    }
    var keyId := c.world.past[held.at].session.value.newKeyId;
    ghost var holds := c.world.past[held.at];
    ghost var sent := Sent(d, Abort(keyId), None);
    assert SentBy(c.world, GiveUp(d, held.at)) == Some(sent);
    hide SentBy;
    var answer := c.Call(GiveUp(d, held.at));
    assert Since(calls, c.calls) == [held, answer] && c.world.past[seen] == saw && c.world.past[held.at] == holds;
    if answer.reply.Done? {
      assert AbortedAt(c.world.past, answer.at, keyId);
      r := Ok(keyId);
    } else {
      r := Err(Failure(answer.reply));
    }
  }
}
