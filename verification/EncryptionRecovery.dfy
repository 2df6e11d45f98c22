/** A rewrite that stopped is finished, or undone, by any device that has what
    it takes, with the same steps devices always make. */
module EncryptionRecovery {
  import opened Prelude
  import opened EncryptionServer
  import opened EncryptionClient
  import opened EncryptionProtocol
  import opened EncryptionSafety

  lemma {:induction false} AfterConcat(w: World, a: seq<Action>, b: seq<Action>)
    requires w.past != []
    ensures After(w, a + b) == After(After(w, a), b)
  {
    if b == [] {
      assert a + b == a;
    } else {
      assert (a + b)[..|a + b| - 1] == a + b[..|b| - 1];
      AfterConcat(w, a, b[..|b| - 1]);
    }
  }

  /** A step that sends `sent`, and its arrival. */
  function Exchange(a: Action, sent: Sent): seq<Action> {
    [a, Deliver(sent)]
  }

  lemma Exchanged(w: World, a: Action, sent: Sent)
    requires w.past != [] && !a.Deliver? && !a.LeaseEnds? && SentBy(w, a) == Some(sent)
    ensures After(w, Exchange(a, sent)) == Arrive(Send(w, sent), sent)
  {
    hide SentBy, Arrive;
    assert [a, Deliver(sent)][..1] == [a] && [a][..0] == [];
    assert After(w, [a]) == Next(w, a) == Send(w, sent);
  }

  /** What the exchange makes of the server when the request is carried out. */
  lemma Served(w: World, a: Action, sent: Sent)
    requires w.past != [] && !a.Deliver? && !a.LeaseEnds? && SentBy(w, a) == Some(sent)
    requires Check(Now(w), sent.from_, sent.request).None?
    ensures After(w, Exchange(a, sent)).past == w.past + [Apply(Now(w), sent.from_, sent.request)]
  {
    hide SentBy, Check, Apply;
    Exchanged(w, a, sent);
  }

  /** Holding the session, as the last state shows it. */
  function Holding(w: World, d: Device): seq<Action>
    requires w.past != [] && HoldRequest(Now(w), d).Ok?
  {
    Exchange(Hold(d, |w.past| - 1), Sent(d, HoldRequest(Now(w), d).value, None))
  }

  /** A copy of each item, read in the state `read`. */
  function Copying(d: Device, seen: nat, read: nat, items: seq<Item>, source: Option<Key>, key: Key): seq<Action> {
    if items == [] then []
    else
      var last := items[|items| - 1];
      Copying(d, seen, read, items[..|items| - 1], source, key)
      + Exchange(Copy(d, seen, read, last, source, key), Sent(d, Stage(last, key, IdOf(key)), None))
  }

  function Finishing(d: Device, seen: nat, key: Key): seq<Action> {
    Exchange(Finish(d, seen, key), Sent(d, Commit(IdOf(key)), None))
  }

  function Undoing(d: Device, seen: nat, keyId: KeyId): seq<Action> {
    Exchange(GiveUp(d, seen), Sent(d, Abort(keyId), None))
  }

  /** Everything a device does to finish the rewrite to `key`: it holds the
      session, reads and copies each item, and commits. */
  function Recovery(w: World, d: Device, items: seq<Item>, source: Option<Key>, key: Key): seq<Action>
    requires w.past != [] && HoldRequest(Now(w), d).Ok?
  {
    var seen := |w.past| - 1;
    Holding(w, d) + Copying(d, seen, seen + 1, items, source, key) + Finishing(d, seen, key)
  }

  function Undo(w: World, d: Device): seq<Action>
    requires w.past != [] && Now(w).session.Some?
  {
    Holding(w, d) + Undoing(d, |w.past|, Now(w).session.value.newKeyId)
  }

  /** The device may hold the session: it does, or the lease has ended. */
  predicate MayHold(s: Server, d: Device) {
    s.session.Some? && (s.session.value.holder == d || s.session.value.leaseEnded)
  }

  /** Only the session's holder and lease differ. */
  predicate OnlyHeld(s: Server, s': Server, d: Device) {
    && s.session.Some?
    && s' == s.(session := Some(s.session.value.(holder := d, leaseEnded := false)))
  }

  lemma Held(w: World, d: Device)
    requires w.past != [] && MayHold(Now(w), d)
    ensures HoldRequest(Now(w), d).Ok?
    ensures var w' := After(w, Holding(w, d));
      |w'.past| == |w.past| + 1 && w.past <= w'.past && OnlyHeld(Now(w), Now(w'), d)
  {
    var request := HoldRequest(Now(w), d).value;
    Served(w, Hold(d, |w.past| - 1), Sent(d, request, None));
  }

  /** Only the copies of the session differ. */
  predicate OnlyStaged(s: Server, s': Server) {
    && s.session.Some? && s'.session.Some?
    && s' == s.(session := Some(s.session.value.(staged := s'.session.value.staged)))
  }

  lemma CopyOne(w: World, d: Device, seen: nat, read: nat, item: Item, source: Option<Key>, key: Key)
    requires SawSession(w, seen, key) && seen <= read < |w.past|
    requires item in w.past[read].items && w.past[read].items[item] == source
    requires Opened(Now(w), IdOf(key)) && Now(w).session.value.holder == d
    ensures var w' := After(w, Exchange(Copy(d, seen, read, item, source, key), Sent(d, Stage(item, key, IdOf(key)), None)));
      && w'.past != [] && w.past <= w'.past && OnlyStaged(Now(w), Now(w'))
      && Now(w').session.value.staged.Keys == Now(w).session.value.staged.Keys + {item}
  {
    CopySent(w, d, seen, read, item, source, key);
    StageOne(Now(w), d, item, key);
    hide SentBy, Check, Apply, Exchange, After, Opened;
    Served(w, Copy(d, seen, read, item, source, key), Sent(d, Stage(item, key, IdOf(key)), None));
  }

  lemma StageOne(s: Server, d: Device, item: Item, key: Key)
    requires Opened(s, IdOf(key)) && s.session.value.holder == d
    ensures Check(s, d, Stage(item, key, IdOf(key))).None?
    ensures var s' := Apply(s, d, Stage(item, key, IdOf(key)));
      OnlyStaged(s, s') && s'.session.value.staged.Keys == s.session.value.staged.Keys + {item}
  {
  }

  lemma {:induction false} CopyAll(w: World, d: Device, seen: nat, read: nat, items: seq<Item>, source: Option<Key>, key: Key)
    requires SawSession(w, seen, key) && seen <= read < |w.past|
    requires forall item :: item in items ==> item in w.past[read].items && w.past[read].items[item] == source
    requires Opened(Now(w), IdOf(key)) && Now(w).session.value.holder == d
    ensures var w' := After(w, Copying(d, seen, read, items, source, key));
      && w'.past != [] && w.past <= w'.past && OnlyStaged(Now(w), Now(w'))
      && (forall item :: item in items ==> item in Now(w').session.value.staged)
  {
    if items != [] {
      var before, last := items[..|items| - 1], items[|items| - 1];
      assert last in items && items == before + [last];
      CopyAll(w, d, seen, read, before, source, key);
      var sent := Sent(d, Stage(last, key, IdOf(key)), None);
      AfterConcat(w, Copying(d, seen, read, before, source, key), Exchange(Copy(d, seen, read, last, source, key), sent));
      hide After, Exchange;
      CopyOne(After(w, Copying(d, seen, read, before, source, key)), d, seen, read, last, source, key);
    }
  }

  lemma CommitAll(w: World, d: Device, seen: nat, key: Key)
    requires SawSession(w, seen, key) && Opened(Now(w), IdOf(key)) && Now(w).session.value.holder == d
    requires Now(w).items.Keys <= Now(w).session.value.staged.Keys
    ensures After(w, Finishing(d, seen, key)).past == w.past + [Committed(Now(w))]
  {
    FinishSent(w, d, seen, key);
    assert Check(Now(w), d, Commit(IdOf(key))).None?;
    hide SentBy, Exchange, After;
    Served(w, Finish(d, seen, key), Sent(d, Commit(IdOf(key)), None));
  }

  lemma {:induction false} AfterKeeps(w: World, actions: seq<Action>)
    requires Invariant(w)
    ensures Invariant(After(w, actions))
  {
    if actions != [] {
      hide Invariant, Next;
      AfterKeeps(w, actions[..|actions| - 1]);
      NextKeeps(After(w, actions[..|actions| - 1]), actions[|actions| - 1]);
    }
  }

  /** What the commit makes of a session whose items are all copied. */
  lemma CommittedWhole(s: Server, held: Server, staged: Server, d: Device, limit: Key, words: Words, key: Key)
    requires OnlyHeld(s, held, d) && OnlyStaged(held, staged) && ServerOk(staged, limit)
    requires NewKeyOfSession(s, words) == Ok(key) && s.items.Keys <= staged.session.value.staged.Keys
    ensures var end := Committed(staged);
      && Join(end, words) == Ok(key) && end.items.Keys == s.items.Keys
      && (forall item :: item in end.items ==> end.items[item] == Some(key))
  {
    assert SessionOk(staged, staged.session.value);
  }

  lemma StillOpen(s: Server, held: Server, d: Device, words: Words, key: Key)
    requires OnlyHeld(s, held, d) && NewKeyOfSession(s, words) == Ok(key)
    ensures Opened(s, IdOf(key)) && Opened(held, IdOf(key)) && held.session.Some?
    ensures held.session.value.holder == d && held.items == s.items
  {
  }

  lemma StagedStillOpen(held: Server, staged: Server, d: Device, key: Key)
    requires OnlyStaged(held, staged) && Opened(held, IdOf(key)) && held.session.value.holder == d
    ensures Opened(staged, IdOf(key)) && staged.session.Some?
    ensures staged.session.value.holder == d && staged.items == held.items
  {
  }

  /** The recovery, from a state in which the device may hold the session. */
  lemma FinishedFrom(w: World, d: Device, words: Words, items: seq<Item>, source: Option<Key>, key: Key)
    requires Invariant(w) && MayHold(Now(w), d) && NewKeyOfSession(Now(w), words) == Ok(key)
    requires forall item :: item in items <==> item in Now(w).items
    requires forall item :: item in Now(w).items ==> Now(w).items[item] == source
    ensures HoldRequest(Now(w), d).Ok?
    ensures var end := Now(After(w, Recovery(w, d, items, source, key)));
      && Join(end, words) == Ok(key) && end.items.Keys == Now(w).items.Keys
      && (forall item :: item in end.items ==> end.items[item] == Some(key))
  {
    var seen, s := |w.past| - 1, Now(w);
    Held(w, d);
    var a, b, c := Holding(w, d), Copying(d, seen, seen + 1, items, source, key), Finishing(d, seen, key);
    AfterConcat(w, a + b, c);
    AfterConcat(w, a, b);
    AfterKeeps(w, a + b);
    hide *;
    var w1 := After(w, a);
    StillOpen(s, Now(w1), d, words, key);
    assert w1.past[seen] == s && w1.past[seen + 1] == Now(w1);
    CopyAll(w1, d, seen, seen + 1, items, source, key) by {
      SawIt(w1, seen, key);
    }
    var w2 := After(w1, b);
    StagedStillOpen(Now(w1), Now(w2), d, key);
    assert w2.past[seen] == s;
    CommitAll(w2, d, seen, key) by {
      SawIt(w2, seen, key);
    }
    NowIsSound(w2);
    CommittedWhole(s, Now(w1), Now(w2), d, w2.nextKey, words, key);
  }

  lemma SawIt(w: World, seen: nat, key: Key)
    requires seen < |w.past| && Opened(w.past[seen], IdOf(key))
    ensures SawSession(w, seen, key)
  {
  }

  lemma NowIsSound(w: World)
    requires Invariant(w)
    ensures w.past != [] && ServerOk(Now(w), w.nextKey)
  {
  }

  /** The steps so far, and the wait for the end of another device's lease. */
  function Waiting(w: World, d: Device): seq<Action>
    requires w.past != [] && Now(w).session.Some?
  {
    if Now(w).session.value.holder == d then [] else [LeaseEnds]
  }

  lemma Waited(w: World, d: Device)
    requires w.past != [] && Now(w).session.Some?
    ensures var s := Now(After(w, Waiting(w, d)));
      && MayHold(s, d) && s.seal == Now(w).seal && s.items == Now(w).items && s.plain == Now(w).plain && s.ended == Now(w).ended
      && s.session.value.newHeader == Now(w).session.value.newHeader
      && s.session.value.newKeyId == Now(w).session.value.newKeyId && s.session.value.kind == Now(w).session.value.kind
  {
    assert [LeaseEnds][..0] == [];
    assert After(w, [LeaseEnds]) == Next(w, LeaseEnds);
  }

  /** From every reachable state with an open rewrite, a device that has the new
      words, and for a rotation the old key or the old words, finishes it by
      itself, once another device's lease has ended: it can read every item,
      and then every item is under the new key, which those words give. */
  lemma CanBeFinished(start: World, actions: seq<Action>, d: Device, words: Words,
                      device: Option<Key>, oldWords: Option<Words>, items: seq<Item>)
    requires IsStart(start) && Now(After(start, actions)).session.Some?
    requires NewKeyOfSession(Now(After(start, actions)), words).Ok?
    requires OldKeyOfSession(Now(After(start, actions)), device, oldWords).Ok?
    requires forall item :: item in items <==> item in Now(After(start, actions)).items
    ensures var w := After(start, actions);
      var key, source := NewKeyOfSession(Now(w), words).value, OldKeyOfSession(Now(w), device, oldWords).value;
      var ready := After(w, Waiting(w, d));
      && (forall item :: item in Now(w).items ==> Now(w).items[item] == source)
      && HoldRequest(Now(ready), d).Ok?
      && var end := Now(After(ready, Recovery(ready, d, items, source, key)));
        && Join(end, words) == Ok(key) && end.items.Keys == Now(w).items.Keys
        && (forall item :: item in end.items ==> end.items[item] == Some(key))
  {
    AlwaysInvariant(start, actions);
    var w := After(start, actions);
    assert ServerOk(Now(w), w.nextKey);
    SourceOpensEveryItem(Now(w), w.nextKey, device, oldWords);
    Waited(w, d);
    AfterKeeps(w, Waiting(w, d));
    var key, source := NewKeyOfSession(Now(w), words).value, OldKeyOfSession(Now(w), device, oldWords).value;
    hide After, IsStart, Invariant, ServerOk, Waiting, Recovery;
    FinishedFrom(After(w, Waiting(w, d)), d, words, items, source, key);
  }

  /** Or undoes it, with no words at all: the workspace is then as it was, and
      the rewrite ended. */
  lemma CanBeUndone(start: World, actions: seq<Action>, d: Device)
    requires IsStart(start) && Now(After(start, actions)).session.Some?
    ensures var w := After(start, actions);
      var ready := After(w, Waiting(w, d));
      && Now(ready).session.Some?
      && Now(After(ready, Undo(ready, d)))
         == Now(w).(session := None, ended := Now(w).ended + {Now(w).session.value.newKeyId})
  {
    AlwaysInvariant(start, actions);
    var w := After(start, actions);
    Waited(w, d);
    hide IsStart, Invariant;
    UndoneFrom(After(w, Waiting(w, d)), d);
  }

  lemma AbortIt(w: World, d: Device)
    requires w.past != [] && Now(w).session.Some? && Now(w).session.value.holder == d
    ensures var keyId := Now(w).session.value.newKeyId;
      After(w, Undoing(d, |w.past| - 1, keyId)).past
      == w.past + [Now(w).(session := None, ended := Now(w).ended + {keyId})]
  {
    var keyId := Now(w).session.value.newKeyId;
    var sent := Sent(d, Abort(keyId), None);
    assert SentBy(w, GiveUp(d, |w.past| - 1)) == Some(sent);
    hide SentBy, Exchange, After;
    Served(w, GiveUp(d, |w.past| - 1), sent);
  }

  lemma UndoneFrom(w: World, d: Device)
    requires w.past != [] && MayHold(Now(w), d)
    ensures Now(After(w, Undo(w, d))) == Now(w).(session := None, ended := Now(w).ended + {Now(w).session.value.newKeyId})
  {
    Held(w, d);
    AfterConcat(w, Holding(w, d), Undoing(d, |w.past|, Now(w).session.value.newKeyId));
    hide After, Holding, Undoing;
    AbortIt(After(w, Holding(w, d)), d);
  }
}
