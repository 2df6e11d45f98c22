/** What holds of a workspace in every state devices can bring it to. */
module EncryptionSafety {
  import opened Prelude
  import opened EncryptionServer
  import opened EncryptionClient
  import opened EncryptionProtocol

  // ---------- no state is locked ----------

  /** In every state the server was ever in, the header beside the key id
      opens with the words it was wrapped with to the key of that id, which is
      the one every item is under; so does an open session's new header, and
      its copies are under that key. */
  lemma NeverLocked(w: World, actions: seq<Action>, i: nat)
    requires IsStart(w) && i < |After(w, actions).past|
    ensures var s := After(w, actions).past[i];
      && (s.seal.Some? ==>
          var key := Unwrap(s.seal.value.header, s.seal.value.header.words);
          && key.Some? && IdOf(key.value) == s.seal.value.keyId
          && forall item :: item in s.items ==> s.items[item] == key)
      && (s.seal.None? ==> forall item :: item in s.items ==> s.items[item] == None)
    ensures var s := After(w, actions).past[i];
      s.session.Some? ==>
        var session := s.session.value;
        var key := Unwrap(session.newHeader, session.newHeader.words);
        && key.Some? && IdOf(key.value) == session.newKeyId
        && forall item :: item in session.staged ==> item in s.items && session.staged[item] == key.value
  {
    AlwaysInvariant(w, actions);
    hide After, IsStart, History, KeysUnique, WordsOk, SessionSent, RequestOk;
    var s := After(w, actions).past[i];
    assert ServerOk(s, After(w, actions).nextKey);
    if s.session.Some? {
      assert SessionOk(s, s.session.value);
    }
  }

  /** The words given with the last accepted change of the header, and no
      others, give a device the workspace's current key. */
  lemma LastWordsJoin(w: World, actions: seq<Action>, words: Words)
    requires IsStart(w)
    requires Now(After(w, actions)).seal.Some? && Now(After(w, actions)).session.None?
    ensures var end := After(w, actions);
      && (end.words == Some(words) <==> Join(Now(end), words).Ok?)
      && (end.words == Some(words) ==> IdOf(Join(Now(end), words).value) == Now(end).seal.value.keyId)
      && (end.words != Some(words) ==> Join(Now(end), words) == Err(WrongWords))
  {
    AlwaysInvariant(w, actions);
    hide After, IsStart, History, KeysUnique, SessionSent, RequestOk;
    var end := After(w, actions);
    assert ServerOk(Now(end), end.nextKey);
  }

  /** What joining answers in any state: no header is ever found to be of
      another key than the one beside it. */
  lemma JoinExactly(w: World, actions: seq<Action>, i: nat, words: Words)
    requires IsStart(w) && i < |After(w, actions).past|
    ensures var s := After(w, actions).past[i];
      Join(s, words) ==
        if s.session.Some? then Err(Rewriting)
        else if s.seal.None? then Err(NotEncrypted)
        else if words == s.seal.value.header.words then Ok(s.seal.value.header.key)
        else Err(WrongWords)
  {
    AlwaysInvariant(w, actions);
    hide After, IsStart, History, KeysUnique, SessionSent, RequestOk, WordsOk;
    var end := After(w, actions);
    assert ServerOk(end.past[i], end.nextKey);
  }

  /** What resuming needs in any state: the new words, and for a rotation the
      old key or the old words. */
  lemma ResumeExactly(w: World, actions: seq<Action>, i: nat, words: Words, device: Option<Key>, oldWords: Option<Words>)
    requires IsStart(w) && i < |After(w, actions).past| && After(w, actions).past[i].session.Some?
    ensures var s := After(w, actions).past[i];
      && NewKeyOfSession(s, words) == (if words == s.session.value.newHeader.words then Ok(s.session.value.newHeader.key)
                                       else Err(WrongWords))
      && OldKeyOfSession(s, device, oldWords) ==
           if s.seal.None? then Ok(None)
           else
             var header := s.seal.value.header;
             if device == Some(header.key) || oldWords == Some(header.words) then Ok(Some(header.key))
             else if oldWords.Some? then Err(WrongWords)
             else Err(NoKey)
  {
    AlwaysInvariant(w, actions);
    hide After, IsStart, History, KeysUnique, SessionSent, RequestOk, WordsOk;
    var end := After(w, actions);
    assert ServerOk(end.past[i], end.nextKey);
  }

  /** Likewise the words an open rewrite was begun with, and no others, give
      its new key. */
  lemma NewWordsOpenTheSession(w: World, actions: seq<Action>, words: Words)
    requires IsStart(w) && Now(After(w, actions)).session.Some?
    ensures var end := After(w, actions);
      && (end.openWords == Some(words) <==> NewKeyOfSession(Now(end), words).Ok?)
      && (end.openWords == Some(words) ==>
          IdOf(NewKeyOfSession(Now(end), words).value) == Now(end).session.value.newKeyId)
      && (end.openWords != Some(words) ==> NewKeyOfSession(Now(end), words) == Err(WrongWords))
  {
    AlwaysInvariant(w, actions);
    hide After, IsStart, History, KeysUnique, SessionSent, RequestOk;
    var end := After(w, actions);
    assert ServerOk(Now(end), end.nextKey);
  }

  /** A session to a device's own new key has the header that device sent, is
      of its kind, and replaces the key it named. */
  lemma OwnSession(w: World, actions: seq<Action>, sent: Sent, i: nat)
    requires IsStart(w) && sent in After(w, actions).sent && sent.request.Begin?
    requires i < |After(w, actions).past| && Opened(After(w, actions).past[i], sent.request.newKeyId)
    ensures Opens(sent, After(w, actions).past[i])
  {
    AlwaysInvariant(w, actions);
    hide After, IsStart, History, WordsOk, RequestOk, ServerOk;
    var end := After(w, actions);
    assert SessionSent(end, end.past[i]);
    var opener :| opener in end.sent && Opens(opener, end.past[i]);
    assert SameNewKey(opener.request, sent.request);
  }

  function HeaderOf(r: Request): Header
    requires NewKeyOf(r).Some?
  {
    match r
    case Enable(header, _) => header
    case FreshStart(header, _) => header
    case Begin(_, _, _, header) => header
  }

  /** In the `j`th state the workspace is just sealed as `sent` asked for. */
  predicate SealedBy(past: seq<Server>, sent: Sent, j: nat) {
    && j < |past| && NewKeyOf(sent.request).Some?
    && past[j].seal == Some(Seal(NewKeyOf(sent.request).value, HeaderOf(sent.request)))
    && past[j].session.None?
  }

  /** By the `i`th state it was sealed as some request to that key asked for. */
  ghost predicate WasSealed(w: World, i: nat) {
    i < |w.past| ==> w.past[i].seal.Some? ==>
      exists j: nat, sent :: j <= i && sent in w.sent && SealedBy(w.past, sent, j)
        && NewKeyOf(sent.request) == KeyIdNow(w.past[i])
  }

  lemma WasSealedStays(w: World, w': World, i: nat)
    requires WasSealed(w, i) && i < |w.past| && w.sent <= w'.sent
    requires |w.past| <= |w'.past| && w'.past[..|w.past|] == w.past
    ensures WasSealed(w', i)
  {
    hide HeaderOf, NewKeyOf;
    if w.past[i].seal.Some? {
      var j: nat, sent :| j <= i && sent in w.sent && SealedBy(w.past, sent, j)
        && NewKeyOf(sent.request) == KeyIdNow(w.past[i]);
      assert w'.past[j] == w.past[j] && w'.past[i] == w.past[i];
      assert SealedBy(w'.past, sent, j);
    }
  }

  /** A new key comes with the header of the request that brought it. */
  lemma SealingStep(w: World, sent: Sent)
    requires Invariant(w) && sent in w.sent && Check(Now(w), sent.from_, sent.request).None?
    ensures var s' := Apply(Now(w), sent.from_, sent.request);
      s'.seal.Some? && KeyIdNow(s') != KeyIdNow(Now(w)) ==>
        exists cause :: cause in w.sent && SealedBy(w.past + [s'], cause, |w.past|)
  {
    hide History, KeysUnique, ServerOk, RequestOk, WordsOk, Follows;
    var s := Now(w);
    var s' := Apply(s, sent.from_, sent.request);
    assert SessionSent(w, s);
    if s'.seal.Some? && KeyIdNow(s') != KeyIdNow(s) {
      if sent.request.Commit? {
        var opener :| opener in w.sent && Opens(opener, s);
        assert SealedBy(w.past + [s'], opener, |w.past|);
      } else {
        assert SealedBy(w.past + [s'], sent, |w.past|);
      }
    }
  }

  lemma SealedNow(w: World, s: Server, i: nat)
    requires i == |w.past| - 1 && i >= 1 && w.past[i] == s && WasSealed(w, i - 1)
    requires s.seal.Some? && KeyIdNow(s) != KeyIdNow(w.past[i - 1]) ==> exists sent :: sent in w.sent && SealedBy(w.past, sent, i)
    ensures WasSealed(w, i)
  {
    if s.seal.Some? {
      if KeyIdNow(s) == KeyIdNow(w.past[i - 1]) {
        var j: nat, sent :| j <= i - 1 && sent in w.sent && SealedBy(w.past, sent, j)
          && NewKeyOf(sent.request) == KeyIdNow(w.past[i - 1]);
        assert j <= i && NewKeyOf(sent.request) == KeyIdNow(w.past[i]);
      } else {
        var sent :| sent in w.sent && SealedBy(w.past, sent, i);
        assert NewKeyOf(sent.request) == KeyIdNow(w.past[i]);
      }
    }
  }

  lemma {:induction false} AlwaysWasSealed(w: World, actions: seq<Action>, i: nat)
    requires IsStart(w) && i < |After(w, actions).past|
    ensures WasSealed(After(w, actions), i)
  {
    AfterStep(w, actions);
    hide *;
    if actions == [] {
      StartWasSealed(w, i);
    } else {
      var before, last := actions[..|actions| - 1], actions[|actions| - 1];
      var was, end := After(w, before), After(w, actions);
      AlwaysInvariant(w, before);
      NextGrows(was, last);
      if i < |was.past| {
        AlwaysWasSealed(w, before, i);
        WasSealedStays(was, end, i);
      } else {
        AlwaysWasSealed(w, before, i - 1);
        WasSealedStays(was, end, i - 1);
        NewestWasSealed(was, last, end);
      }
    }
  }

  lemma AfterStep(w: World, actions: seq<Action>)
    requires w.past != []
    ensures actions == [] ==> After(w, actions) == w
    ensures actions != [] ==> After(w, actions) == Next(After(w, actions[..|actions| - 1]), actions[|actions| - 1])
  {
  }

  lemma StartWasSealed(w: World, i: nat)
    requires IsStart(w) && i < |w.past|
    ensures WasSealed(w, i)
  {
  }

  lemma NewestWasSealed(w: World, a: Action, w': World)
    requires w.past != [] && Invariant(w) && w' == Next(w, a) && |w'.past| == |w.past| + 1
    requires WasSealed(w', |w.past| - 1)
    ensures WasSealed(w', |w.past|)
  {
    hide Invariant, WasSealed, SealedBy, SentBy, Check, Apply;
    if a.Deliver? {
      SealingStep(w, a.sent);
      SealedNow(w', Now(w'), |w.past|);
    } else {
      assert KeyIdNow(Now(w')) == KeyIdNow(Now(w));
      SealedNow(w', Now(w'), |w.past|);
    }
  }

  /** A workspace under a device's new key was, when it came to be, sealed with
      exactly the header that device had made for it. */
  lemma OwnKeySealed(w: World, actions: seq<Action>, sent: Sent, i: nat) returns (j: nat)
    requires IsStart(w) && sent in After(w, actions).sent && NewKeyOf(sent.request).Some?
    requires i < |After(w, actions).past| && KeyIdNow(After(w, actions).past[i]) == NewKeyOf(sent.request)
    ensures j <= i && SealedBy(After(w, actions).past, sent, j)
  {
    AlwaysInvariant(w, actions);
    AlwaysWasSealed(w, actions, i);
    hide After, IsStart, WordsOk, RequestOk, ServerOk, History, SessionSent, SealedBy;
    var end := After(w, actions);
    var opener: Sent;
    j, opener :| j <= i && opener in end.sent && SealedBy(end.past, opener, j)
      && NewKeyOf(opener.request) == KeyIdNow(end.past[i]);
    assert SameNewKey(opener.request, sent.request);
  }

  // ---------- rewrites ----------

  /** While a session is open, each request leaves it open and the workspace
      as it is, or ends it in one of two ways: the workspace is what it was,
      or every item is there under the new key. */
  lemma AllOrNothing(s: Server, sent: Sent, limit: Key)
    requires ServerOk(s, limit) && RequestOk(s, sent, limit) && s.session.Some?
    ensures var s' := Serve(s, sent.from_, sent.request);
      var session := s.session.value;
      var same := s'.items == s.items && s'.seal == s.seal && s'.plain == s.plain;
      || (same && Opened(s', session.newKeyId) && s'.session.value.newHeader == session.newHeader)
      || (same && s'.session.None? && session.newKeyId in s'.ended)
      || (s'.items.Keys == s.items.Keys && s'.plain == s.plain && s'.session.None?
          && s'.seal == Some(Seal(session.newKeyId, session.newHeader))
          && forall item :: item in s'.items ==> s'.items[item] == Some(session.newHeader.key))
  {
    if sent.request.Commit? {
      CommitIsWhole(s, sent, limit);
    }
  }

  lemma CommitIsWhole(s: Server, sent: Sent, limit: Key)
    requires ServerOk(s, limit) && s.session.Some? && sent.request.Commit?
    ensures Check(s, sent.from_, sent.request).None? ==>
      var s' := Serve(s, sent.from_, sent.request);
      && s'.items.Keys == s.items.Keys
      && forall item :: item in s'.items ==> s'.items[item] == Some(s.session.value.newHeader.key)
  {
    if Check(s, sent.from_, sent.request).None? {
      assert Committed(s).items.Keys == s.session.value.staged.Keys;
    }
  }

  /** While a lease lasts, no request of another device changes anything. */
  lemma LeaseKeepsOthersOut(s: Server, d: Device, r: Request)
    requires s.session.Some? && !s.session.value.leaseEnded && d != s.session.value.holder
    ensures Serve(s, d, r) == s
  {
  }

  /** The items of an open rewrite are all under the key its finisher has. */
  lemma SourceOpensEveryItem(s: Server, limit: Key, device: Option<Key>, oldWords: Option<Words>)
    requires ServerOk(s, limit) && s.session.Some? && OldKeyOfSession(s, device, oldWords).Ok?
    ensures forall item :: item in s.items ==> s.items[item] == OldKeyOfSession(s, device, oldWords).value
  {
    assert SessionOk(s, s.session.value);
  }

  /** A rewrite that has ended, committed or aborted, is never open again,
      whatever delayed requests arrive. */
  lemma NeverReopens(w: World, actions: seq<Action>, i: nat, j: nat, k: nat)
    requires IsStart(w) && i <= j <= k < |After(w, actions).past|
    requires After(w, actions).past[i].session.Some?
    requires !Opened(After(w, actions).past[j], After(w, actions).past[i].session.value.newKeyId)
    ensures !Opened(After(w, actions).past[k], After(w, actions).past[i].session.value.newKeyId)
  {
    AlwaysInvariant(w, actions);
    hide After, IsStart, WordsOk, RequestOk, KeysUnique, SessionSent;
    var end := After(w, actions);
    assert Follows(end.past[i], end.past[j]) && Follows(end.past[j], end.past[k]);
    assert ServerOk(end.past[k], end.nextKey);
  }

  /** A key that was replaced never comes back, nor does plaintext. */
  lemma KeysMoveOn(w: World, actions: seq<Action>, i: nat, j: nat, k: nat)
    requires IsStart(w) && i <= j <= k < |After(w, actions).past|
    requires After(w, actions).past[i].seal.Some?
    requires KeyIdNow(After(w, actions).past[j]) != KeyIdNow(After(w, actions).past[i])
    ensures KeyIdNow(After(w, actions).past[k]) != KeyIdNow(After(w, actions).past[i])
    ensures After(w, actions).past[k].seal.Some?
  {
    AlwaysInvariant(w, actions);
    hide After, IsStart, WordsOk, RequestOk, KeysUnique, SessionSent, ServerOk;
    var end := After(w, actions);
    assert Follows(end.past[i], end.past[j]) && Follows(end.past[j], end.past[k]);
  }

  // ---------- nothing is lost ----------

  /** The item is in the workspace, or set aside by a fresh start. */
  predicate Has(s: Server, item: Item) {
    item in s.items || item in s.plain
  }

  lemma ServeKeepsItem(s: Server, sent: Sent, limit: Key, item: Item)
    requires ServerOk(s, limit) && RequestOk(s, sent, limit) && Has(s, item)
    requires !(sent.request.Delete? && sent.request.deleted == item)
    ensures Has(Serve(s, sent.from_, sent.request), item)
  {
    if sent.request.Commit? && s.session.Some? {
      CommitIsWhole(s, sent, limit);
    }
  }

  /** No device has asked to delete the item. */
  ghost predicate NeverDeleted(w: World, item: Item) {
    forall sent :: sent in w.sent ==> !(sent.request.Delete? && sent.request.deleted == item)
  }

  lemma NextKeepsItem(w: World, a: Action, item: Item)
    requires Invariant(w) && Has(Now(w), item) && NeverDeleted(Next(w, a), item)
    ensures Has(Now(Next(w, a)), item)
  {
    hide History, KeysUnique, WordsOk, SessionSent;
    if a.Deliver? && a.sent in w.sent {
      assert RequestOk(Now(w), a.sent, w.nextKey);
      assert Next(w, a).sent == w.sent;
      ServeKeepsItem(Now(w), a.sent, w.nextKey, item);
    } else if !a.Deliver? && !a.LeaseEnds? {
      hide SentBy;
    }
  }

  lemma NextGrows(w: World, a: Action)
    requires w.past != []
    ensures w.sent <= Next(w, a).sent && w.nextKey <= Next(w, a).nextKey
    ensures Next(w, a).past == w.past || (Next(w, a).past != [] && Next(w, a).past[..|Next(w, a).past| - 1] == w.past)
  {
    hide SentBy, Apply, Check;
  }

  /** An item that was ever in the workspace is there, or among those a fresh
      start set aside, unless a device asked to delete it: no set-up, change
      of words, migration, rotation, take-over, or abort loses one. */
  lemma {:induction false} NothingIsLost(w: World, actions: seq<Action>, i: nat, item: Item)
    requires IsStart(w) && i < |After(w, actions).past| && Has(After(w, actions).past[i], item)
    requires NeverDeleted(After(w, actions), item)
    ensures Has(Now(After(w, actions)), item)
  {
    if actions != [] {
      var before := actions[..|actions| - 1];
      var was, last := After(w, before), actions[|actions| - 1];
      AlwaysInvariant(w, before);
      hide IsStart, Invariant, Has, Next;
      NextGrows(was, last);
      if i < |was.past| {
        NothingIsLost(w, before, i, item);
        NextKeepsItem(was, last, item);
      }
    }
  }
}
