/** One device's requests to the server, and what becomes of each, while other
    devices work on the same workspace. */
module EncryptionConnection {
  import opened Prelude
  import opened EncryptionServer
  import opened EncryptionClient
  import opened EncryptionProtocol
  import opened EncryptionSafety

  /** What comes of a request: `Lost` says that no answer came, whether or not
      the request arrived. */
  datatype Reply = Done | Denied(code: Code) | Lost

  /** What befalls a device's next look or call: what anyone does before it
      reaches the server and after, whether it arrives, and whether its answer
      comes back. */
  datatype Fate = Fate(before: seq<Action>, arrives: bool, between: seq<Action>, answered: bool)

  /** What a device's looks and calls meet, in their order; then nothing. */
  type Fates = seq<Fate>

  function FateOf(fate: Fates, n: nat): Fate {
    if n < |fate| then fate[n] else Fate([], true, [], true)
  }

  /** A request this device sent with its call number `turn`, and what came of
      it: the state `at` is what it made, or what it was refused in. */
  datatype Answer = Answer(sent: Sent, reply: Reply, at: nat, turn: nat)

  /** An answer is what the network and the server made of the request. */
  predicate Honest(past: seq<Server>, fate: Fates, a: Answer) {
    var f := FateOf(fate, a.turn);
    && (a.reply.Lost? <==> !(f.arrives && f.answered))
    && (a.reply.Done? ==>
        && 1 <= a.at < |past| && Check(past[a.at - 1], a.sent.from_, a.sent.request).None?
        && past[a.at] == Apply(past[a.at - 1], a.sent.from_, a.sent.request))
    && (a.reply.Denied? ==>
        a.at < |past| && Check(past[a.at], a.sent.from_, a.sent.request) == Some(a.reply.code))
  }

  ghost predicate AllHonest(past: seq<Server>, fate: Fates, calls: seq<Answer>) {
    forall k :: 0 <= k < |calls| ==> Honest(past, fate, calls[k])
  }

  lemma StaysHonest(past: seq<Server>, past': seq<Server>, fate: Fates, calls: seq<Answer>)
    requires AllHonest(past, fate, calls) && past <= past'
    ensures AllHonest(past', fate, calls)
  {
    forall k | 0 <= k < |calls| ensures Honest(past', fate, calls[k]) {
      assert Honest(past, fate, calls[k]);
      hide Check, Apply;
    }
  }

  /** `log` is all that has happened since `start`; `calls` are the requests
      sent through this object, with their answers; `turn` counts its looks
      and calls. */
  class Connection {
    const fate: Fates
    var turn: nat
    var world: World
    var calls: seq<Answer>
    ghost const start: World
    ghost var log: seq<Action>

    ghost predicate Valid()
      reads this
    {
      && IsStart(start) && world == After(start, log) && world.past != []
      && AllHonest(world.past, fate, calls)
    }

    constructor (fate: Fates, start: World)
      requires IsStart(start)
      ensures Valid() && world == start && this.fate == fate && turn == 0 && calls == [] && log == []
    {
      this.fate, this.start, world, log, calls, turn := fate, start, start, [], [], 0;
    }

    /** Nothing the server was or was sent is forgotten. */
    twostate predicate Grown()
      reads this
    {
      old(world.past) <= world.past && old(world.sent) <= world.sent && old(world.nextKey) <= world.nextKey
    }

    method Do(a: Action)
      requires Valid()
      modifies this`world, this`log
      ensures Valid() && Grown() && world == Next(old(world), a) && log == old(log) + [a]
    {
      hide IsStart, Next, AllHonest;
      NextGrows(world, a);
      PastGrows(world.past, Next(world, a).past);
      StaysHonest(world.past, Next(world, a).past, fate, calls);
      world := Next(world, a);
      log := log + [a];
      assert log[..|log| - 1] == old(log);
    }

    /** What anyone does, this device's earlier requests included. */
    method Play(actions: seq<Action>)
      requires Valid()
      modifies this`world, this`log
      ensures Valid() && Grown() && log == old(log) + actions
    {
      hide Valid, Next;
      for k := 0 to |actions|
        invariant Valid() && Grown() && log == old(log) + actions[..k]
      {
        Do(actions[k]);
      }
      assert actions[..|actions|] == actions;
    }

    /** Reads the workspace. */
    method Look() returns (seen: nat)
      requires Valid()
      modifies this`world, this`log, this`turn
      ensures Valid() && Grown() && turn == old(turn) + 1
      ensures |old(world.past)| - 1 <= seen < |world.past|
      ensures var f := FateOf(fate, old(turn));
        log == old(log) + f.before + f.between && seen == |After(start, old(log) + f.before).past| - 1
    {
      var f := FateOf(fate, turn);
      Play(f.before);
      seen := |world.past| - 1;
      Play(f.between);
      turn := turn + 1;
    }

    /** Sends what the step `a` sends. */
    method Call(a: Action) returns (answer: Answer)
      requires Valid() && SentBy(world, a).Some?
      modifies this
      ensures Valid() && Grown() && turn == old(turn) + 1
      ensures calls == old(calls) + [answer]
      ensures answer.sent == SentBy(old(world), a).value && answer.turn == old(turn)
      ensures Honest(world.past, fate, answer)
      ensures !answer.reply.Lost? ==> |old(world.past)| - 1 <= answer.at < |world.past|
      ensures answer.reply.Done? ==> |old(world.past)| <= answer.at
      ensures answer.sent in world.sent
      ensures NewKeyOf(answer.sent.request).Some? ==> old(world.nextKey) < world.nextKey
      ensures var f := FateOf(fate, old(turn));
        log == old(log) + [a] + f.before + (if f.arrives then [Deliver(answer.sent)] else []) + f.between
    {
      hide SentBy, IsStart, After, Next, AllHonest, Honest, ArrivesAt;
      var f, sent := FateOf(fate, turn), SentBy(world, a).value;
      answer := Answer(sent, Lost, 0, turn);
      SendAdds(world, a);
      Do(a);
      Play(f.before);
      LostIsHonest(world.past, fate, answer);
      if f.arrives {
        var made := ArrivesAt(world, sent, turn);
        Arrived(world, sent, turn, fate);
        Do(Deliver(sent));
        if f.answered {
          answer := made;
        }
      }
      OneMoreHonest(world.past, fate, calls, answer);
      calls := calls + [answer];
      Play(f.between);
      turn := turn + 1;
      assert Honest(world.past, fate, answer) by {
        LastIsHonest(world.past, fate, calls);
      }
    }
  }

  lemma LostIsHonest(past: seq<Server>, fate: Fates, a: Answer)
    ensures a.reply.Lost? && !(FateOf(fate, a.turn).arrives && FateOf(fate, a.turn).answered) ==>
      forall later :: Honest(later, fate, a)
  {
  }

  lemma OneMoreHonest(past: seq<Server>, fate: Fates, calls: seq<Answer>, a: Answer)
    requires AllHonest(past, fate, calls) && Honest(past, fate, a)
    ensures AllHonest(past, fate, calls + [a])
  {
    hide Honest;
  }

  lemma LastIsHonest(past: seq<Server>, fate: Fates, calls: seq<Answer>)
    requires AllHonest(past, fate, calls) && calls != []
    ensures Honest(past, fate, calls[|calls| - 1])
  {
  }

  /** What a request that arrives makes, and what is answered. */
  lemma Arrived(w: World, sent: Sent, turn: nat, fate: Fates)
    requires w.past != [] && sent in w.sent
    ensures var a := ArrivesAt(w, sent, turn);
      && a.sent == sent && a.turn == turn && !a.reply.Lost?
      && |w.past| - 1 <= a.at < |Next(w, Deliver(sent)).past| && (a.reply.Done? ==> a.at == |w.past|)
      && (FateOf(fate, turn).arrives && FateOf(fate, turn).answered ==>
          Honest(Next(w, Deliver(sent)).past, fate, a))
  {
    hide Apply, Check;
  }

  lemma PastGrows(past: seq<Server>, past': seq<Server>)
    requires past' == past || (past' != [] && past'[..|past'| - 1] == past)
    ensures past <= past'
  {
  }

  lemma SendAdds(w: World, a: Action)
    requires w.past != [] && SentBy(w, a).Some?
    ensures SentBy(w, a).value in Next(w, a).sent
    ensures NewKeyOf(SentBy(w, a).value.request).Some? ==> w.nextKey < Next(w, a).nextKey
  {
    assert !a.Deliver? && !a.LeaseEnds?;
    hide SentBy;
  }

  /** The server's answer to a request that arrives now. */
  function ArrivesAt(w: World, sent: Sent, turn: nat): Answer
    requires w.past != []
  {
    var refusal := Check(Now(w), sent.from_, sent.request);
    if refusal.Some? then Answer(sent, Denied(refusal.value), |w.past| - 1, turn)
    else Answer(sent, Done, |w.past|, turn)
  }
}
