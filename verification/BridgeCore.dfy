/** The delivery paths of the bridge core as methods with loops, refining the steps of Delivery. */
module BridgeCores {
  import opened Prelude
  import opened OrderedDict
  import opened StoreModel
  import opened Delivery
  import opened DeliveryRuns
  import opened DeliveryLaws
  import R = Recency
  import S = StoreRuns

  // One recovered turn and what the outside world answers.
  datatype Work = Work(turn: Turn, tries: seq<Try>)

  function RecoverEach(c: Core, work: seq<Work>): Core {
    if work == [] then c
    else
      var last := work[|work| - 1];
      RecoverTurn(RecoverEach(c, work[..|work| - 1]), last.turn, last.tries)
  }

  /** Turns are recovered one after the other, each from where the ones before it left the core. */
  lemma {:induction false} RecoversInOrder(c: Core, a: seq<Work>, b: seq<Work>)
    ensures RecoverEach(c, a + b) == RecoverEach(RecoverEach(c, a), b)
  {
    hide RecoverTurn;
    if b == [] {
      assert a + b == a;
    } else {
      assert (a + b)[..|a + b| - 1] == a + b[..|b| - 1];
      RecoversInOrder(c, a, b[..|b| - 1]);
    }
  }

  predicate NamedWork(work: seq<Work>) {
    forall k :: 0 <= k < |work| ==> NamedTurn(work[k].turn)
  }

  class BridgeCore {
    var store: State
    var recovered: map<Turn, seq<Id>>
    const deliveries: R.RecentKeys<Id>
    const turns: R.RecentKeys<Turn>
    ghost var saved: State
    ghost var log: seq<Acceptance>
    ghost var history: History

    ghost function Value(): Core
      reads this, turns
    {
      Core(store, saved, log, turns.history, recovered, history)
    }

    ghost predicate Valid()
      reads this, deliveries, turns
    {
      deliveries.Valid() && deliveries.history == Remembered(log) && turns.Valid() && CoreInv(Value())
    }

    // A new process with what it loaded from the state file.
    constructor (loaded: State)
      requires S.Inv(loaded) && Unacked(loaded)
      ensures Valid() && fresh(deliveries) && fresh(turns)
      ensures store == saved == loaded && log == [] && turns.history == [] && recovered == map[]
    {
      hide S.Inv, R.Recent, Spaced, Unacked;
      store, saved, recovered, log := loaded, loaded, map[], [];
      history := History(loaded.acks.vals.Keys, {}, 0);
      deliveries := new R.RecentKeys<Id>();
      turns := new R.RecentKeys<Turn>();
      new;
      NothingRecent();
    }

    // `_terminal_delivery_is_known`
    method IsKnown(id: Id) returns (known: bool)
      requires Valid()
      ensures known == Known(Value(), id)
    {
      hide CoreInv, R.Recent;
      known := deliveries.Contains(id);
      known := known || id in store.acks.vals || id in store.outbox.vals;
    }

    // The state file gets the store: `flush_pending_writes` returns, or the file is written although it
    // does not.
    ghost method FlushPendingWrites()
      modifies this`saved, this`history
      ensures Value() == Written(old(Value()))
    {
      saved := store;
      history := history.(writes := history.writes + 1);
    }

    // `_deliver_terminal_message`: everything but remembering what was delivered.
    method DeliverTerminalMessage(t: Turn, try: Try) returns (delivered: bool, durable: bool, raised: bool)
      modifies this
      ensures Value() == Deliver(old(Value()), t, try)
      ensures delivered == (!Refuses(try) && try.ending.Sent?) && durable == IsDurable(try) && raised == Raises(try)
    {
      hide Stage, Complete;
      delivered, durable, raised := false, false, true;
      if MetadataId(try.message) != "" && MetadataId(try.message) != try.id {
        return;
      }
      if try.prepareFails || try.id == "" {
        return;
      }
      store := Stage(store, try.id, t, Identified(try), try.now);
      if Lands(try) {
        FlushPendingWrites();
      }
      if Accepts(try) {
        log := log + [Acceptance(try.id, try.ending.Sent?)];
      }
      match try.ending
      case Queued(flushed) =>
        durable, raised := flushed, false;
      case Unflushed =>
      case Failed(_) =>
        durable, raised := true, false;
      case Interrupted(_) =>
      case CutOff =>
        store := Complete(store, try.id);
      case Sent(flushed) =>
        store := Complete(store, try.id);
        if flushed {
          FlushPendingWrites();
        }
        delivered, durable, raised := true, true, false;
    }

    // An answer of the live path or of a recovered turn: known deliveries are skipped, delivered ones
    // remembered.
    method DeliverAnswer(t: Turn, try: Try) returns (attempted: bool, durable: bool, raised: bool)
      requires Valid() && NamedTurn(t)
      modifies this, deliveries
      ensures Valid() && Value() == LiveAnswer(old(Value()), t, Some(try))
      ensures attempted == !Known(old(Value()), try.id)
      ensures attempted ==> durable == IsDurable(try) && raised == Raises(try)
      ensures !attempted ==> !durable && !raised
    {
      hide CoreInv, Stage, Complete, Known, R.Recent, Remembered;
      LiveAnswerKeepsInv(Value(), t, Some(try));
      var known := IsKnown(try.id);
      attempted, durable, raised := !known, false, false;
      if !known {
        RememberedAfter(log, try);
        var delivered;
        delivered, durable, raised := DeliverTerminalMessage(t, try);
        if delivered {
          deliveries.Remember(try.id);
        }
      }
    }

    // `_turn_has_pending_terminal_delivery`
    method TurnHasPending(t: Turn) returns (pending: bool)
      requires Valid()
      ensures pending == HasPending(store, t)
    {
      pending := exists id | id in store.outbox.vals :: store.outbox.vals[id].turn == t;
    }

    // The `turn_completed` branch of `_process_notification`.
    method FinishTurn(t: Turn, shown: Option<Try>)
      requires Valid() && NamedTurn(t)
      modifies this, deliveries, turns
      ensures Valid() && Value() == TurnEnds(old(Value()), t, shown)
      ensures EndedLately(old(turns.history), t) ==>
        Value() == old(Value()) && deliveries.history == old(deliveries.history)
      ensures !EndedLately(old(turns.history), t) ==>
        turns.history == old(turns.history) + [t]
        || (shown.Some? && Raises(shown.value) && turns.history == old(turns.history))
    {
      RepeatedEndIsIgnored(Value(), t, shown);
      hide EndedLately;
      hide CoreInv, Deliver, Known, DiscardWatch, HasPending, Remembered, R.Recent, Raises, IsDurable;
      TurnEndsKeepsInv(Value(), t, shown);
      var ended := turns.Contains(t);
      if ended {
        return;
      }
      var attempted, durable, raised := false, false, false;
      if shown.Some? {
        attempted, durable, raised := DeliverAnswer(t, shown.value);
      }
      if raised {
        return;
      }
      turns.Remember(t);
      SameKeepsInv(LiveAnswer(old(Value()), t, shown), Value());
      var pending := TurnHasPending(t);
      if durable || !pending {
        store := DiscardWatch(store, t);
      }
    }

    // One turn of the recovery loop of `handle_connection_ready`.
    method RecoverOne(t: Turn, tries: seq<Try>)
      requires Valid() && NamedTurn(t)
      modifies this, deliveries
      ensures Valid() && Value() == RecoverTurn(old(Value()), t, tries)
    {
      hide CoreInv, Deliver, Known, DiscardWatch, BoundTo, Remembered, Raises, IsDurable;
      RecoverTurnKeepsInv(Value(), t, tries);
      if BoundTo(store, t.thread).None? {
        recovered := recovered - {t};
        return;
      }
      var allAccountedFor := true;
      assert tries[..0] == [];
      for k := 0 to |tries|
        invariant Valid() && turns.history == old(turns.history)
        invariant RecoverLoop(old(Value()), t, tries[..k]) == Loop(Value(), false, allAccountedFor)
      {
        assert tries[..k + 1][..k] == tries[..k];
        LoopAfterError(old(Value()), t, tries, k + 1);
        var attempted, durable, raised := DeliverAnswer(t, tries[k]);
        if raised {
          return;
        }
        if attempted && !durable {
          allAccountedFor := false;
        }
      }
      assert tries[..|tries|] == tries;
      if allAccountedFor {
        store := DiscardWatch(store, t);
        recovered := recovered - {t};
      }
    }

    // `for terminal_key, turn in list(self._pending_recovered_turns.items())`: an error in one turn
    // does not keep the others from being recovered.
    method RecoverPending(work: seq<Work>)
      requires Valid() && NamedWork(work)
      modifies this, deliveries
      ensures Valid() && Value() == RecoverEach(old(Value()), work)
    {
      hide CoreInv, RecoverTurn, Remembered;
      for k := 0 to |work|
        invariant Valid() && turns.history == old(turns.history)
        invariant Value() == RecoverEach(old(Value()), work[..k])
      {
        assert work[..k + 1][..k] == work[..k];
        RecoverOne(work[k].turn, work[k].tries);
      }
      assert work[..|work|] == work;
    }

    // `_release_completed_turn_watch_if_settled`
    method ReleaseIfSettled(t: Turn)
      requires Valid()
      modifies this`store
      ensures Valid() && Value() == Release(old(Value()), t)
    {
      hide CoreInv, R.Recent, DiscardWatch, HasPending, Remembered;
      ReleaseKeepsInv(Value(), t);
      var ended := turns.Contains(t);
      var pending := TurnHasPending(t);
      if ended && !pending {
        store := DiscardWatch(store, t);
      }
    }

    // One staged delivery of the retry pass.
    method RetryStaged(id: Id, t: Turn, r: Retry)
      requires Valid() && id in store.outbox.vals
      modifies this, deliveries
      ensures Valid() && Value() == RetryOne(old(Value()), id, t, r)
    {
      hide CoreInv, Complete, UpdateMessage, Release, Remembered, R.Recent, Held, Secured;
      RetryOneKeepsInv(Value(), id, t, r);
      RetriedKeepsInv(Value(), id, t, r);
      RememberedAppend(log, Acceptance(id, false));
      RememberedAppend(log, Acceptance(id, true));
      match r
      case Blocked =>
      case RetryFails(m, accepted) =>
        store := UpdateMessage(store, id, m);
        log := if accepted then log + [Acceptance(id, false)] else log;
      case Invalid =>
        store := Complete(store, id);
        history := history.(unusable := history.unusable + {id});
        ReleaseIfSettled(t);
      case Accepted(m) =>
        if t.thread == "" {
          store := UpdateMessage(store, id, m);
        }
        store, log := Complete(store, id), log + [Acceptance(id, true)];
        deliveries.Remember(id);
        ReleaseIfSettled(t);
    }

    // `_deliver_pending_terminal_once`: nothing is retried unless the flush before returns.
    method RetryPending(flushed: bool, results: seq<Retry>)
      requires Valid() && store.outbox.Valid() && |results| == |Listing(store)|
      modifies this, deliveries
      ensures Valid()
      ensures Value() == if flushed then RetryAll(Written(old(Value())), old(Listing(store)), results) else old(Value())
    {
      hide CoreInv, RetryOne, Listing, Remembered, Held, Secured;
      if !flushed {
        return;
      }
      ListingIsStaged(Value());
      WrittenKeepsInv(Value());
      FlushPendingWrites();
      RetryListed(Listing(store), results);
    }

    // `for pending in self.store.list_pending_terminal_deliveries()`
    method RetryListed(listed: seq<Listed>, results: seq<Retry>)
      requires Valid() && |results| == |listed| && StagedIn(Value(), listed)
      modifies this, deliveries
      ensures Valid() && Value() == RetryAll(old(Value()), listed, results)
    {
      hide CoreInv, RetryOne, Remembered, Held, Secured;
      assert listed[..0] == [] && results[..0] == [];
      for k := 0 to |listed|
        invariant Valid() && turns.history == old(turns.history)
        invariant Value() == RetryAll(old(Value()), listed[..k], results[..k])
      {
        assert StagedIn(old(Value()), listed[..k]);
        RetryAllKeepsInv(old(Value()), listed[..k], results[..k]);
        assert listed[..k + 1][..k] == listed[..k] && results[..k + 1][..k] == results[..k];
        RetryStaged(listed[k].id, listed[k].pending.turn, results[k]);
      }
      assert listed[..|listed|] == listed && results[..|listed|] == results;
    }
  }

  lemma RememberedAfter(log: seq<Acceptance>, try: Try)
    ensures forall flag ::
      Remembered(log + [Acceptance(try.id, flag)]) == Remembered(log) + if flag then [try.id] else []
    ensures Remembered(log) + [] == Remembered(log)
  {
    hide Remembered;
    RememberedAppend(log, Acceptance(try.id, true));
    RememberedAppend(log, Acceptance(try.id, false));
  }

  // Once a delivery of a turn raised, the rest of the turn changes nothing.
  lemma {:induction false} LoopAfterError(c: Core, t: Turn, tries: seq<Try>, k: nat)
    requires k <= |tries|
    ensures RecoverLoop(c, t, tries[..k]).raised ==> RecoverLoop(c, t, tries) == RecoverLoop(c, t, tries[..k])
    decreases |tries|
  {
    hide Deliver, Known, Raises, IsDurable;
    if k == |tries| {
      assert tries[..k] == tries;
    } else {
      var front := tries[..|tries| - 1];
      assert front[..k] == tries[..k];
      LoopAfterError(c, t, front, k);
    }
  }
}
