/** What one step of the bridge core does with an attempt, the end of a turn, a recovery and a retry. */
module DeliveryLaws {
  import opened Prelude
  import opened OrderedDict
  import opened StoreModel
  import opened Delivery
  import opened DeliveryRuns
  import opened DeliveryLosses
  import opened DeliveryWatches
  import R = Recency
  import S = StoreRuns

  // ---- Turn completions ----

  // The turn completed, and fewer than 512 different turns did behind its last completion.
  ghost predicate EndedLately(ended: seq<Turn>, t: Turn) {
    t in ended && |Members(R.After(ended, t))| < 512
  }

  /** A repeated completion of such a turn changes nothing, whatever it would show; any other one is
      remembered, behind all earlier ones, unless the attempt to show its message raises. */
  lemma RepeatedEndIsIgnored(c: Core, t: Turn, shown: Option<Try>)
    ensures EndedLately(c.ended, t) ==> TurnEnds(c, t, shown) == c
    ensures !EndedLately(c.ended, t) ==>
      TurnEnds(c, t, shown).ended ==
        if shown.Some? && !Known(c, shown.value.id) && Raises(shown.value) then c.ended else c.ended + [t]
  {
    hide R.Recent, R.After, DiscardWatch, Known, Raises, IsDurable, HasPending, Deliver;
    R.RecentMeans(c.ended, t, LIMIT);
    if shown.Some? { DeliverKeepsEnded(c, t, shown.value); }
  }

  lemma DeliverKeepsEnded(c: Core, t: Turn, try: Try)
    ensures Deliver(c, t, try).ended == c.ended && Deliver(c, t, try).recovered == c.recovered
  {
    hide Refuses, Lands, Accepts;
  }

  /** In every run, the completion of a turn that ended lately leaves the store, the state file, everything
      sent and every turn as they were. */
  lemma RepeatedEndsAreIgnored(steps: seq<Step>, legacyId: Message -> Id, t: Turn, shown: Option<Try>)
    requires AllWellFormed(steps) && NamedTurn(t) && EndedLately(Run(steps, legacyId).ended, t)
    ensures AllWellFormed(steps + [TurnEndsStep(t, shown)])
    ensures Run(steps + [TurnEndsStep(t, shown)], legacyId) == Run(steps, legacyId)
  {
    hide CoreInv, Run, S.Inv, TurnEnds, EndedLately;
    RunStep(steps, TurnEndsStep(t, shown), legacyId);
    RepeatedEndIsIgnored(Run(steps, legacyId), t, shown);
  }

  /** A completion that counts drops the watch of its turn exactly when the attempt to show its message
      does not raise and is durable, or nothing of the turn is staged behind it. */
  lemma EndDropsWatchExactly(c: Core, t: Turn, shown: Option<Try>)
    requires CoreInv(c) && NamedTurn(t) && !EndedLately(c.ended, t)
    ensures var attempted := shown.Some? && !Known(c, shown.value.id);
      var after, c' := LiveAnswer(c, t, shown), TurnEnds(c, t, shown);
      && c'.store.outbox == after.store.outbox && c'.log == after.log && c'.saved == after.saved
      && (t in c'.store.watches.vals <==>
            t in c.store.watches.vals
            && ((attempted && Raises(shown.value))
                || (!(attempted && IsDurable(shown.value))
                    && exists id :: id in after.store.outbox.vals && after.store.outbox.vals[id].turn == t)))
      && (forall other :: other != t ==> (other in c'.store.watches.vals <==> other in c.store.watches.vals))
  {
    LiveKeepsWatches(c, t, shown);
    EndIs(c, t, shown);
    var after := LiveAnswer(c, t, shown);
    DiscardedWatches(after.store, t);
    PendingMeans(after, t);
    hide *;
  }

  lemma EndIs(c: Core, t: Turn, shown: Option<Try>)
    requires !EndedLately(c.ended, t)
    ensures var attempted := shown.Some? && !Known(c, shown.value.id);
      var after, c' := LiveAnswer(c, t, shown), TurnEnds(c, t, shown);
      var settled := (attempted && IsDurable(shown.value)) || !HasPending(after.store, t);
      && c'.log == after.log && c'.saved == after.saved
      && c'.store ==
           if settled && !(attempted && Raises(shown.value)) then DiscardWatch(after.store, t) else after.store
  {
    R.RecentMeans(c.ended, t, LIMIT);
    hide R.Recent, R.After, Known, Raises, IsDurable, LiveAnswer, HasPending, DiscardWatch;
  }

  lemma PendingMeans(c: Core, t: Turn)
    ensures HasPending(c.store, t) <==> exists id :: id in c.store.outbox.vals && c.store.outbox.vals[id].turn == t
  {
  }

  lemma DiscardedWatches(s: State, t: Turn)
    ensures var s' := DiscardWatch(s, t);
      && s'.outbox == s.outbox && t !in s'.watches.vals
      && forall other :: other != t ==> (other in s'.watches.vals <==> other in s.watches.vals)
  {
    hide Only;
  }

  lemma LiveKeepsWatches(c: Core, t: Turn, shown: Option<Try>)
    requires CoreInv(c) && NamedTurn(t)
    ensures LiveAnswer(c, t, shown).store.watches == c.store.watches
  {
    hide CoreInv, Known, Deliver, Held, Secured;
    if shown.Some? && !Known(c, shown.value.id) { DeliverHolds(c, t, shown.value); }
  }

  // ---- Attempts ----

  /** What an attempt stages is its message: the same text and the same metadata, with the id of the
      delivery, for its turn and at its time; and it stays so while it is staged. */
  lemma StagedMessage(c: Core, t: Turn, try: Try)
    requires !Refuses(try) && try.id !in c.store.outbox.vals && !try.ending.CutOff? && !try.ending.Sent?
    ensures var outbox := Deliver(c, t, try).store.outbox;
      && try.id in outbox.vals && outbox.keys == c.store.outbox.keys + [try.id]
      && var p := outbox.vals[try.id];
         && p.turn == t && p.createdAt == try.now && p.sequence == c.store.sequence + 1
         && p.message.text == try.message.text
         && "delivery_id" in p.message.metadata && p.message.metadata["delivery_id"] == try.id
         && (forall k :: k != "delivery_id" ==>
               (k in p.message.metadata <==> k in try.message.metadata)
               && (k in try.message.metadata ==> p.message.metadata[k] == try.message.metadata[k]))
  {
    StagedOutbox(c, t, try);
    hide Deliver, Stage;
  }

  lemma StagedOutbox(c: Core, t: Turn, try: Try)
    requires !Refuses(try) && try.id !in c.store.outbox.vals && !try.ending.CutOff? && !try.ending.Sent?
    ensures Deliver(c, t, try).store.outbox
         == c.store.outbox.Put(try.id, Pending(t, Identified(try), try.now, c.store.sequence + 1))
  {
    hide Complete, Identified;
  }

  /** The core knows an attempt by how it ends: it raises when it is refused or cancelled, and is durable
      when it is neither and its flush returned; what a channel accepted and the core got to remember
      is in the log as remembered, and every other acceptance as not remembered. */
  lemma EndingsExactly(c: Core, t: Turn, try: Try)
    ensures Raises(try) <==> Refuses(try) || try.ending in {Unflushed, Interrupted(true), Interrupted(false), CutOff}
    ensures IsDurable(try) <==> !Raises(try) && try.ending != Queued(false)
    ensures IsDurable(try) ==> Lands(try)
    ensures Deliver(c, t, try).log == c.log +
      if !Refuses(try) && try.ending in {Failed(true), Interrupted(true), CutOff, Sent(true), Sent(false)}
      then [Acceptance(try.id, try.ending.Sent?)] else []
    ensures Refuses(try) ==> Deliver(c, t, try) == c
  {
  }

  /** What the state file has behind an attempt: everything when the completion was flushed, else the staged
      delivery when its staging landed, and otherwise what it had before. */
  lemma WrittenExactly(c: Core, t: Turn, try: Try)
    ensures Lands(try) <==>
      !Refuses(try) && (try.written || (try.ending != Unflushed && try.ending != Queued(false)))
    ensures var c' := Deliver(c, t, try);
      && (!Refuses(try) && try.ending == Sent(true) ==> c'.saved == c'.store && try.id !in c'.saved.outbox.vals)
      && (Lands(try) && try.ending != Sent(true) ==>
            && try.id in c'.saved.outbox.vals
            && c'.saved == c.store.(outbox := c'.saved.outbox, sequence := c'.saved.sequence))
      && (!Lands(try) ==> c'.saved == c.saved && c'.history == c.history)
      && c'.history.earlier == c.history.earlier && c'.history.unusable == c.history.unusable
  {
    hide Excess, Refuses;
    if !Refuses(try) { assert try.id != "" by { RefusedExactly(try); } }
  }

  /** An attempt is refused exactly when its metadata names another delivery, preparing it fails, or it has
      no id. */
  lemma RefusedExactly(try: Try)
    ensures Refuses(try) <==>
      || try.prepareFails || try.id == ""
      || ("delivery_id" in try.message.metadata
          && try.message.metadata["delivery_id"] != "" && try.message.metadata["delivery_id"] != try.id)
  {
  }

  // ---- Recovery ----

  /** A turn that was found is remembered with the ids of its deliveries, and recovered with just these. */
  lemma FoundIsRecovered(c: Core, t: Turn, tries: seq<Try>, legacyId: Message -> Id)
    requires S.Inv(c.store) && S.Inv(c.saved)
    ensures var found := Apply(c, FoundStep(t, TryIds(tries)), legacyId);
      && found == c.(recovered := c.recovered[t := TryIds(tries)])
      && Apply(found, RecoverStep(t, tries), legacyId) == RecoverTurn(found, t, tries)
  {
    hide S.Inv, RecoverTurn;
  }

  /** A recovered turn whose thread no conversation has is dropped, and nothing of it is delivered. */
  lemma UnboundIsDropped(c: Core, t: Turn, tries: seq<Try>)
    requires CoreInv(c) && forall r :: BindingOf(c.store.bindings, r).thread != Some(t.thread)
    ensures RecoverTurn(c, t, tries) == c.(recovered := c.recovered - {t})
  {
    hide CoreInv;
    var bound := BoundTo(c.store, t.thread);
    assert bound.Some? ==> BindingOf(c.store.bindings, bound.value).thread == Some(t.thread);
  }

  // ---- Retries ----

  /** A settled turn is let go of: its watch goes exactly when the turn ended lately and nothing of it is
      staged any more; every other watch stays. */
  lemma ReleasedExactly(c: Core, t: Turn, other: Turn)
    requires CoreInv(c)
    ensures var c' := Release(c, t);
      && (t in c'.store.watches.vals <==>
            t in c.store.watches.vals
            && !(EndedLately(c.ended, t)
                 && forall id :: id in c.store.outbox.vals ==> c.store.outbox.vals[id].turn != t))
      && (other != t ==> (other in c'.store.watches.vals <==> other in c.store.watches.vals))
  {
    R.RecentMeans(c.ended, t, LIMIT);
    hide R.Recent, R.After, CoreInv, Only;
  }

  /** A retry that takes the last delivery of a turn out of the outbox lets go of the turn if it ended lately;
      no other retry touches a watch. */
  lemma RetriedTurnIsReleased(c: Core, id: Id, t: Turn, r: Retry)
    requires CoreInv(c) && id in c.store.outbox.vals
    ensures var c' := RetryOne(c, id, t, r);
      && (t in c'.store.watches.vals <==>
            t in c.store.watches.vals
            && !((r.Accepted? || r.Invalid?) && EndedLately(c.ended, t)
                 && forall other :: other in c'.store.outbox.vals ==> c'.store.outbox.vals[other].turn != t))
      && (forall other :: other != t ==> (other in c'.store.watches.vals <==> other in c.store.watches.vals))
  {
    RetriedKeepsInv(c, id, t, r);
    var retried := Retried(c, id, t, r);
    RetriedIs(c, id, t, r);
    hide CoreInv, Retried, Release, EndedLately, Held, Secured, RetryOne;
    ReleaseKeepsOutbox(retried, t);
    forall other ensures other != t ==>
      (other in Release(retried, t).store.watches.vals <==> other in retried.store.watches.vals)
    {
      ReleasedExactly(retried, t, other);
    }
    ReleasedExactly(retried, t, t);
  }

  lemma RetriedIs(c: Core, id: Id, t: Turn, r: Retry)
    ensures Retried(c, id, t, r).ended == c.ended
    ensures RetryOne(c, id, t, r)
         == if r.Accepted? || r.Invalid? then Release(Retried(c, id, t, r), t) else Retried(c, id, t, r)
  {
    hide Release, Complete, UpdateMessage;
  }

  // What a retry leaves of the delivery: nothing when it was accepted or unusable, otherwise the delivery,
  // with its new message if it failed.
  ghost predicate LeftBy(d: Dict<Id, Pending>, d': Dict<Id, Pending>, id: Id, r: Retry)
    requires id in d.vals
  {
    match r
    case Accepted(_) => id !in d'.vals
    case Invalid => id !in d'.vals
    case Blocked => id in d'.vals && d'.vals[id] == d.vals[id]
    case RetryFails(m, _) => id in d'.vals && d'.vals[id] == d.vals[id].(message := m)
  }

  ghost predicate OthersStaged(d: Dict<Id, Pending>, d': Dict<Id, Pending>, id: Id) {
    forall other :: other != id ==>
      (other in d'.vals <==> other in d.vals) && (other in d.vals ==> d'.vals[other] == d.vals[other])
  }

  lemma RetryLeaves(c: Core, id: Id, t: Turn, r: Retry)
    requires id in c.store.outbox.vals
    ensures var d' := RetryOne(c, id, t, r).store.outbox;
      LeftBy(c.store.outbox, d', id, r) && OthersStaged(c.store.outbox, d', id)
  {
    RetriedOutbox(c, id, t, r);
    hide LeftBy, OthersStaged, RetryOne, Retried;
    SameOutbox(c, id, t, r);
  }

  lemma SameOutbox(c: Core, id: Id, t: Turn, r: Retry)
    ensures RetryOne(c, id, t, r).store.outbox == Retried(c, id, t, r).store.outbox
  {
    hide Release, Complete, UpdateMessage;
    ReleaseKeepsOutbox(Retried(c, id, t, r), t);
  }

  lemma ReleaseKeepsOutbox(c: Core, t: Turn)
    ensures Release(c, t).store.outbox == c.store.outbox
  {
    hide R.Recent, HasPending, Only;
  }

  lemma RetriedOutbox(c: Core, id: Id, t: Turn, r: Retry)
    requires id in c.store.outbox.vals
    ensures LeftBy(c.store.outbox, Retried(c, id, t, r).store.outbox, id, r)
    ensures OthersStaged(c.store.outbox, Retried(c, id, t, r).store.outbox, id)
  {
    hide Only, Excess;
  }

  /** A retry pass leaves of each staged delivery what its own retry leaves, and a later retry changes
      nothing about an earlier one. */
  lemma {:induction false} PassLeaves(c: Core, listed: seq<Listed>, results: seq<Retry>, k: nat)
    requires CoreInv(c) && |results| == |listed| && StagedIn(c, listed) && k < |listed|
    ensures LeftBy(c.store.outbox, RetryAll(c, listed, results).store.outbox, listed[k].id, results[k])
  {
    hide CoreInv, RetryOne, LeftBy, OthersStaged, Held, Secured;
    var n := |listed| - 1;
    var before := RetryAll(c, listed[..n], results[..n]);
    var after := RetryAll(c, listed, results);
    assert StagedIn(c, listed[..n]);
    UntouchedBefore(c, listed[..n], results[..n], listed[n].id);
    RetryLeaves(before, listed[n].id, listed[n].pending.turn, results[n]);
    if k < n {
      PassLeaves(c, listed[..n], results[..n], k);
      SameLeft(c.store.outbox, before.store.outbox, after.store.outbox, listed[k].id, listed[n].id, results[k]);
    } else {
      SameLeftOf(c.store.outbox, before.store.outbox, after.store.outbox, listed[n].id, results[n]);
    }
  }

  /** A pass retries what is listed in that order. */
  lemma {:induction false} PassGoesInOrder(c: Core, a: seq<Listed>, b: seq<Listed>, ra: seq<Retry>, rb: seq<Retry>)
    requires |a| == |ra| && |b| == |rb|
    ensures RetryAll(c, a + b, ra + rb) == RetryAll(RetryAll(c, a, ra), b, rb)
  {
    hide RetryOne;
    if b == [] {
      assert a + b == a && ra + rb == ra;
    } else {
      var n := |b| - 1;
      PassGoesInOrder(c, a, b[..n], ra, rb[..n]);
      assert (a + b)[..|a| + n] == a + b[..n] && (ra + rb)[..|a| + n] == ra + rb[..n];
    }
  }

  lemma SameLeft(d: Dict<Id, Pending>, middle: Dict<Id, Pending>, d': Dict<Id, Pending>, id: Id, other: Id, r: Retry)
    requires id in d.vals && id != other && LeftBy(d, middle, id, r) && OthersStaged(middle, d', other)
    ensures LeftBy(d, d', id, r)
  {
  }

  lemma SameLeftOf(d: Dict<Id, Pending>, middle: Dict<Id, Pending>, d': Dict<Id, Pending>, id: Id, r: Retry)
    requires id in d.vals && id in middle.vals && middle.vals[id] == d.vals[id] && LeftBy(middle, d', id, r)
    ensures LeftBy(d, d', id, r)
  {
  }

  lemma {:induction false} UntouchedBefore(c: Core, listed: seq<Listed>, results: seq<Retry>, id: Id)
    requires CoreInv(c) && |results| == |listed| && StagedIn(c, listed) && id in c.store.outbox.vals
    requires forall k :: 0 <= k < |listed| ==> listed[k].id != id
    ensures var s' := RetryAll(c, listed, results).store;
      id in s'.outbox.vals && s'.outbox.vals[id] == c.store.outbox.vals[id]
  {
    hide CoreInv, RetryOne, Held, Secured;
    if listed != [] {
      var n := |listed| - 1;
      assert StagedIn(c, listed[..n]);
      RetryAllKeepsInv(c, listed[..n], results[..n]);
      UntouchedBefore(c, listed[..n], results[..n], id);
      RetryLeaves(RetryAll(c, listed[..n], results[..n]), listed[n].id, listed[n].pending.turn, results[n]);
    }
  }

  /** What became of the files of a standalone delivery is kept as the accepted message has it. */
  lemma AcceptedOutcome(c: Core, id: Id, m: Message)
    requires CoreInv(c) && id in c.store.outbox.vals && c.store.outbox.vals[id].turn == NO_TURN
    requires id in Retried(c, id, NO_TURN, Accepted(m)).store.acks.vals
    ensures var outcomes := RetryOne(c, id, NO_TURN, Accepted(m)).store.outcomes;
      && id in outcomes
      && (forall k :: k in outcomes[id] <==> k in m.metadata && (k == "artifact_receipts" || k == "artifact_failures"))
      && (forall k :: k in outcomes[id] ==> outcomes[id][k] == m.metadata[k])
  {
    hide CoreInv, R.Recent, HasPending, Only, Excess;
  }
}
