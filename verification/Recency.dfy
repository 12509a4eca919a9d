/**
 The recency caches: the ids of the last inbound messages of a conversation, their responses
 (src/imcodex/store.py) and the terminal deliveries last handled (src/imcodex/bridge/core.py). Each
 one trims as it goes; each one equals the newest distinct keys of everything it was ever told.
 */
module Recency {
  import opened Prelude
  import opened OrderedDict

  // ---- The newest distinct keys of a history ----

  function Remove<K(==)>(s: seq<K>, k: K): seq<K> {
    if s == [] then []
    else
      var last := s[|s| - 1];
      Remove(s[..|s| - 1], k) + if last == k then [] else [last]
  }

  // The distinct keys of a history in the order of their last occurrence.
  function LastDistinct<K(==)>(history: seq<K>): seq<K> {
    if history == [] then []
    else
      var last := history[|history| - 1];
      Remove(LastDistinct(history[..|history| - 1]), last) + [last]
  }

  function Recent<K(==)>(history: seq<K>, limit: nat): seq<K>
    requires limit > 0
  {
    Newest(LastDistinct(history), limit)
  }

  // What comes after the last occurrence of k.
  function After<K(==)>(s: seq<K>, k: K): seq<K> {
    if s == [] || s[|s| - 1] == k then [] else After(s[..|s| - 1], k) + [s[|s| - 1]]
  }

  lemma {:induction false} RemoveMembers<K(!new)>(s: seq<K>, k: K, x: K)
    ensures x in Remove(s, k) <==> x in s && x != k
  {
    if s != [] {
      RemoveMembers(s[..|s| - 1], k, x);
      assert s == s[..|s| - 1] + [s[|s| - 1]];
    }
  }

  lemma {:induction false} RemoveAbsent<K(!new)>(s: seq<K>, k: K)
    requires k !in s
    ensures Remove(s, k) == s
  {
    if s != [] {
      RemoveAbsent(s[..|s| - 1], k);
      assert s == s[..|s| - 1] + [s[|s| - 1]];
    }
  }

  lemma {:induction false} RemoveDistinct<K(!new)>(s: seq<K>, k: K)
    requires Distinct(s)
    ensures Distinct(Remove(s, k)) && |Remove(s, k)| == |s| - if k in s then 1 else 0
  {
    if s != [] {
      var front, last := s[..|s| - 1], s[|s| - 1];
      assert s == front + [last];
      RemoveDistinct(front, k);
      var kept := Remove(front, k);
      forall i | 0 <= i < |kept| ensures kept[i] != last {
        RemoveMembers(front, k, kept[i]);
      }
    }
  }

  lemma {:induction false} RemoveConcat<K(!new)>(a: seq<K>, b: seq<K>, k: K)
    ensures Remove(a + b, k) == Remove(a, k) + Remove(b, k)
  {
    if b == [] {
      assert a + b == a;
    } else {
      var front, last := b[..|b| - 1], b[|b| - 1];
      assert (a + b)[..|a + b| - 1] == a + front;
      RemoveConcat(a, front, k);
    }
  }

  lemma {:induction false} LastDistinctIsDistinct<K(!new)>(history: seq<K>)
    ensures Distinct(LastDistinct(history))
  {
    if history != [] {
      var front, last := history[..|history| - 1], history[|history| - 1];
      LastDistinctIsDistinct(front);
      RemoveThenAppend(LastDistinct(front), last);
    }
  }

  lemma RemoveThenAppend<K(!new)>(s: seq<K>, k: K)
    requires Distinct(s)
    ensures Distinct(Remove(s, k) + [k])
  {
    RemoveDistinct(s, k);
    var kept := Remove(s, k);
    forall i | 0 <= i < |kept| ensures kept[i] != k {
      RemoveMembers(s, k, kept[i]);
    }
  }

  lemma {:induction false} LastDistinctMembers<K(!new)>(history: seq<K>, k: K)
    ensures k in LastDistinct(history) <==> k in history
  {
    if history != [] {
      var front, last := history[..|history| - 1], history[|history| - 1];
      assert history == front + [last];
      LastDistinctMembers(front, k);
      RemoveMembers(LastDistinct(front), last, k);
    }
  }

  // Trimming before a key is moved to the end loses nothing that trimming after it would keep.
  lemma TrimFirst<K(!new)>(all: seq<K>, k: K, limit: nat)
    requires Distinct(all) && limit > 0
    ensures Newest(Remove(Newest(all, limit), k) + [k], limit) == Newest(Remove(all, k) + [k], limit)
  {
    hide Newest, Remove;
    if |all| > limit {
      var cut, kept := all[..|all| - limit], all[|all| - limit..];
      assert all == cut + kept;
      assert Distinct(kept);
      NewestOfBack(all, cut, kept, limit);
      NewestAll(kept, limit);
      TrimBack(cut, kept, k, limit);
    } else {
      NewestAll(all, limit);
    }
  }

  lemma TrimBack<K(!new)>(cut: seq<K>, kept: seq<K>, k: K, limit: nat)
    requires Distinct(kept) && |kept| == limit > 0
    ensures Newest(Remove(kept, k) + [k], limit) == Newest(Remove(cut + kept, k) + [k], limit)
  {
    hide Newest, Remove;
    RemoveConcat(cut, kept, k);
    RemoveDistinct(kept, k);
    assert Remove(cut + kept, k) + [k] == Remove(cut, k) + (Remove(kept, k) + [k]);
    NewestOfBack(Remove(cut + kept, k) + [k], Remove(cut, k), Remove(kept, k) + [k], limit);
  }

  lemma NewestAll<K>(s: seq<K>, limit: nat)
    requires |s| <= limit && limit > 0
    ensures Newest(s, limit) == s
  {
  }

  lemma NewestOfBack<K>(s: seq<K>, front: seq<K>, back: seq<K>, limit: nat)
    requires s == front + back && |back| >= limit > 0
    ensures Newest(s, limit) == Newest(back, limit)
  {
  }

  // The step every cache makes keeps it equal to the newest distinct keys of the whole history.
  lemma RecentStep<K(!new)>(history: seq<K>, k: K, limit: nat)
    requires limit > 0
    ensures Recent(history + [k], limit) == Newest(Remove(Recent(history, limit), k) + [k], limit)
  {
    assert (history + [k])[..|history|] == history;
    LastDistinctIsDistinct(history);
    TrimFirst(LastDistinct(history), k, limit);
  }

  // ---- What being recent means ----

  lemma {:induction false} MembersCount<K(!new)>(s: seq<K>)
    requires Distinct(s)
    ensures |Members(s)| == |s|
  {
    if s != [] {
      var front, last := s[..|s| - 1], s[|s| - 1];
      MembersCount(front);
      assert s == front + [last];
      assert Members(s) == Members(front) + {last};
    }
  }

  lemma {:induction false} AfterPlace<K(!new)>(s: seq<K>, k: K, limit: nat)
    requires Distinct(s) && k in s && limit > 0
    ensures k in Newest(s, limit) <==> |After(s, k)| < limit
    ensures Distinct(After(s, k))
    ensures exists i :: 0 <= i < |s| && s[i] == k && After(s, k) == s[i + 1..]
  {
    var i :| 0 <= i < |s| && s[i] == k;
    AfterIs(s, i);
    assert k in Newest(s, limit) <==> i >= |s| - limit;
  }

  lemma {:induction false} AfterIs<K(!new)>(s: seq<K>, i: nat)
    requires Distinct(s) && i < |s|
    ensures After(s, s[i]) == s[i + 1..]
  {
    if i < |s| - 1 {
      AfterIs(s[..|s| - 1], i);
      assert s[i + 1..] == s[..|s| - 1][i + 1..] + [s[|s| - 1]];
    }
  }

  lemma {:induction false} AfterRemove<K(!new)>(s: seq<K>, x: K, k: K, y: K)
    requires x != k
    ensures y in After(Remove(s, x), k) <==> y in After(s, k) && y != x
  {
    if s != [] {
      var front, last := s[..|s| - 1], s[|s| - 1];
      AfterRemove(front, x, k, y);
      if last != x {
        assert (Remove(front, x) + [last])[..|Remove(front, x)|] == Remove(front, x);
      } else {
        assert Remove(front, x) + [] == Remove(front, x);
      }
    }
  }

  // The keys later than k are the same in the history and in its list of distinct keys.
  lemma {:induction false} LaterKeys<K(!new)>(history: seq<K>, k: K, y: K)
    requires k in history
    ensures y in After(LastDistinct(history), k) <==> y in After(history, k)
  {
    var front, last := history[..|history| - 1], history[|history| - 1];
    assert history == front + [last];
    var kept := Remove(LastDistinct(front), last);
    assert (kept + [last])[..|kept|] == kept;
    if last != k {
      LaterKeys(front, k, y);
      AfterRemove(LastDistinct(front), last, k, y);
    }
  }

  // A key is among the newest `limit` ones exactly when fewer than `limit` other keys came after it.
  lemma RecentMeans<K(!new)>(history: seq<K>, k: K, limit: nat)
    requires limit > 0
    ensures k in Recent(history, limit) <==> k in history && |Members(After(history, k))| < limit
  {
    var all := LastDistinct(history);
    LastDistinctIsDistinct(history);
    LastDistinctMembers(history, k);
    if k in history {
      AfterPlace(all, k, limit);
      MembersCount(After(all, k));
      assert Members(After(all, k)) == Members(After(history, k)) by {
        forall y ensures y in Members(After(all, k)) <==> y in Members(After(history, k)) {
          LaterKeys(history, k, y);
        }
      }
    }
  }

  // ---- The delivered map of the bridge core ----

  lemma RemoveFirst<K(!new)>(s: seq<K>)
    requires Distinct(s) && s != []
    ensures Remove(s, s[0]) == s[1..]
  {
    assert s == [s[0]] + s[1..];
    RemoveConcat([s[0]], s[1..], s[0]);
    RemoveAbsent(s[1..], s[0]);
    assert [s[0]][..0] == [];
  }

  const RECENT_TERMINAL_DELIVERY_LIMIT: nat := 512

  // `_recent_terminal_deliveries` and `_recent_completed_turns`: dictionaries whose values are all None.
  class RecentKeys<K(==,!new)> {
    var keys: seq<K>
    ghost var history: seq<K>

    ghost predicate Valid()
      reads this
    {
      keys == Recent(history, RECENT_TERMINAL_DELIVERY_LIMIT)
    }

    constructor ()
      ensures Valid() && history == []
    {
      keys, history := [], [];
    }

    // `_remember_terminal_delivery`, `_remember_turn_completion`
    method Remember(key: K)
      requires Valid()
      modifies this
      ensures Valid() && history == old(history) + [key]
    {
      hide LastDistinct;
      RecentStep(history, key, RECENT_TERMINAL_DELIVERY_LIMIT);
      LastDistinctIsDistinct(history);
      RemoveThenAppend(keys, key);
      keys := Remove(keys, key) + [key];
      history := history + [key];
      while |keys| > RECENT_TERMINAL_DELIVERY_LIMIT
        invariant Distinct(keys) && history == old(history) + [key]
        invariant Newest(keys, RECENT_TERMINAL_DELIVERY_LIMIT) == Recent(history, RECENT_TERMINAL_DELIVERY_LIMIT)
      {
        var oldest := keys[0];
        RemoveFirst(keys);
        keys := Remove(keys, oldest);
      }
    }

    // `key in self._recent_terminal_deliveries`
    method Contains(key: K) returns (known: bool)
      requires Valid()
      ensures known <==> key in Recent(history, RECENT_TERMINAL_DELIVERY_LIMIT)
      ensures known <==> key in history && |Members(After(history, key))| < 512
    {
      RecentMeans(history, key, RECENT_TERMINAL_DELIVERY_LIMIT);
      known := key in keys;
    }
  }

  // ---- Inbound messages ----

  const RECENT_INBOUND_MESSAGE_ID_LIMIT: nat := 1024
  const RECENT_INBOUND_RESPONSE_LIMIT: nat := 32
  const INBOUND_DEDUP_WINDOW_S := 2.0

  // What was recorded for a route; nothing for an unknown one.
  function At<V>(m: map<Route, seq<V>>, route: Route): seq<V> {
    if route in m then m[route] else []
  }

  function Ids<R>(recorded: seq<(string, R)>): (ids: seq<string>)
    ensures |ids| == |recorded|
  {
    if recorded == [] then [] else Ids(recorded[..|recorded| - 1]) + [recorded[|recorded| - 1].0]
  }

  // The response recorded last for an id.
  function LastResponse<R>(recorded: seq<(string, R)>, id: string): Option<R> {
    if recorded == [] then None
    else if recorded[|recorded| - 1].0 == id then Some(recorded[|recorded| - 1].1)
    else LastResponse(recorded[..|recorded| - 1], id)
  }

  // A response map that holds the newest responses, oldest first.
  ghost predicate HoldsNewest<R(!new)>(d: Dict<string, R>, recorded: seq<(string, R)>) {
    && d.Valid()
    && d.keys == Recent(Ids(recorded), RECENT_INBOUND_RESPONSE_LIMIT)
    && forall id :: id in d.vals ==> LastResponse(recorded, id) == Some(d.vals[id])
  }

  lemma PopIsRemove<R(!new)>(d: Dict<string, R>, k: string)
    requires d.Valid()
    ensures d.Pop(k).Valid() && d.Pop(k).keys == Remove(d.keys, k)
    ensures d.Pop(k).vals == map id | id in d.vals && id != k :: d.vals[id]
  {
    d.KeepValid(d.vals.Keys - {k});
    OnlyIsRemove(d.keys, d.vals.Keys, k);
  }

  lemma {:induction false} OnlyIsRemove<K(!new)>(s: seq<K>, ks: set<K>, k: K)
    requires forall x :: x in s ==> x in ks
    ensures Only(s, ks - {k}) == Remove(s, k)
  {
    if s != [] {
      OnlyIsRemove(s[..|s| - 1], ks, k);
    }
  }

  lemma ResponseStep<R(!new)>(recorded: seq<(string, R)>, id: string, response: R)
    ensures Ids(recorded + [(id, response)]) == Ids(recorded) + [id]
    ensures forall k :: LastResponse(recorded + [(id, response)], k)
                     == if k == id then Some(response) else LastResponse(recorded, k)
  {
    assert (recorded + [(id, response)])[..|recorded|] == recorded;
  }

  // Every response in the map is the last one recorded for its id.
  ghost predicate HoldsLast<R(!new)>(d: Dict<string, R>, recorded: seq<(string, R)>) {
    d.Valid() && forall id :: id in d.vals ==> LastResponse(recorded, id) == Some(d.vals[id])
  }

  lemma PopThenPut<R(!new)>(d: Dict<string, R>, id: string, response: R, recorded: seq<(string, R)>)
    requires HoldsNewest(d, recorded)
    ensures var r := d.Pop(id).Put(id, response);
            && HoldsLast(r, recorded + [(id, response)])
            && r.keys == Remove(d.keys, id) + [id]
            && Newest(r.keys, RECENT_INBOUND_RESPONSE_LIMIT)
            == Recent(Ids(recorded + [(id, response)]), RECENT_INBOUND_RESPONSE_LIMIT)
  {
    hide Recent, Newest, LastDistinct, LastResponse, Ids;
    ResponseStep(recorded, id, response);
    RecentStep(Ids(recorded), id, RECENT_INBOUND_RESPONSE_LIMIT);
    PopIsRemove(d, id);
    RemoveMembers(d.keys, id, id);
    d.Pop(id).PutValid(id, response);
  }

  // `for old in list(response_map)[: max(0, overflow)]: response_map.pop(old)`
  method TrimResponses<R(!new)>(d: Dict<string, R>, ghost recorded: seq<(string, R)>) returns (r: Dict<string, R>)
    requires HoldsLast(d, recorded)
    ensures HoldsLast(r, recorded) && r.keys == Newest(d.keys, 32)
  {
    hide LastResponse, HoldsLast;
    r := d;
    var names := r.keys;
    var overflow := |names| - RECENT_INBOUND_RESPONSE_LIMIT;
    var i := 0;
    while i < overflow
      invariant 0 <= i && (i == 0 || i <= overflow) && i <= |names|
      invariant HoldsLast(r, recorded) && r.keys == names[i..]
    {
      PopFirst(r, recorded, names, i);
      r := r.Pop(names[i]);
      i := i + 1;
    }
  }

  lemma PopFirst<R(!new)>(r: Dict<string, R>, recorded: seq<(string, R)>, names: seq<string>, i: nat)
    requires i < |names| && HoldsLast(r, recorded) && r.keys == names[i..]
    ensures HoldsLast(r.Pop(names[i]), recorded) && r.Pop(names[i]).keys == names[i + 1..]
  {
    hide LastResponse;
    PopIsRemove(r, names[i]);
    RemoveFirst(r.keys);
    assert r.keys[1..] == names[i + 1..];
  }

  // `response_map.pop(message_id)`, `response_map[message_id] = ...`, then the oldest overflow goes.
  method RememberResponse<R(!new)>(d: Dict<string, R>, id: string, response: R, ghost recorded: seq<(string, R)>)
    returns (r: Dict<string, R>)
    requires HoldsNewest(d, recorded)
    ensures HoldsNewest(r, recorded + [(id, response)])
  {
    hide Recent, Newest, LastDistinct, LastResponse, Ids;
    PopThenPut(d, id, response, recorded);
    r := TrimResponses(d.Pop(id).Put(id, response), recorded + [(id, response)]);
  }

  /**
   The inbound bookkeeping of `ConversationStore`. `processed` and `responded` are all the message ids
   and responses ever recorded, `noted` is when each fingerprint was last recorded, and `purged` is
   the latest time an expiry sweep ran.
   */
  class InboundLog<R(!new)> {
    var recentIds: map<Route, seq<string>>
    var responses: map<Route, Dict<string, R>>
    var fingerprints: map<Route, map<string, real>>
    ghost var processed: map<Route, seq<string>>
    ghost var responded: map<Route, seq<(string, R)>>
    ghost var noted: map<Route, map<string, real>>
    ghost var purged: real

    ghost predicate Valid()
      reads this
    {
      IdsOk(recentIds, processed) && ResponsesOk(responses, responded) && BucketsOk(fingerprints, noted, purged)
    }

    constructor ()
      ensures Valid() && processed == map[] && responded == map[] && noted == map[]
    {
      NothingRecent<R>();
      recentIds, responses, fingerprints := map[], map[], map[];
      processed, responded, noted, purged := map[], map[], map[], 0.0;
    }

    // `_record_inbound_message_processed`
    method RecordInboundMessageProcessed(route: Route, user: string, messageId: string, fingerprint: string,
                                         response: Option<R>, now: real)
      requires Valid()
      modifies this
      ensures Valid() && purged == old(purged)
      ensures processed == if messageId == "" then old(processed)
                           else old(processed)[route := At(old(processed), route) + [messageId]]
      ensures responded == if messageId == "" || response.None? then old(responded)
                           else old(responded)[route := At(old(responded), route) + [(messageId, response.value)]]
      ensures noted == if messageId != "" then old(noted)
                       else old(noted)[route := Noted(old(noted), route)[user + ":" + fingerprint := now]]
    {
      hide IdsOk, ResponsesOk, BucketsOk, Newest, Remove, HoldsNewest;
      if messageId == "" {
        var bucket := Noted(fingerprints, route);
        BucketsPut(fingerprints, noted, purged, route, user + ":" + fingerprint, now);
        fingerprints := fingerprints[route := bucket[user + ":" + fingerprint := now]];
        noted := noted[route := Noted(noted, route)[user + ":" + fingerprint := now]];
        return;
      }
      IdsPut(recentIds, processed, route, messageId);
      var ids := At(recentIds, route);
      ids := Remove(ids, messageId) + [messageId];
      recentIds := recentIds[route := Newest(ids, RECENT_INBOUND_MESSAGE_ID_LIMIT)];
      processed := processed[route := At(processed, route) + [messageId]];
      if response.Some? {
        KeptHolds(responses, responded, route);
        var kept := RememberResponse(Kept(responses, route), messageId, response.value, At(responded, route));
        ghost var all := At(responded, route) + [(messageId, response.value)];
        ResponsesPut(responses, responded, route, kept, all);
        responses := responses[route := kept];
        responded := responded[route := all];
      }
    }

    // `get_processed_inbound_response`: the last response of an id, while it is among the newest 32
    // ids that got one.
    method GetProcessedInboundResponse(route: Route, messageId: string) returns (r: Option<R>)
      requires Valid()
      ensures var recorded := At(responded, route);
              r == if messageId in Ids(recorded)
                      && |Members(After(Ids(recorded), messageId))| < 32
                   then LastResponse(recorded, messageId) else None
    {
      hide Recent, IdsOk, BucketsOk, ResponsesOk;
      var kept := Kept(responses, route);
      KeptHolds(responses, responded, route);
      RecentMeans(Ids(At(responded, route)), messageId, RECENT_INBOUND_RESPONSE_LIMIT);
      assert messageId in kept.keys <==> messageId in kept.vals;
      r := if messageId in kept.vals then Some(kept.vals[messageId]) else None;
    }

    // `should_drop_duplicate_inbound_message`: a message with an id is a duplicate exactly when fewer
    // than 1024 other ids were processed in its conversation after it; one without an id exactly when
    // its fingerprint was recorded in the last two seconds of a clock that does not run backwards.
    method ShouldDropDuplicate(route: Route, user: string, messageId: string, fingerprint: string, now: real)
      returns (drop: bool)
      requires Valid()
      modifies this
      ensures Valid() && processed == old(processed) && responded == old(responded) && noted == old(noted)
      ensures messageId != "" ==>
        (drop <==>
          && messageId in At(processed, route)
          && |Members(After(At(processed, route), messageId))| < 1024)
      ensures messageId == "" && now >= old(purged) ==>
        (drop <==>
          var times, key := Noted(noted, route), user + ":" + fingerprint;
          key in times && now - times[key] <= 2.0)
      ensures purged == old(purged) || purged == Later(old(purged), now)
    {
      hide Recent, ResponsesOk, BucketsOk, After, Members;
      RecentMeans(At(processed, route), messageId, RECENT_INBOUND_MESSAGE_ID_LIMIT);
      if messageId != "" && messageId in At(recentIds, route) {
        return true;
      }
      BucketsPurge(fingerprints, noted, purged, route, now);
      var bucket := Purged(Noted(fingerprints, route), now);
      fingerprints := fingerprints[route := bucket];
      purged := Later(purged, now);
      if messageId != "" {
        return false;
      }
      var key := user + ":" + fingerprint;
      BucketAnswers(fingerprints, noted, route, old(purged), now, key);
      drop := Fresh(bucket, key, now);
    }
  }

  function Noted(noted: map<Route, map<string, real>>, route: Route): map<string, real> {
    if route in noted then noted[route] else map[]
  }

  // A bucket holds the last time of each fingerprint, except those a sweep found expired.
  ghost predicate Bucket(bucket: map<string, real>, noted: map<string, real>, purged: real) {
    && (forall f :: f in bucket ==> f in noted && bucket[f] == noted[f])
    && (forall f :: f in noted && f !in bucket ==> purged - noted[f] > INBOUND_DEDUP_WINDOW_S)
  }

  function Kept<R(!new)>(responses: map<Route, Dict<string, R>>, route: Route): Dict<string, R> {
    if route in responses then responses[route] else Empty()
  }

  function Later(a: real, b: real): real {
    if b >= a then b else a
  }

  // The expiry sweep of one bucket.
  function Purged(bucket: map<string, real>, now: real): map<string, real> {
    map f | f in bucket && !(now - bucket[f] > INBOUND_DEDUP_WINDOW_S) :: bucket[f]
  }

  // ---- What the three maps are, route by route ----

  ghost predicate IdsOk(recentIds: map<Route, seq<string>>, processed: map<Route, seq<string>>) {
    forall route :: At(recentIds, route) == Recent(At(processed, route), RECENT_INBOUND_MESSAGE_ID_LIMIT)
  }

  lemma IdsPut(recentIds: map<Route, seq<string>>, processed: map<Route, seq<string>>, route: Route, id: string)
    requires IdsOk(recentIds, processed)
    ensures IdsOk(
      recentIds[route := Newest(Remove(At(recentIds, route), id) + [id], RECENT_INBOUND_MESSAGE_ID_LIMIT)],
      processed[route := At(processed, route) + [id]])
  {
    hide Recent, Newest, Remove;
    RecentStep(At(processed, route), id, RECENT_INBOUND_MESSAGE_ID_LIMIT);
    var ids := Newest(Remove(At(recentIds, route), id) + [id], RECENT_INBOUND_MESSAGE_ID_LIMIT);
    var recentIds', processed' := recentIds[route := ids], processed[route := At(processed, route) + [id]];
    forall other ensures At(recentIds', other) == Recent(At(processed', other), RECENT_INBOUND_MESSAGE_ID_LIMIT) {
      assert At(recentIds, other) == Recent(At(processed, other), RECENT_INBOUND_MESSAGE_ID_LIMIT);
    }
  }

  ghost predicate ResponsesOk<R(!new)>(
      responses: map<Route, Dict<string, R>>, responded: map<Route, seq<(string, R)>>)
  {
    forall route :: HoldsNewest(Kept(responses, route), At(responded, route))
  }

  lemma KeptHolds<R(!new)>(responses: map<Route, Dict<string, R>>, responded: map<Route, seq<(string, R)>>,
      route: Route)
    requires ResponsesOk(responses, responded)
    ensures HoldsNewest(Kept(responses, route), At(responded, route))
  {
  }

  lemma ResponsesPut<R(!new)>(responses: map<Route, Dict<string, R>>, responded: map<Route, seq<(string, R)>>,
                              route: Route, kept: Dict<string, R>, all: seq<(string, R)>)
    requires ResponsesOk(responses, responded) && HoldsNewest(kept, all)
    ensures ResponsesOk(responses[route := kept], responded[route := all])
  {
    hide HoldsNewest;
    var responses', responded' := responses[route := kept], responded[route := all];
    forall other ensures HoldsNewest(Kept(responses', other), At(responded', other)) {
      assert HoldsNewest(Kept(responses, other), At(responded, other));
    }
  }

  ghost predicate BucketsOk(fingerprints: map<Route, map<string, real>>, noted: map<Route, map<string, real>>,
      purged: real)
  {
    forall route :: Bucket(Noted(fingerprints, route), Noted(noted, route), purged)
  }

  lemma BucketsPut(fingerprints: map<Route, map<string, real>>, noted: map<Route, map<string, real>>, purged: real,
                   route: Route, f: string, now: real)
    requires BucketsOk(fingerprints, noted, purged)
    ensures BucketsOk(fingerprints[route := Noted(fingerprints, route)[f := now]],
                      noted[route := Noted(noted, route)[f := now]], purged)
  {
    var later := fingerprints[route := Noted(fingerprints, route)[f := now]];
    var all := noted[route := Noted(noted, route)[f := now]];
    forall other ensures Bucket(Noted(later, other), Noted(all, other), purged) {
      assert Bucket(Noted(fingerprints, other), Noted(noted, other), purged);
    }
  }

  lemma BucketsPurge(fingerprints: map<Route, map<string, real>>, noted: map<Route, map<string, real>>, purged: real,
                     route: Route, now: real)
    requires BucketsOk(fingerprints, noted, purged)
    ensures BucketsOk(fingerprints[route := Purged(Noted(fingerprints, route), now)], noted, Later(purged, now))
  {
    var later := fingerprints[route := Purged(Noted(fingerprints, route), now)];
    forall other ensures Bucket(Noted(later, other), Noted(noted, other), Later(purged, now)) {
      assert Bucket(Noted(fingerprints, other), Noted(noted, other), purged);
    }
  }

  lemma BucketAnswers(fingerprints: map<Route, map<string, real>>, noted: map<Route, map<string, real>>,
                      route: Route, purged: real, now: real, f: string)
    requires BucketsOk(fingerprints, noted, Later(purged, now))
    ensures now >= purged ==> (Fresh(Noted(fingerprints, route), f, now) <==> Fresh(Noted(noted, route), f, now))
  {
    assert Bucket(Noted(fingerprints, route), Noted(noted, route), Later(purged, now));
  }

  // Recorded within the window.
  predicate Fresh(bucket: map<string, real>, f: string, now: real) {
    f in bucket && now - bucket[f] <= INBOUND_DEDUP_WINDOW_S
  }

  lemma NothingRecent<R(!new)>()
    ensures Recent<string>([], RECENT_INBOUND_MESSAGE_ID_LIMIT) == []
    ensures HoldsNewest(Empty<string, R>(), [])
  {
  }
}
