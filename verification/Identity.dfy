/**
 Delivery identities (src/imcodex/bridge/terminal_identity.py): the bytes hashed into a delivery id
 determine the tuple they came from, and the live path and the recovery path name an answer alike.
 SHA-256 is a function parameter, assumed injective where a lemma needs it.
 */
module Identity {
  import opened Prelude
  import Text

  type Hash = seq<Byte> -> string

  ghost predicate Injective(h: Hash) {
    forall a, b :: h(a) == h(b) ==> a == b
  }

  // ---- UTF-8 ----

  // `char.encode("utf-8")`
  function EncodeChar(c: char): (bytes: seq<Byte>)
    ensures 1 <= |bytes| <= 4
  {
    var n := c as int;
    if n < 0x80 then [n as Byte]
    else if n < 0x800 then [(0xC0 + n / 0x40) as Byte, (0x80 + n % 0x40) as Byte]
    else if n < 0x10000 then
      [(0xE0 + n / 0x1000) as Byte, (0x80 + n / 0x40 % 0x40) as Byte, (0x80 + n % 0x40) as Byte]
    else
      [(0xF0 + n / 0x40000) as Byte, (0x80 + n / 0x1000 % 0x40) as Byte,
       (0x80 + n / 0x40 % 0x40) as Byte, (0x80 + n % 0x40) as Byte]
  }

  function Encode(s: string): seq<Byte> {
    if s == "" then [] else EncodeChar(s[0]) + Encode(s[1..])
  }

  // How many bytes the character that starts with this byte takes.
  function Width(first: Byte): nat {
    if first < 0x80 then 1 else if first < 0xE0 then 2 else if first < 0xF0 then 3 else 4
  }

  function CodePoint(bytes: seq<Byte>): int
    requires bytes != [] && |bytes| == Width(bytes[0])
  {
    var first := bytes[0] as int;
    if |bytes| == 1 then first
    else if |bytes| == 2 then (first - 0xC0) * 0x40 + Tail(bytes[1])
    else if |bytes| == 3 then ((first - 0xE0) * 0x40 + Tail(bytes[1])) * 0x40 + Tail(bytes[2])
    else (((first - 0xF0) * 0x40 + Tail(bytes[1])) * 0x40 + Tail(bytes[2])) * 0x40 + Tail(bytes[3])
  }

  function Tail(b: Byte): int {
    b as int - 0x80
  }

  lemma Digits(n: nat)
    ensures n / 0x40 / 0x40 == n / 0x1000 && n / 0x1000 / 0x40 == n / 0x40000
    ensures n == n / 0x40 * 0x40 + n % 0x40
  {
  }

  lemma CharDecodes(c: char)
    ensures var bytes := EncodeChar(c); |bytes| == Width(bytes[0]) && CodePoint(bytes) == c as int
  {
    var n := c as int;
    Digits(n);
    Digits(n / 0x40);
    Digits(n / 0x1000);
    if n < 0x80 {
    } else if n < 0x800 {
      assert n / 0x40 < 0x20;
    } else if n < 0x10000 {
      assert n / 0x1000 < 0x10;
    } else {
      assert n / 0x40000 < 8;
    }
  }

  lemma {:induction false} EncodeInjective(a: string, b: string)
    requires Encode(a) == Encode(b)
    ensures a == b
  {
    if a != "" && b != "" {
      var x, y := EncodeChar(a[0]), EncodeChar(b[0]);
      CharDecodes(a[0]);
      CharDecodes(b[0]);
      assert Encode(a)[0] == x[0] && Encode(b)[0] == y[0];
      assert Encode(a)[..|x|] == x && Encode(b)[..|y|] == y;
      assert Encode(a)[|x|..] == Encode(a[1..]) && Encode(b)[|y|..] == Encode(b[1..]);
      EncodeInjective(a[1..], b[1..]);
      assert a == [a[0]] + a[1..] && b == [b[0]] + b[1..];
    }
  }

  // ---- Length-prefixed framing ----

  const MAX_LENGTH := 0x1_0000_0000_0000_0000

  // `n.to_bytes(k, "big")`
  function BigEndian(n: nat, k: nat): (bytes: seq<Byte>)
    ensures |bytes| == k
  {
    if k == 0 then [] else BigEndian(n / 256, k - 1) + [(n % 256) as Byte]
  }

  function FromBigEndian(bytes: seq<Byte>): nat {
    if bytes == [] then 0 else FromBigEndian(bytes[..|bytes| - 1]) * 256 + bytes[|bytes| - 1] as nat
  }

  function Power256(k: nat): nat {
    if k == 0 then 1 else 256 * Power256(k - 1)
  }

  lemma {:induction false} BigEndianReads(n: nat, k: nat)
    requires n < Power256(k)
    ensures FromBigEndian(BigEndian(n, k)) == n
  {
    if k > 0 {
      BigEndianReads(n / 256, k - 1);
      assert BigEndian(n, k)[..k - 1] == BigEndian(n / 256, k - 1);
    }
  }

  // The bytes `_stable_delivery_id` feeds to the digest.
  function Framed(values: seq<string>): seq<Byte> {
    if values == [] then []
    else
      var encoded := Encode(values[0]);
      BigEndian(|encoded|, 8) + encoded + Framed(values[1..])
  }

  // `to_bytes(8, "big")` raises an error for longer values.
  predicate Frameable(values: seq<string>) {
    forall k :: 0 <= k < |values| ==> |Encode(values[k])| < MAX_LENGTH
  }

  lemma Framing(encoded: seq<Byte>, rest: seq<Byte>, framed: seq<Byte>)
    requires framed == BigEndian(|encoded|, 8) + encoded + rest && |encoded| < MAX_LENGTH
    ensures framed[..8] == BigEndian(|encoded|, 8)
    ensures FromBigEndian(framed[..8]) == |encoded|
    ensures framed[8..8 + |encoded|] == encoded && framed[8 + |encoded|..] == rest
  {
    EightBytes();
    hide *;
    BigEndianReads(|encoded|, 8);
    Slices(BigEndian(|encoded|, 8), encoded, rest, framed);
  }

  lemma Slices(prefix: seq<Byte>, middle: seq<Byte>, rest: seq<Byte>, all: seq<Byte>)
    requires all == prefix + middle + rest
    ensures |prefix| + |middle| <= |all| && all[..|prefix|] == prefix
    ensures all[|prefix|..|prefix| + |middle|] == middle && all[|prefix| + |middle|..] == rest
  {
  }

  lemma EightBytes()
    ensures Power256(8) == MAX_LENGTH
  {
    assert Power256(4) == 0x1_0000_0000;
  }

  // The framing is injective on lists of any lengths.
  lemma {:induction false} FramedInjective(a: seq<string>, b: seq<string>)
    requires Frameable(a) && Frameable(b) && Framed(a) == Framed(b)
    ensures a == b
  {
    hide BigEndian, FromBigEndian, Encode;
    if a != [] && b != [] {
      Framing(Encode(a[0]), Framed(a[1..]), Framed(a));
      Framing(Encode(b[0]), Framed(b[1..]), Framed(b));
      EncodeInjective(a[0], b[0]);
      FramedInjective(a[1..], b[1..]);
      assert a == [a[0]] + a[1..] && b == [b[0]] + b[1..];
    }
  }

  datatype Error = TooLong

  // `_stable_delivery_id`
  method StableDeliveryId(h: Hash, values: seq<string>) returns (r: Result<string, Error>)
    ensures r == if Frameable(values) then Ok(DeliveryId(h, values)) else Err(TooLong)
  {
    hide BigEndian, Encode, Framed;
    var fed: seq<Byte> := [];
    FramedEnds(values);
    for i := 0 to |values|
      invariant fed + Framed(values[i..]) == Framed(values)
      invariant Frameable(values[..i])
    {
      var encoded := Encode(values[i]);
      if |encoded| >= MAX_LENGTH {
        return Err(TooLong);
      }
      FramedStep(values, i, fed);
      fed := fed + BigEndian(|encoded|, 8);
      fed := fed + encoded;
    }
    assert values[..|values|] == values;
    assert fed == fed + Framed(values[|values|..]) == Framed(values);
    return Ok("imcodex:native:" + h(fed));
  }

  lemma FramedStep(values: seq<string>, i: nat, fed: seq<Byte>)
    requires i < |values|
    ensures var encoded := Encode(values[i]);
            fed + Framed(values[i..]) == ((fed + BigEndian(|encoded|, 8)) + encoded) + Framed(values[i + 1..])
  {
    hide BigEndian, Encode;
    assert values[i..][1..] == values[i + 1..];
  }

  lemma FramedEnds(values: seq<string>)
    ensures Framed(values[0..]) == Framed(values) && Framed(values[|values|..]) == []
  {
    assert values[0..] == values;
  }

  predicate Ascii(s: string) {
    forall i :: 0 <= i < |s| ==> s[i] as int < 0x80
  }

  function Bytes(s: string): (r: seq<Byte>)
    requires Ascii(s)
    ensures |r| == |s| && forall i :: 0 <= i < |r| ==> r[i] as int == s[i] as int
  {
    seq(|s|, i requires 0 <= i < |s| => (s[i] as int) as Byte)
  }

  lemma {:induction false} AsciiEncodes(s: string)
    requires Ascii(s)
    ensures Encode(s) == Bytes(s)
  {
    if s != "" {
      AsciiEncodes(s[1..]);
      assert Bytes(s) == [(s[0] as int) as Byte] + Bytes(s[1..]);
    }
  }

  lemma {:induction false} SmallBigEndian(n: nat, k: nat)
    requires n < 256 && k > 0
    ensures BigEndian(n, k) == seq(k - 1, _ => 0 as Byte) + [n as Byte]
  {
    if k > 1 {
      ZeroBigEndian(k - 1);
    }
  }

  lemma {:induction false} ZeroBigEndian(k: nat)
    ensures BigEndian(0, k) == seq(k, _ => 0 as Byte)
  {
    if k > 0 {
      ZeroBigEndian(k - 1);
    }
  }

  /** A short ASCII value is framed as seven zero bytes, its length and its characters, in front of the values
      behind it. */
  lemma ShortFraming(value: string, rest: seq<string>)
    requires Ascii(value) && |value| < 256
    ensures Framed([value] + rest) == [0, 0, 0, 0, 0, 0, 0, |value| as Byte] + Bytes(value) + Framed(rest)
    ensures Framed([]) == []
  {
    AsciiEncodes(value);
    SmallBigEndian(|value|, 8);
    hide BigEndian, Encode;
    var prefix: seq<Byte> := seq(7, _ => 0 as Byte);
    assert prefix == [0, 0, 0, 0, 0, 0, 0];
    assert ([value] + rest)[1..] == rest;
  }

  function DeliveryId(h: Hash, values: seq<string>): string {
    "imcodex:native:" + h(Framed(values))
  }

  function ItemDeliveryId(h: Hash, thread: string, turn: string, item: string): string {
    DeliveryId(h, ["terminal-item", thread, turn, item])
  }

  function TurnDeliveryId(h: Hash, thread: string, turn: string): string {
    DeliveryId(h, ["terminal-turn", thread, turn])
  }

  /** What the ids are hashes of. */
  lemma IdsName(h: Hash, thread: string, turn: string, item: string)
    ensures ItemDeliveryId(h, thread, turn, item)
         == "imcodex:native:" + h(Framed(["terminal-item"] + [thread, turn, item]))
    ensures TurnDeliveryId(h, thread, turn) == "imcodex:native:" + h(Framed(["terminal-turn"] + [thread, turn]))
  {
    hide Framed;
    assert ["terminal-item"] + [thread, turn, item] == ["terminal-item", thread, turn, item];
    assert ["terminal-turn"] + [thread, turn] == ["terminal-turn", thread, turn];
  }

  predicate Short(s: string) {
    |Encode(s)| < MAX_LENGTH
  }

  lemma SameIdSameTuple(h: Hash, a: seq<string>, b: seq<string>)
    requires Injective(h) && Frameable(a) && Frameable(b)
    ensures DeliveryId(h, a) == DeliveryId(h, b) <==> a == b
  {
    if DeliveryId(h, a) == DeliveryId(h, b) {
      var prefix := "imcodex:native:";
      assert h(Framed(a)) == DeliveryId(h, a)[|prefix|..];
      assert h(Framed(b)) == DeliveryId(h, b)[|prefix|..];
      FramedInjective(a, b);
    }
  }

  lemma TagsAreShort()
    ensures Short("terminal-item") && Short("terminal-turn")
  {
    EncodeLength("terminal-item");
    EncodeLength("terminal-turn");
  }

  lemma {:induction false} EncodeLength(s: string)
    ensures |Encode(s)| <= 4 * |s|
  {
    if s != "" {
      EncodeLength(s[1..]);
    }
  }

  // Delivery ids coincide only for the same answer of the same turn.
  lemma DeliveryIdsAreDistinct(h: Hash, thread: string, turn: string, item: string,
                               thread': string, turn': string, item': string)
    requires Injective(h)
    requires Short(thread) && Short(turn) && Short(item) && Short(thread') && Short(turn') && Short(item')
    ensures ItemDeliveryId(h, thread, turn, item) == ItemDeliveryId(h, thread', turn', item')
       <==> (thread, turn, item) == (thread', turn', item')
    ensures TurnDeliveryId(h, thread, turn) == TurnDeliveryId(h, thread', turn') <==> (thread, turn) == (thread', turn')
    ensures ItemDeliveryId(h, thread, turn, item) != TurnDeliveryId(h, thread', turn')
  {
    hide Encode;
    TagsAreShort();
    var a, a' := ["terminal-item", thread, turn, item], ["terminal-item", thread', turn', item'];
    var b, b' := ["terminal-turn", thread, turn], ["terminal-turn", thread', turn'];
    SameIdSameTuple(h, a, a');
    SameIdSameTuple(h, b, b');
    SameIdSameTuple(h, a, b');
    assert a[1] == thread && a[2] == turn && a[3] == item;
    assert a'[1] == thread' && a'[2] == turn' && a'[3] == item';
    assert b[1] == thread && b[2] == turn && b'[1] == thread' && b'[2] == turn';
    assert |a| != |b'|;
  }

  // ---- Answers ----

  /**
   A native item as the bridge reads it. A missing field is empty; `body` stands for everything else,
   and `staged` and `images` are what staging its native files and its Markdown images answers.
   */
  datatype Item = Item(
    id: string,
    itemId: string,
    kind: string,
    phase: Option<string>,
    text: string,
    body: string,
    staged: Result<seq<Artifact>, string>,
    images: Result<seq<Artifact>, string>)

  datatype Artifact = Artifact(path: string, data: string)

  // A final answer with visible text.
  predicate IsAnswer(item: Item) {
    item.kind == "agentMessage" && item.phase == Some("final_answer") && Text.Strip(item.text) != ""
  }

  // How an item is named: `canonical` is its sorted JSON text.
  datatype Naming = Naming(h: Hash, canonical: Item -> string)

  // The native id of an item, if it has one.
  function NativeId(item: Item, fallback: string): string {
    if item.id != "" then item.id else if fallback != "" then fallback else item.itemId
  }

  // `terminal_item_key`
  function ItemKey(n: Naming, item: Item, fallback: string): string {
    var id := NativeId(item, fallback);
    if id != "" then id else "payload:" + n.h(Encode(n.canonical(item)))
  }

  datatype Identity = Identity(deliveryId: string, thread: string, turn: string)

  function AnswerIdentity(n: Naming, thread: string, turn: string, item: Item, fallback: string): Identity {
    Identity(ItemDeliveryId(n.h, thread, turn, ItemKey(n, item, fallback)), thread, turn)
  }

  function TurnIdentity(n: Naming, thread: string, turn: string): Identity {
    Identity(TurnDeliveryId(n.h, thread, turn), thread, turn)
  }

  // The parts of a notification that name a delivery; `turnObject` is the id inside its turn object.
  datatype Event = Event(kind: string, thread: string, turn: string, turnObject: string, item: Option<Item>,
    itemId: string)

  // `event_terminal_key`
  function EventTurn(e: Event): Option<(string, string)> {
    var turn := if e.turn != "" then e.turn else e.turnObject;
    if e.thread == "" || turn == "" then None else Some((e.thread, turn))
  }

  // `event_terminal_identity`
  function EventIdentity(n: Naming, e: Event): Option<Identity> {
    match EventTurn(e)
    case None => None
    case Some((thread, turn)) =>
      if e.kind == "turn_completed" then Some(TurnIdentity(n, thread, turn))
      else if e.kind == "item_completed" && e.item.Some? && IsAnswer(e.item.value)
      then Some(AnswerIdentity(n, thread, turn, e.item.value, e.itemId))
      else None
  }

  // The answers of a turn in order: `recovered_turn_final_items`.
  function Answers(items: seq<Item>): (r: seq<Item>)
    ensures |r| <= |items| && forall k :: 0 <= k < |r| ==> IsAnswer(r[k])
  {
    if items == [] then []
    else
      var last := items[|items| - 1];
      Answers(items[..|items| - 1]) + if IsAnswer(last) then [last] else []
  }

  function AnswerIdentities(n: Naming, thread: string, turn: string, answers: seq<Item>): (r: seq<Identity>)
    ensures |r| == |answers|
    ensures forall k :: 0 <= k < |r| ==> r[k] == AnswerIdentity(n, thread, turn, answers[k], "")
  {
    seq(|answers|, k requires 0 <= k < |answers| => AnswerIdentity(n, thread, turn, answers[k], ""))
  }

  predicate DistinctIds(identities: seq<Identity>) {
    forall i, j :: 0 <= i < j < |identities| ==> identities[i].deliveryId != identities[j].deliveryId
  }

  datatype RecoveryError = NoDistinctIdentity

  // `recovered_turn_identities`
  function RecoveredIdentities(n: Naming, thread: string, turn: string, items: seq<Item>, fallback: bool)
    : Result<seq<Identity>, RecoveryError>
  {
    if thread == "" || turn == "" then Ok([])
    else
      var answers := Answers(items);
      var identities := AnswerIdentities(n, thread, turn, answers);
      if !DistinctIds(identities) then Err(NoDistinctIdentity)
      else Ok(identities + if fallback || answers == [] then [TurnIdentity(n, thread, turn)] else [])
  }

  predicate ShortKeys(n: Naming, items: seq<Item>) {
    forall k :: 0 <= k < |items| ==> Short(ItemKey(n, items[k], ""))
  }

  predicate DistinctKeys(n: Naming, items: seq<Item>) {
    forall i, j :: 0 <= i < j < |items| ==> ItemKey(n, items[i], "") != ItemKey(n, items[j], "")
  }

  // Recovery refuses a turn exactly when two of its answers have the same key; otherwise every
  // delivery of the turn, the turn message included, has its own id.
  lemma RecoveredIdentitiesAreDistinct(n: Naming, thread: string, turn: string, items: seq<Item>, fallback: bool)
    requires Injective(n.h) && Short(thread) && Short(turn) && ShortKeys(n, Answers(items))
    requires thread != "" && turn != ""
    ensures var r := RecoveredIdentities(n, thread, turn, items, fallback);
            && (r.Ok? <==> DistinctKeys(n, Answers(items)))
            && (r.Ok? ==> DistinctIds(r.value))
  {
    hide ItemKey, ItemDeliveryId, TurnDeliveryId, Short;
    var answers := Answers(items);
    forall i, j | 0 <= i < |answers| && 0 <= j < |answers|
      ensures AnswerIdentity(n, thread, turn, answers[i], "").deliveryId
           == AnswerIdentity(n, thread, turn, answers[j], "").deliveryId
         <==> ItemKey(n, answers[i], "") == ItemKey(n, answers[j], "")
      ensures AnswerIdentity(n, thread, turn, answers[i], "").deliveryId != TurnIdentity(n, thread, turn).deliveryId
    {
      DeliveryIdsAreDistinct(n.h, thread, turn, ItemKey(n, answers[i], ""), thread, turn, ItemKey(n, answers[j], ""));
    }
  }

  /** What recovery names besides the answers: the turn itself, last, when it has no answer or its message is
      delivered too. Without the two ids it names nothing. */
  lemma TurnIsNamedLast(n: Naming, thread: string, turn: string, items: seq<Item>, fallback: bool)
    ensures thread == "" || turn == "" ==> RecoveredIdentities(n, thread, turn, items, fallback) == Ok([])
    ensures var r, answers := RecoveredIdentities(n, thread, turn, items, fallback), Answers(items);
      thread != "" && turn != "" && r.Ok? ==>
        && |r.value| == |answers| + (if fallback || answers == [] then 1 else 0)
        && (forall k :: 0 <= k < |answers| ==> r.value[k] == AnswerIdentity(n, thread, turn, answers[k], ""))
        && (|r.value| > |answers| ==> r.value[|answers|] == Identity(TurnDeliveryId(n.h, thread, turn), thread, turn))
  {
    hide ItemDeliveryId, TurnDeliveryId, ItemKey, Answers;
  }

  // Its item is a final answer with visible text.
  predicate CompletesAnswer(e: Event) {
    e.item.Some? && e.item.value.kind == "agentMessage" && e.item.value.phase == Some("final_answer")
    && !Text.Blank(e.item.value.text)
  }

  /** A notification carries a delivery exactly when it completes a turn, or a final answer with visible
      text, of a thread and a turn it names; a turn named only by its turn object counts as named. */
  lemma EventsThatDeliver(n: Naming, e: Event)
    ensures EventTurn(e).Some? <==> e.thread != "" && (e.turn != "" || e.turnObject != "")
    ensures EventTurn(e).Some? ==> EventTurn(e).value == (e.thread, if e.turn != "" then e.turn else e.turnObject)
    ensures EventIdentity(n, e).Some? <==>
      EventTurn(e).Some? && (e.kind == "turn_completed" || (e.kind == "item_completed" && CompletesAnswer(e)))
    ensures EventIdentity(n, e).Some? ==>
      && (EventIdentity(n, e).value.thread, EventIdentity(n, e).value.turn) == EventTurn(e).value
      && (e.kind == "turn_completed" ==>
            EventIdentity(n, e).value.deliveryId == TurnDeliveryId(n.h, EventTurn(e).value.0, EventTurn(e).value.1))
  {
    hide ItemDeliveryId, TurnDeliveryId, ItemKey, Text.Strip, Text.Blank;
    if e.item.Some? { Text.StripBlank(e.item.value.text); }
  }

  /** Answers without any id are told apart by everything in them. */
  lemma NamelessAnswers(n: Naming, a: Item, b: Item)
    requires Injective(n.h) && NativeId(a, "") == "" && NativeId(b, "") == ""
    ensures ItemKey(n, a, "") == ItemKey(n, b, "") <==> n.canonical(a) == n.canonical(b)
    ensures "payload:" <= ItemKey(n, a, "")
  {
    hide Encode;
    var x, y := Encode(n.canonical(a)), Encode(n.canonical(b));
    if ItemKey(n, a, "") == ItemKey(n, b, "") {
      assert n.h(x) == ItemKey(n, a, "")[|"payload:"|..] == n.h(y);
      EncodeInjective(n.canonical(a), n.canonical(b));
    }
  }

  // An answer seen live and seen again in a snapshot gets the same delivery id exactly when the
  // notification names it as the snapshot does. With an id of its own it always does, whatever else
  // changed in the item.
  lemma LiveIsRecovered(n: Naming, e: Event, live: Item, recovered: Item)
    requires Injective(n.h)
    requires EventTurn(e).Some? && e.kind == "item_completed" && e.item == Some(live) && IsAnswer(live)
    requires Short(EventTurn(e).value.0) && Short(EventTurn(e).value.1)
    requires Short(ItemKey(n, live, e.itemId)) && Short(ItemKey(n, recovered, ""))
    ensures var (thread, turn) := EventTurn(e).value;
            && (EventIdentity(n, e) == Some(AnswerIdentity(n, thread, turn, recovered, ""))
                <==> ItemKey(n, live, e.itemId) == ItemKey(n, recovered, ""))
            && (live.id == recovered.id != "" ==>
                  EventIdentity(n, e) == Some(AnswerIdentity(n, thread, turn, recovered, "")))
  {
    hide ItemDeliveryId, TurnDeliveryId, Short;
    var (thread, turn) := EventTurn(e).value;
    DeliveryIdsAreDistinct(n.h, thread, turn, ItemKey(n, live, e.itemId), thread, turn, ItemKey(n, recovered, ""));
  }

  // An answer named only by the notification around it has another delivery id when it is recovered.
  lemma UnnamedAnswerChangesId(n: Naming, e: Event, item: Item)
    requires Injective(n.h)
    requires EventTurn(e).Some? && e.kind == "item_completed" && e.item == Some(item) && IsAnswer(item)
    requires Short(EventTurn(e).value.0) && Short(EventTurn(e).value.1)
    requires Short(ItemKey(n, item, e.itemId)) && Short(ItemKey(n, item, ""))
    ensures var (thread, turn) := EventTurn(e).value;
            && (EventIdentity(n, e) != Some(AnswerIdentity(n, thread, turn, item, ""))
                <==> item.id == "" && e.itemId != "" && e.itemId != ItemKey(n, item, ""))
  {
    hide ItemDeliveryId, TurnDeliveryId, Short;
    LiveIsRecovered(n, e, item, item);
  }

  // A completed answer without any id of its own, in a notification that gives it one.
  const UNNAMED := Item("", "", "agentMessage", Some("final_answer"), "done", "", Ok([]), Ok([]))
  const UNNAMED_EVENT := Event("item_completed", "thread", "turn", "", Some(UNNAMED), "item-1")

  /** Such an answer is delivered under one id when it is seen live and under another when the turn is
      read back, so neither delivery is recognized as a repetition of the other. */
  lemma UnnamedAnswerHasTwoIds(n: Naming)
    requires Injective(n.h) && Short(ItemKey(n, UNNAMED, ""))
    ensures var live := EventIdentity(n, UNNAMED_EVENT);
            var recovered := RecoveredIdentities(n, "thread", "turn", [UNNAMED], false);
            && live.Some? && recovered.Ok? && |recovered.value| == 1
            && live.value.deliveryId != recovered.value[0].deliveryId
  {
    UnnamedKeysDiffer(n);
    OneAnswer(n);
    UnnamedEvent(n);
    ShortNames();
    hide *;
    DeliveryIdsAreDistinct(n.h, "thread", "turn", "item-1", "thread", "turn", ItemKey(n, UNNAMED, ""));
  }

  lemma ShortNames()
    ensures Short("thread") && Short("turn") && Short("item-1")
  {
    hide Encode;
    EncodeLength("thread");
    EncodeLength("turn");
    EncodeLength("item-1");
  }

  lemma UnnamedKeysDiffer(n: Naming)
    ensures ItemKey(n, UNNAMED, "") != "item-1"
  {
    hide Encode;
    assert ItemKey(n, UNNAMED, "")[0] == 'p';
  }

  lemma UnnamedEvent(n: Naming)
    ensures IsAnswer(UNNAMED)
    ensures EventIdentity(n, UNNAMED_EVENT) ==
      Some(Identity(ItemDeliveryId(n.h, "thread", "turn", "item-1"), "thread", "turn"))
  {
    hide ItemDeliveryId, Text.Strip;
    Text.StripTrimmed("done");
  }

  lemma OneAnswer(n: Naming)
    ensures RecoveredIdentities(n, "thread", "turn", [UNNAMED], false)
         == Ok([Identity(ItemDeliveryId(n.h, "thread", "turn", ItemKey(n, UNNAMED, "")), "thread", "turn")])
  {
    UnnamedEvent(n);
    hide ItemDeliveryId, IsAnswer, ItemKey;
    AnswersOfOne(UNNAMED);
    var identities := AnswerIdentities(n, "thread", "turn", [UNNAMED]);
    assert identities == [AnswerIdentity(n, "thread", "turn", UNNAMED, "")];
    assert identities + [] == identities;
  }

  lemma AnswersOfOne(item: Item)
    requires IsAnswer(item)
    ensures Answers([item]) == [item]
  {
    hide IsAnswer;
    assert [item][..0] == [];
  }
}
