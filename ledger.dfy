/** The ledger of sent alerts: which message announced each listing key, what
    each message currently shows, and the expiry timers that forget both
    after 24 hours. */
module Ledger {
  import opened Wrappers
  import opened Listings
  import opened OrderedMaps
  import opened Differ
  import opened Composer

  /** How long a sent alert stays editable: 24 hours, in milliseconds. */
  const RetentionMs := 24 * 60 * 60 * 1000

  /** What a sent alert shows: the id of the Telegram message (the only part
      of the message object kept here) and its available and unavailable
      listings. */
  datatype MessageContent = MessageContent(
    messageId: int,
    raspberryAvailable: ChangeMap,
    raspberryUnavailable: ChangeMap)

  /** A pending expiry armed when `key` was recorded for `messageId`: at time
      `due` it deletes both. */
  datatype Timer = Timer(key: string, messageId: int, due: int)

  /** The ledger's state: `lastStockMessagesIds`, `lastStockMessagesContent`
      and the pending expiries in the order they were armed. */
  datatype LedgerState = LedgerState(
    messageIds: map<string, int>,
    contents: map<int, MessageContent>,
    timers: seq<Timer>)

  /** The outcome of sending an alert: the id Telegram gave the message, or a
      failed send. */
  datatype SendResult = Sent(messageId: int) | SendFailed

  /** An edit request: new text for a sent message. */
  datatype Edit = Edit(messageId: int, text: string)

  /** Why marking listings unavailable stopped early: a key whose message has
      no recorded content (reading it throws), or an edit Telegram refused. */
  datatype Failure = MissingContent(key: string, messageId: int) | EditRejected(messageId: int)

  /** Every recorded content has well-formed listing maps. */
  ghost predicate ContentsValid(l: LedgerState) {
    forall id :: id in l.contents ==>
      l.contents[id].raspberryAvailable.Valid() && l.contents[id].raspberryUnavailable.Valid()
  }

  /** The available map built for key `k`: `k` bound in turn to each listing
      of `values`. */
  function BindToEach(k: string, values: seq<Raspberry>): (m: ChangeMap)
    ensures m.Valid()
    decreases |values|
  {
    if values == [] then Empty()
    else Set(BindToEach(k, values[..|values| - 1]), k, values[|values| - 1])
  }

  /** Binding one key to every listing in turn leaves the key bound to the
      last listing only. */
  lemma {:induction false} BindToEachKeepsLast(k: string, values: seq<Raspberry>)
    requires values != []
    ensures BindToEach(k, values) == OrderedMap([k], map[k := values[|values| - 1]])
    decreases |values|
  {
    if |values| > 1 {
      BindToEachKeepsLast(k, values[..|values| - 1]);
    }
  }

  /** Binds `k` to each listing of `values` in turn, starting from an empty
      map. */
  method BindKey(k: string, values: seq<Raspberry>) returns (m: ChangeMap)
    ensures m == BindToEach(k, values)
  {
    m := Empty();
    var j := 0;
    while j < |values|
      invariant 0 <= j <= |values|
      invariant m == BindToEach(k, values[..j])
    {
      assert values[..j + 1][..j] == values[..j];
      m := Set(m, k, values[j]);
      j := j + 1;
    }
    assert values[..j] == values;
  }

  /** The bookkeeping for one announced key. */
  function RecordKey(l: LedgerState, k: string, values: seq<Raspberry>, id: int, due: int): LedgerState {
    LedgerState(
      l.messageIds[k := id],
      l.contents[id := MessageContent(id, BindToEach(k, values), Empty())],
      l.timers + [Timer(k, id, due)])
  }

  lemma RecordKeyKeepsValid(l: LedgerState, k: string, values: seq<Raspberry>, id: int, due: int)
    requires ContentsValid(l)
    ensures ContentsValid(RecordKey(l, k, values, id, due))
  {
  }

  /** The bookkeeping for the announced keys `keys`, in order. */
  function RecordAll(l: LedgerState, keys: seq<string>, values: seq<Raspberry>, id: int, due: int): LedgerState
    decreases |keys|
  {
    if keys == [] then l
    else RecordKey(RecordAll(l, keys[..|keys| - 1], values, id, due), keys[|keys| - 1], values, id, due)
  }

  /** The expiry callback of one timer: forget the key and the message. */
  function Expired(l: LedgerState, k: string, id: int): LedgerState {
    l.(messageIds := l.messageIds - {k}, contents := l.contents - {id})
  }

  /** One step of marking a listing unavailable, as `Marking` records it. */
  datatype Marking = Marking(ledger: LedgerState, edits: seq<Edit>, failure: Option<Failure>)

  /** Marking listing `r` unavailable. Nothing happens after a failure or for
      a key with no message. Otherwise the key leaves the message's available
      map and enters its unavailable map bound to `r`, and the message text is
      recomposed and sent as an edit; a missing content or a refused edit
      stops the walk. */
  function MarkOne(m: Marking, list: seq<Raspberry>, r: Raspberry, settings: LinkSettings, rejected: set<int>): (m': Marking)
    requires ContentsValid(m.ledger)
    ensures ContentsValid(m'.ledger)
  {
    var k := Key(r);
    if m.failure.Some? || k !in m.ledger.messageIds then m
    else
      var id := m.ledger.messageIds[k];
      if id !in m.ledger.contents then m.(failure := Some(MissingContent(k, id)))
      else
        var c := m.ledger.contents[id];
        var c' := c.(raspberryAvailable := Delete(c.raspberryAvailable, k),
                     raspberryUnavailable := Set(c.raspberryUnavailable, k, r));
        var text := TelegramMessage(list, c'.raspberryAvailable, c'.raspberryUnavailable, settings);
        Marking(
          m.ledger.(contents := m.ledger.contents[id := c']),
          m.edits + [Edit(c.messageId, text)],
          if c.messageId in rejected then Some(EditRejected(c.messageId)) else None)
  }

  /** Marking the listings `rs` unavailable, in order. */
  function MarkAll(m: Marking, list: seq<Raspberry>, rs: seq<Raspberry>, settings: LinkSettings, rejected: set<int>): (m': Marking)
    requires ContentsValid(m.ledger)
    ensures ContentsValid(m'.ledger)
    decreases |rs|
  {
    if rs == [] then m
    else MarkOne(MarkAll(m, list, rs[..|rs| - 1], settings, rejected), list, rs[|rs| - 1], settings, rejected)
  }

  /** Sweeping timers `ts` at time `now` into `l`: each due timer runs its
      expiry, each other one stays pending, in order. */
  function SweepRun(l: LedgerState, ts: seq<Timer>, now: int): LedgerState
    decreases |ts|
  {
    if ts == [] then l
    else
      var p := SweepRun(l, ts[..|ts| - 1], now);
      var t := ts[|ts| - 1];
      if t.due <= now then Expired(p, t.key, t.messageId) else p.(timers := p.timers + [t])
  }

  /** What the timers due by `now` do to the ledger. */
  function Swept(l: LedgerState, now: int): LedgerState {
    SweepRun(l.(timers := []), l.timers, now)
  }

  /** The alert ledger, with the operations that change it. */
  class AlertLedger {
    var messageIds: map<string, int>
    var contents: map<int, MessageContent>
    var timers: seq<Timer>

    function State(): LedgerState
      reads this
    {
      LedgerState(messageIds, contents, timers)
    }

    ghost predicate Valid()
      reads this
    {
      ContentsValid(State())
    }

    constructor ()
      ensures Valid() && State() == LedgerState(map[], map[], [])
    {
      messageIds, contents, timers := map[], map[], [];
    }

    /** Sends an alert for the changes of a cycle: composes the text, and when
        the send succeeded records every announced key under the message id,
        stores the message content and arms one expiry per key. */
    method SendAlert(changes: Changes, settings: LinkSettings, sent: SendResult, now: int) returns (message: string)
      requires Valid()
      requires changes.nowAvailable.Valid() && changes.nowUnavailable.Valid()
      modifies this
      ensures Valid()
      ensures message == TelegramMessage(changes.raspberryList, changes.nowAvailable, changes.nowUnavailable, settings)
      ensures State() ==
        if sent.Sent? then
          RecordAll(old(State()), AnnouncedKeys(changes.nowAvailable), changes.nowAvailable.Values(),
                    sent.messageId, now + RetentionMs)
        else old(State())
    {
      var announced;
      message, announced := ComposeMessage(changes.raspberryList, changes.nowAvailable, changes.nowUnavailable, settings);
      if sent.Sent? {
        Record(announced, changes.nowAvailable.Values(), sent.messageId, now + RetentionMs);
      }
    }

    /** Records the announced keys under message `id`, in order. */
    method Record(announced: seq<string>, values: seq<Raspberry>, id: int, due: int)
      requires Valid()
      modifies this
      ensures Valid()
      ensures State() == RecordAll(old(State()), announced, values, id, due)
    {
      var i := 0;
      while i < |announced|
        invariant 0 <= i <= |announced|
        invariant Valid()
        invariant State() == RecordAll(old(State()), announced[..i], values, id, due)
      {
        var raspberryKey := announced[i];
        var raspberryAvailable := BindKey(raspberryKey, values);
        assert announced[..i + 1][..i] == announced[..i];
        RecordKeyKeepsValid(State(), raspberryKey, values, id, due);
        messageIds := messageIds[raspberryKey := id];
        contents := contents[id := MessageContent(id, raspberryAvailable, Empty())];
        timers := timers + [Timer(raspberryKey, id, due)];
        i := i + 1;
      }
      assert announced[..i] == announced;
    }

    /** Marks the newly unavailable listings of a cycle in the messages that
        announced them, in order, collecting the edits; stops at the first
        failure. */
    method UpdateAlert(changes: Changes, settings: LinkSettings, rejected: set<int>)
      returns (edits: seq<Edit>, failure: Option<Failure>)
      requires Valid() && changes.nowUnavailable.Valid()
      modifies this
      ensures Valid()
      ensures Marking(State(), edits, failure) ==
        MarkAll(Marking(old(State()), [], None), changes.raspberryList, changes.nowUnavailable.Values(), settings, rejected)
    {
      var values := changes.nowUnavailable.Values();
      ghost var start := Marking(State(), [], None);
      edits, failure := [], None;
      var i := 0;
      while i < |values| && failure.None?
        invariant 0 <= i <= |values|
        invariant Valid()
        invariant Marking(State(), edits, failure) == MarkAll(start, changes.raspberryList, values[..i], settings, rejected)
      {
        assert values[..i + 1][..i] == values[..i];
        edits, failure := Mark(changes.raspberryList, values[i], settings, rejected, edits);
        i := i + 1;
      }
      if i < |values| {
        FailureStops(start, changes.raspberryList, values, i, settings, rejected);
      } else {
        assert values[..i] == values;
      }
    }

    /** Marks one listing unavailable in the message that announced it. */
    method Mark(list: seq<Raspberry>, raspberry: Raspberry, settings: LinkSettings, rejected: set<int>, edits: seq<Edit>)
      returns (edits': seq<Edit>, failure: Option<Failure>)
      requires Valid()
      modifies this
      ensures Valid()
      ensures Marking(State(), edits', failure) == MarkOne(Marking(old(State()), edits, None), list, raspberry, settings, rejected)
    {
      edits', failure := edits, None;
      var raspberryKey := Key(raspberry);
      if raspberryKey in messageIds {
        var messageId := messageIds[raspberryKey];
        if messageId !in contents {
          failure := Some(MissingContent(raspberryKey, messageId));
        } else {
          var content := contents[messageId];
          var updated := content.(raspberryAvailable := Delete(content.raspberryAvailable, raspberryKey),
                                  raspberryUnavailable := Set(content.raspberryUnavailable, raspberryKey, raspberry));
          contents := contents[messageId := updated];
          var text, _ := ComposeMessage(list, updated.raspberryAvailable, updated.raspberryUnavailable, settings);
          edits' := edits' + [Edit(content.messageId, text)];
          if content.messageId in rejected {
            failure := Some(EditRejected(content.messageId));
          }
        }
      }
    }

    /** The expiry callback of the timer armed for `key` and `messageId`. */
    method Expire(key: string, messageId: int)
      requires Valid()
      modifies this
      ensures Valid()
      ensures State() == Expired(old(State()), key, messageId)
    {
      messageIds := messageIds - {key};
      contents := contents - {messageId};
    }

    /** Runs, in the order they were armed, the expiries due by `now`, and
        keeps the others pending. */
    method Sweep(now: int)
      requires Valid()
      modifies this
      ensures Valid()
      ensures State() == Swept(old(State()), now)
    {
      var pending := timers;
      ghost var start := State().(timers := []);
      timers := [];
      var i := 0;
      while i < |pending|
        invariant 0 <= i <= |pending|
        invariant Valid()
        invariant State() == SweepRun(start, pending[..i], now)
      {
        var t := pending[i];
        assert pending[..i + 1][..i] == pending[..i];
        if t.due <= now {
          Expire(t.key, t.messageId);
        } else {
          timers := timers + [t];
        }
        i := i + 1;
      }
      assert pending[..i] == pending;
    }
  }

  /** Once a failure is recorded, marking further listings changes nothing. */
  lemma {:induction false} FailureStops(m: Marking, list: seq<Raspberry>, rs: seq<Raspberry>, i: int,
                                        settings: LinkSettings, rejected: set<int>)
    requires ContentsValid(m.ledger)
    requires 0 <= i <= |rs|
    requires MarkAll(m, list, rs[..i], settings, rejected).failure.Some?
    ensures MarkAll(m, list, rs, settings, rejected) == MarkAll(m, list, rs[..i], settings, rejected)
    decreases |rs| - i
  {
    if i == |rs| {
      assert rs[..i] == rs;
    } else {
      assert rs[..i + 1][..i] == rs[..i];
      FailureStops(m, list, rs, i + 1, settings, rejected);
    }
  }

  // Recording an alert

  /** Recording keys `keys` for message `id` binds each of them to `id`,
      leaves every other key alone, stores under `id` the content of the last
      key, and arms one timer per key, in order. */
  lemma {:induction false} RecordAllEffect(l: LedgerState, keys: seq<string>, values: seq<Raspberry>, id: int, due: int)
    ensures var l' := RecordAll(l, keys, values, id, due);
      && (forall k :: k in keys ==> k in l'.messageIds && l'.messageIds[k] == id)
      && (forall k :: k !in keys ==> (k in l'.messageIds <==> k in l.messageIds))
      && (forall k :: k !in keys && k in l.messageIds ==> l'.messageIds[k] == l.messageIds[k])
      && (keys != [] ==>
            id in l'.contents && l'.contents[id] == MessageContent(id, BindToEach(keys[|keys| - 1], values), Empty()))
      && (forall i :: i != id ==> (i in l'.contents <==> i in l.contents))
      && (forall i :: i != id && i in l.contents ==> l'.contents[i] == l.contents[i])
      && l'.timers == l.timers + seq(|keys|, j requires 0 <= j < |keys| => Timer(keys[j], id, due))
    decreases |keys|
  {
    if keys != [] {
      var init := keys[..|keys| - 1];
      RecordAllEffect(l, init, values, id, due);
      forall k | k in keys ensures k in init || k == keys[|keys| - 1] {
        var j :| 0 <= j < |keys| && keys[j] == k;
        if j < |keys| - 1 {
          assert init[j] == k;
        }
      }
    }
  }

  /** However many listings became available, a recorded message keeps only
      one of them: the last announced key bound to the last listing. */
  lemma RecordedContentHoldsLastListing(l: LedgerState, nowAvailable: ChangeMap, id: int, due: int)
    requires nowAvailable.Valid() && nowAvailable.Size() > 0
    ensures var keys := AnnouncedKeys(nowAvailable);
      var values := nowAvailable.Values();
      var l' := RecordAll(l, keys, values, id, due);
      && id in l'.contents
      && l'.contents[id].raspberryAvailable
         == OrderedMap([keys[|keys| - 1]], map[keys[|keys| - 1] := values[|values| - 1]])
      && l'.contents[id].raspberryUnavailable == Empty()
  {
    var keys := AnnouncedKeys(nowAvailable);
    var values := nowAvailable.Values();
    RecordAllEffect(l, keys, values, id, due);
    BindToEachKeepsLast(keys[|keys| - 1], values);
  }

  // Marking listings unavailable

  /** A listing whose key has no message leaves everything as it was. */
  lemma UnknownKeyIsQuiet(m: Marking, list: seq<Raspberry>, r: Raspberry, settings: LinkSettings, rejected: set<int>)
    requires ContentsValid(m.ledger)
    requires Key(r) !in m.ledger.messageIds
    ensures MarkOne(m, list, r, settings, rejected) == m
  {
  }

  /** Marking a listing whose message is on record moves its key from the
      message's available map to its unavailable map, bound to the listing,
      touches no other key or message, and sends one edit carrying the
      message recomposed from the updated maps. */
  lemma MarkOneEffect(m: Marking, list: seq<Raspberry>, r: Raspberry, settings: LinkSettings, rejected: set<int>)
    requires ContentsValid(m.ledger) && m.failure.None?
    requires Key(r) in m.ledger.messageIds && m.ledger.messageIds[Key(r)] in m.ledger.contents
    ensures var k := Key(r);
      var id := m.ledger.messageIds[k];
      var c := m.ledger.contents[id];
      var m' := MarkOne(m, list, r, settings, rejected);
      var c' := m'.ledger.contents[id];
      && c'.messageId == c.messageId
      && c'.raspberryAvailable == Delete(c.raspberryAvailable, k)
      && c'.raspberryUnavailable == Set(c.raspberryUnavailable, k, r)
      && k !in c'.raspberryAvailable.entries
      && k in c'.raspberryUnavailable.entries && c'.raspberryUnavailable.entries[k] == r
      && (forall k' :: k' != k ==> (k' in c'.raspberryAvailable.entries <==> k' in c.raspberryAvailable.entries))
      && (forall k' :: k' != k && k' in c.raspberryAvailable.entries ==>
            c'.raspberryAvailable.entries[k'] == c.raspberryAvailable.entries[k'])
      && (forall k' :: k' != k ==> (k' in c'.raspberryUnavailable.entries <==> k' in c.raspberryUnavailable.entries))
      && (forall k' :: k' != k && k' in c.raspberryUnavailable.entries ==>
            c'.raspberryUnavailable.entries[k'] == c.raspberryUnavailable.entries[k'])
      && c'.raspberryAvailable.keys == Without(c.raspberryAvailable.keys, k)
      && (k in c.raspberryUnavailable.entries ==> c'.raspberryUnavailable.keys == c.raspberryUnavailable.keys)
      && (k !in c.raspberryUnavailable.entries ==> c'.raspberryUnavailable.keys == c.raspberryUnavailable.keys + [k])
      && (forall i :: i in m.ledger.contents && i != id ==> m'.ledger.contents[i] == m.ledger.contents[i])
      && m'.edits == m.edits + [Edit(c.messageId, TelegramMessage(list, c'.raspberryAvailable, c'.raspberryUnavailable, settings))]
      && (m'.failure.Some? <==> c.messageId in rejected)
  {
  }

  /** Marking never changes which keys point at which message, the pending
      timers, the set of messages on record or their message ids; edits are
      only ever appended. */
  lemma {:induction false} MarkAllFrame(m: Marking, list: seq<Raspberry>, rs: seq<Raspberry>, settings: LinkSettings, rejected: set<int>)
    requires ContentsValid(m.ledger)
    ensures var m' := MarkAll(m, list, rs, settings, rejected);
      && m'.ledger.messageIds == m.ledger.messageIds
      && m'.ledger.timers == m.ledger.timers
      && m'.ledger.contents.Keys == m.ledger.contents.Keys
      && (forall i :: i in m.ledger.contents ==> m'.ledger.contents[i].messageId == m.ledger.contents[i].messageId)
      && m.edits <= m'.edits
    decreases |rs|
  {
    if rs != [] {
      MarkAllFrame(m, list, rs[..|rs| - 1], settings, rejected);
    }
  }

  // Sweeping expired timers

  /** The keys that the timers of `ts` due by `now` forget. */
  function DueKeys(ts: seq<Timer>, now: int): (ks: set<string>)
    ensures forall k :: k in ks <==> exists t :: t in ts && t.due <= now && t.key == k
    decreases |ts|
  {
    if ts == [] then {}
    else
      var t := ts[|ts| - 1];
      DueKeys(ts[..|ts| - 1], now) + (if t.due <= now then {t.key} else {})
  }

  /** The messages that the timers of `ts` due by `now` forget. */
  function DueIds(ts: seq<Timer>, now: int): (ids: set<int>)
    ensures forall i :: i in ids <==> exists t :: t in ts && t.due <= now && t.messageId == i
    decreases |ts|
  {
    if ts == [] then {}
    else
      var t := ts[|ts| - 1];
      DueIds(ts[..|ts| - 1], now) + (if t.due <= now then {t.messageId} else {})
  }

  /** The timers of `ts` not yet due at `now`, in order. */
  function Pending(ts: seq<Timer>, now: int): (ps: seq<Timer>)
    ensures forall t :: t in ps <==> t in ts && now < t.due
    decreases |ts|
  {
    if ts == [] then []
    else
      var t := ts[|ts| - 1];
      Pending(ts[..|ts| - 1], now) + (if t.due <= now then [] else [t])
  }

  lemma {:induction false} SweepRunEffect(l: LedgerState, ts: seq<Timer>, now: int)
    ensures var l' := SweepRun(l, ts, now);
      && l'.messageIds == l.messageIds - DueKeys(ts, now)
      && l'.contents == l.contents - DueIds(ts, now)
      && l'.timers == l.timers + Pending(ts, now)
    decreases |ts|
  {
    if ts != [] {
      SweepRunEffect(l, ts[..|ts| - 1], now);
    }
  }

  /** A sweep at `now` forgets exactly the keys and messages named by the
      timers due by then, whichever message a key points at by that time, and
      keeps the other timers pending in their order. */
  lemma SweepEffect(l: LedgerState, now: int)
    ensures var l' := Swept(l, now);
      && l'.messageIds == l.messageIds - DueKeys(l.timers, now)
      && l'.contents == l.contents - DueIds(l.timers, now)
      && l'.timers == Pending(l.timers, now)
      && (forall t :: t in l'.timers <==> t in l.timers && now < t.due)
  {
    SweepRunEffect(l.(timers := []), l.timers, now);
  }

  /** A second sweep at the same time finds nothing left to do. */
  lemma SweepIsIdempotent(l: LedgerState, now: int)
    ensures Swept(Swept(l, now), now) == Swept(l, now)
  {
    var l1 := Swept(l, now);
    SweepEffect(l, now);
    NothingDueKeepsAll(l1.(timers := []), l1.timers, now);
    assert [] + l1.timers == l1.timers;
  }

  lemma {:induction false} NothingDueKeepsAll(l: LedgerState, ts: seq<Timer>, now: int)
    requires forall t :: t in ts ==> now < t.due
    ensures SweepRun(l, ts, now) == l.(timers := l.timers + ts)
    decreases |ts|
  {
    if ts != [] {
      var init := ts[..|ts| - 1];
      assert ts[|ts| - 1] in ts;
      NothingDueKeepsAll(l, init, now);
      assert l.timers + init + [ts[|ts| - 1]] == l.timers + ts;
    }
  }

  // The ledger's consistency

  /** Every key points at a message on record whose content carries its own
      id, every key has a pending timer for its message, and all timers of one
      message fall due together. */
  ghost predicate Consistent(l: LedgerState) {
    && ContentsValid(l)
    && (forall i :: i in l.contents ==> l.contents[i].messageId == i)
    && (forall k :: k in l.messageIds ==> l.messageIds[k] in l.contents)
    && (forall k :: k in l.messageIds ==>
          exists t :: t in l.timers && t.key == k && t.messageId == l.messageIds[k])
    && (forall t1, t2 :: t1 in l.timers && t2 in l.timers && t1.messageId == t2.messageId ==> t1.due == t2.due)
  }

  /** No pending timer names message `id`: Telegram has not used the id. */
  predicate Fresh(l: LedgerState, id: int) {
    forall t :: t in l.timers ==> t.messageId != id
  }

  /** Every pending timer of message `id` falls due at `due`. */
  predicate DueTogether(l: LedgerState, id: int, due: int) {
    forall t :: t in l.timers && t.messageId == id ==> t.due == due
  }

  lemma RecordKeyConsistent(l: LedgerState, k: string, values: seq<Raspberry>, id: int, due: int)
    requires Consistent(l) && DueTogether(l, id, due)
    ensures Consistent(RecordKey(l, k, values, id, due)) && DueTogether(RecordKey(l, k, values, id, due), id, due)
  {
    var l' := RecordKey(l, k, values, id, due);
    var nt := Timer(k, id, due);
    assert nt in l'.timers;
    forall k' | k' in l'.messageIds
      ensures exists t :: t in l'.timers && t.key == k' && t.messageId == l'.messageIds[k']
    {
      if k' != k {
        var t :| t in l.timers && t.key == k' && t.messageId == l.messageIds[k'];
        assert t in l'.timers;
      }
    }
  }

  lemma {:induction false} RecordAllConsistent(l: LedgerState, keys: seq<string>, values: seq<Raspberry>, id: int, due: int)
    requires Consistent(l) && DueTogether(l, id, due)
    ensures Consistent(RecordAll(l, keys, values, id, due)) && DueTogether(RecordAll(l, keys, values, id, due), id, due)
    decreases |keys|
  {
    if keys != [] {
      RecordAllConsistent(l, keys[..|keys| - 1], values, id, due);
      RecordKeyConsistent(RecordAll(l, keys[..|keys| - 1], values, id, due), keys[|keys| - 1], values, id, due);
    }
  }

  /** Recording a sent alert under a fresh message id keeps the ledger
      consistent. */
  lemma RecordKeepsConsistent(l: LedgerState, keys: seq<string>, values: seq<Raspberry>, id: int, due: int)
    requires Consistent(l) && Fresh(l, id)
    ensures Consistent(RecordAll(l, keys, values, id, due))
  {
    RecordAllConsistent(l, keys, values, id, due);
  }

  /** Marking listings unavailable keeps the ledger consistent. */
  lemma MarkKeepsConsistent(m: Marking, list: seq<Raspberry>, rs: seq<Raspberry>, settings: LinkSettings, rejected: set<int>)
    requires Consistent(m.ledger)
    ensures Consistent(MarkAll(m, list, rs, settings, rejected).ledger)
  {
    MarkAllFrame(m, list, rs, settings, rejected);
  }

  /** Sweeping expired timers keeps the ledger consistent: a key still on
      record has its own timer pending, so its message's timers are pending
      too and the message is still on record. */
  lemma SweepKeepsConsistent(l: LedgerState, now: int)
    requires Consistent(l)
    ensures Consistent(Swept(l, now))
  {
    var l' := Swept(l, now);
    SweepEffect(l, now);
    forall k | k in l'.messageIds
      ensures l'.messageIds[k] in l'.contents
      ensures exists t :: t in l'.timers && t.key == k && t.messageId == l'.messageIds[k]
    {
      var t :| t in l.timers && t.key == k && t.messageId == l.messageIds[k];
      assert k !in DueKeys(l.timers, now);
      assert now < t.due;
      assert t in l'.timers;
    }
  }

  /** In a consistent ledger every key on record reaches its message's
      content, so marking listings unavailable can only stop on a refused
      edit, never on a missing content. */
  lemma {:induction false} ConsistentMarkFindsContent(m: Marking, list: seq<Raspberry>, rs: seq<Raspberry>,
                                                      settings: LinkSettings, rejected: set<int>)
    requires Consistent(m.ledger) && m.failure.None?
    ensures var m' := MarkAll(m, list, rs, settings, rejected);
      m'.failure.None? || m'.failure.value.EditRejected?
    decreases |rs|
  {
    if rs != [] {
      var init := rs[..|rs| - 1];
      ConsistentMarkFindsContent(m, list, init, settings, rejected);
      MarkKeepsConsistent(m, list, init, settings, rejected);
    }
  }

  /** A key announced again within a day is forgotten when the earlier
      message's timer fires, although the later message is still on record:
      the later message then gets no edit when the listing goes away. */
  lemma ReannouncedKeyForgottenEarly(r: Raspberry, list: seq<Raspberry>, settings: LinkSettings)
    ensures var k := Key(r);
      var l0 := LedgerState(map[], map[], []);
      var l1 := RecordAll(l0, [k], [r], 1, RetentionMs);
      var l2 := RecordAll(l1, [k], [r], 2, RetentionMs + 1000);
      var l3 := Swept(l2, RetentionMs);
      && l2.messageIds[k] == 2
      && k !in l3.messageIds && 2 in l3.contents
      && ContentsValid(l3)
      && MarkAll(Marking(l3, [], None), list, [r], settings, {}).edits == []
  {
    var k := Key(r);
    var l0 := LedgerState(map[], map[], []);
    var l1 := RecordAll(l0, [k], [r], 1, RetentionMs);
    var l2 := RecordAll(l1, [k], [r], 2, RetentionMs + 1000);
    RecordAllEffect(l0, [k], [r], 1, RetentionMs);
    RecordAllEffect(l1, [k], [r], 2, RetentionMs + 1000);
    SweepEffect(l2, RetentionMs);
    var t1 := Timer(k, 1, RetentionMs);
    assert l2.timers == [t1, Timer(k, 2, RetentionMs + 1000)];
    assert t1 in l2.timers;
    RecordKeepsConsistent(l0, [k], [r], 1, RetentionMs);
    RecordKeepsConsistent(l1, [k], [r], 2, RetentionMs + 1000);
    SweepKeepsConsistent(l2, RetentionMs);
  }

  /** The consistency above needs every timer of one message to fall due
      together. When two keys of message 7 get timers due at 100 and 101, a
      sweep at 100 deletes the message's content while the second key still
      points at it, and marking that key's listing unavailable then fails on
      the missing content. */
  lemma SplitDueTimesLoseContent(list: seq<Raspberry>, settings: LinkSettings)
    ensures var a := Raspberry("A", "", "", "", "", "", true);
      var b := Raspberry("B", "", "", "", "", "", false);
      var l0 := LedgerState(map[], map[], []);
      var l1 := RecordKey(RecordKey(l0, Key(a), [a, b], 7, 100), Key(b), [a, b], 7, 101);
      var l2 := Swept(l1, 100);
      && Key(b) in l2.messageIds && l2.messageIds[Key(b)] == 7 && 7 !in l2.contents
      && ContentsValid(l2)
      && MarkAll(Marking(l2, [], None), list, [b], settings, {}).failure == Some(MissingContent(Key(b), 7))
  {
    var a := Raspberry("A", "", "", "", "", "", true);
    var b := Raspberry("B", "", "", "", "", "", false);
    assert Key(a) == "A--" && Key(b) == "B--";
    assert Key(a) != Key(b) by { assert Key(a)[0] != Key(b)[0]; }
    var l0 := LedgerState(map[], map[], []);
    var l1 := RecordKey(RecordKey(l0, Key(a), [a, b], 7, 100), Key(b), [a, b], 7, 101);
    assert l1.timers == [Timer(Key(a), 7, 100), Timer(Key(b), 7, 101)];
    assert l1.timers[..1] == [Timer(Key(a), 7, 100)];
    assert l1.timers[..1][..0] == [];
    var t1, t2 := Timer(Key(a), 7, 100), Timer(Key(b), 7, 101);
    var base := l1.(timers := []);
    assert SweepRun(base, [t1][..0], 100) == base;
    var p1 := SweepRun(base, [t1], 100);
    assert p1 == Expired(base, Key(a), 7);
    assert l1.timers[..1] == [t1];
    var l2 := Swept(l1, 100);
    assert l2 == p1.(timers := p1.timers + [t2]);
    assert l1.messageIds == map[Key(a) := 7, Key(b) := 7];
    assert l2.messageIds == map[Key(b) := 7];
    assert l2.contents == map[];
    assert [b][..0] == [];
  }
}
