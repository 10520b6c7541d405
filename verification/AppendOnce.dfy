/**
 Accepted-once logs.  Session commits (sessions.rs), run events (checkpoint.rs) and
 app-server items (app_server/thread_store.rs) are delivered at least once; each
 store must hold the first acceptances, in order, whatever the redeliveries.
 */
module AppendOnce {
  import opened Common
  import Json
  import Sessions

  /** One delivery: an identity, what must agree on redelivery, and what is stored. */
  datatype Delivery<+F, +P> = Delivery(id: string, fingerprint: F, payload: P)

  datatype Verdict = Accepted | Replayed | Conflict

  /** Reference: the earliest delivery under an id. */
  function FirstWith<F, P>(ds: seq<Delivery<F, P>>, id: string): Option<Delivery<F, P>> {
    if ds == [] then None
    else
      var earlier := FirstWith(ds[..|ds| - 1], id);
      if earlier.Some? then earlier else if ds[|ds| - 1].id == id then Some(ds[|ds| - 1]) else None
  }

  /** Reference: the deliveries whose id was not delivered before, in order. */
  function Firsts<F, P>(ds: seq<Delivery<F, P>>): seq<Delivery<F, P>> {
    if ds == [] then []
    else
      var earlier, d := ds[..|ds| - 1], ds[|ds| - 1];
      Firsts(earlier) + if FirstWith(earlier, d.id).None? then [d] else []
  }

  /** Reference: what a store must answer, given the earliest delivery under the same id. */
  function RightVerdict<F(==), P>(earliest: Option<Delivery<F, P>>, fingerprint: F): Verdict {
    match earliest
    case None => Accepted
    case Some(d) => if d.fingerprint == fingerprint then Replayed else Conflict
  }

  lemma {:induction false} FirstWithIsEarliest<F, P>(ds: seq<Delivery<F, P>>, id: string, i: nat)
    requires i < |ds| && ds[i].id == id && forall j :: 0 <= j < i ==> ds[j].id != id
    ensures FirstWith(ds, id) == Some(ds[i])
  {
    var n := |ds| - 1;
    if i < n {
      FirstWithIsEarliest(ds[..n], id, i);
    } else {
      NeverDelivered(ds[..n], id);
    }
  }

  lemma {:induction false} NeverDelivered<F, P>(ds: seq<Delivery<F, P>>, id: string)
    ensures FirstWith(ds, id).None? <==> forall j :: 0 <= j < |ds| ==> ds[j].id != id
  {
    if ds != [] {
      var n := |ds| - 1;
      NeverDelivered(ds[..n], id);
      assert forall j :: 0 <= j < n ==> ds[..n][j] == ds[j];
      assert ds[n].id == id ==> FirstWith(ds, id).Some?;
    }
  }

  lemma {:induction false} EarliestIsPermanent<F, P>(ds: seq<Delivery<F, P>>, more: seq<Delivery<F, P>>, id: string)
    requires FirstWith(ds, id).Some?
    ensures FirstWith(ds + more, id) == FirstWith(ds, id)
    decreases |more|
  {
    if more == [] {
      assert ds + more == ds;
    } else {
      EarliestIsPermanent(ds, more[..|more| - 1], id);
      assert (ds + more)[..|ds + more| - 1] == ds + more[..|more| - 1];
    }
  }

  /** Redelivering known ids, in any pattern and with any content, adds nothing. */
  lemma {:induction false} RedeliveryAddsNothing<F, P>(ds: seq<Delivery<F, P>>, again: seq<Delivery<F, P>>)
    requires forall r :: r in again ==> FirstWith(ds, r.id).Some?
    ensures Firsts(ds + again) == Firsts(ds)
    decreases |again|
  {
    if again == [] {
      assert ds + again == ds;
    } else {
      var n := |again| - 1;
      RedeliveryAddsNothing(ds, again[..n]);
      assert (ds + again)[..|ds + again| - 1] == ds + again[..n];
      assert again[n] in again;
      EarliestIsPermanent(ds, again[..n], again[n].id);
    }
  }

  // ---- The ledger every store implements -----------------------------------------

  datatype Ledger<+F, +P> = Ledger(known: map<string, F>, accepted: seq<Delivery<F, P>>)

  function Judge<F(==)>(known: map<string, F>, id: string, fingerprint: F): Verdict {
    if id !in known then Accepted else if known[id] == fingerprint then Replayed else Conflict
  }

  function Offer<F(==), P>(l: Ledger<F, P>, d: Delivery<F, P>): Ledger<F, P> {
    if Judge(l.known, d.id, d.fingerprint).Accepted?
    then Ledger(l.known[d.id := d.fingerprint], l.accepted + [d])
    else l
  }

  function Deliver<F(==), P>(ds: seq<Delivery<F, P>>): Ledger<F, P> {
    if ds == [] then Ledger(map[], []) else Offer(Deliver(ds[..|ds| - 1]), ds[|ds| - 1])
  }

  /** A ledger knows an id, with a fingerprint, exactly as the id was first delivered. */
  lemma {:induction false} LedgerKnowsEarliest<F, P>(ds: seq<Delivery<F, P>>, id: string)
    ensures id in Deliver(ds).known <==> FirstWith(ds, id).Some?
    ensures id in Deliver(ds).known ==> Deliver(ds).known[id] == FirstWith(ds, id).value.fingerprint
  {
    if ds != [] {
      LedgerKnowsEarliest(ds[..|ds| - 1], id);
    }
  }

  /** After any deliveries the log is the list of first deliveries. */
  lemma {:induction false} LedgerKeepsFirsts<F, P>(ds: seq<Delivery<F, P>>)
    ensures Deliver(ds).accepted == Firsts(ds)
  {
    if ds != [] {
      var earlier, d := ds[..|ds| - 1], ds[|ds| - 1];
      LedgerKeepsFirsts(earlier);
      LedgerKnowsEarliest(earlier, d.id);
    }
  }

  /** Every verdict is right, and a delivery that is not accepted changes nothing. */
  lemma VerdictsAreRight<F, P>(ds: seq<Delivery<F, P>>, d: Delivery<F, P>)
    ensures Judge(Deliver(ds).known, d.id, d.fingerprint) == RightVerdict(FirstWith(ds, d.id), d.fingerprint)
    ensures Deliver(ds + [d]) == if FirstWith(ds, d.id).None? then Offer(Deliver(ds), d) else Deliver(ds)
  {
    LedgerKnowsEarliest(ds, d.id);
    assert (ds + [d])[..|ds + [d]| - 1] == ds;
  }

  // ---- Session commits ---------------------------------------------------------------

  type CommitDelivery = Delivery<string, seq<Sessions.SessionItem>>

  function Concat<T>(parts: seq<seq<T>>): seq<T> {
    if parts == [] then [] else Concat(parts[..|parts| - 1]) + parts[|parts| - 1]
  }

  function Payloads<F, P>(ds: seq<Delivery<F, P>>): seq<P> {
    seq(|ds|, i requires 0 <= i < |ds| => ds[i].payload)
  }

  function CommitAll(env: Sessions.Env, log: Sessions.MemoryLog, ds: seq<CommitDelivery>): Sessions.MemoryLog {
    if ds == [] then log
    else
      var d := ds[|ds| - 1];
      Sessions.MemoryStep(env, CommitAll(env, log, ds[..|ds| - 1]), Sessions.AddOnce(d.id, d.fingerprint, d.payload)).0
  }

  ghost predicate CommitOk(env: Sessions.Env, d: CommitDelivery) {
    Sessions.ValidCommit(env, d.id, d.fingerprint, d.payload)
  }

  /** The commits that pass validation. */
  ghost function OkCommits(env: Sessions.Env, ds: seq<CommitDelivery>): seq<CommitDelivery> {
    if ds == [] then []
    else OkCommits(env, ds[..|ds| - 1]) + if CommitOk(env, ds[|ds| - 1]) then [ds[|ds| - 1]] else []
  }

  /** The session whose commits are a ledger: the accepted items follow the earlier ones. */
  function AsLog(start: seq<Sessions.SessionItem>, l: Ledger<string, seq<Sessions.SessionItem>>): Sessions.MemoryLog {
    Sessions.MemoryLog(start + Concat(Payloads(l.accepted)), l.known)
  }

  /** One commit: refused by the validator, or offered to the ledger and answered with its verdict. */
  lemma CommitIsOffer(env: Sessions.Env, start: seq<Sessions.SessionItem>, l: Ledger<string, seq<Sessions.SessionItem>>, d: CommitDelivery)
    ensures var (log, out) := Sessions.MemoryStep(env, AsLog(start, l), Sessions.AddOnce(d.id, d.fingerprint, d.payload));
            && log == AsLog(start, if CommitOk(env, d) then Offer(l, d) else l)
            && out == CommitAnswer(env, l, d)
  {
    hide Sessions.CommitError, Sessions.MemoryStep, Sessions.ValidCommit, Concat, Payloads;
    CommitStep(env, AsLog(start, l), d);
    if CommitOk(env, d) && d.id !in l.known {
      ConcatPayloads(l.accepted, d);
      var items := Concat(Payloads(l.accepted));
      assert (start + items) + d.payload == start + (items + d.payload);
      assert AsLog(start, Offer(l, d)).items == start + (items + d.payload);
    }
  }

  function CommitAnswer(env: Sessions.Env, l: Ledger<string, seq<Sessions.SessionItem>>, d: CommitDelivery): Sessions.Out {
    var error := Sessions.CommitError(env, d.id, d.fingerprint, d.payload);
    if error.Some? then Sessions.Failed(error.value)
    else
      match Judge(l.known, d.id, d.fingerprint)
      case Accepted => Sessions.Appended(Sessions.Committed)
      case Replayed => Sessions.Appended(Sessions.Replayed)
      case Conflict => Sessions.Failed(Sessions.CONFLICT)
  }

  lemma CommitStep(env: Sessions.Env, log: Sessions.MemoryLog, d: CommitDelivery)
    ensures var (after, out) := Sessions.MemoryStep(env, log, Sessions.AddOnce(d.id, d.fingerprint, d.payload));
            && after == (if !CommitOk(env, d) || d.id in log.commits then log
                         else Sessions.MemoryLog(log.items + d.payload, log.commits[d.id := d.fingerprint]))
            && out == CommitAnswer(env, Ledger(log.commits, []), d)
  {
    hide Sessions.CommitError, Sessions.ValidCommit;
    Sessions.CommitErrorIff(env, d.id, d.fingerprint, d.payload);
  }

  /**
   Any commits, valid or not, repeated or conflicting: the session holds, after its earlier
   items, the items of the first valid commit of each id in order.
   */
  lemma {:induction false} CommitsAreAcceptedOnce(env: Sessions.Env, start: seq<Sessions.SessionItem>, ds: seq<CommitDelivery>)
    ensures CommitAll(env, Sessions.MemoryLog(start, map[]), ds) == AsLog(start, Deliver(OkCommits(env, ds)))
  {
    hide Sessions.CommitError, Sessions.MemoryStep, CommitOk, Offer, Deliver, AsLog, OkCommits;
    if ds == [] {
      NothingCommitted(start);
      NothingOffered(env);
    } else {
      var earlier, d := ds[..|ds| - 1], ds[|ds| - 1];
      CommitsAreAcceptedOnce(env, start, earlier);
      CommitIsOffer(env, start, Deliver(OkCommits(env, earlier)), d);
      OneMoreCommit(env, ds);
    }
  }

  lemma NothingOffered(env: Sessions.Env)
    ensures Deliver(OkCommits(env, [])) == Ledger(map[], [])
  {
  }

  lemma OneMoreCommit(env: Sessions.Env, ds: seq<CommitDelivery>)
    requires ds != []
    ensures var earlier, d := ds[..|ds| - 1], ds[|ds| - 1];
            Deliver(OkCommits(env, ds)) ==
            if CommitOk(env, d) then Offer(Deliver(OkCommits(env, earlier)), d) else Deliver(OkCommits(env, earlier))
  {
    hide CommitOk, Offer;
    var ok, d := OkCommits(env, ds[..|ds| - 1]), ds[|ds| - 1];
    assert (ok + [d])[..|ok + [d]| - 1] == ok;
    assert ok + [] == ok;
  }

  lemma NothingCommitted(start: seq<Sessions.SessionItem>)
    ensures AsLog(start, Ledger(map[], [])) == Sessions.MemoryLog(start, map[])
  {
    var none: Ledger<string, seq<Sessions.SessionItem>> := Ledger(map[], []);
    assert AsLog(start, none).items == start;
  }

  lemma ConcatPayloads(ds: seq<CommitDelivery>, d: CommitDelivery)
    ensures Concat(Payloads(ds + [d])) == Concat(Payloads(ds)) + d.payload
  {
    var all := Payloads(ds + [d]);
    assert all[..|all| - 1] == Payloads(ds);
  }

  // ---- Run events -----------------------------------------------------------------------

  datatype Entry = Entry(digest: string, event: Json.Value, sequence: nat)

  datatype EventTable = EventTable(entries: map<string, Entry>, nextSequence: nat)

  datatype EventResult = Appended(inserted: bool, sequence: nat) | Refused(code: string)

  /** `append_once`; `digest` gives the digest of the canonical event, or the code of why there is none. */
  function AppendEvent(digest: Json.Value -> Result<string>, t: EventTable, id: string, payloadDigest: string, event: Json.Value): (EventTable, EventResult) {
    if !NonBlank(id) then (t, Refused("checkpoint_value_invalid"))
    else if !IsSha256(payloadDigest) then (t, Refused("checkpoint_digest_invalid"))
    else if !event.Object? then (t, Refused("event_payload_invalid"))
    else if digest(event).Err? then (t, Refused(digest(event).error))
    else if digest(event).value != payloadDigest then (t, Refused("event_payload_digest_mismatch"))
    else if id in t.entries then
      (t, if t.entries[id].digest != payloadDigest then Refused("event_identity_conflict")
          else Appended(false, t.entries[id].sequence))
    else if t.nextSequence >= U64_MAX then (t, Refused("event_cursor_overflow"))
    else (EventTable(t.entries[id := Entry(payloadDigest, event, t.nextSequence + 1)], t.nextSequence + 1),
          Appended(true, t.nextSequence + 1))
  }

  type EventDelivery = Delivery<string, Json.Value>

  predicate EventOk(digest: Json.Value -> Result<string>, d: EventDelivery) {
    NonBlank(d.id) && IsSha256(d.fingerprint) && d.payload.Object? && digest(d.payload) == Ok(d.fingerprint)
  }

  function AppendEvents(digest: Json.Value -> Result<string>, ds: seq<EventDelivery>): EventTable {
    if ds == [] then EventTable(map[], 0)
    else
      var d := ds[|ds| - 1];
      AppendEvent(digest, AppendEvents(digest, ds[..|ds| - 1]), d.id, d.fingerprint, d.payload).0
  }

  /** The deliveries that pass validation. */
  function OkEvents(digest: Json.Value -> Result<string>, ds: seq<EventDelivery>): seq<EventDelivery> {
    if ds == [] then []
    else OkEvents(digest, ds[..|ds| - 1]) + if EventOk(digest, ds[|ds| - 1]) then [ds[|ds| - 1]] else []
  }

  predicate KnowsSame(t: EventTable, l: Ledger<string, Json.Value>) {
    t.entries.Keys == l.known.Keys && forall id :: id in l.known ==> t.entries[id].digest == l.known[id]
  }

  /** The k-th accepted event is stored with sequence k + 1. */
  predicate Numbered(t: EventTable, accepted: seq<EventDelivery>) {
    forall k :: 0 <= k < |accepted| ==>
      accepted[k].id in t.entries && t.entries[accepted[k].id] == Entry(accepted[k].fingerprint, accepted[k].payload, k + 1)
  }

  /** Every stored event has the sequence of an accepted one. */
  predicate Indexed(t: EventTable, accepted: seq<EventDelivery>) {
    forall id :: id in t.entries ==> 1 <= t.entries[id].sequence <= |accepted| && accepted[t.entries[id].sequence - 1].id == id
  }

  /** The table is the ledger: its entries are the accepted events, numbered 1, 2, ... in order. */
  predicate EventsMatch(t: EventTable, l: Ledger<string, Json.Value>) {
    t.nextSequence == |l.accepted| && KnowsSame(t, l) && Numbered(t, l.accepted) && Indexed(t, l.accepted)
  }

  /**
   Any deliveries, valid or not, repeated or conflicting: the stored events are the first
   valid delivery of each id, with sequences exactly 1..n in order of first acceptance.
   */
  lemma {:induction false} EventsAreAcceptedOnce(digest: Json.Value -> Result<string>, ds: seq<EventDelivery>)
    requires |ds| <= U64_MAX
    ensures EventsMatch(AppendEvents(digest, ds), Deliver(OkEvents(digest, ds)))
    ensures |Deliver(OkEvents(digest, ds)).accepted| <= |ds|
  {
    if ds != [] {
      var earlier, d := ds[..|ds| - 1], ds[|ds| - 1];
      EventsAreAcceptedOnce(digest, earlier);
      var t, l := AppendEvents(digest, earlier), Deliver(OkEvents(digest, earlier));
      if EventOk(digest, d) {
        var ok := OkEvents(digest, earlier);
        assert (ok + [d])[..|ok + [d]| - 1] == ok;
        OfferKeepsMatch(digest, t, l, d);
      } else {
        assert AppendEvent(digest, t, d.id, d.fingerprint, d.payload).0 == t;
        assert OkEvents(digest, ds) == OkEvents(digest, earlier);
      }
    }
  }

  lemma OfferKeepsMatch(digest: Json.Value -> Result<string>, t: EventTable, l: Ledger<string, Json.Value>, d: EventDelivery)
    requires EventsMatch(t, l) && EventOk(digest, d) && |l.accepted| < U64_MAX
    ensures EventsMatch(AppendEvent(digest, t, d.id, d.fingerprint, d.payload).0, Offer(l, d))
    ensures |Offer(l, d).accepted| <= |l.accepted| + 1
  {
    hide Numbered, Indexed;
    AppendIsWithEntry(digest, t, d);
    hide AppendEvent, EventOk;
    if d.id !in l.known {
      assert d.id !in t.entries;
      NewEntryIsNumbered(t, l.accepted, d);
      NewEntryIsIndexed(t, l.accepted, d);
    }
  }

  function WithEntry(t: EventTable, d: EventDelivery, sequence: nat): EventTable {
    EventTable(t.entries[d.id := Entry(d.fingerprint, d.payload, sequence)], sequence)
  }

  lemma AppendIsWithEntry(digest: Json.Value -> Result<string>, t: EventTable, d: EventDelivery)
    requires EventOk(digest, d) && t.nextSequence < U64_MAX
    ensures AppendEvent(digest, t, d.id, d.fingerprint, d.payload).0 ==
            if d.id in t.entries then t else WithEntry(t, d, t.nextSequence + 1)
  {
    hide NonBlank, IsSha256;
  }

  lemma NewEntryIsNumbered(t: EventTable, accepted: seq<EventDelivery>, d: EventDelivery)
    requires Numbered(t, accepted) && d.id !in t.entries
    ensures Numbered(WithEntry(t, d, |accepted| + 1), accepted + [d])
  {
  }

  lemma NewEntryIsIndexed(t: EventTable, accepted: seq<EventDelivery>, d: EventDelivery)
    requires Indexed(t, accepted)
    ensures Indexed(WithEntry(t, d, |accepted| + 1), accepted + [d])
  {
  }

  /** The result of an append is the verdict: the cursor of a redelivery is the original one. */
  lemma EventResults(digest: Json.Value -> Result<string>, t: EventTable, l: Ledger<string, Json.Value>, d: EventDelivery)
    requires EventsMatch(t, l) && EventOk(digest, d) && |l.accepted| < U64_MAX
    ensures var r := AppendEvent(digest, t, d.id, d.fingerprint, d.payload).1;
            match Judge(l.known, d.id, d.fingerprint)
            case Accepted => r == Appended(true, |l.accepted| + 1)
            case Replayed => r.Appended? && !r.inserted && 1 <= r.sequence <= |l.accepted| && l.accepted[r.sequence - 1].id == d.id
            case Conflict => r == Refused("event_identity_conflict")
  {
  }

  /** When the sequence is used up a new event is refused, and nothing changes. */
  lemma FullTableRefuses(digest: Json.Value -> Result<string>, t: EventTable, d: EventDelivery)
    requires EventOk(digest, d) && d.id !in t.entries && t.nextSequence >= U64_MAX
    ensures AppendEvent(digest, t, d.id, d.fingerprint, d.payload) == (t, Refused("event_cursor_overflow"))
  {
  }

  /** An invalid delivery changes nothing and is answered with the code of the first thing wrong with it. */
  lemma InvalidEventsAreRefused(digest: Json.Value -> Result<string>, t: EventTable, d: EventDelivery)
    requires !EventOk(digest, d)
    ensures var (t', r) := AppendEvent(digest, t, d.id, d.fingerprint, d.payload);
            && t' == t && r.Refused?
            && (!NonBlank(d.id) ==> r.code == "checkpoint_value_invalid")
            && (NonBlank(d.id) && !IsSha256(d.fingerprint) ==> r.code == "checkpoint_digest_invalid")
            && (NonBlank(d.id) && IsSha256(d.fingerprint) ==>
                  && (!d.payload.Object? ==> r.code == "event_payload_invalid")
                  && (d.payload.Object? ==>
                        match digest(d.payload)
                        case Err(code) => r.code == code
                        case Ok(_) => r.code == "event_payload_digest_mismatch"))
  {
    hide NonBlank, IsSha256;
  }

  /** `replay`: the wanted events in order of their sequence, up to `n`. */
  ghost function ReplayEvents(t: EventTable, wanted: Json.Value -> bool, n: nat): seq<Json.Value> {
    if n == 0 then []
    else
      var older := ReplayEvents(t, wanted, n - 1);
      if exists id :: id in t.entries && t.entries[id].sequence == n && wanted(t.entries[id].event) then
        var id :| id in t.entries && t.entries[id].sequence == n && wanted(t.entries[id].event);
        older + [t.entries[id].event]
      else older
  }

  function Filter<T>(xs: seq<T>, wanted: T -> bool): seq<T> {
    if xs == [] then []
    else Filter(xs[..|xs| - 1], wanted) + if wanted(xs[|xs| - 1]) then [xs[|xs| - 1]] else []
  }

  /** Replay gives the accepted events that are wanted, in order of first acceptance. */
  lemma {:induction false} ReplayIsAcceptedOrder(t: EventTable, l: Ledger<string, Json.Value>, wanted: Json.Value -> bool, n: nat)
    requires EventsMatch(t, l) && n <= |l.accepted|
    ensures ReplayEvents(t, wanted, n) == Filter(Payloads(l.accepted)[..n], wanted)
  {
    if n != 0 {
      ReplayIsAcceptedOrder(t, l, wanted, n - 1);
      var events := Payloads(l.accepted)[..n];
      assert events[..n - 1] == Payloads(l.accepted)[..n - 1];
      var d := l.accepted[n - 1];
      assert t.entries[d.id] == Entry(d.fingerprint, d.payload, n);
      assert forall id :: id in t.entries && t.entries[id].sequence == n ==> id == d.id;
    }
  }

  // ---- App-server items -------------------------------------------------------------------

  /** `body` stands for the kind, status and payload of the item. */
  datatype AppItem = AppItem(itemId: string, threadId: string, turnId: string, body: Json.Value, createdAt: real, updatedAt: real)

  datatype ItemRow = ItemRow(threadId: string, turnId: string, sequence: nat, item: AppItem)

  type ItemTable = map<string, ItemRow>

  datatype ItemResult = Inserted | AlreadyPresent | IdentityConflict

  function Sequences(t: ItemTable, thread: string): set<nat> {
    set id | id in t && t[id].threadId == thread :: t[id].sequence
  }

  /** `COALESCE(MAX(sequence), 0)`. */
  ghost function Max(s: set<nat>): (m: nat)
    ensures forall x :: x in s ==> x <= m
    ensures if s == {} then m == 0 else m in s
  {
    if s == {} then 0
    else
      var x :| x in s;
      var m := Max(s - {x});
      assert s == (s - {x}) + {x};
      if x > m then x else m
  }

  ghost function AppendItem(t: ItemTable, thread: string, turn: string, item: AppItem): (ItemTable, ItemResult) {
    if item.threadId != thread || item.turnId != turn then (t, IdentityConflict)
    else if item.itemId !in t then
      (t[item.itemId := ItemRow(thread, turn, Max(Sequences(t, thread)) + 1, item)], Inserted)
    else
      var row := t[item.itemId];
      (t, if row.threadId == thread && row.turnId == turn && row.item == item then AlreadyPresent else IdentityConflict)
  }

  type ItemDelivery = d: Delivery<AppItem, AppItem> | d.id == d.payload.itemId && d.fingerprint == d.payload
    witness var item := AppItem("", "", "", Json.Null, 0.0, 0.0); Delivery("", item, item)

  ghost function AppendItems(ds: seq<ItemDelivery>): ItemTable {
    if ds == [] then map[]
    else
      var item := ds[|ds| - 1].payload;
      AppendItem(AppendItems(ds[..|ds| - 1]), item.threadId, item.turnId, item).0
  }

  function OnThread(ds: seq<Delivery<AppItem, AppItem>>, thread: string): seq<AppItem> {
    if ds == [] then []
    else OnThread(ds[..|ds| - 1], thread) +
         if ds[|ds| - 1].payload.threadId == thread then [ds[|ds| - 1].payload] else []
  }

  /** The i-th item of a thread is stored on it with sequence i + 1. */
  predicate ThreadNumbered(t: ItemTable, items: seq<AppItem>, thread: string) {
    forall i :: 0 <= i < |items| ==>
      items[i].itemId in t && t[items[i].itemId] == ItemRow(thread, items[i].turnId, i + 1, items[i])
  }

  /** Every row of a thread is one of its items. */
  predicate ThreadIndexed(t: ItemTable, items: seq<AppItem>, thread: string) {
    forall id :: id in t && t[id].threadId == thread ==>
      1 <= t[id].sequence <= |items| && items[t[id].sequence - 1] == t[id].item && t[id].item.itemId == id
  }

  /** On a thread the rows are its accepted items, numbered 1, 2, ... in order. */
  predicate ThreadMatches(t: ItemTable, l: Ledger<AppItem, AppItem>, thread: string) {
    ThreadNumbered(t, OnThread(l.accepted, thread), thread) && ThreadIndexed(t, OnThread(l.accepted, thread), thread)
  }

  ghost predicate ItemsMatch(t: ItemTable, l: Ledger<AppItem, AppItem>) {
    && t.Keys == l.known.Keys
    && (forall id :: id in t ==> t[id].item == l.known[id] && t[id].threadId == t[id].item.threadId && t[id].turnId == t[id].item.turnId)
    && (forall thread :: ThreadMatches(t, l, thread))
  }

  lemma NextSequence(t: ItemTable, l: Ledger<AppItem, AppItem>, thread: string)
    requires ThreadMatches(t, l, thread)
    ensures Max(Sequences(t, thread)) == |OnThread(l.accepted, thread)|
  {
    var items := OnThread(l.accepted, thread);
    if items != [] {
      var last := items[|items| - 1];
      assert t[last.itemId].sequence in Sequences(t, thread);
    }
  }

  lemma ThreadGrows(t: ItemTable, l: Ledger<AppItem, AppItem>, d: ItemDelivery, thread: string)
    requires ThreadMatches(t, l, thread) && d.id !in t
    ensures var row := ItemRow(d.payload.threadId, d.payload.turnId, |OnThread(l.accepted, d.payload.threadId)| + 1, d.payload);
            ThreadMatches(t[d.id := row], Ledger(l.known[d.id := d.fingerprint], l.accepted + [d]), thread)
  {
    var items, more := OnThread(l.accepted, thread), l.accepted + [d];
    assert more[..|more| - 1] == l.accepted && more[|more| - 1] == d;
    assert OnThread(more, thread) == items + if d.payload.threadId == thread then [d.payload] else [];
    ItemIsNumbered(t, items, d.payload, thread, |OnThread(l.accepted, d.payload.threadId)| + 1);
    ItemIsIndexed(t, items, d.payload, thread, |OnThread(l.accepted, d.payload.threadId)| + 1);
  }

  lemma ItemIsNumbered(t: ItemTable, items: seq<AppItem>, item: AppItem, thread: string, sequence: nat)
    requires ThreadNumbered(t, items, thread) && item.itemId !in t
    requires item.threadId == thread ==> sequence == |items| + 1
    ensures ThreadNumbered(t[item.itemId := ItemRow(item.threadId, item.turnId, sequence, item)],
                           items + if item.threadId == thread then [item] else [], thread)
  {
  }

  lemma ItemIsIndexed(t: ItemTable, items: seq<AppItem>, item: AppItem, thread: string, sequence: nat)
    requires ThreadIndexed(t, items, thread)
    requires item.threadId == thread ==> sequence == |items| + 1
    ensures ThreadIndexed(t[item.itemId := ItemRow(item.threadId, item.turnId, sequence, item)],
                          items + if item.threadId == thread then [item] else [], thread)
  {
  }

  lemma ItemOfferKeepsMatch(t: ItemTable, l: Ledger<AppItem, AppItem>, d: ItemDelivery)
    requires ItemsMatch(t, l)
    ensures ItemsMatch(AppendItem(t, d.payload.threadId, d.payload.turnId, d.payload).0, Offer(l, d))
    ensures AppendItem(t, d.payload.threadId, d.payload.turnId, d.payload).1 ==
            match Judge(l.known, d.id, d.fingerprint)
            case Accepted => Inserted
            case Replayed => AlreadyPresent
            case Conflict => IdentityConflict
  {
    var item := d.payload;
    if d.id !in l.known {
      var t', l' := AppendItem(t, item.threadId, item.turnId, item).0, Offer(l, d);
      forall thread ensures ThreadMatches(t', l', thread) {
        assert ThreadMatches(t, l, thread) && ThreadMatches(t, l, item.threadId);
        NextSequence(t, l, item.threadId);
        ThreadGrows(t, l, d, thread);
      }
    }
  }

  /**
   Any deliveries of items: the table is the ledger of first deliveries, and on every
   thread the sequences are exactly 1..n in order of first acceptance.
   */
  lemma {:induction false} ItemsAreAcceptedOnce(ds: seq<ItemDelivery>)
    ensures ItemsMatch(AppendItems(ds), Deliver(ds))
  {
    if ds == [] {
      assert forall thread :: ThreadMatches(map[], Ledger(map[], []), thread);
    } else {
      ItemsAreAcceptedOnce(ds[..|ds| - 1]);
      ItemOfferKeepsMatch(AppendItems(ds[..|ds| - 1]), Deliver(ds[..|ds| - 1]), ds[|ds| - 1]);
    }
  }

  function NormalizeTimestamp(value: real): real {
    if value >= 100000000000.0 || value <= -100000000000.0 then value / 1000.0 else value
  }

  function Normalized(item: AppItem): AppItem {
    item.(createdAt := NormalizeTimestamp(item.createdAt), updatedAt := NormalizeTimestamp(item.updatedAt))
  }

  /** `replay_items`: the rows of the thread in order of sequence, up to `n`, with normalized timestamps. */
  ghost function ReplayItems(t: ItemTable, thread: string, n: nat): seq<AppItem> {
    if n == 0 then []
    else
      var older := ReplayItems(t, thread, n - 1);
      if exists id :: id in t && t[id].threadId == thread && t[id].sequence == n then
        var id :| id in t && t[id].threadId == thread && t[id].sequence == n;
        older + [Normalized(t[id].item)]
      else older
  }

  /** Timestamps far beyond seconds are milliseconds: they are brought to seconds, and nothing else of an item changes. */
  lemma NormalizedOnlyRescales(item: AppItem)
    ensures var n := Normalized(item);
            && n.itemId == item.itemId && n.threadId == item.threadId && n.turnId == item.turnId && n.body == item.body
            && (if -100000000000.0 < item.createdAt < 100000000000.0 then n.createdAt == item.createdAt
                else n.createdAt * 1000.0 == item.createdAt)
            && (if -100000000000.0 < item.updatedAt < 100000000000.0 then n.updatedAt == item.updatedAt
                else n.updatedAt * 1000.0 == item.updatedAt)
  {
  }

  /** An item addressed to another thread or turn than its own is refused and changes nothing. */
  lemma MisaddressedItemIsRefused(t: ItemTable, thread: string, turn: string, item: AppItem)
    requires item.threadId != thread || item.turnId != turn
    ensures AppendItem(t, thread, turn, item) == (t, IdentityConflict)
  {
  }

  /** Replaying a thread gives its first acceptances in order. */
  lemma {:induction false} ReplayIsThreadOrder(t: ItemTable, l: Ledger<AppItem, AppItem>, thread: string, n: nat)
    requires ThreadMatches(t, l, thread) && n <= |OnThread(l.accepted, thread)|
    ensures |ReplayItems(t, thread, n)| == n
    ensures forall i :: 0 <= i < n ==> ReplayItems(t, thread, n)[i] == Normalized(OnThread(l.accepted, thread)[i])
  {
    if n != 0 {
      ReplayIsThreadOrder(t, l, thread, n - 1);
      var item := OnThread(l.accepted, thread)[n - 1];
      assert t[item.itemId].sequence == n && t[item.itemId].threadId == thread;
    }
  }

  // ---- The stores in place ---------------------------------------------------------------------

  class InMemoryRunEventStore {
    const digest: Json.Value -> Result<string>
    var entries: map<string, Entry>
    var nextSequence: nat

    constructor (digest: Json.Value -> Result<string>)
      ensures this.digest == digest && entries == map[] && nextSequence == 0
    {
      this.digest := digest;
      entries, nextSequence := map[], 0;
    }

    method Append(id: string, payloadDigest: string, event: Json.Value) returns (r: EventResult)
      modifies this
      ensures (EventTable(entries, nextSequence), r) ==
              AppendEvent(digest, EventTable(old(entries), old(nextSequence)), id, payloadDigest, event)
    {
      if !NonBlank(id) { return Refused("checkpoint_value_invalid"); }
      if !IsSha256(payloadDigest) { return Refused("checkpoint_digest_invalid"); }
      if !event.Object? { return Refused("event_payload_invalid"); }
      var calculated := digest(event);
      if calculated.Err? { return Refused(calculated.error); }
      if calculated.value != payloadDigest { return Refused("event_payload_digest_mismatch"); }
      if id in entries {
        if entries[id].digest != payloadDigest { return Refused("event_identity_conflict"); }
        return Appended(false, entries[id].sequence);
      }
      if nextSequence >= U64_MAX { return Refused("event_cursor_overflow"); }
      nextSequence := nextSequence + 1;
      entries := entries[id := Entry(payloadDigest, event, nextSequence)];
      r := Appended(true, nextSequence);
    }
  }

  class SqliteThreadStore {
    var items: ItemTable

    constructor ()
      ensures items == map[]
    {
      items := map[];
    }

    /** `SELECT COALESCE(MAX(sequence), 0)` over the rows of a thread. */
    method MaxSequence(thread: string) returns (m: nat)
      ensures m == Max(Sequences(items, thread))
    {
      m := 0;
      var left := items.Keys;
      while left != {}
        invariant left <= items.Keys
        invariant forall id :: id in items && id !in left && items[id].threadId == thread ==> items[id].sequence <= m
        invariant m == 0 || m in Sequences(items, thread)
        decreases |left|
      {
        var id :| id in left;
        if items[id].threadId == thread && items[id].sequence > m {
          m := items[id].sequence;
        }
        left := left - {id};
      }
    }

    method Append(thread: string, turn: string, item: AppItem) returns (r: ItemResult)
      modifies this
      ensures (items, r) == AppendItem(old(items), thread, turn, item)
    {
      if item.threadId != thread || item.turnId != turn {
        return IdentityConflict;
      }
      var sequence := MaxSequence(thread);
      if item.itemId !in items {
        items := items[item.itemId := ItemRow(thread, turn, sequence + 1, item)];
        return Inserted;
      }
      var row := items[item.itemId];
      if row.threadId == thread && row.turnId == turn && row.item == item {
        return AlreadyPresent;
      }
      r := IdentityConflict;
    }
  }
}
