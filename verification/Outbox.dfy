// Draining the notification outbox (backend/internal/notifications/repository.go, lines 230-413;
// backend/db/sqlc/notifications.sql.go, lines 108-123, 249-257, 335-387 and 627-631).

module Outbox {
  import opened FixtureModels
  import opened Counting

  type Id = int
  type User = int

  datatype Channel = InApp | Email

  const DRAIN_CHANNELS: seq<Channel> := [InApp, Email]
  const DRAIN_LIMIT: int := 100

  /** A row of notification_outbox. */
  datatype Entry = Entry(id: Id, org: Id, eventType: string, actor: Option<User>, payload: string, processed: bool)

  /** UNIQUE (outbox_id, user_id, channel) on notifications. */
  datatype Key = Key(outbox: Id, user: User, channel: Channel)

  datatype Notification = Notification(key: Key, org: Id, eventType: string, payload: string, delivered: bool)

  /** UNIQUE (organization_id, user_id, event_type, channel) on notification_preferences. */
  datatype PrefId = PrefId(org: Id, user: User, eventType: string, channel: Channel)

  type Preferences = map<PrefId, bool>

  type Notifications = map<Key, Notification>

  /** Keyed by outbox entry and endpoint; the value is the delivery's event type. */
  type Deliveries = map<(Id, Id), string>

  // ---- who is notified ----

  /** A missing preference row means enabled. */
  predicate Enabled(prefs: Preferences, org: Id, user: User, eventType: string, ch: Channel) {
    PrefId(org, user, eventType, ch) in prefs ==> prefs[PrefId(org, user, eventType, ch)]
  }

  /** Every member but the actor, on every channel he has not switched off. */
  predicate Wanted(e: Entry, org: Id, members: seq<User>, prefs: Preferences, user: User, ch: Channel) {
    user in members && e.actor != Some(user) && Enabled(prefs, org, user, e.eventType, ch)
  }

  /** In-app rows are delivered at once, email rows wait for the worker. */
  function NotificationFor(e: Entry, user: User, ch: Channel): Notification {
    Notification(Key(e.id, user, ch), e.org, e.eventType, e.payload, ch.InApp?)
  }

  // ---- the preference cache ----

  type Cache = map<(string, Channel), map<User, bool>>

  /** The rows of one (event type, channel) pair, by user. */
  function PreferencesFor(prefs: Preferences, org: Id, eventType: string, ch: Channel): (m: map<User, bool>)
    ensures PairOk(prefs, org, eventType, ch, m)
  {
    map user | user in (set id | id in prefs :: id.user) && PrefId(org, user, eventType, ch) in prefs
      :: prefs[PrefId(org, user, eventType, ch)]
  }

  /** m is what the preference table says about this pair. */
  ghost predicate PairOk(prefs: Preferences, org: Id, eventType: string, ch: Channel, m: map<User, bool>) {
    forall user :: SaysOf(prefs, PrefId(org, user, eventType, ch), user, m)
  }

  ghost predicate SaysOf(prefs: Preferences, id: PrefId, user: User, m: map<User, bool>) {
    (user in m <==> id in prefs) && (user in m ==> id in prefs && m[user] == prefs[id])
  }

  predicate Allows(userPrefs: map<User, bool>, user: User) {
    user in userPrefs ==> userPrefs[user]
  }

  ghost predicate CacheOk(cache: Cache, prefs: Preferences, org: Id) {
    forall key | key in cache :: PairOk(prefs, org, key.0, key.1, cache[key])
  }

  ghost predicate Loaded(cache: Cache, e: Entry) {
    (e.eventType, InApp) in cache && (e.eventType, Email) in cache
  }

  /** The cached lookup is the direct one. */
  lemma CacheAgrees(cache: Cache, prefs: Preferences, org: Id, e: Entry, user: User, ch: Channel)
    requires CacheOk(cache, prefs, org) && Loaded(cache, e)
    ensures (e.eventType, ch) in cache && (Allows(cache[(e.eventType, ch)], user) <==> Enabled(prefs, org, user, e.eventType, ch))
  {
  }

  // ---- what a drain adds ----

  type Due = set<(User, Channel)>

  /** The recipients of one entry, with the channels they take it on. */
  ghost function DueFor(e: Entry, org: Id, members: seq<User>, prefs: Preferences): Due {
    set user, ch | user in members && ch in {InApp, Email} && Wanted(e, org, members, prefs, user, ch) :: (user, ch)
  }

  ghost predicate IsDue(e: Entry, due: Due, key: Key) {
    key.outbox == e.id && (key.user, key.channel) in due
  }

  /** after is before plus the rows that were due, each once. */
  ghost predicate AddsRows(before: Notifications, after: Notifications, e: Entry, due: Due) {
    && (forall key :: key in after <==> key in before || IsDue(e, due, key))
    && (forall key | key in before :: after[key] == before[key])
    && (forall key | key in after && key !in before :: after[key] == NotificationFor(e, key.user, key.channel))
  }

  /** created lists exactly the new in-app rows, each once. */
  ghost predicate ListsNew(before: Notifications, after: Notifications, created: seq<Notification>) {
    && (forall k | 0 <= k < |created| :: IsNewInApp(before, after, created[k]))
    && (forall k, l | 0 <= k < l < |created| :: created[k].key != created[l].key)
    && (forall key | key in after && key !in before && key.channel.InApp? :: after[key] in created)
  }

  ghost predicate IsNewInApp(before: Notifications, after: Notifications, n: Notification) {
    n.key !in before && n.key in after && after[n.key] == n && n.key.channel.InApp?
  }

  ghost predicate Progress(before: Notifications, after: Notifications, e: Entry, due: Due, created: seq<Notification>) {
    AddsRows(before, after, e, due) && ListsNew(before, after, created)
  }

  lemma Compose(before: Notifications, mid: Notifications, after: Notifications, e: Entry, due: Due, more: Due,
                xs: seq<Notification>, ys: seq<Notification>)
    requires Progress(before, mid, e, due, xs) && Progress(mid, after, e, more, ys)
    ensures Progress(before, after, e, due + more, xs + ys)
  {
  }

  lemma ListsCompose(before: Notifications, mid: Notifications, after: Notifications, xs: seq<Notification>, ys: seq<Notification>)
    requires ListsNew(before, mid, xs) && ListsNew(mid, after, ys)
    requires forall key | key in before :: key in mid && mid[key] == before[key]
    requires forall key | key in mid :: key in after && after[key] == mid[key]
    ensures ListsNew(before, after, xs + ys)
  {
  }

  /** What one more member is due. */
  ghost function MemberDue(e: Entry, org: Id, member: User, prefs: Preferences): Due {
    DueFor(e, org, [member], prefs)
  }

  lemma DueGrows(e: Entry, org: Id, members: seq<User>, m: nat, prefs: Preferences)
    requires m < |members|
    ensures DueFor(e, org, members[..m+1], prefs) == DueFor(e, org, members[..m], prefs) + MemberDue(e, org, members[m], prefs)
  {
  }

  ghost function ChannelDue(e: Entry, org: Id, member: User, prefs: Preferences, ch: Channel): Due {
    if Wanted(e, org, [member], prefs, member, ch) then {(member, ch)} else {}
  }

  // ---- the claim ----

  predicate Pending(e: Entry, org: Id, skipped: set<Id>) {
    e.org == org && !e.processed && e.id !in skipped
  }

  /** The first DRAIN_LIMIT pending entries among the first k; the table is kept in created_at order. */
  function ClaimUpTo(outbox: seq<Entry>, org: Id, skipped: set<Id>, k: nat): seq<Entry>
    requires k <= |outbox|
  {
    if k == 0 then []
    else
      var earlier := ClaimUpTo(outbox, org, skipped, k - 1);
      if |earlier| < DRAIN_LIMIT && Pending(outbox[k - 1], org, skipped) then earlier + [outbox[k - 1]] else earlier
  }

  function MarkOne(e: Entry, ids: seq<Id>): Entry {
    if e.id in ids then e.(processed := true) else e
  }

  function Marked(outbox: seq<Entry>, ids: seq<Id>): seq<Entry> {
    seq(|outbox|, i requires 0 <= i < |outbox| => MarkOne(outbox[i], ids))
  }

  class NotificationStore {
    var outbox: seq<Entry>
    var notifications: Notifications
    var deliveries: Deliveries
    var prefs: Preferences

    constructor ()
      ensures outbox == [] && notifications == map[] && deliveries == map[] && prefs == map[]
    {
      outbox, notifications, deliveries, prefs := [], map[], map[], map[];
    }

    method DrainOutboxEntries(org: Id, skipped: set<Id>) returns (entries: seq<Entry>)
      ensures entries == ClaimUpTo(outbox, org, skipped, |outbox|)
    {
      entries := [];
      for k := 0 to |outbox|
        invariant entries == ClaimUpTo(outbox, org, skipped, k)
      {
        if |entries| < DRAIN_LIMIT && Pending(outbox[k], org, skipped) {
          entries := entries + [outbox[k]];
        }
      }
    }

    method LoadPair(org: Id, eventType: string, ch: Channel, cache: Cache) returns (cache': Cache)
      requires CacheOk(cache, prefs, org)
      ensures CacheOk(cache', prefs, org)
      ensures cache'.Keys == cache.Keys + {(eventType, ch)}
    {
      var key := (eventType, ch);
      cache' := if key in cache then cache else cache[key := PreferencesFor(prefs, org, eventType, ch)];
    }

    /** One query per distinct (event type, channel) pair. */
    method LoadPreferences(org: Id, entries: seq<Entry>) returns (cache: Cache)
      ensures CacheOk(cache, prefs, org) && forall e | e in entries :: Loaded(cache, e)
    {
      cache := map[];
      for i := 0 to |entries|
        invariant CacheOk(cache, prefs, org)
        invariant forall k | 0 <= k < i :: Loaded(cache, entries[k])
      {
        ghost var keys := cache.Keys;
        for c := 0 to |DRAIN_CHANNELS|
          invariant CacheOk(cache, prefs, org) && keys <= cache.Keys
          invariant forall d | 0 <= d < c :: (entries[i].eventType, DRAIN_CHANNELS[d]) in cache
        {
          cache := LoadPair(org, entries[i].eventType, DRAIN_CHANNELS[c], cache);
        }
        assert DRAIN_CHANNELS[0] == InApp && DRAIN_CHANNELS[1] == Email;
      }
    }

    /** INSERT ... ON CONFLICT (outbox_id, user_id, channel) DO NOTHING. */
    method CreateNotification(n: Notification) returns (inserted: bool)
      modifies `notifications
      ensures inserted <==> n.key !in old(notifications)
      ensures notifications == if inserted then old(notifications)[n.key := n] else old(notifications)
    {
      inserted := n.key !in notifications;
      if inserted {
        notifications := notifications[n.key := n];
      }
    }

    method NotifyOn(e: Entry, org: Id, member: User, ch: Channel, cache: Cache) returns (created: seq<Notification>)
      requires CacheOk(cache, prefs, org) && Loaded(cache, e) && e.actor != Some(member)
      modifies `notifications
      ensures Progress(old(notifications), notifications, e, ChannelDue(e, org, member, prefs, ch), created)
    {
      created := [];
      CacheAgrees(cache, prefs, org, e, member, ch);
      if !Allows(cache[(e.eventType, ch)], member) {
        return;
      }
      var n := NotificationFor(e, member, ch);
      var inserted := CreateNotification(n);
      if inserted && ch.InApp? {
        created := [n];
      }
    }

    /** The inner loop over the channels. */
    method NotifyMember(e: Entry, org: Id, member: User, cache: Cache) returns (created: seq<Notification>)
      requires CacheOk(cache, prefs, org) && Loaded(cache, e)
      modifies `notifications
      ensures Progress(old(notifications), notifications, e, MemberDue(e, org, member, prefs), created)
    {
      created := [];
      if e.actor == Some(member) {
        return;
      }
      ghost var due: Due := {};
      for c := 0 to |DRAIN_CHANNELS|
        invariant due == (if c > 0 then ChannelDue(e, org, member, prefs, InApp) else {})
                         + (if c > 1 then ChannelDue(e, org, member, prefs, Email) else {})
        invariant Progress(old(notifications), notifications, e, due, created)
      {
        ghost var mid := notifications;
        var more := NotifyOn(e, org, member, DRAIN_CHANNELS[c], cache);
        Compose(old(notifications), mid, notifications, e, due, ChannelDue(e, org, member, prefs, DRAIN_CHANNELS[c]), created, more);
        due := due + ChannelDue(e, org, member, prefs, DRAIN_CHANNELS[c]);
        created := created + more;
      }
    }

    /** The fan-out of one entry. */
    method FanOut(e: Entry, org: Id, members: seq<User>, cache: Cache) returns (created: seq<Notification>)
      requires CacheOk(cache, prefs, org) && Loaded(cache, e)
      modifies `notifications
      ensures Progress(old(notifications), notifications, e, DueFor(e, org, members, prefs), created)
    {
      created := [];
      assert DueFor(e, org, members[..0], prefs) == {};
      for m := 0 to |members|
        invariant Progress(old(notifications), notifications, e, DueFor(e, org, members[..m], prefs), created)
      {
        ghost var mid := notifications;
        var more := NotifyMember(e, org, members[m], cache);
        Compose(old(notifications), mid, notifications, e, DueFor(e, org, members[..m], prefs),
                MemberDue(e, org, members[m], prefs), created, more);
        DueGrows(e, org, members, m, prefs);
        created := created + more;
      }
      assert members[..|members|] == members;
    }

    /** One delivery per active endpoint; ON CONFLICT (outbox_id, endpoint_id) DO NOTHING. */
    method FanOutWebhooks(e: Entry, endpoints: seq<Id>)
      modifies `deliveries
      ensures Delivers(old(deliveries), deliveries, e, endpoints)
    {
      for i := 0 to |endpoints|
        invariant Delivers(old(deliveries), deliveries, e, endpoints[..i])
      {
        assert endpoints[..i+1] == endpoints[..i] + [endpoints[i]];
        if (e.id, endpoints[i]) !in deliveries {
          deliveries := deliveries[(e.id, endpoints[i]) := e.eventType];
        }
      }
      assert endpoints[..|endpoints|] == endpoints;
    }

    method MarkOutboxEntryProcessed(id: Id)
      modifies `outbox
      ensures outbox == Marked(old(outbox), [id])
    {
      for i := 0 to |outbox|
        invariant |outbox| == |old(outbox)|
        invariant forall k | 0 <= k < i :: outbox[k] == MarkOne(old(outbox)[k], [id])
        invariant forall k | i <= k < |outbox| :: outbox[k] == old(outbox)[k]
      {
        if outbox[i].id == id {
          outbox := outbox[i := outbox[i].(processed := true)];
        }
      }
    }

    /** One pass of the loop over the claimed entries. */
    method ProcessEntry(e: Entry, org: Id, members: seq<User>, endpoints: seq<Id>, cache: Cache) returns (created: seq<Notification>)
      requires CacheOk(cache, prefs, org) && Loaded(cache, e)
      modifies `outbox, `notifications, `deliveries
      ensures Progress(old(notifications), notifications, e, DueFor(e, org, members, prefs), created)
      ensures Delivers(old(deliveries), deliveries, e, endpoints)
      ensures outbox == Marked(old(outbox), [e.id])
    {
      created := FanOut(e, org, members, cache);
      FanOutWebhooks(e, endpoints);
      MarkOutboxEntryProcessed(e.id);
    }

    /** The transaction: claim, load the preferences, fan every claimed entry out, mark it processed. */
    method DrainOutbox(org: Id, members: seq<User>, endpoints: seq<Id>, skipped: set<Id>) returns (created: seq<Notification>)
      requires DistinctIds(outbox)
      modifies `outbox, `notifications, `deliveries
      ensures var entries := ClaimUpTo(old(outbox), org, skipped, |old(outbox)|);
              && FansOut(old(notifications), notifications, entries, org, members, prefs)
              && ListsNew(old(notifications), notifications, created)
              && DeliversAll(old(deliveries), deliveries, entries, endpoints)
              && outbox == Marked(old(outbox), IdsOf(entries))
    {
      var entries := DrainOutboxEntries(org, skipped);
      ClaimDistinct(outbox, org, skipped, |outbox|);
      created := [];
      StartBatch(notifications, deliveries, outbox, entries, org, members, endpoints, prefs);
      if entries == [] {
        return;
      }
      var cache := LoadPreferences(org, entries);
      for i := 0 to |entries|
        invariant FansOut(old(notifications), notifications, entries[..i], org, members, prefs)
        invariant ListsNew(old(notifications), notifications, created)
        invariant DeliversAll(old(deliveries), deliveries, entries[..i], endpoints)
        invariant outbox == Marked(old(outbox), IdsOf(entries[..i]))
      {
        ghost var mid, sent := notifications, deliveries;
        var more := ProcessEntry(entries[i], org, members, endpoints, cache);
        FansOutMore(old(notifications), mid, notifications, entries, i, org, members, prefs);
        ListsCompose(old(notifications), mid, notifications, created, more);
        DeliversMore(old(deliveries), sent, deliveries, entries, i, endpoints);
        MarkMore(old(outbox), entries, i);
        created := created + more;
      }
      assert entries[..|entries|] == entries;
    }
  }

  lemma StartBatch(notifications: Notifications, deliveries: Deliveries, outbox: seq<Entry>, entries: seq<Entry>, org: Id,
                   members: seq<User>, endpoints: seq<Id>, prefs: Preferences)
    ensures FansOut(notifications, notifications, entries[..0], org, members, prefs)
    ensures ListsNew(notifications, notifications, [])
    ensures DeliversAll(deliveries, deliveries, entries[..0], endpoints)
    ensures outbox == Marked(outbox, IdsOf(entries[..0])) && (entries == [] ==> entries[..0] == entries)
  {
  }

  /** One delivery for each claimed entry and active endpoint, beyond those already there. */
  ghost predicate DeliversAll(before: Deliveries, after: Deliveries, entries: seq<Entry>, endpoints: seq<Id>) {
    && (forall k :: k in after <==> k in before || (HasId(entries, k.0) && k.1 in endpoints))
    && (forall k | k in before :: after[k] == before[k])
    && (forall k, i | k in after && k !in before && 0 <= i < |entries| && entries[i].id == k.0 :: after[k] == entries[i].eventType)
  }

  lemma DeliversMore(before: Deliveries, mid: Deliveries, after: Deliveries, entries: seq<Entry>, i: nat, endpoints: seq<Id>)
    requires i < |entries| && DistinctIds(entries)
    requires DeliversAll(before, mid, entries[..i], endpoints) && Delivers(mid, after, entries[i], endpoints)
    ensures DeliversAll(before, after, entries[..i+1], endpoints)
  {
  }

  ghost predicate Delivers(before: Deliveries, after: Deliveries, e: Entry, endpoints: seq<Id>) {
    && (forall k :: k in after <==> k in before || (k.0 == e.id && k.1 in endpoints))
    && (forall k | k in before :: after[k] == before[k])
    && (forall k | k in after && k !in before :: after[k] == e.eventType)
  }

  // ---- a whole batch ----

  ghost predicate DistinctIds(entries: seq<Entry>) {
    forall i, j | 0 <= i < j < |entries| :: entries[i].id != entries[j].id
  }

  ghost predicate HasId(entries: seq<Entry>, id: Id) {
    exists i :: 0 <= i < |entries| && entries[i].id == id
  }

  ghost function IdsOf(entries: seq<Entry>): seq<Id> {
    seq(|entries|, i requires 0 <= i < |entries| => entries[i].id)
  }

  /** Row key is due to entry i of the batch. */
  ghost predicate DueTo(entries: seq<Entry>, org: Id, members: seq<User>, prefs: Preferences, i: int, key: Key) {
    0 <= i < |entries| && IsDue(entries[i], DueFor(entries[i], org, members, prefs), key)
  }

  ghost predicate InBatch(entries: seq<Entry>, org: Id, members: seq<User>, prefs: Preferences, key: Key) {
    exists i :: DueTo(entries, org, members, prefs, i, key)
  }

  /** after is before plus exactly one row for each claimed entry, member other than its actor, and enabled channel. */
  ghost predicate FansOut(before: Notifications, after: Notifications, entries: seq<Entry>, org: Id, members: seq<User>, prefs: Preferences) {
    && (forall key :: key in after <==> key in before || InBatch(entries, org, members, prefs, key))
    && (forall key | key in before :: after[key] == before[key])
    && (forall key, i | key in after && key !in before && DueTo(entries, org, members, prefs, i, key) ::
          after[key] == NotificationFor(entries[i], key.user, key.channel))
  }

  lemma BatchGrows(entries: seq<Entry>, org: Id, members: seq<User>, prefs: Preferences, k: nat, key: Key)
    requires k < |entries|
    ensures InBatch(entries[..k+1], org, members, prefs, key) <==>
              InBatch(entries[..k], org, members, prefs, key) || IsDue(entries[k], DueFor(entries[k], org, members, prefs), key)
  {
    if InBatch(entries[..k], org, members, prefs, key) {
      var i :| DueTo(entries[..k], org, members, prefs, i, key);
      assert DueTo(entries[..k+1], org, members, prefs, i, key);
    }
    if InBatch(entries[..k+1], org, members, prefs, key) {
      var i :| DueTo(entries[..k+1], org, members, prefs, i, key);
      assert i < k ==> DueTo(entries[..k], org, members, prefs, i, key);
    }
    assert IsDue(entries[k], DueFor(entries[k], org, members, prefs), key) ==> DueTo(entries[..k+1], org, members, prefs, k, key);
  }

  lemma OtherEntry(entries: seq<Entry>, org: Id, members: seq<User>, prefs: Preferences, k: nat, key: Key)
    requires k < |entries| && DistinctIds(entries)
    ensures InBatch(entries[..k], org, members, prefs, key) ==> key.outbox != entries[k].id
  {
  }

  lemma FansOutMore(before: Notifications, mid: Notifications, after: Notifications, entries: seq<Entry>, k: nat,
                    org: Id, members: seq<User>, prefs: Preferences)
    requires k < |entries| && DistinctIds(entries) && FansOut(before, mid, entries[..k], org, members, prefs)
    requires AddsRows(mid, after, entries[k], DueFor(entries[k], org, members, prefs))
    ensures FansOut(before, after, entries[..k+1], org, members, prefs)
  {
    forall key ensures key in after <==> key in before || InBatch(entries[..k+1], org, members, prefs, key) {
      BatchGrows(entries, org, members, prefs, k, key);
    }
    forall key ensures InBatch(entries[..k], org, members, prefs, key) ==> key.outbox != entries[k].id {
      OtherEntry(entries, org, members, prefs, k, key);
    }
    forall key, i | key in after && key !in before && DueTo(entries[..k+1], org, members, prefs, i, key)
      ensures after[key] == NotificationFor(entries[i], key.user, key.channel)
    {
      if i < k {
        assert DueTo(entries[..k], org, members, prefs, i, key);
        assert key in mid;
      }
    }
  }

  lemma MarkMore(outbox: seq<Entry>, entries: seq<Entry>, i: nat)
    requires i < |entries|
    ensures Marked(Marked(outbox, IdsOf(entries[..i])), [entries[i].id]) == Marked(outbox, IdsOf(entries[..i+1]))
  {
    assert IdsOf(entries[..i+1]) == IdsOf(entries[..i]) + [entries[i].id];
  }

  ghost predicate ComesFrom(e: Entry, outbox: seq<Entry>, k: nat)
    requires k <= |outbox|
  {
    exists i :: 0 <= i < k && outbox[i] == e
  }

  ghost predicate IsClaim(entries: seq<Entry>, outbox: seq<Entry>, org: Id, skipped: set<Id>, k: nat)
    requires k <= |outbox|
  {
    && DistinctIds(entries) && |entries| <= DRAIN_LIMIT
    && forall i | 0 <= i < |entries| :: Pending(entries[i], org, skipped) && ComesFrom(entries[i], outbox, k)
  }

  lemma {:induction false} ClaimDistinct(outbox: seq<Entry>, org: Id, skipped: set<Id>, k: nat)
    requires DistinctIds(outbox) && k <= |outbox|
    ensures IsClaim(ClaimUpTo(outbox, org, skipped, k), outbox, org, skipped, k)
  {
    if k > 0 {
      ClaimDistinct(outbox, org, skipped, k - 1);
      var earlier := ClaimUpTo(outbox, org, skipped, k - 1);
      forall i | 0 <= i < |earlier| ensures earlier[i].id != outbox[k - 1].id && ComesFrom(earlier[i], outbox, k) {
        assert ComesFrom(earlier[i], outbox, k - 1);
        var j :| 0 <= j < k - 1 && outbox[j] == earlier[i];
      }
    }
  }

  // ---- what a drain does, column by column ----

  /** A member other than the actor of the entry, who has not switched this event type off on the channel. */
  ghost predicate Receives(e: Entry, org: Id, members: seq<User>, prefs: Preferences, user: User, ch: Channel) {
    && user in members && e.actor != Some(user)
    && !exists id :: id in prefs && !prefs[id] && id.org == org && id.user == user && id.eventType == e.eventType && id.channel == ch
  }

  /** The row of a notification: the entry's columns, delivered at once in the app and left to the worker by email. */
  ghost predicate Carries(n: Notification, e: Entry, user: User, ch: Channel) {
    && n.key.outbox == e.id && n.key.user == user && n.key.channel == ch
    && n.org == e.org && n.eventType == e.eventType && n.payload == e.payload && (n.delivered <==> ch == InApp)
  }

  lemma DueIff(e: Entry, org: Id, members: seq<User>, prefs: Preferences, key: Key)
    ensures IsDue(e, DueFor(e, org, members, prefs), key) <==>
              key.outbox == e.id && Receives(e, org, members, prefs, key.user, key.channel)
  {
    var due := DueFor(e, org, members, prefs);
    assert key.channel == InApp || key.channel == Email;
    assert (key.user, key.channel) in due <==> key.user in members && Wanted(e, org, members, prefs, key.user, key.channel);
    EnabledIff(prefs, org, key.user, e.eventType, key.channel);
  }

  lemma EnabledIff(prefs: Preferences, org: Id, user: User, eventType: string, ch: Channel)
    ensures Enabled(prefs, org, user, eventType, ch) <==>
              !exists id :: id in prefs && !prefs[id] && id.org == org && id.user == user && id.eventType == eventType && id.channel == ch
  {
    var pref := PrefId(org, user, eventType, ch);
    if pref in prefs && !prefs[pref] {
      assert exists id :: id in prefs && !prefs[id] && id.org == org && id.user == user && id.eventType == eventType && id.channel == ch;
    }
  }

  /** A row of a batch: some entry gives it to some receiver. */
  ghost predicate Given(entries: seq<Entry>, org: Id, members: seq<User>, prefs: Preferences, key: Key) {
    exists i :: 0 <= i < |entries| && entries[i].id == key.outbox && Receives(entries[i], org, members, prefs, key.user, key.channel)
  }

  /** A fan-out adds exactly one row for each entry, receiver and channel beyond those already there, with the entry's
      columns. */
  lemma FanOutRows(before: Notifications, after: Notifications, entries: seq<Entry>, org: Id, members: seq<User>, prefs: Preferences)
    requires FansOut(before, after, entries, org, members, prefs) && DistinctIds(entries)
    ensures forall key :: key in after <==> key in before || Given(entries, org, members, prefs, key)
    ensures forall key | key in before :: after[key] == before[key]
    ensures forall key, i | key in after && key !in before && 0 <= i < |entries| && entries[i].id == key.outbox ::
              after[key].key == key && Carries(after[key], entries[i], key.user, key.channel)
  {
    forall key ensures InBatch(entries, org, members, prefs, key) <==> Given(entries, org, members, prefs, key) {
      GivenIff(entries, org, members, prefs, key);
    }
    forall key, i | key in after && key !in before && 0 <= i < |entries| && entries[i].id == key.outbox
      ensures after[key].key == key && Carries(after[key], entries[i], key.user, key.channel)
    {
      assert InBatch(entries, org, members, prefs, key);
      var j :| DueTo(entries, org, members, prefs, j, key);
      assert j == i;
    }
  }

  lemma GivenIff(entries: seq<Entry>, org: Id, members: seq<User>, prefs: Preferences, key: Key)
    ensures InBatch(entries, org, members, prefs, key) <==> Given(entries, org, members, prefs, key)
  {
    forall i | 0 <= i < |entries|
      ensures DueTo(entries, org, members, prefs, i, key)
              <==> entries[i].id == key.outbox && Receives(entries[i], org, members, prefs, key.user, key.channel)
    {
      DueIff(entries[i], org, members, prefs, key);
    }
  }

  ghost function Claimable(org: Id, skipped: set<Id>): Entry -> bool {
    (e: Entry) => e.org == org && !e.processed && e.id !in skipped
  }

  /** The claim is the first hundred entries of the organisation that are neither processed nor locked elsewhere, in the
      order of the table. */
  lemma {:induction false} ClaimIsFirstHundred(outbox: seq<Entry>, org: Id, skipped: set<Id>, k: nat) returns (at: seq<nat>)
    requires k <= |outbox|
    ensures Picks(outbox, ClaimUpTo(outbox, org, skipped, k), at)
    ensures forall i | 0 <= i < |outbox| :: i in at <==>
              i < k && Claimable(org, skipped)(outbox[i]) && Count(outbox[..i], Claimable(org, skipped)) < 100
  {
    at := [];
    if k > 0 {
      var n := k - 1;
      at := ClaimIsFirstHundred(outbox, org, skipped, n);
      ClaimSize(outbox, org, skipped, n);
      CountSame(outbox[..n], outbox[..n], IsPending(org, skipped), Claimable(org, skipped));
      if Claimable(org, skipped)(outbox[n]) && Count(outbox[..n], Claimable(org, skipped)) < 100 { at := at + [n]; }
    }
  }

  /** Marking processes exactly the claimed entries, and changes nothing else. */
  lemma MarksClaimed(outbox: seq<Entry>, org: Id, skipped: set<Id>, i: nat)
    requires DistinctIds(outbox) && i < |outbox|
    ensures var entries := ClaimUpTo(outbox, org, skipped, |outbox|);
            var after := Marked(outbox, IdsOf(entries));
            && |after| == |outbox| && after[i].(processed := outbox[i].processed) == outbox[i]
            && (after[i].processed <==> outbox[i].processed || outbox[i] in entries)
  {
    var entries := ClaimUpTo(outbox, org, skipped, |outbox|);
    ClaimDistinct(outbox, org, skipped, |outbox|);
    if outbox[i].id in IdsOf(entries) {
      var k :| 0 <= k < |entries| && entries[k].id == outbox[i].id;
      assert ComesFrom(entries[k], outbox, |outbox|);
    }
    if outbox[i] in entries {
      var k :| 0 <= k < |entries| && entries[k] == outbox[i];
      assert IdsOf(entries)[k] == outbox[i].id;
    }
  }

  // ---- what draining promises ----

  lemma SomethingNew(before: Notifications, after: Notifications, created: seq<Notification>)
    requires ListsNew(before, after, created)
    ensures created == [] || exists n :: IsNewInApp(before, after, n)
  {
    if created != [] { assert IsNewInApp(before, after, created[0]); }
  }

  /** Retrying a batch adds no row and publishes nothing. */
  lemma RetryAddsNothing(before: Notifications, after: Notifications, again: Notifications, entries: seq<Entry>, org: Id,
                         members: seq<User>, prefs: Preferences, created: seq<Notification>)
    requires FansOut(before, after, entries, org, members, prefs) && FansOut(after, again, entries, org, members, prefs)
    requires ListsNew(after, again, created)
    ensures again == after && created == []
  {
    assert forall key :: key in again <==> key in after;
    assert forall n :: !IsNewInApp(after, again, n);
    SomethingNew(after, again, created);
  }

  ghost function IsPending(org: Id, skipped: set<Id>): Entry -> bool { (e: Entry) => Pending(e, org, skipped) }

  /** The claim takes every pending entry, or the first hundred. */
  lemma {:induction false} ClaimSize(outbox: seq<Entry>, org: Id, skipped: set<Id>, k: nat)
    requires k <= |outbox|
    ensures var n := Count(outbox[..k], IsPending(org, skipped));
            |ClaimUpTo(outbox, org, skipped, k)| == if n < DRAIN_LIMIT then n else DRAIN_LIMIT
  {
    if k > 0 {
      ClaimSize(outbox, org, skipped, k - 1);
      assert outbox[..k] == outbox[..k-1] + [outbox[k-1]];
      CountSnoc(outbox[..k-1], outbox[k-1], IsPending(org, skipped));
    }
  }

  /** Each drain moves exactly the entries it claimed from pending to processed: none is lost, none is done twice. */
  lemma {:induction false} DrainConserves(outbox: seq<Entry>, org: Id, skipped: set<Id>, k: nat, all: nat)
    requires DistinctIds(outbox) && k <= all <= |outbox|
    ensures var entries := ClaimUpTo(outbox, org, skipped, all);
            Count(Marked(outbox, IdsOf(entries))[..k], IsPending(org, skipped)) + |ClaimUpTo(outbox, org, skipped, k)|
            == Count(outbox[..k], IsPending(org, skipped))
  {
    if k > 0 {
      var entries := ClaimUpTo(outbox, org, skipped, all);
      var after := Marked(outbox, IdsOf(entries));
      DrainConserves(outbox, org, skipped, k - 1, all);
      assert outbox[..k] == outbox[..k-1] + [outbox[k-1]] && after[..k] == after[..k-1] + [after[k-1]];
      CountSnoc(outbox[..k-1], outbox[k-1], IsPending(org, skipped));
      CountSnoc(after[..k-1], after[k-1], IsPending(org, skipped));
      ClaimedIffTaken(outbox, org, skipped, k - 1, all);
    }
  }

  /** Entry i is in the final claim exactly when its own step of the scan took it. */
  lemma {:induction false} ClaimedIffTaken(outbox: seq<Entry>, org: Id, skipped: set<Id>, i: nat, all: nat)
    requires DistinctIds(outbox) && i < all <= |outbox|
    ensures outbox[i].id in IdsOf(ClaimUpTo(outbox, org, skipped, all)) <==>
              |ClaimUpTo(outbox, org, skipped, i)| < DRAIN_LIMIT && Pending(outbox[i], org, skipped)
  {
    var earlier, entries := ClaimUpTo(outbox, org, skipped, all - 1), ClaimUpTo(outbox, org, skipped, all);
    if i < all - 1 {
      ClaimedIffTaken(outbox, org, skipped, i, all - 1);
      assert entries != earlier ==> IdsOf(entries) == IdsOf(earlier) + [outbox[all-1].id];
    } else {
      NotClaimedBefore(outbox, org, skipped, i);
      assert entries != earlier ==> IdsOf(entries) == IdsOf(earlier) + [outbox[i].id];
    }
  }

  lemma NotClaimedBefore(outbox: seq<Entry>, org: Id, skipped: set<Id>, i: nat)
    requires DistinctIds(outbox) && i < |outbox|
    ensures outbox[i].id !in IdsOf(ClaimUpTo(outbox, org, skipped, i))
  {
    ClaimDistinct(outbox, org, skipped, i);
    var entries := ClaimUpTo(outbox, org, skipped, i);
    forall k | 0 <= k < |entries| ensures entries[k].id != outbox[i].id {
      assert ComesFrom(entries[k], outbox, i);
      var j :| 0 <= j < i && outbox[j] == entries[k];
    }
  }
}
