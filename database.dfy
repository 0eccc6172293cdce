/**
 * The per-user configuration store of database.js.
 *
 * The JSON file `users.json` is the map field `UserStore.users`; `loadUsers` is a read of that
 * field and `saveUsers` an assignment to it. A stored record is a JavaScript object whose keys
 * may be missing, so every setting is an `Option`; a partial update (the `config`/`updates`
 * argument) has the same shape, and the spread merge `{...old, ...patch, lastUpdated: now}`
 * becomes `Merge`: a field the patch names overrides the old one, the others are kept.
 */
module Database {
  import opened Wrappers

  /** A Telegram chat id, the key of `users.json`. */
  type ChatId = int

  /** The settings a record may carry; `None` is a key the object does not have. */
  datatype Settings = Settings(
    address: Option<string>,
    threshold: Option<real>,
    checkInterval: Option<int>,  // seconds between balance checks
    alertInterval: Option<int>,  // minutes between two alerts
    alertEnabled: Option<bool>,
    isActive: Option<bool>)

  /** The empty object: what `...users[chatId]` spreads when there is no record. */
  const NoSettings := Settings(None, None, None, None, None, None)

  /** A stored record: its settings and the `Date.now()` of its last write. */
  datatype UserRecord = UserRecord(settings: Settings, lastUpdated: int)

  /** JavaScript truthiness of `user.isActive`. */
  predicate IsActive(s: Settings) {
    s.isActive == Some(true)
  }

  function Override<T>(prior: Option<T>, patch: Option<T>): Option<T> {
    if patch.Some? then patch else prior
  }

  /** `{...base, ...patch}` on the settings keys. */
  function Merge(base: Settings, patch: Settings): Settings {
    Settings(
      Override(base.address, patch.address),
      Override(base.threshold, patch.threshold),
      Override(base.checkInterval, patch.checkInterval),
      Override(base.alertInterval, patch.alertInterval),
      Override(base.alertEnabled, patch.alertEnabled),
      Override(base.isActive, patch.isActive))
  }

  /** Every field that `patch` names has `patch`'s value in `s`. */
  predicate Agrees(s: Settings, patch: Settings) {
    && (patch.address.Some? ==> s.address == patch.address)
    && (patch.threshold.Some? ==> s.threshold == patch.threshold)
    && (patch.checkInterval.Some? ==> s.checkInterval == patch.checkInterval)
    && (patch.alertInterval.Some? ==> s.alertInterval == patch.alertInterval)
    && (patch.alertEnabled.Some? ==> s.alertEnabled == patch.alertEnabled)
    && (patch.isActive.Some? ==> s.isActive == patch.isActive)
  }

  /** Every field that `patch` does not name keeps its value from `base` in `s`. */
  predicate KeepsUnnamed(s: Settings, base: Settings, patch: Settings) {
    && (patch.address.None? ==> s.address == base.address)
    && (patch.threshold.None? ==> s.threshold == base.threshold)
    && (patch.checkInterval.None? ==> s.checkInterval == base.checkInterval)
    && (patch.alertInterval.None? ==> s.alertInterval == base.alertInterval)
    && (patch.alertEnabled.None? ==> s.alertEnabled == base.alertEnabled)
    && (patch.isActive.None? ==> s.isActive == base.isActive)
  }

  function Lookup(users: map<ChatId, UserRecord>, id: ChatId): (r: Option<UserRecord>)
    ensures r.Some? <==> id in users
    ensures r.Some? ==> r.value == users[id]
  {
    if id in users then Some(users[id]) else None
  }

  /** The record written by `saveUser`/`updateUser` over the prior record (if any). */
  function Merged(prior: Option<UserRecord>, patch: Settings, now: int): (r: UserRecord)
    ensures Agrees(r.settings, patch)
    ensures prior.Some? ==> KeepsUnnamed(r.settings, prior.value.settings, patch)
    ensures prior.None? ==> r.settings == patch
    ensures r.lastUpdated == now
  {
    var base := if prior.Some? then prior.value.settings else NoSettings;
    UserRecord(Merge(base, patch), now)
  }

  /** The store after `saveUser(id, patch)`: an upsert. */
  function SavedUsers(users: map<ChatId, UserRecord>, id: ChatId, patch: Settings, now: int)
    : map<ChatId, UserRecord>
  {
    users[id := Merged(Lookup(users, id), patch, now)]
  }

  /** The store after `updateUser(id, patch)`: a merge when the record exists, else no change. */
  function UpdatedUsers(users: map<ChatId, UserRecord>, id: ChatId, patch: Settings, now: int)
    : map<ChatId, UserRecord>
  {
    if id in users then users[id := Merged(Some(users[id]), patch, now)] else users
  }

  /** The ids whose record is active, the ones `getActiveUserCount` counts. */
  function ActiveIds(users: map<ChatId, UserRecord>): set<ChatId> {
    set id | id in users && IsActive(users[id].settings)
  }

  function ActiveCount(users: map<ChatId, UserRecord>): nat {
    |ActiveIds(users)|
  }

  class UserStore {
    var users: map<ChatId, UserRecord>

    /** The store over the contents `loadUsers` reads from `users.json`. */
    constructor (initial: map<ChatId, UserRecord>)
      ensures users == initial
    {
      users := initial;
    }

    /** `getUser`: the stored record, or null. */
    method GetUser(id: ChatId) returns (r: Option<UserRecord>)
      ensures r.Some? <==> id in users
      ensures r.Some? ==> r.value == users[id]
    {
      if id in users {
        r := Some(users[id]);
      } else {
        r := None;
      }
    }

    /** `saveUser`: upsert `config` into the record of `id` and return the new record. */
    method SaveUser(id: ChatId, config: Settings, now: int) returns (r: UserRecord)
      modifies this
      ensures users == SavedUsers(old(users), id, config, now)
      ensures id in users && r == users[id]
    {
      var prior := if id in users then Some(users[id]) else None;
      r := UserRecord(Merge(if prior.Some? then prior.value.settings else NoSettings, config), now);
      users := users[id := r];
    }

    /** `updateUser`: merge `updates` into an existing record; null when there is none. */
    method UpdateUser(id: ChatId, updates: Settings, now: int) returns (r: Option<UserRecord>)
      modifies this
      ensures users == UpdatedUsers(old(users), id, updates, now)
      ensures r.Some? <==> id in old(users)
      ensures r.Some? ==> id in users && r.value == users[id]
    {
      if id !in users {
        return None;
      }
      var merged := UserRecord(Merge(users[id].settings, updates), now);
      users := users[id := merged];
      r := Some(merged);
    }

    /** `deleteUser`: remove the record; true iff there was one. */
    method DeleteUser(id: ChatId) returns (found: bool)
      modifies this
      ensures found <==> id in old(users)
      ensures users == old(users) - {id}
      ensures !found ==> users == old(users)
    {
      if id in users {
        users := users - {id};
        found := true;
      } else {
        found := false;
      }
    }

    /** `getActiveUserCount`: the number of records whose `isActive` holds. */
    method GetActiveUserCount() returns (n: nat)
      ensures n == ActiveCount(users)
      ensures n <= |users|
    {
      ActiveCountBounded(users);
      n := |set id | id in users && IsActive(users[id].settings)|;
    }
  }

  /** After `saveUser(id, cfg)`, `getUser(id)` yields a record holding every value `cfg` names,
      stamped `now`; every other id reads as before. */
  lemma SaveThenGet(users: map<ChatId, UserRecord>, id: ChatId, cfg: Settings, now: int)
    ensures var r := Lookup(SavedUsers(users, id, cfg, now), id);
      r.Some? && Agrees(r.value.settings, cfg) && r.value.lastUpdated == now
    ensures forall other :: other != id ==>
      Lookup(SavedUsers(users, id, cfg, now), other) == Lookup(users, other)
  {
  }

  /** `updateUser` on an absent id leaves the whole store as it was; on a present id it is the
      same write as `saveUser`. */
  lemma UpdateIsGuardedSave(users: map<ChatId, UserRecord>, id: ChatId, patch: Settings, now: int)
    ensures id !in users ==> UpdatedUsers(users, id, patch, now) == users
    ensures id in users ==> UpdatedUsers(users, id, patch, now) == SavedUsers(users, id, patch, now)
  {
  }

  /** Two successive partial updates have the effect of one update with the second patch
      spread over the first. */
  lemma MergeSequential(base: Settings, p: Settings, q: Settings)
    ensures Merge(Merge(base, p), q) == Merge(base, Merge(p, q))
  {
  }

  /** Re-applying the same patch changes nothing more. */
  lemma MergeIdempotent(base: Settings, p: Settings)
    ensures Merge(Merge(base, p), p) == Merge(base, p)
  {
  }

  lemma ActiveCountBounded(users: map<ChatId, UserRecord>)
    ensures ActiveCount(users) <= |users|
  {
    assert ActiveIds(users) <= users.Keys;
    SubsetCard(ActiveIds(users), users.Keys);
  }

  lemma {:induction false} SubsetCard<T>(a: set<T>, b: set<T>)
    requires a <= b
    ensures |a| <= |b|
    decreases b
  {
    if a != {} {
      var x :| x in a;
      SubsetCard(a - {x}, b - {x});
    }
  }

  /** Deleting a record lowers the active count by one exactly when that record was active. */
  lemma ActiveCountAfterDelete(users: map<ChatId, UserRecord>, id: ChatId)
    ensures ActiveCount(users - {id}) ==
      ActiveCount(users) - (if id in users && IsActive(users[id].settings) then 1 else 0)
  {
    assert ActiveIds(users - {id}) == ActiveIds(users) - {id};
  }

  /** An update that writes `isActive: false` (what `stopMonitoring` does) lowers the active
      count by one exactly when the record existed and was active. */
  lemma ActiveCountAfterDeactivate(users: map<ChatId, UserRecord>, id: ChatId, patch: Settings, now: int)
    requires patch.isActive == Some(false)
    ensures ActiveCount(UpdatedUsers(users, id, patch, now)) ==
      ActiveCount(users) - (if id in users && IsActive(users[id].settings) then 1 else 0)
  {
    assert ActiveIds(UpdatedUsers(users, id, patch, now)) == ActiveIds(users) - {id};
  }
}
