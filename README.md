# USDC balance alert bot: scheduler, alert rule and config store

This project models the core of a Telegram bot that watches a USDC balance on Arbitrum for each chat. Each chat has a recurring polling timer. The timer's tick does four things:

- re-reads the chat's stored configuration;
- takes a balance reading, which may fail;
- decides whether to send an alert;
- records the time of the last alert.

There is a cooldown of `alertInterval` minutes between alerts. A reading below the threshold forgets the cooldown, so the next qualifying reading alerts at once.

The configuration store is merge-on-write: a partial update only overrides the keys it names.

The project has five modules:

- `Wrappers`: `Option` and `Result`.
- `Database` (database.js): the store is the map field of `UserStore`. The spread merge `{...old, ...patch, lastUpdated: now}` becomes `Merge` over settings whose keys may each be missing (`Option`).
- `AlertRule` (monitor.js, the pure part of `monitorUser` and `getStatus`): `Step` is the decision one tick makes after a successful fetch. `NextAlertIn` is the status arithmetic. `LastAfter` folds a sequence of ticks. Multi-tick properties are proved over that fold.
- `TimeFormat` (monitor.js `formatTime`): the Korean duration text, with a parser that reads it back.
- `Monitor` (monitor.js, the scheduler): the transitions are the functions `StopSpec`, `TickSpec` and `StartSpec` over a `State` value. The class `Scheduler` holds the `intervals` and `lastAlertTimes` maps, the live timers and the store. Its methods update these in place and are proved to follow the functions.

Modelling conventions:

- **Inputs.** The clock (`Date.now()`) and the result of `getBalance` (a `real`, or `None` for `null`) are parameters. An alert that `sendAlert` would deliver is returned in the tick's report.
- **Timers.** `setInterval` and `clearInterval` are modelled as a map of live timers keyed by fresh handles. `Fire` runs the tick of a live timer.
- **JavaScript semantics.** `isActive` and `alertEnabled` count only when they are `true`. A missing `threshold` makes both `>=` and `<` false. A missing `alertInterval` makes the cooldown `NaN`. A `NaN` cooldown never elapses, and it leaves the remaining time and `nextAlertIn` undefined (`None`).
- **Timestamps.** Timestamps are positive (`Time`), so `lastAlertTimes.get(id) || 0` is 0 exactly when the entry is absent.
- **Timer delay.** A delay that Node.js does not accept (`NaN`, below 1, or above 2147483647 ms) runs the timer every 1 ms.

Two facts about the program that the model keeps:

- monitor.js has no alert direction. It alerts only on `balance >= threshold` (monitor.js:96) and re-arms only on `balance < threshold` (monitor.js:110).
- `getStatus` returns `balance`, `nextAlertIn` and `lastCheck` (monitor.js:185-189).

## Model

| member | source | states |
|---|---|---|
| Database.Lookup | database.js:41-44 | `getUser` on a map: a record exactly when the id is stored, and then the stored one |
| Database.Merged | database.js:50-55 | the written record has every value the patch names. It keeps every other value of the prior record. Without a prior record it is the patch alone. It is stamped `now` |
| Database.UserStore.GetUser | database.js:41-44 | returns the record exactly when the id is stored, else null (`None`) |
| Database.UserStore.SaveUser | database.js:47-60 | the store becomes the upsert of the merged record at `id`. Every other id is unchanged. The returned record is the stored one |
| Database.UserStore.UpdateUser | database.js:63-79 | returns a record iff the id was present, and then the new stored record. The store is merged at `id` only when present, otherwise unchanged |
| Database.UserStore.DeleteUser | database.js:82-93 | returns true iff the id was present. Afterwards the id is absent and every other entry is unchanged. When absent, nothing changes |
| Database.UserStore.GetActiveUserCount | database.js:96-99 | the number of records whose `isActive` is true, never more than the number of records |
| Database.SaveThenGet | database.js:41-60 | round trip: after `saveUser(id, cfg)`, `getUser(id)` is a record holding every value `cfg` names, stamped `now`. Every other id reads as before |
| Database.UpdateIsGuardedSave | database.js:63-79 | `updateUser` on an absent id leaves the whole store as it was. On a present id it writes exactly what `saveUser` writes |
| Database.MergeSequential | database.js:70-74 | two successive partial updates equal one update whose patch is the second spread over the first |
| Database.MergeIdempotent | database.js:70-74 | repeating the same partial update changes nothing further |
| Database.ActiveCountBounded | database.js:96-99 | the active count never exceeds the number of stored records |
| Database.ActiveCountAfterDelete | database.js:82-99 | deleting a record lowers the active count by one exactly when that record was active |
| Database.ActiveCountAfterDeactivate | database.js:63-79 | an update writing `isActive: false` lowers the active count by one exactly when the record existed and was active |
| AlertRule.CooldownMs | monitor.js:100 | the cooldown is defined exactly when `alertInterval` is, and is then `alertInterval * 60000` ms |
| AlertRule.CeilSeconds | monitor.js:107 | `Math.ceil(ms / 1000)`: the least whole number of seconds that covers `ms` |
| AlertRule.Step | monitor.js:96-116 | sends iff alerts are on, balance >= threshold and (no recorded alert or the cooldown has run out). Sending records `now`. Waiting keeps the entry and leaves at least 1 s. A below-threshold reading (and only that) clears the entry. Otherwise nothing changes and no alert qualifies |
| AlertRule.NextAlertInZeroIffDue | monitor.js:180-187 | `getStatus` reports 0 exactly when the next qualifying tick would alert |
| AlertRule.NextAlertInBounds | monitor.js:180-187 | with a recorded alert, `now >= last` and a non-negative interval: 0 <= nextAlertIn <= alertInterval * 60000 |
| AlertRule.DisabledNeverSends | monitor.js:96-116 | with alerts off no alert is sent. The entry changes only by the below-threshold reset |
| AlertRule.LastIsAlertTime | monitor.js:103-115 | after an alert and only quiet ticks since, the recorded time is that alert's time |
| AlertRule.CooldownBetweenAlerts | monitor.js:96-115 | at most one alert per cooldown window: two alerts with no below-threshold reading between them are at least `alertInterval * 60000` ms apart, and their cooldown is defined |
| AlertRule.LastClearedSinceRearm | monitor.js:110-115 | after a below-threshold reading and no alert since, no alert is recorded |
| AlertRule.RearmedAlertsImmediately | monitor.js:103-115 | after a below-threshold reading, the first qualifying reading alerts at once, however recent the previous alert |
| AlertRule.LastAfterPrefix | monitor.js:74-117 | the cooldown state after n ticks depends only on those n ticks |
| AlertRule.FailedTickIsInvisible | monitor.js:83-88 | a tick whose fetch failed can be deleted from the trace without changing any later state |
| TimeFormat.NatToString | monitor.js:66-70 | a template literal of a non-negative integer: one or more decimal digits, no leading zero |
| TimeFormat.StringToNatOfNatToString | monitor.js:66-70 | the decimal text of n reads back as n |
| TimeFormat.FormatTime | monitor.js:64-71 | the text contains "분" iff at least a minute, ends in "초" iff under a minute or with leftover seconds |
| TimeFormat.FormatTimeRoundTrip | monitor.js:64-71 | the text reads back as exactly the same number of seconds, so distinct durations get distinct texts |
| TimeFormat.NatToStringOfStringToNat | monitor.js:66-70 | a digit string with no leading zero is the decimal text of its own value, so every number has exactly one such text |
| TimeFormat.ParseTimeOnlyCanonical | monitor.js:64-71 | converse of the round trip: a text that reads as `s` seconds is exactly `formatTime(s)`. So the text is "<s>초" below a minute, "<m>분" for whole minutes, "<m>분 <s>초" otherwise, with m = ⌊s/60⌋ and s%60 in 1..59, and no leading zeros |
| Monitor.TimerPeriodMs | monitor.js:138-141 | the timer's period is `checkInterval * 1000` when Node.js accepts that delay, otherwise 1 ms. It is always in [1, 2147483647] |
| Monitor.WithLast | monitor.js:103-115 | setting or deleting one chat's `lastAlertTimes` entry leaves every other chat's entry alone |
| Monitor.Scheduler.constructor | monitor.js:21-22 | empty `intervals`, `lastAlertTimes` and timers, and a well-formed registry |
| Monitor.Scheduler.Stop | monitor.js:150-164 | the new state and the result are those of `StopSpec`, and a well-formed registry stays well formed |
| Monitor.Scheduler.Tick | monitor.js:74-117 | the new state and the report are those of `TickSpec`, and a well-formed registry stays well formed |
| Monitor.Scheduler.Fire | monitor.js:139-141 | a live timer runs `TickSpec` for the chat that owns it, and the registry stays well formed |
| Monitor.Scheduler.Start | monitor.js:120-147 | the new state, the result and the first tick's report are those of `StartSpec`, and a well-formed registry stays well formed |
| Monitor.Scheduler.GetStatus | monitor.js:167-190 | "user not found" without a record. A different error when the fetch fails. Otherwise the balance and `nextAlertIn`. Nothing is modified |
| Monitor.Scheduler.UpdateUserConfig | monitor.js:193-196 | true iff the record existed. The store is updated as by `updateUser`. The timers are untouched |
| Monitor.Scheduler.GetActiveMonitoringCount | monitor.js:199-201 | the number of registered chats, equal to the number of live timers in a well-formed registry |
| Monitor.StopStops | monitor.js:150-164 | returns true iff a timer was registered. Then no timer of the chat is live, its registration and cooldown entry are gone, and its record says `isActive: false`. Otherwise nothing changes. Well-formedness is kept |
| Monitor.StopPreservesWf | monitor.js:150-164 | `stopMonitoring` keeps the registry well formed |
| Monitor.TickIsLocal | monitor.js:74-117 | a tick stops the chat (exactly `stopMonitoring`) iff the record is missing or inactive. Any other tick changes only this chat's cooldown entry |
| Monitor.TickPreservesWf | monitor.js:74-117 | a tick keeps the registry well formed |
| Monitor.TickAlertsIff | monitor.js:96-108 | on an active record: an alert is sent iff the fetch succeeded, alerts are on, balance >= threshold and (no entry or the cooldown has elapsed). The entry becomes `now`, and the alert carries the balance, address and threshold. Inside the cooldown nothing changes |
| Monitor.TickIsObserve | monitor.js:74-117 | on an active record, one tick changes the chat's cooldown entry as the trace step `Observe` does. It alerts exactly when `AlertsOnTick` holds and re-arms exactly when `Rearms` holds, which ties the multi-tick theorems to the scheduler's ticks |
| Monitor.QuietTickChangesNothing | monitor.js:83-110 | a failed fetch, or a qualifying balance with alerts off, leaves the whole state unchanged |
| Monitor.BelowTickForgetsCooldown | monitor.js:110-115 | a below-threshold reading removes the chat's cooldown entry whether alerts are on or off |
| Monitor.FirstTickOfStart | monitor.js:129-135 | the eager tick runs after the old timer is cleared. It leaves no live timer of the chat, keeps other chats' timers, registrations and cooldowns, and uses no handle |
| Monitor.StartPreservesWf | monitor.js:120-147 | `startMonitoring` keeps the registry well formed |
| Monitor.StartRegistersOneTimer | monitor.js:120-147 | without a record: false and no change. With one: true, a first report, and exactly one live timer for the chat, on a fresh handle, with the record's period. Other chats keep their registrations |
| Monitor.StartKeepsCooldowns | monitor.js:120-147 | `startMonitoring` clears no cooldown. Other chats' entries are unchanged. The chat's own entry is only what its first tick makes of it |
| Monitor.AtMostOneTimerPerChat | monitor.js:129-143 | in a well-formed registry two live timers never belong to the same chat |
| Monitor.RegisteredCountIsLiveCount | monitor.js:199-201 | registrations and live timers correspond one to one, so they are equal in number |
| Monitor.RestartAsWrittenStopsAtFirstTick | bot.js:296-297 | the stop-then-start restart leaves the record inactive. The next tick stops the chat, and afterwards no timer of it is live |
| Monitor.RestartCorrectedKeepsMonitoring | bot.js:296-297 | the corrected restart leaves the record active, with its other settings as they were, and exactly one live timer with the record's period. The next tick does not stop the chat |

## Left out

- `getBalance` (monitor.js:25-34) is an ERC-20 call over JSON-RPC. It is the `balance` parameter: a `real`, or `None` for its `null`.
- Floating point: balances and thresholds are exact `real`s, because only `>=` and `<` matter. `parseFloat` and `formatUnits` are not modelled.
- `sendAlert`'s message text and its delivery (monitor.js:37-61) are not modelled. The tick reports the `Alert` it would send. Delivery errors are swallowed there, so the alert time is recorded either way.
- Logging (`console.log`), `toLocaleString` and `toFixed` are not modelled. The remaining time that the log formats with `formatTime` is returned in `CoolingDown`.
- `getStatus`'s `lastCheck` text is display only and is left out of `Status`.
- File I/O in database.js (`initDB`, `loadUsers` and `saveUsers` through `fs` and JSON, and the fall-back to `{}` on a read error). Each is a read or an assignment of `UserStore.users`.
- Each tick is modelled as one atomic step. In the program, `monitorUser` awaits `getBalance` and `sendAlert`, and other events can interleave at those points. In particular, the rest of the eager tick of `startMonitoring` runs after the new timer is registered; that part touches only `lastAlertTimes`. Concurrency is not modelled.
- Chat ids are integers. In the program, records are keyed by the string form of the id, because they live in a JSON object. `intervals` and `lastAlertTimes` are `Map`s keyed by the value as given, so `"123"` and `123` are different keys there. The startup reload (bot.js:366) registers a timer under `"123"`. A later `/monitor` (bot.js:135) calls `startMonitoring(123)`, which finds `intervals.has(123)` false (monitor.js:129) and starts a second timer for the same chat, with its own `lastAlertTimes` entry. The chat then has two timers and two independent cooldowns. `Monitor.AtMostOneTimerPerChat` and the cooldown theorems therefore hold per key, not per chat, once both key forms are in use. The model does not represent the two forms.
- bot.js (command parsing, validation, messages, startup reload) is not part of this model. The one exception is the restart under "Findings".
- Monitor.Scheduler.Stop, Monitor.Scheduler.Tick, Monitor.Scheduler.Start: the well-formedness they promise holds only when it held before. The program has no such invariant to break.

## Findings

| source | as written | input that shows it | evidently intended | confidence | as-written member | corrected member |
|---|---|---|---|---|---|---|
| bot.js:296-297 | `/checkinterval` restarts monitoring with `stopMonitoring` then `startMonitoring`. `stopMonitoring` stores `isActive: false` and `startMonitoring` never sets it back | a monitored chat with an active record sends `/checkinterval 30`. The new timer's first tick finds the record inactive and stops the chat | monitoring continues with the new check interval (the comment says "restart monitoring, apply new interval") | not executed | Monitor.RestartAsWrittenStopsAtFirstTick | Monitor.RestartCorrectedKeepsMonitoring |
