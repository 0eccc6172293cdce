/**
 * The per-user scheduler of monitor.js.
 *
 * `intervals` maps a chat to the handle of its `setInterval` timer and `lastAlertTimes` maps a
 * chat to the time of its last alert. `timers` stands for the timers the JavaScript runtime
 * keeps alive: `setInterval` adds one, `clearInterval` removes it, and only a live timer runs
 * its chat's tick (`Fire`). Handles are fresh integers. The clock (`Date.now()`) and the result
 * of `getBalance` (a balance, or `None` for its `null`) are parameters; an alert that
 * `sendAlert` would deliver is returned in the tick's report.
 *
 * The transitions are first given as functions over a `State` value (`StopSpec`, `TickSpec`,
 * `StartSpec`), whose properties are proved as lemmas; the methods of `Scheduler` update the
 * fields in place as the source does and are proved to follow those functions.
 */
module Monitor {
  import opened Wrappers
  import opened Database
  import opened AlertRule

  type Handle = nat

  /** A live `setInterval` timer: the chat whose tick it runs and its delay in milliseconds. */
  datatype Timer = Timer(owner: ChatId, periodMs: int)

  /** What `sendAlert(bot, chatId, balance, user.address, user.threshold)` is called with. */
  datatype Alert = Alert(chatId: ChatId, balance: real, address: Option<string>, threshold: real)

  /** What one run of `monitorUser` did. */
  datatype TickReport =
    | Deactivated                                 // record missing or inactive: stopped
    | FetchFailed                                 // `getBalance` returned null: skipped
    | Sent(alert: Alert)                          // an alert was sent
    | CoolingDown(remainingSeconds: Option<int>)  // qualifying, but inside the cooldown
    | Rearmed                                     // below the threshold: cooldown forgotten
    | Held                                        // nothing to do (e.g. alerts switched off)

  /** `getStatus`'s result, without its display-only `lastCheck` text. */
  datatype Status = Status(balance: real, nextAlertIn: Option<int>)

  datatype StatusError = UserNotFound | BalanceUnavailable

  /** Everything the scheduler reads or writes: the store's records and its own maps. */
  datatype State = State(
    users: map<ChatId, UserRecord>,
    intervals: map<ChatId, Handle>,
    lastAlertTimes: map<ChatId, Time>,
    timers: map<Handle, Timer>,
    nextHandle: Handle)

  /** The `{ isActive: false }` that `stopMonitoring` writes. */
  const Deactivate := NoSettings.(isActive := Some(false))

  /** Node.js runs a timer whose delay is not in [1, MaxTimerDelay] (or is NaN) every 1 ms. */
  const MaxTimerDelay := 2147483647

  /** The period of the timer `startMonitoring` creates: `user.checkInterval * 1000`. */
  function TimerPeriodMs(s: Settings): (r: int)
    ensures 1 <= r <= MaxTimerDelay
    ensures s.checkInterval.Some? && 1 <= s.checkInterval.value <= MaxTimerDelay / 1000 ==>
      r == s.checkInterval.value * 1000
    ensures !(s.checkInterval.Some? && 1 <= s.checkInterval.value <= MaxTimerDelay / 1000) ==> r == 1
  {
    if s.checkInterval.Some? && 1 <= s.checkInterval.value * 1000 <= MaxTimerDelay then
      s.checkInterval.value * 1000
    else
      1
  }

  /** `lastAlertTimes.get(id)`, absent as `None`. */
  function LastOf(m: map<ChatId, Time>, id: ChatId): Option<Time> {
    if id in m then Some(m[id]) else None
  }

  /** `lastAlertTimes` with the entry of `id` set to `last`, or deleted for `None`. */
  function WithLast(m: map<ChatId, Time>, id: ChatId, last: Option<Time>): (r: map<ChatId, Time>)
    ensures LastOf(r, id) == last
    ensures forall other :: other != id ==> LastOf(r, other) == LastOf(m, other)
  {
    if last.Some? then m[id := last.value] else m - {id}
  }

  /** Every live timer is the registered one of its chat, every registered handle is live, and
      every handle is older than `nextHandle`. */
  predicate Wf(st: State) {
    && (forall h :: h in st.timers ==>
          h < st.nextHandle && st.timers[h].owner in st.intervals && st.intervals[st.timers[h].owner] == h)
    && (forall id :: id in st.intervals ==>
          st.intervals[id] in st.timers && st.timers[st.intervals[id]].owner == id)
  }

  /** `stopMonitoring(id)`: the new state and whether a timer was registered. */
  function StopSpec(st: State, id: ChatId, now: int): (State, bool) {
    if id in st.intervals then
      (st.(timers := st.timers - {st.intervals[id]},
           intervals := st.intervals - {id},
           lastAlertTimes := st.lastAlertTimes - {id},
           users := UpdatedUsers(st.users, id, Deactivate, now)),
       true)
    else
      (st, false)
  }

  function ReportOf(id: ChatId, s: Settings, balance: real, v: Verdict): TickReport
    requires v.Send? ==> s.threshold.Some?
  {
    match v
    case Send => Sent(Alert(id, balance, s.address, s.threshold.value))
    case Wait(remaining) => CoolingDown(remaining)
    case Rearm => Rearmed
    case Hold => Held
  }

  /** `monitorUser(id)`: re-read the record; stop when it is missing or inactive; skip on a
      failed fetch; otherwise apply the alert decision to this chat's cooldown entry. */
  function TickSpec(st: State, id: ChatId, now: Time, balance: Option<real>): (State, TickReport) {
    if id !in st.users || !IsActive(st.users[id].settings) then
      (StopSpec(st, id, now).0, Deactivated)
    else if balance.None? then
      (st, FetchFailed)
    else
      var s := st.users[id].settings;
      var o := Step(s, balance.value, LastOf(st.lastAlertTimes, id), now);
      (st.(lastAlertTimes := WithLast(st.lastAlertTimes, id, o.last)), ReportOf(id, s, balance.value, o.verdict))
  }

  /** `startMonitoring(id)`: false without a record; otherwise clear the old timer, run one tick
      at once, then register a new timer, and report that first tick. */
  function StartSpec(st: State, id: ChatId, now: Time, balance: Option<real>): (State, bool, Option<TickReport>) {
    if id !in st.users then
      (st, false, None)
    else
      var period := TimerPeriodMs(st.users[id].settings);
      var cleared := if id in st.intervals then st.(timers := st.timers - {st.intervals[id]}) else st;
      var ticked := TickSpec(cleared, id, now, balance);
      var t := ticked.0;
      var h := t.nextHandle;
      (t.(timers := t.timers[h := Timer(id, period)], intervals := t.intervals[id := h], nextHandle := h + 1),
       true,
       Some(ticked.1))
  }

  class Scheduler {
    const store: UserStore
    var intervals: map<ChatId, Handle>
    var lastAlertTimes: map<ChatId, Time>
    var timers: map<Handle, Timer>
    var nextHandle: Handle

    ghost function Snapshot(): State
      reads this, store
    {
      State(store.users, intervals, lastAlertTimes, timers, nextHandle)
    }

    ghost predicate Valid()
      reads this, store
    {
      Wf(Snapshot())
    }

    constructor (store: UserStore)
      ensures this.store == store
      ensures intervals == map[] && lastAlertTimes == map[] && timers == map[] && nextHandle == 0
      ensures Valid()
    {
      this.store := store;
      intervals, lastAlertTimes, timers, nextHandle := map[], map[], map[], 0;
    }

    /** `stopMonitoring` */
    method Stop(id: ChatId, now: int) returns (found: bool)
      modifies this, store
      ensures (Snapshot(), found) == StopSpec(old(Snapshot()), id, now)
      ensures old(Valid()) ==> Valid()
    {
      if Valid() {
        StopPreservesWf(Snapshot(), id, now);
      }
      if id in intervals {
        timers := timers - {intervals[id]};
        intervals := intervals - {id};
        lastAlertTimes := lastAlertTimes - {id};
        var updated := store.UpdateUser(id, Deactivate, now);
        return true;
      }
      return false;
    }

    /** `monitorUser` */
    method Tick(id: ChatId, now: Time, balance: Option<real>) returns (report: TickReport)
      modifies this, store
      ensures (Snapshot(), report) == TickSpec(old(Snapshot()), id, now, balance)
      ensures old(Valid()) ==> Valid()
    {
      if Valid() {
        TickPreservesWf(Snapshot(), id, now, balance);
      }
      var user := store.GetUser(id);
      if user.None? || !IsActive(user.value.settings) {
        var stopped := Stop(id, now);
        return Deactivated;
      }
      if balance.None? {
        return FetchFailed;
      }
      var s, b := user.value.settings, balance.value;
      if AlertsOn(s) && AtOrAbove(s, b) {
        var lastAlertTime := if id in lastAlertTimes then Some(lastAlertTimes[id]) else None;
        var alertIntervalMs := CooldownMs(s);
        if lastAlertTime.None? || (alertIntervalMs.Some? && now - lastAlertTime.value >= alertIntervalMs.value) {
          report := Sent(Alert(id, b, s.address, s.threshold.value));
          lastAlertTimes := lastAlertTimes[id := now];
        } else {
          var since := now - lastAlertTime.value;
          var remaining := if alertIntervalMs.Some? then Some(CeilSeconds(alertIntervalMs.value - since)) else None;
          report := CoolingDown(remaining);
          assert WithLast(lastAlertTimes, id, lastAlertTime) == lastAlertTimes;
        }
      } else if Below(s, b) {
        if id in lastAlertTimes {
          lastAlertTimes := lastAlertTimes - {id};
        } else {
          assert lastAlertTimes == lastAlertTimes - {id};
        }
        report := Rearmed;
      } else {
        report := Held;
        assert WithLast(lastAlertTimes, id, LastOf(lastAlertTimes, id)) == lastAlertTimes;
      }
    }

    /** A live timer `h` goes off and runs the tick of its chat. */
    method Fire(h: Handle, now: Time, balance: Option<real>) returns (report: TickReport)
      requires Valid() && h in timers
      modifies this, store
      ensures Valid()
      ensures (Snapshot(), report) == TickSpec(old(Snapshot()), old(timers[h].owner), now, balance)
    {
      report := Tick(timers[h].owner, now, balance);
    }

    /** `startMonitoring`; `first` is the report of the tick it runs at once. */
    method Start(id: ChatId, now: Time, balance: Option<real>) returns (ok: bool, first: Option<TickReport>)
      modifies this, store
      ensures (Snapshot(), ok, first) == StartSpec(old(Snapshot()), id, now, balance)
      ensures old(Valid()) ==> Valid()
    {
      if Valid() {
        StartPreservesWf(Snapshot(), id, now, balance);
      }
      var user := store.GetUser(id);
      if user.None? {
        return false, None;
      }
      if id in intervals {
        timers := timers - {intervals[id]};
      }
      var report := Tick(id, now, balance);
      var h := nextHandle;
      nextHandle := nextHandle + 1;
      timers := timers[h := Timer(id, TimerPeriodMs(user.value.settings))];
      intervals := intervals[id := h];
      return true, Some(report);
    }

    /** `getStatus`: reads the record and the cooldown entry and changes nothing. */
    method GetStatus(id: ChatId, now: Time, balance: Option<real>) returns (r: Result<Status, StatusError>)
      ensures id !in store.users ==> r == Err(UserNotFound)
      ensures id in store.users && balance.None? ==> r == Err(BalanceUnavailable)
      ensures id in store.users && balance.Some? ==>
        r == Ok(Status(balance.value, NextAlertIn(store.users[id].settings, LastOf(lastAlertTimes, id), now)))
    {
      var user := store.GetUser(id);
      if user.None? {
        return Err(UserNotFound);
      }
      if balance.None? {
        return Err(BalanceUnavailable);
      }
      var lastAlertTime := if id in lastAlertTimes then Some(lastAlertTimes[id]) else None;
      r := Ok(Status(balance.value, NextAlertIn(user.value.settings, lastAlertTime, now)));
    }

    /** `updateUserConfig`: a partial update of the record; the timers keep running. */
    method UpdateUserConfig(id: ChatId, updates: Settings, now: int) returns (ok: bool)
      modifies store
      ensures ok <==> id in old(store.users)
      ensures store.users == UpdatedUsers(old(store.users), id, updates, now)
    {
      var user := store.UpdateUser(id, updates, now);
      ok := user.Some?;
    }

    /** `getActiveMonitoringCount`: the registered timers, which are exactly the live ones. */
    method GetActiveMonitoringCount() returns (n: nat)
      ensures n == |intervals|
      ensures Valid() ==> n == |timers|
    {
      if Valid() {
        RegisteredCountIsLiveCount(intervals, timers);
      }
      n := |intervals|;
    }
  }

  // ---------------------------------------------------------------------------------------
  // Properties of the transitions.

  /** `stopMonitoring` keeps the registry well formed; it reports whether a timer was
      registered; afterwards no timer of `id` is live, its cooldown entry is gone and its record
      (if any) says `isActive: false`. Without a registered timer it changes nothing. */
  lemma StopStops(st: State, id: ChatId, now: int)
    requires Wf(st)
    ensures var (t, found) := StopSpec(st, id, now);
      && Wf(t)
      && (found <==> id in st.intervals)
      && (!found ==> t == st)
      && (found ==> id !in t.intervals && id !in t.lastAlertTimes
                    && (forall h :: h in t.timers ==> t.timers[h].owner != id)
                    && (id in t.users ==> !IsActive(t.users[id].settings)))
  {
  }

  lemma StopPreservesWf(st: State, id: ChatId, now: int)
    requires Wf(st)
    ensures Wf(StopSpec(st, id, now).0)
  {
    StopStops(st, id, now);
  }

  /** A tick on a missing or inactive record is exactly `stopMonitoring`; any other tick touches
      only the cooldown entry of its own chat. */
  lemma TickIsLocal(st: State, id: ChatId, now: Time, balance: Option<real>)
    ensures var (t, report) := TickSpec(st, id, now, balance);
      && (report == Deactivated <==> id !in st.users || !IsActive(st.users[id].settings))
      && (report == Deactivated ==> t == StopSpec(st, id, now).0)
      && (report != Deactivated ==>
            t.users == st.users && t.intervals == st.intervals && t.timers == st.timers
            && t.nextHandle == st.nextHandle
            && forall other :: other != id ==> LastOf(t.lastAlertTimes, other) == LastOf(st.lastAlertTimes, other))
  {
  }

  lemma TickPreservesWf(st: State, id: ChatId, now: Time, balance: Option<real>)
    requires Wf(st)
    ensures Wf(TickSpec(st, id, now, balance).0)
  {
    if id !in st.users || !IsActive(st.users[id].settings) {
      StopPreservesWf(st, id, now);
    }
  }

  /** On an active record a tick sends an alert exactly when the balance was fetched, alerts are
      on, the balance is at or above the threshold and there is no recorded alert or the cooldown
      since it has run out. Sending records `now` (delivery failures are swallowed, so the time
      is recorded either way); waiting changes nothing and leaves at least one second to wait. */
  lemma TickAlertsIff(st: State, id: ChatId, now: Time, balance: Option<real>)
    requires id in st.users && IsActive(st.users[id].settings)
    ensures var (t, report) := TickSpec(st, id, now, balance);
      var s := st.users[id].settings;
      && (report.Sent? <==>
            balance.Some? && AlertsOn(s) && AtOrAbove(s, balance.value)
            && (id !in st.lastAlertTimes
                || (s.alertInterval.Some? && now - st.lastAlertTimes[id] >= s.alertInterval.value * 60000)))
      && (report.Sent? ==>
            t.lastAlertTimes == st.lastAlertTimes[id := now]
            && report.alert == Alert(id, balance.value, s.address, s.threshold.value))
      && (report.CoolingDown? ==>
            t == st && (report.remainingSeconds.Some? ==> report.remainingSeconds.value >= 1))
  {
  }

  /** On an active record one tick does to the chat's cooldown entry what `Observe` does, and
      it alerts, and re-arms, exactly when the trace predicates say so; the multi-tick theorems
      over `LastAfter` are therefore about the ticks `TickSpec` runs. */
  lemma TickIsObserve(st: State, id: ChatId, now: Time, balance: Option<real>)
    requires id in st.users && IsActive(st.users[id].settings)
    ensures var (t, report) := TickSpec(st, id, now, balance);
      var o := Observation(now, st.users[id].settings, balance);
      && LastOf(t.lastAlertTimes, id) == Observe(o, LastOf(st.lastAlertTimes, id))
      && (report.Sent? <==> AlertsOnTick(o, LastOf(st.lastAlertTimes, id)))
      && (report == Rearmed <==> Rearms(o))
  {
  }

  /** A failed fetch, and a qualifying balance with alerts switched off, change nothing at all. */
  lemma QuietTickChangesNothing(st: State, id: ChatId, now: Time, balance: Option<real>)
    requires id in st.users && IsActive(st.users[id].settings)
    requires balance.None? ||
      (!AlertsOn(st.users[id].settings) && AtOrAbove(st.users[id].settings, balance.value))
    ensures TickSpec(st, id, now, balance).0 == st
  {
    if balance.Some? {
      var m := st.lastAlertTimes;
      assert WithLast(m, id, LastOf(m, id)) == m;
    }
  }

  /** A balance below the threshold forgets the cooldown entry, whether alerts are on or off. */
  lemma BelowTickForgetsCooldown(st: State, id: ChatId, now: Time, balance: Option<real>)
    requires id in st.users && IsActive(st.users[id].settings)
    requires balance.Some? && Below(st.users[id].settings, balance.value)
    ensures var (t, report) := TickSpec(st, id, now, balance);
      report == Rearmed && id !in t.lastAlertTimes
  {
  }

  /** The first tick of `startMonitoring` runs after the old timer is cleared but while its
      handle is still registered. Whatever it does, no live timer of the chat remains, the other
      chats' timers, registrations and cooldown entries are as before, and no handle is used. */
  lemma FirstTickOfStart(st: State, id: ChatId, now: Time, balance: Option<real>)
    requires Wf(st)
    ensures var cleared := if id in st.intervals then st.(timers := st.timers - {st.intervals[id]}) else st;
      var u := TickSpec(cleared, id, now, balance).0;
      && u.nextHandle == st.nextHandle
      && (forall h :: h in u.timers ==> h in st.timers && u.timers[h] == st.timers[h] && st.timers[h].owner != id)
      && (forall h :: h in st.timers && st.timers[h].owner != id ==> h in u.timers)
      && (forall other :: other != id ==>
            (other in u.intervals <==> other in st.intervals)
            && (other in st.intervals ==> u.intervals[other] == st.intervals[other])
            && LastOf(u.lastAlertTimes, other) == LastOf(st.lastAlertTimes, other))
  {
    var cleared := if id in st.intervals then st.(timers := st.timers - {st.intervals[id]}) else st;
    assert forall h :: h in cleared.timers ==> st.timers[h].owner != id;
    TickIsLocal(cleared, id, now, balance);
  }

  lemma StartPreservesWf(st: State, id: ChatId, now: Time, balance: Option<real>)
    requires Wf(st)
    ensures Wf(StartSpec(st, id, now, balance).0)
  {
    if id in st.users {
      FirstTickOfStart(st, id, now, balance);
    }
  }

  /** `startMonitoring` without a record returns false and changes nothing. With a record it
      returns true and afterwards exactly one live timer runs the chat's ticks: a fresh handle,
      registered for the chat, with the record's period; other chats keep their registrations. */
  lemma StartRegistersOneTimer(st: State, id: ChatId, now: Time, balance: Option<real>)
    requires Wf(st)
    ensures id !in st.users ==> StartSpec(st, id, now, balance) == (st, false, None)
    ensures id in st.users ==>
      var (t, ok, first) := StartSpec(st, id, now, balance);
      && ok && first.Some?
      && id in t.intervals && t.intervals[id] !in st.timers
      && t.intervals[id] in t.timers && t.timers[t.intervals[id]] == Timer(id, TimerPeriodMs(st.users[id].settings))
      && (forall h :: h in t.timers && t.timers[h].owner == id ==> h == t.intervals[id])
      && (forall other :: other != id ==>
            (other in t.intervals <==> other in st.intervals)
            && (other in st.intervals ==> t.intervals[other] == st.intervals[other]))
  {
    if id in st.users {
      FirstTickOfStart(st, id, now, balance);
    }
  }

  /** Starting does not clear cooldowns: other chats' entries stay, and the chat's own entry is
      only what its first tick makes of it. */
  lemma StartKeepsCooldowns(st: State, id: ChatId, now: Time, balance: Option<real>)
    requires Wf(st)
    requires id in st.users
    ensures var t := StartSpec(st, id, now, balance).0;
      && (forall other :: other != id ==> LastOf(t.lastAlertTimes, other) == LastOf(st.lastAlertTimes, other))
      && (IsActive(st.users[id].settings) ==>
            LastOf(t.lastAlertTimes, id)
              == Observe(Observation(now, st.users[id].settings, balance), LastOf(st.lastAlertTimes, id)))
  {
    FirstTickOfStart(st, id, now, balance);
  }

  /** Two live timers never run the same chat's ticks. */
  lemma AtMostOneTimerPerChat(st: State, h1: Handle, h2: Handle)
    requires Wf(st)
    requires h1 in st.timers && h2 in st.timers && st.timers[h1].owner == st.timers[h2].owner
    ensures h1 == h2
  {
  }

  /** A well-formed registry pairs chats and live timers one to one, so there are as many
      registered chats as live timers. */
  lemma {:induction false} RegisteredCountIsLiveCount(intervals: map<ChatId, Handle>, timers: map<Handle, Timer>)
    requires forall h :: h in timers ==> timers[h].owner in intervals && intervals[timers[h].owner] == h
    requires forall id :: id in intervals ==> intervals[id] in timers && timers[intervals[id]].owner == id
    ensures |intervals| == |timers|
    decreases |intervals|
  {
    if |intervals| == 0 {
      assert timers.Keys == {};
    } else {
      var id := Pick(intervals.Keys);
      var h := intervals[id];
      var rest, others := intervals - {id}, timers - {h};
      assert rest.Keys == intervals.Keys - {id};
      assert others.Keys == timers.Keys - {h};
      RegisteredCountIsLiveCount(rest, others);
    }
  }

  // ---------------------------------------------------------------------------------------
  // Restarting a chat's monitoring to apply a new check interval.

  /** The restart of the `/checkinterval` handler as written: `stopMonitoring` then
      `startMonitoring`. */
  function RestartAsWritten(st: State, id: ChatId, now: Time, balance: Option<real>)
    : (State, bool, Option<TickReport>)
  {
    StartSpec(StopSpec(st, id, now).0, id, now, balance)
  }

  /** The restart as written ends the monitoring it meant to restart: `stopMonitoring` stores
      `isActive: false` and `startMonitoring` does not undo it, so the new timer is registered
      but its first tick finds the record inactive and stops the chat for good. */
  lemma RestartAsWrittenStopsAtFirstTick(st: State, id: ChatId, now: Time, balance: Option<real>,
                                         later: Time, balance2: Option<real>)
    requires Wf(st)
    requires id in st.intervals && id in st.users
    ensures var (t, ok, first) := RestartAsWritten(st, id, now, balance);
      && ok && first == Some(Deactivated)
      && id in t.users && !IsActive(t.users[id].settings)
      && id in t.intervals
      && var (u, report) := TickSpec(t, id, later, balance2);
         && report == Deactivated
         && id !in u.intervals
         && (forall h :: h in u.timers ==> u.timers[h].owner != id)
  {
    var stopped := StopSpec(st, id, now).0;
    StopStops(st, id, now);
    StartRegistersOneTimer(stopped, id, now, balance);
    var t := RestartAsWritten(st, id, now, balance).0;
    StopStops(t, id, later);
  }

  /** The `{ isActive: true }` the `/monitor` handler stores before it starts a chat. */
  const Reactivate := NoSettings.(isActive := Some(true))

  /** The restart as intended: stop the old timer, mark the record active again, start. */
  function RestartCorrected(st: State, id: ChatId, now: Time, balance: Option<real>)
    : (State, bool, Option<TickReport>)
  {
    var stopped := StopSpec(st, id, now).0;
    StartSpec(stopped.(users := UpdatedUsers(stopped.users, id, Reactivate, now)), id, now, balance)
  }

  /** The corrected restart keeps the chat monitored: the record is active with its other
      settings unchanged, exactly one live timer with the record's period runs the chat, and no
      later tick stops it while the record stays as it is. */
  lemma RestartCorrectedKeepsMonitoring(st: State, id: ChatId, now: Time, balance: Option<real>,
                                        later: Time, balance2: Option<real>)
    requires Wf(st)
    requires id in st.users
    ensures var (t, ok, first) := RestartCorrected(st, id, now, balance);
      && Wf(t) && ok && first.Some? && first != Some(Deactivated)
      && id in t.users && IsActive(t.users[id].settings)
      && t.users[id].settings == st.users[id].settings.(isActive := Some(true))
      && id in t.intervals && t.intervals[id] in t.timers
      && t.timers[t.intervals[id]] == Timer(id, TimerPeriodMs(st.users[id].settings))
      && (forall h :: h in t.timers && t.timers[h].owner == id ==> h == t.intervals[id])
      && var (u, report) := TickSpec(t, id, later, balance2);
         && report != Deactivated
         && u.intervals == t.intervals && u.timers == t.timers
  {
    var stopped := StopSpec(st, id, now).0;
    StopStops(st, id, now);
    var active := stopped.(users := UpdatedUsers(stopped.users, id, Reactivate, now));
    assert Wf(active);
    StartRegistersOneTimer(active, id, now, balance);
    StartPreservesWf(active, id, now, balance);
    var t := RestartCorrected(st, id, now, balance).0;
    TickIsLocal(t, id, later, balance2);
  }

  /** Some element of a non-empty set. */
  ghost function Pick<K>(s: set<K>): (k: K)
    requires s != {}
    ensures k in s
  {
    var k :| k in s; k
  }
}
