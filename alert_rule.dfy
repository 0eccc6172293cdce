/**
 * The alert decision of monitor.js: what one balance observation does to the per-user
 * last-alert time, and the cooldown arithmetic that `monitorUser` logs and `getStatus` reports.
 *
 * An alert is due when alerts are enabled, the balance is at or above the threshold, and either
 * no alert is recorded or `alertInterval` minutes have passed since the recorded one. A balance
 * below the threshold forgets the recorded alert, so the next qualifying observation alerts at
 * once. Missing settings behave as in JavaScript: a comparison with an undefined threshold is
 * false both ways, and an undefined `alertInterval` makes the cooldown `NaN`, which never
 * elapses (`None` below).
 */
module AlertRule {
  import opened Wrappers
  import opened Database

  /** A `Date.now()` value. Timestamps are positive, so `lastAlertTimes.get(id) || 0` reads 0
      exactly when no alert is recorded. */
  type Time = t: int | 0 < t witness 1

  predicate AlertsOn(s: Settings) {
    s.alertEnabled == Some(true)
  }

  /** `balance >= user.threshold` */
  predicate AtOrAbove(s: Settings, balance: real) {
    s.threshold.Some? && balance >= s.threshold.value
  }

  /** `balance < user.threshold` */
  predicate Below(s: Settings, balance: real) {
    s.threshold.Some? && balance < s.threshold.value
  }

  /** `user.alertInterval * 60 * 1000`; `None` is the `NaN` of a missing interval. */
  function CooldownMs(s: Settings): (r: Option<int>)
    ensures r.Some? <==> s.alertInterval.Some?
    ensures r.Some? ==> r.value == s.alertInterval.value * 60000
  {
    if s.alertInterval.Some? then Some(s.alertInterval.value * 60 * 1000) else None
  }

  /** The first alert, or the cooldown since `last` has run out. */
  predicate Due(s: Settings, last: Option<Time>, now: Time) {
    last.None? || (CooldownMs(s).Some? && now - last.value >= CooldownMs(s).value)
  }

  /** `Math.ceil(ms / 1000)` for an integral `ms`. */
  function CeilSeconds(ms: int): (r: int)
    ensures (r - 1) * 1000 < ms <= r * 1000
  {
    -((-ms) / 1000)
  }

  /** What a tick with a fetched balance decides. `Wait` carries the remaining seconds that
      `monitorUser` logs (`None` for the `NaN` of a missing interval). */
  datatype Verdict = Send | Wait(remainingSeconds: Option<int>) | Rearm | Hold

  /** The verdict and the new `lastAlertTimes` entry for the user. */
  datatype Outcome = Outcome(verdict: Verdict, last: Option<Time>)

  /** One tick of `monitorUser` after a successful fetch of `balance`. */
  function Step(s: Settings, balance: real, last: Option<Time>, now: Time): (o: Outcome)
    ensures o.verdict.Send? <==> AlertsOn(s) && AtOrAbove(s, balance) && Due(s, last, now)
    ensures o.verdict.Send? ==> o.last == Some(now)
    ensures o.verdict.Wait? && o.verdict.remainingSeconds.Some? ==> o.verdict.remainingSeconds.value >= 1
    ensures o.verdict.Wait? ==> last.Some? && o.last == last
    ensures Below(s, balance) <==> o.verdict == Rearm
    ensures o.verdict == Rearm ==> o.last == None
    ensures o.verdict == Hold ==> o.last == last && !(AlertsOn(s) && AtOrAbove(s, balance))
  {
    if AlertsOn(s) && AtOrAbove(s, balance) then
      if Due(s, last, now) then
        Outcome(Send, Some(now))
      else
        var since := now - last.value;
        var remaining := if CooldownMs(s).Some? then Some(CeilSeconds(CooldownMs(s).value - since)) else None;
        Outcome(Wait(remaining), last)
    else if Below(s, balance) then
      Outcome(Rearm, None)
    else
      Outcome(Hold, last)
  }

  /** `nextAlertIn` of `getStatus`: milliseconds until the cooldown runs out, 0 when there is no
      recorded alert (`None` for the `NaN` of a missing interval). */
  function NextAlertIn(s: Settings, last: Option<Time>, now: Time): Option<int> {
    if last.None? then Some(0)
    else if CooldownMs(s).None? then None
    else
      var pending := CooldownMs(s).value - (now - last.value);
      Some(if pending > 0 then pending else 0)
  }

  /** `getStatus` reports zero exactly when the next qualifying tick would alert. */
  lemma NextAlertInZeroIffDue(s: Settings, last: Option<Time>, now: Time)
    ensures NextAlertIn(s, last, now) == Some(0) <==> Due(s, last, now)
  {
  }

  /** When the clock has not gone back and the interval is not negative, the reported wait lies
      between 0 and the whole cooldown. */
  lemma NextAlertInBounds(s: Settings, last: Time, now: Time)
    requires s.alertInterval.Some? && s.alertInterval.value >= 0
    requires now >= last
    ensures var r := NextAlertIn(s, Some(last), now);
      r.Some? && 0 <= r.value <= s.alertInterval.value * 60000
  {
  }

  /** Alerts switched off never send, and touch the recorded alert only by the same reset. */
  lemma DisabledNeverSends(s: Settings, balance: real, last: Option<Time>, now: Time)
    requires !AlertsOn(s)
    ensures var o := Step(s, balance, last, now);
      !o.verdict.Send? && o.last == (if Below(s, balance) then None else last)
  {
  }

  // ---------------------------------------------------------------------------------------
  // Sequences of ticks for one user whose record stays active.

  /** One tick: the time, the settings re-read from the store, the fetched balance or a failed
      fetch (`None`, the `null` of `getBalance`). */
  datatype Observation = Observation(now: Time, settings: Settings, balance: Option<real>)

  /** The recorded alert after a tick; a failed fetch leaves it alone. */
  function Observe(o: Observation, last: Option<Time>): Option<Time> {
    if o.balance.None? then last else Step(o.settings, o.balance.value, last, o.now).last
  }

  predicate AlertsOnTick(o: Observation, last: Option<Time>) {
    o.balance.Some? && Step(o.settings, o.balance.value, last, o.now).verdict.Send?
  }

  /** The tick saw the balance below the threshold. */
  predicate Rearms(o: Observation) {
    o.balance.Some? && Below(o.settings, o.balance.value)
  }

  /** The recorded alert after the first `n` ticks, starting from `last0`. */
  function LastAfter(last0: Option<Time>, ticks: seq<Observation>, n: nat): Option<Time>
    requires n <= |ticks|
  {
    if n == 0 then last0 else Observe(ticks[n - 1], LastAfter(last0, ticks, n - 1))
  }

  predicate AlertAt(last0: Option<Time>, ticks: seq<Observation>, k: nat)
    requires k < |ticks|
  {
    AlertsOnTick(ticks[k], LastAfter(last0, ticks, k))
  }

  /** Ticks strictly between `i` and `j` neither alert nor see the balance below the threshold. */
  predicate QuietBetween(last0: Option<Time>, ticks: seq<Observation>, i: nat, j: nat)
    requires i <= j <= |ticks|
  {
    forall k :: i < k < j ==> !AlertAt(last0, ticks, k) && !Rearms(ticks[k])
  }

  /** After an alert at tick `i` and only quiet ticks since, the recorded alert is tick `i`'s. */
  lemma {:induction false} LastIsAlertTime(last0: Option<Time>, ticks: seq<Observation>, i: nat, m: nat)
    requires i < m <= |ticks|
    requires AlertAt(last0, ticks, i)
    requires QuietBetween(last0, ticks, i, m)
    ensures LastAfter(last0, ticks, m) == Some(ticks[i].now)
    decreases m
  {
    if m > i + 1 {
      LastIsAlertTime(last0, ticks, i, m - 1);
    }
  }

  /** At most one alert per cooldown window: two alerts with no below-threshold tick between
      them are at least the (then current) cooldown apart. */
  lemma CooldownBetweenAlerts(last0: Option<Time>, ticks: seq<Observation>, i: nat, j: nat)
    requires i < j < |ticks|
    requires AlertAt(last0, ticks, i) && AlertAt(last0, ticks, j)
    requires QuietBetween(last0, ticks, i, j)
    ensures CooldownMs(ticks[j].settings).Some?
    ensures ticks[j].now - ticks[i].now >= ticks[j].settings.alertInterval.value * 60000
  {
    LastIsAlertTime(last0, ticks, i, j);
  }

  /** After a below-threshold tick, and no alert since, no alert is recorded. */
  lemma {:induction false} LastClearedSinceRearm(last0: Option<Time>, ticks: seq<Observation>, k: nat, m: nat)
    requires k < m <= |ticks|
    requires Rearms(ticks[k])
    requires forall i :: k < i < m ==> !AlertAt(last0, ticks, i)
    ensures LastAfter(last0, ticks, m) == None
    decreases m
  {
    if m > k + 1 {
      LastClearedSinceRearm(last0, ticks, k, m - 1);
      assert !AlertAt(last0, ticks, m - 1);
    }
  }

  /** Edge reset: the first qualifying tick after a below-threshold tick alerts at once, however
      recent the previous alert was. */
  lemma RearmedAlertsImmediately(last0: Option<Time>, ticks: seq<Observation>, k: nat, j: nat)
    requires k < j < |ticks|
    requires Rearms(ticks[k])
    requires forall i :: k < i < j ==> !AlertAt(last0, ticks, i)
    requires ticks[j].balance.Some? && AlertsOn(ticks[j].settings)
    requires AtOrAbove(ticks[j].settings, ticks[j].balance.value)
    ensures AlertAt(last0, ticks, j)
  {
    LastClearedSinceRearm(last0, ticks, k, j);
  }

  /** Two traces that agree on their first `n` ticks agree on the state after them. */
  lemma {:induction false} LastAfterPrefix(last0: Option<Time>, a: seq<Observation>, b: seq<Observation>, n: nat)
    requires n <= |a| && n <= |b|
    requires a[..n] == b[..n]
    ensures LastAfter(last0, a, n) == LastAfter(last0, b, n)
    decreases n
  {
    if n > 0 {
      assert a[n - 1] == a[..n][n - 1] == b[..n][n - 1] == b[n - 1];
      assert a[..n - 1] == a[..n][..n - 1];
      assert b[..n - 1] == b[..n][..n - 1];
      LastAfterPrefix(last0, a, b, n - 1);
    }
  }

  /** A tick whose fetch failed is as if it never happened: every later tick sees the state it
      would see in the trace without it. */
  lemma {:induction false} FailedTickIsInvisible(last0: Option<Time>, ticks: seq<Observation>, k: nat, m: nat)
    requires k < m <= |ticks|
    requires ticks[k].balance.None?
    ensures LastAfter(last0, ticks, m) == LastAfter(last0, ticks[..k] + ticks[k + 1..], m - 1)
    decreases m
  {
    var rest := ticks[..k] + ticks[k + 1..];
    if m == k + 1 {
      assert ticks[..k] == rest[..k];
      LastAfterPrefix(last0, ticks, rest, k);
    } else {
      FailedTickIsInvisible(last0, ticks, k, m - 1);
      assert rest[m - 2] == ticks[m - 1];
    }
  }
}
