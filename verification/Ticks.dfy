/** The periodic checks: which ticks see a firing, and what one tick executes. */
module Ticks {
  import opened Prelude
  import opened Stores

  type Time = int  // microseconds

  const SECOND: int := 1_000_000
  const CRON_WINDOW: int := 35 * SECOND
  const SUN_REACH: int := 1830 * SECOND

  // ---------- Ticks and windows

  /** The tick at `t` sees the instant `y`: it comes after it, by less than `w`. */
  predicate Sees(t: Time, y: Time, w: int) {
    0 < t - y < w
  }

  predicate Increasing(ts: seq<Time>) {
    forall i, j :: 0 <= i < j < |ts| ==> ts[i] < ts[j]
  }

  ghost predicate Seen(ts: seq<Time>, y: Time, w: int) {
    exists k :: 0 <= k < |ts| && Sees(ts[k], y, w)
  }

  predicate GapsBelow(ts: seq<Time>, w: int) {
    forall k :: 0 <= k < |ts| - 1 ==> ts[k + 1] - ts[k] < w
  }

  /** Any two gaps in a row come to at least `w`. */
  predicate TwoGapsFrom(ts: seq<Time>, w: int) {
    forall k :: 0 <= k < |ts| - 2 ==> ts[k + 2] - ts[k] >= w
  }

  lemma {:induction false} NextTick(ts: seq<Time>, y: Time) returns (k: nat)
    requires |ts| > 1 && ts[0] <= y < ts[|ts| - 1]
    ensures k + 1 < |ts| && ts[k] <= y < ts[k + 1]
  {
    var n := |ts| - 1;
    if ts[n - 1] <= y {
      k := n - 1;
    } else {
      k := NextTick(ts[..n], y);
    }
  }

  /** No instant is missed exactly when every gap between ticks is shorter than the window. */
  lemma NothingMissed(ts: seq<Time>, w: int)
    requires Increasing(ts) && |ts| > 0
    ensures (forall y :: ts[0] <= y < ts[|ts| - 1] ==> Seen(ts, y, w)) <==> GapsBelow(ts, w)
  {
    if GapsBelow(ts, w) {
      forall y | ts[0] <= y < ts[|ts| - 1] ensures Seen(ts, y, w) {
        var k := NextTick(ts, y);
        assert Sees(ts[k + 1], y, w);
      }
    } else {
      var k :| 0 <= k < |ts| - 1 && ts[k + 1] - ts[k] >= w;
      assert k > 0 ==> ts[0] < ts[k];
      assert k + 1 < |ts| - 1 ==> ts[k + 1] < ts[|ts| - 1];
      forall j | 0 <= j < |ts| ensures !Sees(ts[j], ts[k], w) {
        if k + 1 < j {
          assert ts[k + 1] < ts[j];
        }
      }
      assert !Seen(ts, ts[k], w);
    }
  }

  /** No instant is seen three times exactly when any two gaps in a row nearly fill the window. */
  lemma SeenAtMostTwice(ts: seq<Time>, w: int)
    requires Increasing(ts)
    ensures (forall y, i, j, k :: 0 <= i < j < k < |ts| ==>
             !(Sees(ts[i], y, w) && Sees(ts[j], y, w) && Sees(ts[k], y, w)))
            <==> TwoGapsFrom(ts, w - 1)
  {
    if TwoGapsFrom(ts, w - 1) {
      forall y, i, j, k | 0 <= i < j < k < |ts| ensures !(Sees(ts[i], y, w) && Sees(ts[j], y, w) && Sees(ts[k], y, w)) {
        assert ts[i + 2] - ts[i] >= w - 1;
        assert k > i + 2 ==> ts[i + 2] < ts[k];
      }
    } else {
      var k :| 0 <= k < |ts| - 2 && ts[k + 2] - ts[k] < w - 1;
      var y := ts[k] - 1;
      assert ts[k] < ts[k + 1] < ts[k + 2];
      assert Sees(ts[k], y, w) && Sees(ts[k + 1], y, w) && Sees(ts[k + 2], y, w);
    }
  }

  predicate GapsFrom(ts: seq<Time>, gap: int) {
    forall k :: 0 <= k < |ts| - 1 ==> ts[k + 1] - ts[k] >= gap
  }

  lemma TwoGapsApart(ts: seq<Time>, gap: int, i: nat, j: nat)
    requires Increasing(ts) && GapsFrom(ts, gap) && i + 1 < j < |ts|
    ensures ts[j] - ts[i] >= 2 * gap
  {
    assert ts[i + 1] - ts[i] >= gap && ts[i + 2] - ts[i + 1] >= gap;
    assert i + 2 < j ==> ts[i + 2] < ts[j];
  }

  // ---------- Cron

  /** `p` is the last firing strictly before `now`. */
  ghost predicate IsPrev(fires: Time -> bool, now: Time, p: Time) {
    fires(p) && p < now && forall q :: p < q < now ==> !fires(q)
  }

  /** The tick at `now` matches the firing `p`. */
  ghost predicate Matches(fires: Time -> bool, now: Time, p: Time) {
    IsPrev(fires, now, p) && now - p < CRON_WINDOW
  }

  /** The firings come at least `gap` apart. */
  ghost predicate Spaced(fires: Time -> bool, gap: int) {
    forall p, q :: fires(p) && fires(q) && p < q ==> q - p >= gap
  }

  lemma {:induction false} LastFiring(fires: Time -> bool, now: Time, p: Time) returns (last: Time)
    requires fires(p) && p < now
    ensures IsPrev(fires, now, last) && p <= last
    decreases now - p
  {
    if q :| p < q < now && fires(q) {
      last := LastFiring(fires, now, q);
    } else {
      last := p;
    }
  }

  /** A tick matches some firing exactly when there was one within the window, however dense they are. */
  lemma MatchesIffRecent(fires: Time -> bool, now: Time)
    ensures (exists p :: Matches(fires, now, p)) <==> exists p :: fires(p) && Sees(now, p, CRON_WINDOW)
  {
    if p :| fires(p) && Sees(now, p, CRON_WINDOW) {
      var last := LastFiring(fires, now, p);
      assert Matches(fires, now, last);
    }
    if p :| Matches(fires, now, p) {
      assert Sees(now, p, CRON_WINDOW);
    }
  }

  lemma MatchesThisOne(fires: Time -> bool, now: Time, p: Time)
    requires Spaced(fires, CRON_WINDOW) && fires(p)
    ensures Matches(fires, now, p) <==> Sees(now, p, CRON_WINDOW)
  {
  }

  /** With check ticks at least 17.5 s and less than 35 s apart and firings at least 35 s apart, every
      firing is matched by one tick or by two neighbouring ones. */
  lemma EveryFiringMatched(fires: Time -> bool, ts: seq<Time>, p: Time)
    requires Increasing(ts) && |ts| > 0 && GapsBelow(ts, CRON_WINDOW) && GapsFrom(ts, CRON_WINDOW / 2)
    requires Spaced(fires, CRON_WINDOW) && fires(p) && ts[0] <= p < ts[|ts| - 1]
    ensures exists k :: 0 <= k < |ts| && Matches(fires, ts[k], p)
    ensures forall i, j :: 0 <= i < j < |ts| && Matches(fires, ts[i], p) && Matches(fires, ts[j], p) ==> j == i + 1
  {
    NothingMissed(ts, CRON_WINDOW);
    assert Seen(ts, p, CRON_WINDOW);
    var k :| 0 <= k < |ts| && Sees(ts[k], p, CRON_WINDOW);
    MatchesThisOne(fires, ts[k], p);
    forall i, j | 0 <= i < j < |ts| && Matches(fires, ts[i], p) && Matches(fires, ts[j], p) ensures j == i + 1 {
      if i + 1 < j {
        TwoGapsApart(ts, CRON_WINDOW / 2, i, j);
      }
    }
  }

  /** On an exact 30 s beat a firing is matched twice exactly when a tick follows it by less than 5 s. */
  lemma MatchedTwiceOnTheBeat(fires: Time -> bool, t: Time, p: Time)
    requires Spaced(fires, CRON_WINDOW) && fires(p)
    ensures Matches(fires, t, p) && Matches(fires, t + 30 * SECOND, p) <==> 0 < t - p < 5 * SECOND
  {
    MatchesThisOne(fires, t, p);
    MatchesThisOne(fires, t + 30 * SECOND, p);
  }

  // ---------- Sunrise and sunset

  predicate SunMatches(now: Time, target: Time) {
    -SUN_REACH < now - target < SUN_REACH
  }

  /** With sun ticks at least 1830 s and less than 3660 s apart, a fixed target is matched by one tick or
      by two neighbouring ones. */
  lemma EverySunTargetMatched(ts: seq<Time>, target: Time)
    requires Increasing(ts) && |ts| > 0 && GapsBelow(ts, 2 * SUN_REACH) && GapsFrom(ts, SUN_REACH)
    requires ts[0] <= target - SUN_REACH < ts[|ts| - 1]
    ensures exists k :: 0 <= k < |ts| && SunMatches(ts[k], target)
    ensures forall i, j :: 0 <= i < j < |ts| && SunMatches(ts[i], target) && SunMatches(ts[j], target) ==> j == i + 1
  {
    NothingMissed(ts, 2 * SUN_REACH);
    assert Seen(ts, target - SUN_REACH, 2 * SUN_REACH);
    var k :| 0 <= k < |ts| && Sees(ts[k], target - SUN_REACH, 2 * SUN_REACH);
    assert SunMatches(ts[k], target);
    forall i, j | 0 <= i < j < |ts| && SunMatches(ts[i], target) && SunMatches(ts[j], target) ensures j == i + 1 {
      if i + 1 < j {
        TwoGapsApart(ts, SUN_REACH, i, j);
      }
    }
  }

  // ---------- One tick

  /** One call of the engine: for which schedule, on which trigger, and whether it came back without an
      exception. */
  datatype Attempt = Attempt(schedule: nat, trigger: nat, ok: bool)

  predicate Precedes(a: Attempt, b: Attempt) {
    a.schedule < b.schedule || (a.schedule == b.schedule && a.trigger < b.trigger)
  }

  predicate Ordered(log: seq<Attempt>) {
    forall i, j :: 0 <= i < j < |log| ==> Precedes(log[i], log[j])
  }

  /** The world a tick sees: the previous firing of a cron expression, unless it cannot be evaluated,
      and whether executing a schedule on a trigger succeeds. */
  datatype World = World(now: Time, prev: string -> Option<Time>, succeeds: (nat, nat) -> bool)

  predicate CronDue(w: World, t: Trigger) {
    && t.kind == Cron && Truthy(t.cron)
    && w.prev(t.cron.value).Some? && w.now - w.prev(t.cron.value).value < CRON_WINDOW
  }

  predicate Due(w: World, schedules: seq<Schedule>, i: nat, j: nat) {
    i < |schedules| && schedules[i].enabled && j < |schedules[i].triggers| && CronDue(w, schedules[i].triggers[j])
  }

  /** A due trigger is tried unless an earlier one of its schedule has succeeded. */
  ghost predicate Tried(w: World, schedules: seq<Schedule>, a: Attempt) {
    && Due(w, schedules, a.schedule, a.trigger) && a.ok == w.succeeds(a.schedule, a.trigger)
    && forall j: nat :: j < a.trigger && Due(w, schedules, a.schedule, j) ==> !w.succeeds(a.schedule, j)
  }

  /** The log is one that the cron check may return: the attempts that the rule prescribes, in order. */
  ghost predicate IsLog(w: World, schedules: seq<Schedule>, log: seq<Attempt>) {
    Ordered(log) && forall a :: a in log <==> Tried(w, schedules, a)
  }

  /** One enabled schedule. An exception is logged and the next trigger tried; a success ends the schedule. */
  method TrySchedule(w: World, schedules: seq<Schedule>, i: nat) returns (tried: seq<Attempt>)
    requires i < |schedules| && schedules[i].enabled
    ensures Ordered(tried)
    ensures forall a :: a in tried <==> a.schedule == i && Tried(w, schedules, a)
  {
    tried := [];
    var triggers := schedules[i].triggers;
    for j := 0 to |triggers|
      invariant Ordered(tried)
      invariant forall a :: a in tried <==> a.schedule == i && a.trigger < j && Tried(w, schedules, a)
      invariant forall m: nat :: m < j && Due(w, schedules, i, m) ==> !w.succeeds(i, m)
    {
      var trigger := triggers[j];
      if trigger.kind != Cron || !Truthy(trigger.cron) {
        continue;
      }
      var prev := w.prev(trigger.cron.value);
      if prev.Some? && w.now - prev.value < CRON_WINDOW {
        var a := Attempt(i, j, w.succeeds(i, j));
        assert Due(w, schedules, i, j) && Tried(w, schedules, a);
        tried := tried + [a];
        if a.ok {
          return;
        }
      }
    }
  }

  lemma JoinOrdered(log: seq<Attempt>, more: seq<Attempt>, i: nat)
    requires Ordered(log) && Ordered(more)
    requires (forall a :: a in log ==> a.schedule < i) && forall a :: a in more ==> a.schedule == i
    ensures Ordered(log + more)
  {
    forall j, k | 0 <= j < k < |log + more| ensures Precedes((log + more)[j], (log + more)[k]) {
      if j < |log| <= k {
        assert log[j] in log && more[k - |log|] in more;
      }
    }
  }

  /** The cron check: every enabled schedule in turn. */
  method CheckCron(w: World, schedules: seq<Schedule>) returns (log: seq<Attempt>)
    ensures IsLog(w, schedules, log)
  {
    log := [];
    for i := 0 to |schedules|
      invariant Ordered(log)
      invariant forall a :: a in log <==> a.schedule < i && Tried(w, schedules, a)
    {
      if !schedules[i].enabled {
        continue;
      }
      var tried := TrySchedule(w, schedules, i);
      JoinOrdered(log, tried, i);
      log := log + tried;
    }
  }

  /** A schedule is executed successfully at most once per tick, and it is when one of its due triggers
      can be. */
  lemma OneSuccessPerTick(w: World, schedules: seq<Schedule>, log: seq<Attempt>, i: nat)
    requires IsLog(w, schedules, log)
    ensures (exists k :: 0 <= k < |log| && log[k].schedule == i && log[k].ok) <==>
            exists j: nat :: Due(w, schedules, i, j) && w.succeeds(i, j)
    ensures forall k, l ::
              0 <= k < |log| && 0 <= l < |log| && log[k].schedule == log[l].schedule == i && log[k].ok && log[l].ok ==>
                k == l
  {
    if k :| 0 <= k < |log| && log[k].schedule == i && log[k].ok {
      assert log[k] in log;
      assert Due(w, schedules, i, log[k].trigger);
    }
    if j: nat :| Due(w, schedules, i, j) && w.succeeds(i, j) {
      var first := FirstSuccess(w, schedules, i, j);
      assert Tried(w, schedules, Attempt(i, first, true));
      assert Attempt(i, first, true) in log;
    }
    forall k, l | 0 <= k < |log| && 0 <= l < |log| && log[k].schedule == log[l].schedule == i && log[k].ok && log[l].ok
      ensures k == l
    {
      assert log[k] in log && log[l] in log;
      assert log[k].trigger == log[l].trigger;
    }
  }

  lemma {:induction false} FirstSuccess(w: World, schedules: seq<Schedule>, i: nat, j: nat) returns (first: nat)
    requires Due(w, schedules, i, j) && w.succeeds(i, j)
    ensures Due(w, schedules, i, first) && w.succeeds(i, first)
    ensures forall m: nat :: m < first && Due(w, schedules, i, m) ==> !w.succeeds(i, m)
    decreases j
  {
    if m: nat :| m < j && Due(w, schedules, i, m) && w.succeeds(i, m) {
      first := FirstSuccess(w, schedules, i, m);
    } else {
      first := j;
    }
  }

  /** The previous firing that the cron library finds is the last one strictly before the tick. */
  ghost predicate Faithful(w: World, cron: string, fires: Time -> bool) {
    forall p :: w.prev(cron) == Some(p) <==> IsPrev(fires, w.now, p)
  }

  function Times(worlds: seq<World>): seq<Time> {
    seq(|worlds|, k requires 0 <= k < |worlds| => worlds[k].now)
  }

  /** Whenever a cron trigger of an enabled schedule fires between two ticks of such a run, it is due at
      one of them. */
  lemma FiringIsDue(worlds: seq<World>, schedules: seq<Schedule>, i: nat, j: nat, fires: Time -> bool, p: Time)
      returns (k: nat)
    requires i < |schedules| && schedules[i].enabled && j < |schedules[i].triggers|
    requires schedules[i].triggers[j].kind == Cron && Truthy(schedules[i].triggers[j].cron)
    requires |worlds| > 0 && Increasing(Times(worlds)) && GapsBelow(Times(worlds), CRON_WINDOW)
    requires forall k :: 0 <= k < |worlds| ==> Faithful(worlds[k], schedules[i].triggers[j].cron.value, fires)
    requires fires(p) && worlds[0].now <= p < worlds[|worlds| - 1].now
    ensures k < |worlds| && Due(worlds[k], schedules, i, j)
  {
    var ts := Times(worlds);
    NothingMissed(ts, CRON_WINDOW);
    assert Seen(ts, p, CRON_WINDOW);
    k :| 0 <= k < |ts| && Sees(ts[k], p, CRON_WINDOW);
    MatchesIffRecent(fires, ts[k]);
    var q :| Matches(fires, ts[k], q);
    assert worlds[k].prev(schedules[i].triggers[j].cron.value) == Some(q);
  }

  /** End to end: such a firing leaves a successful execution of its schedule in the log of one of the
      ticks, provided that executing it on that trigger succeeds. */
  lemma FiringIsExecuted(worlds: seq<World>, logs: seq<seq<Attempt>>, schedules: seq<Schedule>, i: nat, j: nat,
                         fires: Time -> bool, p: Time)
    requires i < |schedules| && schedules[i].enabled && j < |schedules[i].triggers|
    requires schedules[i].triggers[j].kind == Cron && Truthy(schedules[i].triggers[j].cron)
    requires |worlds| > 0 && Increasing(Times(worlds)) && GapsBelow(Times(worlds), CRON_WINDOW)
    requires forall k :: 0 <= k < |worlds| ==>
               Faithful(worlds[k], schedules[i].triggers[j].cron.value, fires) && worlds[k].succeeds(i, j)
    requires |logs| == |worlds| && forall k :: 0 <= k < |worlds| ==> IsLog(worlds[k], schedules, logs[k])
    requires fires(p) && worlds[0].now <= p < worlds[|worlds| - 1].now
    ensures exists k, l :: 0 <= k < |logs| && 0 <= l < |logs[k]| && logs[k][l].schedule == i && logs[k][l].ok
  {
    var k := FiringIsDue(worlds, schedules, i, j, fires, p);
    assert IsLog(worlds[k], schedules, logs[k]);
    OneSuccessPerTick(worlds[k], schedules, logs[k], i);
    var l :| 0 <= l < |logs[k]| && logs[k][l].schedule == i && logs[k][l].ok;
  }

  // ---------- What a log says about the firings

  /** The trigger is a cron trigger of an enabled schedule. */
  predicate IsCron(schedules: seq<Schedule>, i: nat, j: nat) {
    && i < |schedules| && schedules[i].enabled && j < |schedules[i].triggers|
    && schedules[i].triggers[j].kind == Cron && Truthy(schedules[i].triggers[j].cron)
  }

  /** When each cron expression fires; one that cannot be evaluated never does. */
  type Calendar = string -> Time -> bool

  function Firings(calendar: Calendar, schedules: seq<Schedule>, i: nat, j: nat): Time -> bool
    requires IsCron(schedules, i, j)
  {
    calendar(schedules[i].triggers[j].cron.value)
  }

  ghost predicate FollowsCalendar(w: World, calendar: Calendar) {
    forall cron :: Faithful(w, cron, calendar(cron))
  }

  /** The trigger has fired in the 35 seconds before `now`. */
  ghost predicate FiredLately(calendar: Calendar, schedules: seq<Schedule>, i: nat, j: nat, now: Time) {
    IsCron(schedules, i, j) && exists q :: Firings(calendar, schedules, i, j)(q) && 0 < now - q < 35_000_000
  }

  lemma DueIffFiredLately(w: World, calendar: Calendar, schedules: seq<Schedule>, i: nat, j: nat)
    requires FollowsCalendar(w, calendar)
    ensures Due(w, schedules, i, j) <==> FiredLately(calendar, schedules, i, j, w.now)
  {
    if IsCron(schedules, i, j) {
      var cron, fires := schedules[i].triggers[j].cron.value, Firings(calendar, schedules, i, j);
      assert Faithful(w, cron, fires);
      MatchesIffRecent(fires, w.now);
      if Due(w, schedules, i, j) {
        assert Matches(fires, w.now, w.prev(cron).value);
      }
      if q :| fires(q) && 0 < w.now - q < 35_000_000 {
        assert Sees(w.now, q, CRON_WINDOW);
        var last :| Matches(fires, w.now, last);
      }
    }
  }

  /** A tick's log in terms of the firings: it holds exactly the cron triggers of enabled schedules that have
      fired in the 35 seconds before, up to the first of each schedule that could be executed. */
  lemma LogIsOfFirings(w: World, calendar: Calendar, schedules: seq<Schedule>, log: seq<Attempt>, a: Attempt)
    requires FollowsCalendar(w, calendar) && IsLog(w, schedules, log)
    ensures a in log <==>
              && FiredLately(calendar, schedules, a.schedule, a.trigger, w.now)
              && a.ok == w.succeeds(a.schedule, a.trigger)
              && forall m: nat :: m < a.trigger && FiredLately(calendar, schedules, a.schedule, m, w.now) ==>
                   !w.succeeds(a.schedule, m)
    ensures forall k, l :: 0 <= k < l < |log| ==>
              log[k].schedule < log[l].schedule ||
              (log[k].schedule == log[l].schedule && log[k].trigger < log[l].trigger)
  {
    forall j: nat ensures Due(w, schedules, a.schedule, j) <==> FiredLately(calendar, schedules, a.schedule, j, w.now) {
      DueIffFiredLately(w, calendar, schedules, a.schedule, j);
    }
  }

  /** With check ticks at least 17.5 seconds apart, one firing is tried in at most two neighbouring ticks: two
      attempts on one trigger in logs further apart come of two different firings, each in the 35 seconds
      before its own tick. */
  lemma AttemptsApartAreOfTwoFirings(worlds: seq<World>, logs: seq<seq<Attempt>>, calendar: Calendar,
                                     schedules: seq<Schedule>, a: Attempt, b: Attempt, k: nat, l: nat)
      returns (p: Time, q: Time)
    requires |logs| == |worlds| && Increasing(Times(worlds)) && GapsFrom(Times(worlds), 17_500_000)
    requires forall n :: 0 <= n < |worlds| ==>
               FollowsCalendar(worlds[n], calendar) && IsLog(worlds[n], schedules, logs[n])
    requires k + 1 < l < |worlds| && a in logs[k] && b in logs[l]
    requires a.schedule == b.schedule && a.trigger == b.trigger
    ensures IsCron(schedules, a.schedule, a.trigger)
    ensures var fires := Firings(calendar, schedules, a.schedule, a.trigger); fires(p) && fires(q)
    ensures p < q && 0 < worlds[k].now - p < 35_000_000 && 0 < worlds[l].now - q < 35_000_000
  {
    assert FollowsCalendar(worlds[k], calendar) && FollowsCalendar(worlds[l], calendar);
    LogIsOfFirings(worlds[k], calendar, schedules, logs[k], a);
    LogIsOfFirings(worlds[l], calendar, schedules, logs[l], b);
    TwoGapsApart(Times(worlds), 17_500_000, k, l);
    var fires := Firings(calendar, schedules, a.schedule, a.trigger);
    p :| fires(p) && 0 < worlds[k].now - p < 35_000_000;
    q :| fires(q) && 0 < worlds[l].now - q < 35_000_000;
  }

  // ---------- One sun tick

  datatype Sun = Sun(sunrise: Time, sunset: Time)

  predicate SunDue(now: Time, sun: Sun, t: Trigger) {
    var shift := OrElse(t.offset, 0) * 60 * SECOND;
    match t.kind
    case Sunrise => SunMatches(now, sun.sunrise + shift)
    case Sunset => SunMatches(now, sun.sunset + shift)
    case _ => false
  }

  /** The first due trigger of an enabled schedule is the one that executes it. */
  ghost predicate SunChosen(w: World, sun: Sun, schedules: seq<Schedule>, i: nat, j: nat) {
    && i < |schedules| && schedules[i].enabled && j < |schedules[i].triggers|
    && SunDue(w.now, sun, schedules[i].triggers[j])
    && forall m: nat :: m < j ==> !SunDue(w.now, sun, schedules[i].triggers[m])
  }

  /** A schedule is reached unless executing an earlier one failed. */
  ghost predicate Reached(w: World, sun: Sun, schedules: seq<Schedule>, i: nat) {
    forall m: nat, j: nat :: m < i && SunChosen(w, sun, schedules, m, j) ==> w.succeeds(m, j)
  }

  ghost predicate SunTried(w: World, sun: Sun, schedules: seq<Schedule>, a: Attempt) {
    && SunChosen(w, sun, schedules, a.schedule, a.trigger) && a.ok == w.succeeds(a.schedule, a.trigger)
    && Reached(w, sun, schedules, a.schedule)
  }

  /** The sun check. Without a configured location nothing happens; an exception ends the whole tick,
      uncommitted. Each schedule is executed at most once. */
  method CheckSun(w: World, located: Option<Sun>, schedules: seq<Schedule>) returns (log: seq<Attempt>, committed: bool)
    ensures Ordered(log)
    ensures located.None? ==> log == [] && !committed
    ensures located.Some? ==> forall a :: a in log <==> SunTried(w, located.value, schedules, a)
    ensures located.Some? ==> (committed <==> forall a :: a in log ==> a.ok)
    ensures forall k, l :: 0 <= k < |log| && 0 <= l < |log| && log[k].schedule == log[l].schedule ==> k == l
  {
    log, committed := [], false;
    if located.None? {
      return;
    }
    var sun := located.value;
    for i := 0 to |schedules|
      invariant Ordered(log)
      invariant forall a :: a in log <==> a.schedule < i && SunTried(w, sun, schedules, a)
      invariant forall a :: a in log ==> a.ok
      invariant Reached(w, sun, schedules, i)
      invariant forall k, l :: 0 <= k < |log| && 0 <= l < |log| && log[k].schedule == log[l].schedule ==> k == l
    {
      if !schedules[i].enabled {
        continue;
      }
      var triggers := schedules[i].triggers;
      var j := 0;
      while j < |triggers| && !SunDue(w.now, sun, triggers[j])
        invariant 0 <= j <= |triggers|
        invariant forall m: nat :: m < j ==> !SunDue(w.now, sun, triggers[m])
      {
        j := j + 1;
      }
      if j < |triggers| {
        assert SunChosen(w, sun, schedules, i, j);
        var a := Attempt(i, j, w.succeeds(i, j));
        assert SunTried(w, sun, schedules, a);
        log := log + [a];
        if !a.ok {
          assert forall m :: i < m ==> !Reached(w, sun, schedules, m);
          return;
        }
      }
    }
    committed := true;
  }

  /** The trigger follows the sun, and its event, shifted by its offset in minutes, is less than half an hour
      and half a minute from `now`. */
  predicate NearItsEvent(now: Time, sun: Sun, t: Trigger) {
    var offset := if t.offset.Some? then t.offset.value * 60_000_000 else 0;
    || (t.kind == Sunrise && -1_830_000_000 < now - (sun.sunrise + offset) < 1_830_000_000)
    || (t.kind == Sunset && -1_830_000_000 < now - (sun.sunset + offset) < 1_830_000_000)
  }

  ghost predicate NearTrigger(w: World, sun: Sun, schedules: seq<Schedule>, i: nat, j: nat) {
    && i < |schedules| && schedules[i].enabled && j < |schedules[i].triggers|
    && NearItsEvent(w.now, sun, schedules[i].triggers[j])
  }

  lemma DueIsNear(now: Time, sun: Sun, t: Trigger)
    ensures SunDue(now, sun, t) <==> NearItsEvent(now, sun, t)
  {
  }

  lemma LaterIsReached(w: World, sun: Sun, schedules: seq<Schedule>, a: Attempt, b: Attempt)
    requires SunTried(w, sun, schedules, a) && SunTried(w, sun, schedules, b) && Precedes(a, b)
    ensures a.schedule < b.schedule && a.ok
  {
    hide SunDue;
  }

  /** A sun tick in terms of the events: an attempt in the log is on the first trigger of its schedule that is
      near its event, and a schedule with such a trigger is attempted unless an attempt before it failed. */
  lemma SunLogIsOfEvents(w: World, sun: Sun, schedules: seq<Schedule>, log: seq<Attempt>)
    requires Ordered(log) && forall a :: a in log <==> SunTried(w, sun, schedules, a)
    ensures forall a :: a in log ==>
              && NearTrigger(w, sun, schedules, a.schedule, a.trigger) && a.ok == w.succeeds(a.schedule, a.trigger)
              && forall m: nat :: m < a.trigger ==> !NearTrigger(w, sun, schedules, a.schedule, m)
    ensures forall i: nat, j: nat :: NearTrigger(w, sun, schedules, i, j) ==>
              (exists a :: a in log && a.schedule == i && a.trigger <= j) ||
              (exists a :: a in log && a.schedule < i && !a.ok)
    ensures forall k, l :: 0 <= k < l < |log| ==> log[k].schedule < log[l].schedule && log[k].ok
  {
    hide SunDue, NearItsEvent, Reached;
    forall k, l | 0 <= k < l < |log| ensures log[k].schedule < log[l].schedule && log[k].ok {
      assert log[k] in log && log[l] in log;
      LaterIsReached(w, sun, schedules, log[k], log[l]);
    }
    forall i: nat, j: nat
      ensures NearTrigger(w, sun, schedules, i, j) <==>
                i < |schedules| && schedules[i].enabled && j < |schedules[i].triggers| &&
                SunDue(w.now, sun, schedules[i].triggers[j])
    {
      if i < |schedules| && j < |schedules[i].triggers| {
        DueIsNear(w.now, sun, schedules[i].triggers[j]);
      }
    }
    forall i: nat, j: nat | NearTrigger(w, sun, schedules, i, j)
      ensures (exists a :: a in log && a.schedule == i && a.trigger <= j) ||
              (exists a :: a in log && a.schedule < i && !a.ok)
    {
      var first := FirstSunDue(w, sun, schedules, i, j);
      var a := Attempt(i, first, w.succeeds(i, first));
      if Reached(w, sun, schedules, i) {
        assert SunTried(w, sun, schedules, a);
      } else {
        var b := FirstSunFailure(w, sun, schedules, i);
        assert b in log;
      }
    }
  }

  lemma {:induction false} FirstSunDue(w: World, sun: Sun, schedules: seq<Schedule>, i: nat, j: nat)
      returns (first: nat)
    requires NearTrigger(w, sun, schedules, i, j)
    ensures first <= j && SunChosen(w, sun, schedules, i, first)
    decreases j
  {
    if m: nat :| m < j && SunDue(w.now, sun, schedules[i].triggers[m]) {
      first := FirstSunDue(w, sun, schedules, i, m);
    } else {
      first := j;
    }
  }

  lemma {:induction false} FirstSunFailure(w: World, sun: Sun, schedules: seq<Schedule>, i: nat) returns (b: Attempt)
    requires !Reached(w, sun, schedules, i)
    ensures SunTried(w, sun, schedules, b) && b.schedule < i && !b.ok
    decreases i
  {
    var m: nat, j: nat :| m < i && SunChosen(w, sun, schedules, m, j) && !w.succeeds(m, j);
    if Reached(w, sun, schedules, m) {
      b := Attempt(m, j, false);
    } else {
      b := FirstSunFailure(w, sun, schedules, m);
    }
  }
}
