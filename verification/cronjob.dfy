/** Missed CronJob runs (internal/monitors/cronjob_missed.go). */
module CronJobs {
  import opened Options
  import opened Alerts
  import opened EngineSpec
  import opened Replay

  const MONITOR := "cronjob_missed"

  /** A CronJob with its parsed schedule, whose Next gives the zero time when it finds no run. */
  datatype CronJob = CronJob(
    ns: string, name: string, suspended: bool, schedule: Option<int -> int>,
    created: int, lastScheduled: Option<int>, now: int, title: string, body: string)

  /** Runs counted from `t` on, at most `budget` of them. */
  function CountFrom(next: int -> int, t: int, now: int, budget: nat): nat
    decreases budget
  {
    if budget == 0 || next(t) > now then 0 else 1 + CountFrom(next, next(t), now, budget - 1)
  }

  function Threshold(configured: int): nat {
    if configured <= 0 then 2 else configured
  }

  function Missed(miss: nat, j: CronJob): nat
    requires j.schedule.Some?
  {
    CountFrom(j.schedule.value, if j.lastScheduled.Some? then j.lastScheduled.value else j.created, j.now, miss + 11)
  }

  predicate Late(miss: nat, j: CronJob) {
    !j.suspended && j.schedule.Some? && Missed(miss, j) >= miss
  }

  function AlertOn(j: CronJob): Alert {
    Alert(MONITOR, Warning, Firing, "", j.ns, "CronJob", j.name, "MissedSchedules", j.title, j.body, ZERO_TIME)
  }

  function FiringOf(miss: nat, jobs: seq<CronJob>): seq<Alert> {
    if jobs == [] then []
    else
      var before, j := FiringOf(miss, jobs[..|jobs| - 1]), jobs[|jobs| - 1];
      if Late(miss, j) then before + [AlertOn(j)] else before
  }

  /** The counting loop: it stops after at most miss + 11 rounds whatever Next returns. */
  method CountMissed(next: int -> int, lastRef: int, now: int, miss: nat) returns (missed: nat)
    ensures missed == CountFrom(next, lastRef, now, miss + 11) <= miss + 11
  {
    var expected := next(lastRef);
    missed := 0;
    ghost var reached := lastRef;
    while expected <= now
      invariant missed <= miss + 10 && expected == next(reached)
      invariant CountFrom(next, lastRef, now, miss + 11) == missed + CountFrom(next, reached, now, miss + 11 - missed)
      decreases miss + 11 - missed
    {
      missed := missed + 1;
      reached := expected;
      expected := next(expected);
      if missed > miss + 10 {
        return;
      }
    }
  }

  /** One scan of the listed jobs: what is handed to Reconcile, or nothing when they could not be listed. */
  method Scan(listed: Option<seq<CronJob>>, configured: int) returns (reconciled: Option<seq<Alert>>)
    ensures reconciled == if listed.None? then None else Some(FiringOf(Threshold(configured), listed.value))
  {
    if listed.None? {
      return None;
    }
    var jobs := listed.value;
    var miss: nat := 2;
    if configured > 0 {
      miss := configured;
    }
    var firing := [];
    for i := 0 to |jobs|
      invariant firing == FiringOf(miss, jobs[..i])
    {
      assert jobs[..i + 1][..i] == jobs[..i];
      var j := jobs[i];
      if j.suspended || j.schedule.None? {
        continue;
      }
      var lastRef := j.created;
      if j.lastScheduled.Some? {
        lastRef := j.lastScheduled.value;
      }
      var missed := CountMissed(j.schedule.value, lastRef, j.now, miss);
      if missed >= miss {
        firing := firing + [AlertOn(j)];
      }
    }
    assert jobs[..|jobs|] == jobs;
    return Some(firing);
  }

  // ---- Against the scheduled instants --------------------------------------------------

  /** Next finds the least scheduled instant after `t`, or returns the zero time when there is none. */
  ghost predicate IsNext(next: int -> int, scheduled: int -> bool) {
    forall t :: if Continues(scheduled, t)
                then next(t) > t && scheduled(next(t)) && forall u :: t < u < next(t) ==> !scheduled(u)
                else next(t) == ZERO_TIME
  }

  /** Some run is scheduled after `t`. */
  ghost predicate Continues(scheduled: int -> bool, t: int) {
    exists u :: u > t && scheduled(u)
  }

  /** The runs due in the half-open interval from `lo` to `hi`. */
  ghost function Due(scheduled: int -> bool, lo: int, hi: int): set<int> {
    set t | lo < t <= hi && scheduled(t)
  }

  function Later(t: int, now: int): int {
    if t > now then t else now
  }

  function Min(a: nat, b: nat): nat {
    if a <= b then a else b
  }

  /** While the schedule goes on, the loop counts the due runs up to its budget. */
  lemma {:induction false} CountsDueRuns(next: int -> int, scheduled: int -> bool, t: int, now: int, budget: nat)
    requires IsNext(next, scheduled) && Continues(scheduled, Later(t, now))
    ensures CountFrom(next, t, now, budget) == Min(|Due(scheduled, t, now)|, budget)
    decreases budget
  {
    hide IsNext;
    var u := next(t);
    NextMeans(next, scheduled, t);
    assert Continues(scheduled, t) by {
      var v :| v > Later(t, now) && scheduled(v);
      assert v > t;
    }
    if u > now {
      assert Due(scheduled, t, now) == {};
    } else {
      assert Due(scheduled, t, now) == {u} + Due(scheduled, u, now);
      assert |Due(scheduled, t, now)| == 1 + |Due(scheduled, u, now)|;
      if budget > 0 {
        CountsDueRuns(next, scheduled, u, now, budget - 1);
      }
    }
  }

  lemma NextMeans(next: int -> int, scheduled: int -> bool, t: int)
    requires IsNext(next, scheduled)
    ensures if Continues(scheduled, t)
            then next(t) > t && scheduled(next(t)) && forall u :: t < u < next(t) ==> !scheduled(u)
            else next(t) == ZERO_TIME
  {
    assert next(t) == next(t);
  }

  /** When no run lies ahead of the clock, every Next is in the past and the loop runs to its cap. */
  lemma {:induction false} DryScheduleHitsCap(next: int -> int, scheduled: int -> bool, t: int, now: int, budget: nat)
    requires IsNext(next, scheduled) && !Continues(scheduled, now) && now >= ZERO_TIME
    ensures CountFrom(next, t, now, budget) == budget
    decreases budget
  {
    hide IsNext;
    NextMeans(next, scheduled, t);
    if budget > 0 {
      DryScheduleHitsCap(next, scheduled, next(t), now, budget - 1);
    }
  }

  /**
    The count is the number of due runs, capped, exactly when some run still lies ahead of both the
    reference and the clock, or the cap is reached anyway. A schedule without a further run is counted wrongly.
   */
  lemma MissedRunsExact(next: int -> int, scheduled: int -> bool, t: int, now: int, miss: nat)
    requires IsNext(next, scheduled) && now >= ZERO_TIME
    ensures CountFrom(next, t, now, miss + 11) == Min(|Due(scheduled, t, now)|, miss + 11) <==>
              Continues(scheduled, Later(t, now)) || |Due(scheduled, t, now)| >= miss + 11
  {
    hide IsNext;
    if Continues(scheduled, Later(t, now)) {
      CountsDueRuns(next, scheduled, t, now, miss + 11);
    } else if t <= now {
      DryScheduleHitsCap(next, scheduled, t, now, miss + 11);
    } else {
      NextMeans(next, scheduled, t);
      assert Due(scheduled, t, now) == {};
      assert CountFrom(next, t, now, miss + 11) >= 1;
    }
  }

  /** So the alert of a live schedule fires exactly when at least `miss` runs were due. */
  lemma FiresWhenDue(miss: nat, j: CronJob, scheduled: int -> bool)
    requires !j.suspended && j.schedule.Some? && IsNext(j.schedule.value, scheduled)
    requires var ref := if j.lastScheduled.Some? then j.lastScheduled.value else j.created;
             Continues(scheduled, Later(ref, j.now))
    ensures var ref := if j.lastScheduled.Some? then j.lastScheduled.value else j.created;
            Late(miss, j) <==> |Due(scheduled, ref, j.now)| >= miss
  {
    var ref := if j.lastScheduled.Some? then j.lastScheduled.value else j.created;
    CountsDueRuns(j.schedule.value, scheduled, ref, j.now, miss + 11);
  }

  /** And a schedule that never runs again always fires, however few runs were due. */
  lemma DryScheduleFires(miss: nat, j: CronJob, scheduled: int -> bool)
    requires !j.suspended && j.schedule.Some? && IsNext(j.schedule.value, scheduled)
    requires !Continues(scheduled, j.now) && j.now >= ZERO_TIME
    ensures Late(miss, j)
  {
    var ref := if j.lastScheduled.Some? then j.lastScheduled.value else j.created;
    DryScheduleHitsCap(j.schedule.value, scheduled, ref, j.now, miss + 11);
  }

  /**
    A job is reported exactly if it is not suspended, its schedule parses, and one of three holds: a run lies
    ahead of reference and clock and enough runs were due; no run lies ahead of the clock; or the reference
    lies ahead of the clock with no run after it, and one more than all past runs is enough.
   */
  ghost predicate Reported(configured: int, j: CronJob, scheduled: int -> bool) {
    var reference := if j.lastScheduled.Some? then j.lastScheduled.value else j.created;
    var miss := if configured > 0 then configured else 2;
    && !j.suspended && j.schedule.Some?
    && (|| (Continues(scheduled, Later(reference, j.now)) && |Due(scheduled, reference, j.now)| >= miss)
        || !Continues(scheduled, j.now)
        || (reference > j.now && !Continues(scheduled, reference) && 1 + |Due(scheduled, 0, j.now)| >= miss))
  }

  lemma LateMeans(configured: int, j: CronJob, scheduled: int -> bool)
    requires j.schedule.Some? ==> IsNext(j.schedule.value, scheduled) && j.now >= 0
    ensures Late(Threshold(configured), j) <==> Reported(configured, j, scheduled)
  {
    hide IsNext, CountFrom, Due;
    var miss := Threshold(configured);
    if !j.suspended && j.schedule.Some? {
      var reference := if j.lastScheduled.Some? then j.lastScheduled.value else j.created;
      if Continues(scheduled, Later(reference, j.now)) {
        CountsDueRuns(j.schedule.value, scheduled, reference, j.now, miss + 11);
        LaterRun(scheduled, reference, j.now);
      } else if !Continues(scheduled, j.now) {
        DryScheduleHitsCap(j.schedule.value, scheduled, reference, j.now, miss + 11);
      } else {
        NextMeans(j.schedule.value, scheduled, reference);
        CountsDueRuns(j.schedule.value, scheduled, 0, j.now, miss + 10);
        FirstRound(j.schedule.value, reference, j.now, miss + 11);
      }
    }
  }

  lemma LaterRun(scheduled: int -> bool, t: int, now: int)
    requires Continues(scheduled, Later(t, now))
    ensures Continues(scheduled, now) && Continues(scheduled, t)
  {
    var u :| u > Later(t, now) && scheduled(u);
    assert u > now && u > t;
  }

  lemma FirstRound(next: int -> int, t: int, now: int, budget: nat)
    requires budget > 0 && next(t) <= now
    ensures CountFrom(next, t, now, budget) == 1 + CountFrom(next, next(t), now, budget - 1)
  {
  }

  /** A scan reports exactly these jobs, each with its alert. */
  lemma ScanReportsExactly(configured: int, jobs: seq<CronJob>, runs: CronJob -> int -> bool, a: Alert)
    requires forall j :: j in jobs && j.schedule.Some? ==> IsNext(j.schedule.value, runs(j)) && j.now >= 0
    ensures a in FiringOf(Threshold(configured), jobs) <==>
              exists j :: j in jobs && Reported(configured, j, runs(j))
                && a == Alert("cronjob_missed", Warning, Firing, "", j.ns, "CronJob", j.name, "MissedSchedules",
                              j.title, j.body, 0)
  {
    hide Late, Reported, FiringOf, IsNext;
    FiringMembers(Threshold(configured), jobs);
    forall j | j in jobs ensures Late(Threshold(configured), j) <==> Reported(configured, j, runs(j)) {
      LateMeans(configured, j, runs(j));
    }
  }

  // ---- Through the engine --------------------------------------------------------------------

  lemma {:induction false} FiringMembers(miss: nat, jobs: seq<CronJob>)
    ensures forall a :: a in FiringOf(miss, jobs) <==> exists j :: j in jobs && Late(miss, j) && a == AlertOn(j)
  {
    hide Late, AlertOn;
    if jobs != [] {
      var n := |jobs| - 1;
      FiringMembers(miss, jobs[..n]);
      assert forall j :: j in jobs <==> j in jobs[..n] || j == jobs[n];
    }
  }

  lemma PreparedKeepsKeys(firing: seq<Alert>, cluster: string, queued: nat -> int)
    ensures KeysOf(PreparedAll(firing, cluster, queued)) == KeysOf(firing)
  {
    hide Prepared, Alert.Key;
    var all := PreparedAll(firing, cluster, queued);
    forall i | 0 <= i < |firing| ensures all[i].Key() == firing[i].Key() {
      PreparedKeepsKey(firing[i], cluster, Firing, queued(i));
    }
    forall k ensures k in KeysOf(all) <==> k in KeysOf(firing) {
      if i :| 0 <= i < |firing| && firing[i].Key() == k {
        assert all[i].Key() == k;
      }
      if i :| 0 <= i < |all| && all[i].Key() == k {
        assert firing[i].Key() == k;
      }
    }
  }

  /** After a scan is queued and reconciled, the monitor's active alerts are exactly those of the late jobs. */
  lemma ScanThroughEngine(
      cfg: Config, s: EngineState, miss: nat, jobs: seq<CronJob>, queued: nat -> int, clock: nat -> int,
      order: seq<string>, stamps: string -> int, k: string)
    requires cfg.resolution && KeysAgree(s.active)
    requires var firing := PreparedAll(FiringOf(miss, jobs), cfg.cluster, queued);
             Feasible(cfg, s, ReconcileOps(MONITOR, firing, clock, order, stamps))
    ensures var firing := PreparedAll(FiringOf(miss, jobs), cfg.cluster, queued);
            var t := Run(cfg, s, ReconcileOps(MONITOR, firing, clock, order, stamps));
            k in t.active && t.active[k].monitor == MONITOR <==>
              exists j :: j in jobs && Late(miss, j) && AlertOn(j).Key() == k
  {
    hide Late, Alert.Key, Run, Feasible, KeysAgree, FiringOf, ReconcileOps;
    var raw := FiringOf(miss, jobs);
    var firing := PreparedAll(raw, cfg.cluster, queued);
    FiringMembers(miss, jobs);
    PreparedKeepsKeys(raw, cfg.cluster, queued);
    forall i | 0 <= i < |firing| ensures firing[i].monitor == MONITOR {
      assert raw[i] in raw;
      PreparedKeepsKey(raw[i], cfg.cluster, Firing, queued(i));
    }
    ReconcileMeaning(cfg, s, MONITOR, firing, clock, order, stamps, k);
    if k in KeysOf(raw) {
      var i :| 0 <= i < |raw| && raw[i].Key() == k;
      assert raw[i] in raw;
    }
    if j :| j in jobs && Late(miss, j) && AlertOn(j).Key() == k {
      assert AlertOn(j) in raw;
      var i :| 0 <= i < |raw| && raw[i] == AlertOn(j);
      assert raw[i].Key() in KeysOf(raw);
    }
  }
}
