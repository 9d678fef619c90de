/** Stuck rollouts of Deployments and StatefulSets (internal/monitors/rollout_stuck.go). */
module Rollouts {
  import opened Options
  import opened Alerts
  import opened EngineSpec
  import opened Submitter
  import Cells
  import Timers

  const MONITOR := "rollout_stuck"
  const DEPLOYMENT := "Deployment"
  const STATEFUL_SET := "StatefulSet"
  const FIFTEEN_MINUTES := 900_000_000_000

  /** A status condition, with the clock reading the loop makes when it gets to it. */
  datatype Condition = Condition(progressing: bool, isTrue: bool, lastUpdate: int, checkedAt: int)

  datatype DepObs = DepObs(ns: string, name: string, conditions: seq<Condition>, title: string, body: string)

  datatype Memory = Memory(seen: set<string>, since: map<string, int>)

  datatype Workload = Workload(kind: string, ns: string, name: string)

  function SeenKey(w: Workload): string {
    Bar(w.kind, Bar(w.ns, w.name))
  }

  function AlertOn(w: Workload, severity: Severity, title: string, body: string): Alert {
    Alert(MONITOR, severity, Firing, "", w.ns, w.kind, w.name, "RolloutStuck", title, body, ZERO_TIME)
  }

  function AlertKey(w: Workload): string {
    AlertOn(w, Info, "", "").Key()
  }

  predicate Overdue(threshold: int, c: Condition) {
    c.progressing && !c.isTrue && c.checkedAt - c.lastUpdate >= threshold
  }

  ghost predicate Stuck(threshold: int, o: DepObs) {
    exists i :: 0 <= i < |o.conditions| && Overdue(threshold, o.conditions[i])
  }

  lemma StuckMeans(threshold: int, o: DepObs)
    ensures Stuck(threshold, o) <==>
              exists c :: c in o.conditions && c.progressing && !c.isTrue && c.checkedAt - c.lastUpdate >= threshold
  {
    if c :| c in o.conditions && c.progressing && !c.isTrue && c.checkedAt - c.lastUpdate >= threshold {
      var i :| 0 <= i < |o.conditions| && o.conditions[i] == c;
      assert Overdue(threshold, o.conditions[i]);
    }
  }

  /** One observation of a Deployment. */
  ghost function DepStep(threshold: int, m: Memory, o: DepObs): (Memory, seq<Call>) {
    var w := Workload(DEPLOYMENT, o.ns, o.name);
    var key := SeenKey(w);
    if Stuck(threshold, o) then
      (m.(seen := m.seen + {key}), [Submit(AlertOn(w, Warning, o.title, o.body))])
    else
      (Memory(m.seen - {key}, m.since - {key}),
       if key in m.seen then [Clear(AlertOn(w, Info, o.title, o.body))] else [])
  }

  /** One observation of a StatefulSet; `bad` means that its rollout is in progress. */
  function SetStep(threshold: int, m: Memory, o: Timers.Obs): (Memory, seq<Call>) {
    var w := Workload(STATEFUL_SET, o.ns, o.name);
    var key := SeenKey(w);
    if o.bad then
      var since := if key in m.since then m.since else m.since[key := o.stampedAt];
      if o.comparedAt - since[key] > threshold then
        (Memory(m.seen + {key}, since), [Submit(AlertOn(w, Warning, o.title, o.body))])
      else (m.(since := since), [])
    else
      (Memory(m.seen - {key}, m.since - {key}),
       if key in m.seen then [Clear(AlertOn(w, Info, o.title, o.body))] else [])
  }

  class RolloutStuck {
    const threshold: int
    var seen: set<string>
    var since: map<string, int>

    constructor (configured: int)
      ensures threshold == (if configured <= 0 then 15 * 60 * 1_000_000_000 else configured)
      ensures seen == {} && since == map[]
    {
      threshold := if configured <= 0 then FIFTEEN_MINUTES else configured;
      seen := {};
      since := map[];
    }

    method MarkFiring(k: string)
      modifies `seen
      ensures seen == old(seen) + {k}
    {
      seen := seen + {k};
    }

    method ClearFiring(k: string) returns (ok: bool)
      modifies this
      ensures ok == (k in old(seen)) && seen == old(seen) - {k} && since == old(since) - {k}
    {
      ok := k in seen;
      if ok {
        seen := seen - {k};
      }
      since := since - {k};
    }

    method RolloutStartedAt(k: string, now: int) returns (t: int)
      modifies `since
      ensures k in since && t == since[k]
      ensures since == if k in old(since) then old(since) else old(since)[k := now]
    {
      if k in since {
        return since[k];
      }
      since := since[k := now];
      t := now;
    }

    method RolloutHealthy(k: string)
      modifies `since
      ensures since == old(since) - {k}
    {
      since := since - {k};
    }

    method CheckDep(o: DepObs) returns (calls: seq<Call>)
      modifies this
      ensures (Memory(seen, since), calls) == DepStep(threshold, old(Memory(seen, since)), o)
      ensures (exists c :: c in calls && c.Submit?) <==>
                exists x :: x in o.conditions && x.progressing && !x.isTrue && x.checkedAt - x.lastUpdate >= threshold
      ensures forall c :: c in calls ==>
                c.a == Alert("rollout_stuck", if c.Submit? then Warning else Info, Firing, "", o.ns,
                             "Deployment", o.name, "RolloutStuck", o.title, o.body, 0)
    {
      calls := [];
      var w := Workload(DEPLOYMENT, o.ns, o.name);
      var key := SeenKey(w);
      var stuck := false;
      var i := 0;
      while i < |o.conditions| && !stuck
        invariant 0 <= i <= |o.conditions|
        invariant stuck ==> Stuck(threshold, o)
        invariant !stuck ==> forall j :: 0 <= j < i ==> !Overdue(threshold, o.conditions[j])
      {
        var c := o.conditions[i];
        i := i + 1;
        if !c.progressing || c.isTrue || c.checkedAt - c.lastUpdate < threshold {
          continue;
        }
        stuck := true;
      }
      assert stuck <==> Stuck(threshold, o);
      StuckMeans(threshold, o);
      if stuck {
        calls := [Submit(AlertOn(w, Warning, o.title, o.body))];
        assert calls[0] in calls;
        MarkFiring(key);
      } else {
        var was := ClearFiring(key);
        if was {
          calls := [Clear(AlertOn(w, Info, o.title, o.body))];
        }
      }
    }

    method CheckSet(ns: string, name: string, ready: int, replicas: int, updateRevision: string,
                    currentRevision: string, stampedAt: int, comparedAt: int, title: string, body: string)
      returns (calls: seq<Call>)
      modifies this
      ensures var inProgress := ready < replicas || (updateRevision != "" && updateRevision != currentRevision);
              (Memory(seen, since), calls) ==
                SetStep(threshold, old(Memory(seen, since)),
                        Timers.Obs(ns, name, inProgress, stampedAt, comparedAt, title, body))
      ensures forall c :: c in calls ==>
                c.a == Alert("rollout_stuck", if c.Submit? then Warning else Info, Firing, "", ns,
                             "StatefulSet", name, "RolloutStuck", title, body, 0)
    {
      calls := [];
      var w := Workload(STATEFUL_SET, ns, name);
      var key := SeenKey(w);
      var inProgress := ready < replicas || (updateRevision != "" && updateRevision != currentRevision);
      var stuck := false;
      if inProgress {
        var startedAt := RolloutStartedAt(key, stampedAt);
        stuck := comparedAt - startedAt > threshold;
      } else {
        RolloutHealthy(key);
        assert since - {key} == since;
      }
      if stuck {
        calls := [Submit(AlertOn(w, Warning, title, body))];
        MarkFiring(key);
      } else if !inProgress {
        var was := ClearFiring(key);
        if was {
          calls := [Clear(AlertOn(w, Info, title, body))];
        }
      }
    }
  }

  // ---- The monitor feeding the engine ----------------------------------------------

  datatype Happening = SawDep(d: DepObs, at: int) | SawSet(o: Timers.Obs, at: int) | Other(op: Op)

  datatype Both = Both(m: Memory, s: EngineState)

  ghost function Play(cfg: Config, restored: map<string, int>, threshold: int, h: seq<Happening>): Both {
    if h == [] then Both(Memory({}, map[]), Started(restored))
    else PlayOne(cfg, threshold, Play(cfg, restored, threshold, h[..|h| - 1]), h[|h| - 1])
  }

  ghost function PlayOne(cfg: Config, threshold: int, b: Both, e: Happening): Both {
    match e
    case SawDep(d, at) => var (m, calls) := DepStep(threshold, b.m, d); Both(m, Served(cfg, b.s, calls, at))
    case SawSet(o, at) => var (m, calls) := SetStep(threshold, b.m, o); Both(m, Served(cfg, b.s, calls, at))
    case Other(op) => b.(s := Step(cfg, b.s, op))
  }

  predicate Plain(w: Workload) {
    (w.kind == DEPLOYMENT || w.kind == STATEFUL_SET) && '|' !in w.ns && '|' !in w.name
  }

  /** The workload an observation is about. */
  function Subject(e: Happening): Workload
    requires !e.Other?
  {
    match e
    case SawDep(d, _) => Workload(DEPLOYMENT, d.ns, d.name)
    case SawSet(o, _) => Workload(STATEFUL_SET, o.ns, o.name)
  }

  ghost predicate Allowed(e: Happening) {
    if e.Other? then Foreign(e.op, MONITOR) else Plain(Subject(e))
  }

  function SetObsOf(h: seq<Happening>, w: Workload): seq<Timers.Obs> {
    if h == [] then []
    else
      var e, before := h[|h| - 1], SetObsOf(h[..|h| - 1], w);
      if e.SawSet? && Subject(e) == w then before + [e.o] else before
  }

  function DepObsOf(h: seq<Happening>, w: Workload): seq<DepObs> {
    if h == [] then []
    else
      var e, before := h[|h| - 1], DepObsOf(h[..|h| - 1], w);
      if e.SawDep? && Subject(e) == w then before + [e.d] else before
  }

  ghost predicate StuckNow(threshold: int, obs: seq<DepObs>) {
    obs != [] && Stuck(threshold, obs[|obs| - 1])
  }

  /** How often a stuck Deployment was next seen not stuck. */
  ghost function Unstuck(threshold: int, obs: seq<DepObs>): nat {
    if obs == [] then 0
    else
      var n := |obs| - 1;
      Unstuck(threshold, obs[..n]) + (if !Stuck(threshold, obs[n]) && StuckNow(threshold, obs[..n]) then 1 else 0)
  }

  /** What an ideal observer expects of the alert of `w`: is it firing, and how often was it resolved. */
  ghost function Expected(threshold: int, h: seq<Happening>, w: Workload): Lamp {
    if w.kind == STATEFUL_SET then
      Lamp(Timers.Reached(threshold + 1, SetObsOf(h, w)), Timers.EndedReached(threshold + 1, SetObsOf(h, w)))
    else Lamp(StuckNow(threshold, DepObsOf(h, w)), Unstuck(threshold, DepObsOf(h, w)))
  }

  lemma WorkloadsApart(w: Workload, v: Workload)
    requires Plain(w) && Plain(v)
    ensures SeenKey(w) == SeenKey(v) <==> w == v
    ensures AlertKey(w) == AlertKey(v) <==> w == v
    ensures Cut(AlertKey(w)).0 == MONITOR
  {
    hide Alert.Key, CutAt;
    CutOfBar(w.kind, Bar(w.ns, w.name));
    CutOfBar(v.kind, Bar(v.ns, v.name));
    CutOfBar(w.ns, w.name);
    CutOfBar(v.ns, v.name);
    KeyFaithful(AlertOn(w, Info, "", ""), AlertOn(v, Info, "", ""));
    MonitorInKey(AlertOn(w, Info, "", ""));
  }

  lemma AlertKeyOf(w: Workload, severity: Severity, title: string, body: string)
    ensures AlertOn(w, severity, title, body).Key() == AlertKey(w)
  {
  }

  /** The memory about `w`, its alert and the ideal observer agree. */
  ghost predicate InStep(b: Both, w: Workload, expected: Lamp) {
    && (SeenKey(w) in b.m.seen <==> expected.on)
    && LampOf(b.s, AlertKey(w)) == expected
  }

  ghost predicate TimerInStep(b: Both, w: Workload, obs: seq<Timers.Obs>) {
    w.kind == STATEFUL_SET ==> Timers.Tracks(b.m.since, SeenKey(w), obs)
  }

  /** The memory and calls that one observation of `v` leads to. */
  ghost function Reaction(threshold: int, m: Memory, e: Happening): (Memory, seq<Call>)
    requires !e.Other?
  {
    match e
    case SawDep(d, _) => DepStep(threshold, m, d)
    case SawSet(o, _) => SetStep(threshold, m, o)
  }

  lemma ReactionIsLocal(threshold: int, m: Memory, e: Happening)
    requires !e.Other?
    ensures var (m', calls) := Reaction(threshold, m, e);
            var v := Subject(e);
            && |calls| <= 1
            && (calls != [] ==> calls[0].a.Key() == AlertKey(v) && calls[0].a.monitor == MONITOR)
            && (forall x :: x != SeenKey(v) ==>
                  (x in m'.seen <==> x in m.seen) && Lookup(m'.since, x) == Lookup(m.since, x))
            && (calls == [] ==> (SeenKey(v) in m'.seen <==> SeenKey(v) in m.seen))
            && (calls != [] ==> (SeenKey(v) in m'.seen <==> calls[0].Submit?))
            && (calls != [] && calls[0].Clear? ==> SeenKey(v) in m.seen)
  {
    hide Alert.Key;
    var v := Subject(e);
    if e.SawDep? {
      AlertKeyOf(v, Warning, e.d.title, e.d.body);
      AlertKeyOf(v, Info, e.d.title, e.d.body);
    } else {
      AlertKeyOf(v, Warning, e.o.title, e.o.body);
      AlertKeyOf(v, Info, e.o.title, e.o.body);
    }
  }

  /** The engine sees a reaction as the ideal lamp does. */
  lemma ReactionShows(cfg: Config, threshold: int, b: Both, e: Happening, w: Workload)
    requires cfg.resolution && !e.Other? && Plain(w) && Plain(Subject(e)) && Tidy(b.s)
    ensures var (m', calls) := Reaction(threshold, b.m, e);
            var t := PlayOne(cfg, threshold, b, e);
            && t.m == m' && Tidy(t.s)
            && LampOf(t.s, AlertKey(w)) ==
                 if w != Subject(e) || calls == [] then LampOf(b.s, AlertKey(w))
                 else if calls[0].Submit? then Lit(LampOf(b.s, AlertKey(w))) else Unlit(LampOf(b.s, AlertKey(w)))
  {
    hide Alert.Key, AlertKey, SeenKey, DepStep, SetStep, Served, Tidy, LampOf;
    var (m', calls) := Reaction(threshold, b.m, e);
    var at := e.at;
    ReactionIsLocal(threshold, b.m, e);
    WorkloadsApart(w, Subject(e));
    ServedOne(cfg, b.s, [], Submit(NO_HINT), at);
    if calls != [] {
      assert calls == [] + [calls[0]];
      ServedOne(cfg, b.s, [], calls[0], at);
      CallShows(cfg, b.s, calls[0], at, AlertKey(w));
    }
  }

  /** The StatefulSet timer against its own observations. */
  lemma SetObservation(threshold: int, m: Memory, obs: seq<Timers.Obs>, o: Timers.Obs)
    requires var w := Workload(STATEFUL_SET, o.ns, o.name);
             && Timers.Tracks(m.since, SeenKey(w), obs)
             && (SeenKey(w) in m.seen <==> Timers.Reached(threshold + 1, obs))
    ensures var all, key := obs + [o], SeenKey(Workload(STATEFUL_SET, o.ns, o.name));
            var (m', calls) := SetStep(threshold, m, o);
            && Timers.Tracks(m'.since, key, all)
            && (key in m'.seen <==> Timers.Reached(threshold + 1, all))
            && (calls != [] && calls[0].Submit? <==> o.bad && o.comparedAt - m'.since[key] > threshold)
            && (calls != [] && calls[0].Clear? <==> !o.bad && Timers.Reached(threshold + 1, obs))
            && (calls == [] ==> (Timers.Reached(threshold + 1, all) <==> Timers.Reached(threshold + 1, obs)))
            && (calls != [] && calls[0].Submit? ==> Timers.Reached(threshold + 1, all))
            && (!o.bad ==> !Timers.Reached(threshold + 1, all))
  {
    hide Timers.Reached, SeenKey, AlertOn;
    var all, n := obs + [o], |obs|;
    assert all[..n] == obs && all[n] == o;
    Timers.ReachedNext(threshold + 1, all);
    Timers.ReachedMeans(threshold + 1, obs);
  }

  lemma ExpectedNext(threshold: int, h: seq<Happening>, w: Workload)
    requires h != []
    ensures var e, front := h[|h| - 1], h[..|h| - 1];
            && (e.Other? || Subject(e) != w ==>
                  Expected(threshold, h, w) == Expected(threshold, front, w) && SetObsOf(h, w) == SetObsOf(front, w))
            && (!e.Other? && Subject(e) == w && e.SawDep? ==>
                  Expected(threshold, h, w) ==
                    if Stuck(threshold, e.d) then Lit(Expected(threshold, front, w))
                    else Unlit(Expected(threshold, front, w)))
            && (!e.Other? && Subject(e) == w && e.SawSet? ==>
                  SetObsOf(h, w) == SetObsOf(front, w) + [e.o])
  {
    hide Timers.Reached, Timers.EndedReached, Stuck;
    var e, front := h[|h| - 1], h[..|h| - 1];
    if e.SawDep? && Subject(e) == w {
      var before, now := DepObsOf(front, w), DepObsOf(h, w);
      assert now[..|before|] == before;
    }
  }

  /** An observation of another workload changes nothing about `w`. */
  lemma OtherSubject(cfg: Config, threshold: int, b: Both, h: seq<Happening>, w: Workload)
    requires cfg.resolution && Plain(w) && h != [] && !h[|h| - 1].Other? && Plain(Subject(h[|h| - 1]))
    requires Subject(h[|h| - 1]) != w
    requires Tidy(b.s) && InStep(b, w, Expected(threshold, h[..|h| - 1], w))
    requires TimerInStep(b, w, SetObsOf(h[..|h| - 1], w))
    ensures var t := PlayOne(cfg, threshold, b, h[|h| - 1]);
            Tidy(t.s) && InStep(t, w, Expected(threshold, h, w)) && TimerInStep(t, w, SetObsOf(h, w))
  {
    hide Expected, SeenKey, AlertKey, Reaction, PlayOne, LampOf, Tidy, SetObsOf;
    var e := h[|h| - 1];
    ReactionIsLocal(threshold, b.m, e);
    ReactionShows(cfg, threshold, b, e, w);
    WorkloadsApart(w, Subject(e));
    ExpectedNext(threshold, h, w);
    assert Lookup(PlayOne(cfg, threshold, b, e).m.since, SeenKey(w)) == Lookup(b.m.since, SeenKey(w));
  }

  lemma OwnDeployment(cfg: Config, threshold: int, b: Both, h: seq<Happening>, w: Workload)
    requires cfg.resolution && Plain(w) && h != [] && h[|h| - 1].SawDep? && Subject(h[|h| - 1]) == w
    requires Tidy(b.s) && InStep(b, w, Expected(threshold, h[..|h| - 1], w))
    ensures var t := PlayOne(cfg, threshold, b, h[|h| - 1]);
            Tidy(t.s) && InStep(t, w, Expected(threshold, h, w))
  {
    hide Expected, SeenKey, AlertKey, AlertOn, Stuck, PlayOne, LampOf, Tidy;
    ReactionShows(cfg, threshold, b, h[|h| - 1], w);
    ExpectedNext(threshold, h, w);
  }

  lemma ExpectedOfSet(threshold: int, h: seq<Happening>, w: Workload)
    requires w.kind == STATEFUL_SET && h != [] && h[|h| - 1].SawSet? && Subject(h[|h| - 1]) == w
    ensures var obs, o := SetObsOf(h[..|h| - 1], w), h[|h| - 1].o;
            var was := Timers.Reached(threshold + 1, obs);
            && SetObsOf(h, w) == obs + [o]
            && Expected(threshold, h[..|h| - 1], w) == Lamp(was, Timers.EndedReached(threshold + 1, obs))
            && Expected(threshold, h, w) ==
                 Lamp(Timers.Reached(threshold + 1, obs + [o]),
                      Timers.EndedReached(threshold + 1, obs) + (if !o.bad && was then 1 else 0))
  {
    hide Timers.Reached;
    var obs, o := SetObsOf(h[..|h| - 1], w), h[|h| - 1].o;
    assert (obs + [o])[..|obs|] == obs;
  }

  lemma OwnSet(cfg: Config, threshold: int, b: Both, h: seq<Happening>, w: Workload)
    requires cfg.resolution && Plain(w) && h != [] && h[|h| - 1].SawSet? && Subject(h[|h| - 1]) == w
    requires Tidy(b.s) && InStep(b, w, Expected(threshold, h[..|h| - 1], w))
    requires TimerInStep(b, w, SetObsOf(h[..|h| - 1], w))
    ensures var t := PlayOne(cfg, threshold, b, h[|h| - 1]);
            Tidy(t.s) && InStep(t, w, Expected(threshold, h, w)) && TimerInStep(t, w, SetObsOf(h, w))
  {
    hide SeenKey, AlertKey, AlertOn, PlayOne, LampOf, Tidy, Timers.Reached, Timers.EndedReached, SetObsOf, SetStep,
         Timers.Tracks, Expected;
    var e, obs := h[|h| - 1], SetObsOf(h[..|h| - 1], w);
    ReactionShows(cfg, threshold, b, e, w);
    ExpectedOfSet(threshold, h, w);
    SetObservation(threshold, b.m, obs, e.o);
    var t := PlayOne(cfg, threshold, b, e);
    var (m', calls) := SetStep(threshold, b.m, e.o);
    assert t.m == m';
    assert SeenKey(w) in t.m.seen <==> Expected(threshold, h, w).on;
    assert calls == [] ==> LampOf(t.s, AlertKey(w)) == Expected(threshold, h, w);
    assert calls != [] && calls[0].Submit? ==> LampOf(t.s, AlertKey(w)) == Expected(threshold, h, w);
    assert calls != [] && calls[0].Clear? ==> LampOf(t.s, AlertKey(w)) == Expected(threshold, h, w);
  }

  lemma OtherTraffic(cfg: Config, threshold: int, b: Both, h: seq<Happening>, w: Workload)
    requires cfg.resolution && Plain(w) && h != [] && h[|h| - 1].Other? && Foreign(h[|h| - 1].op, MONITOR)
    requires Tidy(b.s) && InStep(b, w, Expected(threshold, h[..|h| - 1], w))
    requires TimerInStep(b, w, SetObsOf(h[..|h| - 1], w))
    ensures var t := PlayOne(cfg, threshold, b, h[|h| - 1]);
            Tidy(t.s) && InStep(t, w, Expected(threshold, h, w)) && TimerInStep(t, w, SetObsOf(h, w))
  {
    hide Expected, SeenKey, AlertKey, LampOf, Tidy, SetObsOf, Step;
    WorkloadsApart(w, w);
    ForeignPasses(cfg, b.s, h[|h| - 1].op, MONITOR, AlertKey(w));
    ExpectedNext(threshold, h, w);
  }

  lemma {:induction false} AlwaysInStep(
      cfg: Config, restored: map<string, int>, threshold: int, h: seq<Happening>, w: Workload)
    requires cfg.resolution && Plain(w)
    requires forall i :: 0 <= i < |h| ==> Allowed(h[i])
    ensures var b := Play(cfg, restored, threshold, h);
            Tidy(b.s) && InStep(b, w, Expected(threshold, h, w)) && TimerInStep(b, w, SetObsOf(h, w))
  {
    hide Expected, InStep, TimerInStep, PlayOne, Foreign, Tidy;
    if h == [] {
      NothingInStep(restored, threshold, w);
    } else {
      var n := |h| - 1;
      var b := Play(cfg, restored, threshold, h[..n]);
      AlwaysInStep(cfg, restored, threshold, h[..n], w);
      assert Allowed(h[n]);
      if h[n].Other? {
        OtherTraffic(cfg, threshold, b, h, w);
      } else if Subject(h[n]) != w {
        OtherSubject(cfg, threshold, b, h, w);
      } else if h[n].SawSet? {
        OwnSet(cfg, threshold, b, h, w);
      } else {
        OwnDeployment(cfg, threshold, b, h, w);
        NoTimer(PlayOne(cfg, threshold, b, h[n]), w, SetObsOf(h, w));
      }
    }
  }

  lemma NoTimer(b: Both, w: Workload, obs: seq<Timers.Obs>)
    requires w.kind == DEPLOYMENT
    ensures TimerInStep(b, w, obs)
  {
  }

  lemma NothingInStep(restored: map<string, int>, threshold: int, w: Workload)
    ensures var b := Both(Memory({}, map[]), Started(restored));
            Tidy(b.s) && InStep(b, w, Expected(threshold, [], w)) && TimerInStep(b, w, [])
  {
    Timers.ReachedMeans(threshold + 1, []);
  }

  /** Every alert of this monitor belongs to some workload. */
  ghost predicate OnlyWorkloads(s: EngineState) {
    forall k :: k in s.active && Cut(k).0 == MONITOR ==> exists w :: Plain(w) && k == AlertKey(w)
  }

  lemma StepOnlyWorkloads(cfg: Config, s: EngineState, op: Op)
    requires OnlyWorkloads(s)
    requires op.Fire? && Cut(op.a.Key()).0 == MONITOR ==> exists w :: Plain(w) && op.a.Key() == AlertKey(w)
    ensures OnlyWorkloads(Step(cfg, s, op))
  {
    hide Step, Alert.Key, CutAt, AlertKey;
    Cells.StepShrinks(cfg, s, op);
    var t := Step(cfg, s, op);
    forall k | k in t.active && Cut(k).0 == MONITOR ensures exists w :: Plain(w) && k == AlertKey(w) {
      assert k in t.active.Keys;
      if op.Fire? && k == op.a.Key() {
      } else {
        assert k in s.active;
      }
    }
  }

  lemma {:induction false} AlwaysOnlyWorkloads(
      cfg: Config, restored: map<string, int>, threshold: int, h: seq<Happening>)
    requires forall i :: 0 <= i < |h| ==> Allowed(h[i])
    ensures OnlyWorkloads(Play(cfg, restored, threshold, h).s)
  {
    hide OnlyWorkloads, Step, Alert.Key, CutAt, AlertKey, Reaction, AlertOn;
    if h == [] {
      assert OnlyWorkloads(Started(restored)) by { NothingActive(restored); }
    } else {
      var n := |h| - 1;
      var b, e := Play(cfg, restored, threshold, h[..n]), h[n];
      AlwaysOnlyWorkloads(cfg, restored, threshold, h[..n]);
      assert Allowed(e);
      if e.Other? {
        if e.op.Fire? { MonitorInKey(e.op.a); }
        StepOnlyWorkloads(cfg, b.s, e.op);
      } else {
        ObservationOnlyWorkloads(cfg, threshold, b, e);
      }
    }
  }

  lemma NothingActive(restored: map<string, int>)
    ensures OnlyWorkloads(Started(restored))
  {
  }

  lemma ObservationOnlyWorkloads(cfg: Config, threshold: int, b: Both, e: Happening)
    requires !e.Other? && Plain(Subject(e)) && OnlyWorkloads(b.s)
    ensures OnlyWorkloads(PlayOne(cfg, threshold, b, e).s)
  {
    hide OnlyWorkloads, Step, Alert.Key, CutAt, AlertKey, DepStep, SetStep, Served, SeenKey;
    ReactionIsLocal(threshold, b.m, e);
    var calls, at := Reaction(threshold, b.m, e).1, e.at;
    ServedOne(cfg, b.s, [], Submit(NO_HINT), at);
    if calls != [] {
      assert calls == [] + [calls[0]];
      ServedOne(cfg, b.s, [], calls[0], at);
      PreparedKeepsKey(calls[0].a, cfg.cluster, if calls[0].Submit? then Firing else Resolved, at);
      StepOnlyWorkloads(cfg, b.s, OpOf(cfg, calls[0], at));
    }
  }

  /** After every observation the engine's alerts of this monitor are exactly the image of `seen`. */
  lemma {:induction false} SeenIsActive(
      cfg: Config, restored: map<string, int>, threshold: int, h: seq<Happening>, k: string)
    requires cfg.resolution && forall i :: 0 <= i < |h| ==> Allowed(h[i])
    ensures var b := Play(cfg, restored, threshold, h);
            k in b.s.active && b.s.active[k].monitor == MONITOR <==>
              exists w :: Plain(w) && SeenKey(w) in b.m.seen && k == AlertKey(w)
  {
    hide Play, Expected, AlertKey, SeenKey, Tidy, Cut, TimerInStep, Allowed;
    var b := Play(cfg, restored, threshold, h);
    AlwaysOnlyWorkloads(cfg, restored, threshold, h);
    var probe := Workload(DEPLOYMENT, "", "");
    AlwaysInStep(cfg, restored, threshold, h, probe);
    TidyMeans(b.s, k);
    if k in b.s.active && b.s.active[k].monitor == MONITOR {
      var w :| Plain(w) && k == AlertKey(w);
      AlwaysInStep(cfg, restored, threshold, h, w);
    }
    if w :| Plain(w) && SeenKey(w) in b.m.seen && k == AlertKey(w) {
      AlwaysInStep(cfg, restored, threshold, h, w);
      WorkloadsApart(w, w);
    }
  }

  /**
    The timer remembers when the current in-progress run of a StatefulSet began; through the engine its
    alert is active exactly when that run has an observation strictly more than the threshold past
    its first, and one resolved message ends each run that got there and no other.
   */
  lemma {:induction false} StatefulSetThroughEngine(
      cfg: Config, restored: map<string, int>, threshold: int, h: seq<Happening>, ns: string, name: string)
    requires cfg.resolution && '|' !in ns && '|' !in name && forall i :: 0 <= i < |h| ==> Allowed(h[i])
    ensures var w, b := Workload(STATEFUL_SET, ns, name), Play(cfg, restored, threshold, h);
            var obs := SetObsOf(h, w);
            && Timers.Tracks(b.m.since, SeenKey(w), obs)
            && (AlertKey(w) in b.s.active <==> Timers.Reached(threshold + 1, obs))
            && ResolvedCount(b.s.sent, AlertKey(w)) == Timers.EndedReached(threshold + 1, obs)
  {
    AlwaysInStep(cfg, restored, threshold, h, Workload(STATEFUL_SET, ns, name));
  }

  /** A Deployment's alert is active exactly while it was last seen stuck, with one resolved message per recovery. */
  lemma DeploymentThroughEngine(
      cfg: Config, restored: map<string, int>, threshold: int, h: seq<Happening>, ns: string, name: string)
    requires cfg.resolution && '|' !in ns && '|' !in name && forall i :: 0 <= i < |h| ==> Allowed(h[i])
    ensures var w, b := Workload(DEPLOYMENT, ns, name), Play(cfg, restored, threshold, h);
            var obs := DepObsOf(h, w);
            && (AlertKey(w) in b.s.active <==>
                  obs != [] && exists c :: c in obs[|obs| - 1].conditions && c.progressing && !c.isTrue
                                           && c.checkedAt - c.lastUpdate >= threshold)
            && ResolvedCount(b.s.sent, AlertKey(w)) == Unstuck(threshold, obs)
  {
    var w := Workload(DEPLOYMENT, ns, name);
    AlwaysInStep(cfg, restored, threshold, h, w);
    var obs := DepObsOf(h, w);
    if obs != [] {
      StuckMeans(threshold, obs[|obs| - 1]);
    }
  }
}
