/**
  The two episode timers (internal/monitors/hpa_at_max.go and daemonset_unscheduled.go), and what
  users see of them through the engine.
 */
module Timers {
  import opened Options
  import opened Alerts
  import opened EngineSpec
  import opened Submitter

  /** An object as one observation shows it; the handler may read its clock twice. */
  datatype Obs = Obs(ns: string, name: string, bad: bool, stampedAt: int, comparedAt: int, title: string, body: string)

  datatype Kind = Kind(monitor: string, objectKind: string, reason: string)

  const HPA := Kind("hpa_at_max", "HorizontalPodAutoscaler", "AtMaxReplicas")
  const DAEMON_SET := Kind("daemonset_unscheduled", "DaemonSet", "Unscheduled")

  function ObjectKey(ns: string, name: string): string {
    ns + "/" + name
  }

  function AlertOn(kind: Kind, severity: Severity, ns: string, name: string, title: string, body: string): Alert {
    Alert(kind.monitor, severity, Firing, "", ns, kind.objectKind, name, kind.reason, title, body, ZERO_TIME)
  }

  function AlertKey(kind: Kind, ns: string, name: string): string {
    AlertOn(kind, Info, ns, name, "", "").Key()
  }

  /** One observation: the new `since` map and the calls made. */
  function TimerStep(kind: Kind, threshold: int, since: map<string, int>, o: Obs): (map<string, int>, seq<Call>) {
    var key := ObjectKey(o.ns, o.name);
    if o.bad then
      var stamped := if key in since then since else since[key := o.stampedAt];
      (stamped,
       if o.comparedAt - stamped[key] >= threshold
       then [Submit(AlertOn(kind, Warning, o.ns, o.name, o.title, o.body))] else [])
    else if key in since then
      (since - {key}, [Clear(AlertOn(kind, Info, o.ns, o.name, o.title, o.body))])
    else (since, [])
  }

  class HPAAtMax {
    const duration: int
    var since: map<string, int>

    constructor (duration: int)
      ensures this.duration == duration && since == map[]
    {
      this.duration := duration;
      since := map[];
    }

    method Handle(ns: string, name: string, current: int, max: int,
                  stampedAt: int, comparedAt: int, title: string, body: string) returns (calls: seq<Call>)
      modifies this
      ensures (since, calls) ==
                TimerStep(HPA, duration, old(since),
                          Obs(ns, name, current == max && max > 0, stampedAt, comparedAt, title, body))
      ensures forall c :: c in calls ==>
                c.a == Alert("hpa_at_max", if c.Submit? then Warning else Info, Firing, "", ns,
                             "HorizontalPodAutoscaler", name, "AtMaxReplicas", title, body, 0)
    {
      calls := [];
      var key := ns + "/" + name;
      if current == max && max > 0 {
        if key !in since {
          since := since[key := stampedAt];
        }
        if comparedAt - since[key] >= duration {
          calls := [Submit(AlertOn(HPA, Warning, ns, name, title, body))];
        }
      } else {
        if key in since {
          since := since - {key};
          calls := [Clear(AlertOn(HPA, Info, ns, name, title, body))];
        }
      }
    }
  }

  class DaemonSetUnscheduled {
    const threshold: int
    var since: map<string, int>

    constructor (threshold: int)
      ensures this.threshold == threshold && since == map[]
    {
      this.threshold := threshold;
      since := map[];
    }

    method Handle(ns: string, name: string, desired: int, ready: int,
                  stampedAt: int, comparedAt: int, title: string, body: string) returns (calls: seq<Call>)
      modifies this
      ensures (since, calls) ==
                TimerStep(DAEMON_SET, threshold, old(since),
                          Obs(ns, name, desired != ready, stampedAt, comparedAt, title, body))
      ensures forall c :: c in calls ==>
                c.a == Alert("daemonset_unscheduled", if c.Submit? then Warning else Info, Firing, "", ns,
                             "DaemonSet", name, "Unscheduled", title, body, 0)
    {
      calls := [];
      var key := ns + "/" + name;
      if desired != ready {
        if key !in since {
          since := since[key := stampedAt];
        }
        if comparedAt - since[key] >= threshold {
          calls := [Submit(AlertOn(DAEMON_SET, Warning, ns, name, title, body))];
        }
      } else {
        if key in since {
          since := since - {key};
          calls := [Clear(AlertOn(DAEMON_SET, Info, ns, name, title, body))];
        }
      }
    }
  }

  // ---- Episodes, read off the observations of one object ----------------------

  /** The current unbroken bad episode begins at observation `i`. */
  ghost predicate StartsAt(obs: seq<Obs>, i: nat) {
    && i < |obs| && (forall j :: i <= j < |obs| ==> obs[j].bad)
    && (i == 0 || !obs[i - 1].bad)
  }

  /** Some observation of the current episode came at least `threshold` after its first one. */
  ghost predicate Reached(threshold: int, obs: seq<Obs>) {
    exists i: nat, j: nat :: StartsAt(obs, i) && i <= j < |obs| && obs[j].comparedAt - obs[i].stampedAt >= threshold
  }

  /** How many episodes ended after they had reached the threshold. */
  ghost function EndedReached(threshold: int, obs: seq<Obs>): nat {
    if obs == [] then 0
    else
      var n := |obs| - 1;
      EndedReached(threshold, obs[..n]) + (if !obs[n].bad && Reached(threshold, obs[..n]) then 1 else 0)
  }

  /** The index at which the current episode begins, computed as observations arrive. */
  function Start(obs: seq<Obs>): (i: Option<nat>)
    ensures i.Some? ==> i.value < |obs|
    ensures i.Some? <==> obs != [] && obs[|obs| - 1].bad
  {
    if obs == [] || !obs[|obs| - 1].bad then None
    else
      match Start(obs[..|obs| - 1])
      case Some(i) => Some(i)
      case None => Some(|obs| - 1)
  }

  lemma EpisodeGrows(obs: seq<Obs>, i: nat)
    requires obs != []
    ensures var n := |obs| - 1;
            StartsAt(obs, i) <==> obs[n].bad && (StartsAt(obs[..n], i) || (i == n && !(n > 0 && obs[n - 1].bad)))
  {
    var n := |obs| - 1;
    assert forall j :: 0 <= j < n ==> obs[..n][j] == obs[j];
    if StartsAt(obs, i) {
      assert obs[n].bad;
    }
  }

  lemma {:induction false} StartMeans(obs: seq<Obs>, i: nat)
    ensures StartsAt(obs, i) <==> Start(obs) == Some(i)
  {
    if obs != [] {
      var n := |obs| - 1;
      StartMeans(obs[..n], i);
      EpisodeGrows(obs, i);
    }
  }

  /** Some observation from `i` on came at least `threshold` after observation `i`. */
  ghost predicate Late(threshold: int, obs: seq<Obs>, i: nat)
    requires i < |obs|
  {
    exists j: nat :: i <= j < |obs| && obs[j].comparedAt - obs[i].stampedAt >= threshold
  }

  lemma ReachedMeans(threshold: int, obs: seq<Obs>)
    ensures Reached(threshold, obs) <==> Start(obs).Some? && Late(threshold, obs, Start(obs).value)
  {
    hide StartsAt, Start;
    if Reached(threshold, obs) {
      var i: nat, j: nat :| StartsAt(obs, i) && i <= j < |obs| && obs[j].comparedAt - obs[i].stampedAt >= threshold;
      StartMeans(obs, i);
    }
    if Start(obs).Some? && Late(threshold, obs, Start(obs).value) {
      StartMeans(obs, Start(obs).value);
    }
  }

  lemma LateNext(threshold: int, obs: seq<Obs>, i: nat)
    requires i < |obs|
    ensures var n := |obs| - 1;
            Late(threshold, obs, i) <==>
              (i < n && Late(threshold, obs[..n], i)) || obs[n].comparedAt - obs[i].stampedAt >= threshold
  {
    var n := |obs| - 1;
    if Late(threshold, obs, i) {
      var j: nat :| i <= j < |obs| && obs[j].comparedAt - obs[i].stampedAt >= threshold;
      if j < n {
        assert obs[..n][j].comparedAt - obs[..n][i].stampedAt >= threshold;
      }
    }
    if i < n && Late(threshold, obs[..n], i) {
      var j: nat :| i <= j < n && obs[..n][j].comparedAt - obs[..n][i].stampedAt >= threshold;
      assert obs[j].comparedAt - obs[i].stampedAt >= threshold;
    }
  }

  /** What one more observation does to the episode. */
  lemma ReachedNext(threshold: int, obs: seq<Obs>)
    requires obs != []
    ensures var n := |obs| - 1;
            Reached(threshold, obs) <==>
              && obs[n].bad
              && (Reached(threshold, obs[..n]) || obs[n].comparedAt - obs[Start(obs).value].stampedAt >= threshold)
  {
    hide Reached, Late, StartsAt;
    var n := |obs| - 1;
    ReachedMeans(threshold, obs);
    ReachedMeans(threshold, obs[..n]);
    if obs[n].bad {
      LateNext(threshold, obs, Start(obs).value);
    }
  }

  // ---- The monitor feeding the engine --------------------------------------------

  /** An observation, handled by the engine at reading `at`, or other traffic. */
  datatype Happening = Seen(o: Obs, at: int) | Other(op: Op)

  datatype Both = Both(since: map<string, int>, s: EngineState)

  function Play(cfg: Config, restored: map<string, int>, kind: Kind, threshold: int, h: seq<Happening>): Both {
    if h == [] then Both(map[], Started(restored))
    else PlayOne(cfg, kind, threshold, Play(cfg, restored, kind, threshold, h[..|h| - 1]), h[|h| - 1])
  }

  function PlayOne(cfg: Config, kind: Kind, threshold: int, b: Both, e: Happening): Both {
    match e
    case Seen(o, at) =>
      var (since, calls) := TimerStep(kind, threshold, b.since, o);
      Both(since, Served(cfg, b.s, calls, at))
    case Other(op) => b.(s := Step(cfg, b.s, op))
  }

  function ObsOf(h: seq<Happening>, ns: string, name: string): seq<Obs> {
    if h == [] then []
    else
      var e, before := h[|h| - 1], ObsOf(h[..|h| - 1], ns, name);
      if e.Seen? && e.o.ns == ns && e.o.name == name then before + [e.o] else before
  }

  /** Kubernetes names hold neither '/' nor '|'. */
  predicate Plain(ns: string, name: string) {
    '/' !in ns && '|' !in ns && '|' !in name
  }

  ghost predicate Allowed(kind: Kind, e: Happening) {
    match e
    case Seen(o, _) => Plain(o.ns, o.name)
    case Other(op) => Foreign(op, kind.monitor)
  }

  lemma AlertsApart(a: Alert, b: Alert)
    requires a.monitor == b.monitor && a.objectKind == b.objectKind && a.reason == b.reason
    requires a.BarFree() && b.BarFree()
    ensures a.Key() == b.Key() <==> a.namespace == b.namespace && a.objectName == b.objectName
    ensures Cut(a.Key()).0 == a.monitor
  {
    hide Alert.Key;
    KeyFaithful(a, b);
    MonitorInKey(a);
  }

  /** Different objects have different timer entries and different alerts. */
  lemma ObjectsApart(kind: Kind, ns: string, name: string, ns': string, name': string)
    requires kind == HPA || kind == DAEMON_SET
    requires Plain(ns, name) && Plain(ns', name')
    ensures ObjectKey(ns, name) == ObjectKey(ns', name') <==> ns == ns' && name == name'
    ensures AlertKey(kind, ns, name) == AlertKey(kind, ns', name') <==> ns == ns' && name == name'
    ensures Cut(AlertKey(kind, ns, name)).0 == kind.monitor && '|' !in kind.monitor
  {
    hide Alert.Key, CutAt;
    CutAtFirst(ns, '/', name);
    CutAtFirst(ns', '/', name');
    AlertsApart(AlertOn(kind, Info, ns, name, "", ""), AlertOn(kind, Info, ns', name', "", ""));
  }

  lemma AlertKeyOf(kind: Kind, severity: Severity, ns: string, name: string, title: string, body: string)
    ensures AlertOn(kind, severity, ns, name, title, body).Key() == AlertKey(kind, ns, name)
  {
  }

  /** The entry of the timer is the first observation of the current episode. */
  ghost predicate Tracks(since: map<string, int>, key: string, obs: seq<Obs>) {
    Lookup(since, key) == match Start(obs) case Some(i) => Some(obs[i].stampedAt) case None => None
  }

  /** One observation of the object itself. */
  lemma OwnObservation(kind: Kind, threshold: int, since: map<string, int>, obs: seq<Obs>, o: Obs)
    requires Tracks(since, ObjectKey(o.ns, o.name), obs)
    ensures var all := obs + [o];
            var (since', calls) := TimerStep(kind, threshold, since, o);
            && Tracks(since', ObjectKey(o.ns, o.name), all)
            && (if calls == [] then Reached(threshold, all) <==> Reached(threshold, obs)
                else Reached(threshold, all) <==> calls[0].Submit?)
            && (calls != [] && calls[0].Submit? ==> o.bad)
            && (calls == [] && !o.bad ==> !Reached(threshold, obs))
            && (calls != [] && calls[0].Clear? ==> !o.bad)
  {
    hide Reached, ObjectKey, AlertOn;
    var all, n := obs + [o], |obs|;
    assert all[..n] == obs && all[n] == o;
    ReachedNext(threshold, all);
    ReachedMeans(threshold, obs);
  }

  /** What the theorem below says about one object, with the timer's own bookkeeping. */
  ghost predicate InStep(kind: Kind, threshold: int, b: Both, obs: seq<Obs>, ns: string, name: string) {
    && Tidy(b.s) && Tracks(b.since, ObjectKey(ns, name), obs)
    && LampOf(b.s, AlertKey(kind, ns, name)) == Lamp(Reached(threshold, obs), EndedReached(threshold, obs))
  }

  lemma TimerCalls(kind: Kind, threshold: int, since: map<string, int>, o: Obs)
    ensures var (since', calls) := TimerStep(kind, threshold, since, o);
            && |calls| <= 1
            && (calls != [] ==> calls[0].a.Key() == AlertKey(kind, o.ns, o.name) && calls[0].a.monitor == kind.monitor)
            && (forall x :: x != ObjectKey(o.ns, o.name) ==> Lookup(since', x) == Lookup(since, x))
  {
    hide Alert.Key;
    AlertKeyOf(kind, Warning, o.ns, o.name, o.title, o.body);
    AlertKeyOf(kind, Info, o.ns, o.name, o.title, o.body);
  }

  lemma ObservationKeepsStep(
      cfg: Config, kind: Kind, threshold: int, b: Both, obs: seq<Obs>, o: Obs, at: int, ns: string, name: string)
    requires cfg.resolution && (kind == HPA || kind == DAEMON_SET) && Plain(ns, name) && Plain(o.ns, o.name)
    requires InStep(kind, threshold, b, obs, ns, name)
    ensures InStep(kind, threshold, PlayOne(cfg, kind, threshold, b, Seen(o, at)),
                   if o.ns == ns && o.name == name then obs + [o] else obs, ns, name)
  {
    hide Alert.Key, AlertKey, ObjectKey, Reached, StartsAt, TimerStep, Served, Tidy;
    var (since', calls) := TimerStep(kind, threshold, b.since, o);
    var k := AlertKey(kind, ns, name);
    var t := Served(cfg, b.s, calls, at);
    TimerCalls(kind, threshold, b.since, o);
    ObjectsApart(kind, ns, name, o.ns, o.name);
    ServedOne(cfg, b.s, [], Submit(NO_HINT), at);
    if calls != [] {
      assert calls == [] + [calls[0]];
      ServedOne(cfg, b.s, [], calls[0], at);
      CallShows(cfg, b.s, calls[0], at, k);
    }
    if o.ns == ns && o.name == name {
      OwnObservation(kind, threshold, b.since, obs, o);
      assert (obs + [o])[..|obs|] == obs;
      if o.bad && calls != [] { assert Reached(threshold, obs + [o]); }
    } else {
      assert Lookup(since', ObjectKey(ns, name)) == Lookup(b.since, ObjectKey(ns, name));
    }
  }

  lemma {:induction false} AlwaysInStep(
      cfg: Config, restored: map<string, int>, kind: Kind, threshold: int, h: seq<Happening>, ns: string,
      name: string)
    requires cfg.resolution && (kind == HPA || kind == DAEMON_SET) && Plain(ns, name)
    requires forall i :: 0 <= i < |h| ==> Allowed(kind, h[i])
    ensures InStep(kind, threshold, Play(cfg, restored, kind, threshold, h), ObsOf(h, ns, name), ns, name)
  {
    hide InStep, PlayOne, Foreign;
    if h == [] {
      NothingInStep(restored, kind, threshold, ns, name);
    } else {
      var n := |h| - 1;
      var b, obs := Play(cfg, restored, kind, threshold, h[..n]), ObsOf(h[..n], ns, name);
      AlwaysInStep(cfg, restored, kind, threshold, h[..n], ns, name);
      assert Allowed(kind, h[n]);
      match h[n]
      case Seen(o, at) => ObservationKeepsStep(cfg, kind, threshold, b, obs, o, at, ns, name);
      case Other(op) => OtherKeepsStep(cfg, kind, threshold, b, obs, op, ns, name);
    }
  }

  lemma NothingInStep(restored: map<string, int>, kind: Kind, threshold: int, ns: string, name: string)
    ensures InStep(kind, threshold, Both(map[], Started(restored)), [], ns, name)
  {
    ReachedMeans(threshold, []);
  }

  lemma OtherKeepsStep(
      cfg: Config, kind: Kind, threshold: int, b: Both, obs: seq<Obs>, op: Op, ns: string, name: string)
    requires cfg.resolution && (kind == HPA || kind == DAEMON_SET) && Plain(ns, name)
    requires InStep(kind, threshold, b, obs, ns, name) && Foreign(op, kind.monitor)
    ensures InStep(kind, threshold, PlayOne(cfg, kind, threshold, b, Other(op)), obs, ns, name)
  {
    hide Alert.Key, AlertKey, Reached, Tidy, LampOf, Step;
    ObjectsApart(kind, ns, name, ns, name);
    ForeignPasses(cfg, b.s, op, kind.monitor, AlertKey(kind, ns, name));
  }

  /**
    Through the engine, the alert of an object is active exactly when its current bad episode has
    reached the threshold, and one resolved message went out for each ended episode that did; none
    for a shorter one, although the timer resolves those too. Other monitors' traffic may interleave.
   */
  lemma TimerThroughEngine(
      cfg: Config, restored: map<string, int>, kind: Kind, threshold: int, h: seq<Happening>, ns: string,
      name: string)
    requires cfg.resolution && (kind == HPA || kind == DAEMON_SET) && Plain(ns, name)
    requires forall i :: 0 <= i < |h| ==> Allowed(kind, h[i])
    ensures var s := Play(cfg, restored, kind, threshold, h).s;
            && (AlertKey(kind, ns, name) in s.active <==> Reached(threshold, ObsOf(h, ns, name)))
            && ResolvedCount(s.sent, AlertKey(kind, ns, name)) == EndedReached(threshold, ObsOf(h, ns, name))
  {
    AlwaysInStep(cfg, restored, kind, threshold, h, ns, name);
  }
}
