/** What monitors call (internal/monitors/monitor.go), and what the calls do to one alert. */
module Submitter {
  import opened Options
  import opened Alerts
  import opened Dedupe
  import opened EngineSpec
  import opened Cells
  import opened Replay

  datatype Call = Submit(a: Alert) | Clear(a: Alert)

  /** A call that is not dropped, as the engine handles it at clock reading `at`. */
  function OpOf(cfg: Config, c: Call, at: int): Op {
    match c
    case Submit(a) => Fire(Prepared(a, cfg.cluster, Firing, at), at)
    case Clear(a) => Resolve(Prepared(a, cfg.cluster, Resolved, at), at)
  }

  /** The engine after it handled `calls` in order. */
  function Served(cfg: Config, s: EngineState, calls: seq<Call>, at: int): EngineState {
    if calls == [] then s
    else Step(cfg, Served(cfg, s, calls[..|calls| - 1], at), OpOf(cfg, calls[|calls| - 1], at))
  }

  /** How many resolved messages were sent for `k`. */
  function ResolvedCount(sent: seq<Delivery>, k: string): nat {
    if sent == [] then 0
    else
      var d, before := sent[|sent| - 1], ResolvedCount(sent[..|sent| - 1], k);
      if d.Direct? && d.alert.Key() == k && d.alert.state == Resolved then before + 1 else before
  }

  /** Traffic of the other monitors, and digest ticks. Reset is not among it. */
  ghost predicate Foreign(op: Op, monitor: string) {
    match op
    case Fire(a, _) => '|' !in a.monitor && a.monitor != monitor && a.state == Firing
    case Resolve(hint, _) => '|' !in hint.monitor && hint.monitor != monitor
    case Sweep(m, _, _, _) => m != monitor
    case Tick(_) => true
    case Reset => false
  }

  /** Entries sit under their keys and name monitors without bars. */
  ghost predicate Tidy(s: EngineState) {
    KeysAgree(s.active) && forall k :: k in s.active ==> '|' !in s.active[k].monitor
  }

  /** What an observer of alert `k` sees: whether it is active and how many resolved messages went out. */
  datatype Lamp = Lamp(on: bool, offs: nat)

  function LampOf(s: EngineState, k: string): Lamp {
    Lamp(k in s.active, ResolvedCount(s.sent, k))
  }

  function Lit(l: Lamp): Lamp {
    l.(on := true)
  }

  function Unlit(l: Lamp): Lamp {
    Lamp(false, if l.on then l.offs + 1 else l.offs)
  }

  lemma CountNext(sent: seq<Delivery>, d: Delivery, k: string)
    ensures ResolvedCount(sent + [d], k) ==
              ResolvedCount(sent, k) + (if d.Direct? && d.alert.Key() == k && d.alert.state == Resolved then 1 else 0)
  {
    assert (sent + [d])[..|sent|] == sent;
  }

  lemma MonitorInKey(a: Alert)
    requires '|' !in a.monitor
    ensures Cut(a.Key()).0 == a.monitor
  {
    CutOfBar(a.monitor, Bar(a.namespace, Bar(a.objectKind, Bar(a.objectName, a.reason))));
  }

  lemma FireLights(cfg: Config, s: EngineState, a: Alert, now: int, k: string)
    requires cfg.resolution && a.state == Firing
    ensures LampOf(FireStep(cfg, s, a, now), k) == if a.Key() == k then Lit(LampOf(s, k)) else LampOf(s, k)
  {
    hide Alert.Key, Channels;
    CountNext(s.sent, Send(cfg, a, now), k);
  }

  lemma RetireUnlights(cfg: Config, s: EngineState, x: string, hint: Alert, now: int, k: string)
    requires x in s.active && s.active[x].Key() == x
    ensures LampOf(Retire(cfg, s, x, hint, now), k) == if x == k then Unlit(LampOf(s, k)) else LampOf(s, k)
  {
    MergedKeepsKey(s.active[x], hint, now);
    hide Alert.Key, Channels;
    CountNext(s.sent, Send(cfg, Merged(s.active[x], hint, now), now), k);
  }

  lemma ResolveUnlights(cfg: Config, s: EngineState, hint: Alert, now: int, k: string)
    requires cfg.resolution && KeysAgree(s.active)
    ensures LampOf(ResolveStep(cfg, s, hint, now), k) == if hint.Key() == k then Unlit(LampOf(s, k)) else LampOf(s, k)
  {
    hide Alert.Key, Retire;
    if hint.Key() in s.active {
      RetireUnlights(cfg, s, hint.Key(), hint, now, k);
    }
  }

  /** A sweep of another monitor does not reach `k`. */
  lemma {:induction false} SweepPasses(
      cfg: Config, s: EngineState, m: string, keep: set<string>, order: seq<string>, stamps: string -> int, k: string)
    requires KeysAgree(s.active) && (k in s.active ==> s.active[k].monitor != m)
    ensures var t := SweepStep(cfg, s, m, keep, order, stamps);
            LampOf(t, k) == LampOf(s, k) && Lookup(t.active, k) == Lookup(s.active, k)
  {
    hide Alert.Key, Merged;
    if order != [] {
      var front, x := order[..|order| - 1], order[|order| - 1];
      SweepPasses(cfg, s, m, keep, front, stamps, k);
      SweepKeepsKeys(cfg, s, m, keep, front, stamps);
      var t := SweepStep(cfg, s, m, keep, front, stamps);
      if Drops(t, m, keep, x) {
        RetireUnlights(cfg, t, x, NO_HINT, stamps(x), k);
      }
    }
  }

  lemma {:induction false} SweepOnlyRemoves(
      cfg: Config, s: EngineState, m: string, keep: set<string>, order: seq<string>, stamps: string -> int)
    ensures forall k :: k in SweepStep(cfg, s, m, keep, order, stamps).active ==>
              k in s.active && SweepStep(cfg, s, m, keep, order, stamps).active[k] == s.active[k]
  {
    if order != [] {
      SweepOnlyRemoves(cfg, s, m, keep, order[..|order| - 1], stamps);
    }
  }

  lemma StepStaysTidy(cfg: Config, s: EngineState, op: Op)
    requires Tidy(s) && (op.Fire? ==> '|' !in op.a.monitor)
    ensures Tidy(Step(cfg, s, op))
  {
    StepKeepsKeys(cfg, s, op);
    hide Alert.Key, Channels, KeysAgree, Merged;
    if op.Sweep? {
      SweepOnlyRemoves(cfg, s, op.monitor, op.keep, op.order, op.stamps);
    }
  }

  /** Nothing other monitors do shows on an alert of `monitor`. */
  lemma ForeignPasses(cfg: Config, s: EngineState, op: Op, monitor: string, k: string)
    requires cfg.resolution && Tidy(s) && Foreign(op, monitor) && Cut(k).0 == monitor
    ensures Tidy(Step(cfg, s, op)) && LampOf(Step(cfg, s, op), k) == LampOf(s, k)
  {
    StepStaysTidy(cfg, s, op);
    hide Alert.Key, FireStep, ResolveStep, SweepStep, Tidy, KeysAgree, Cut;
    match op
    case Fire(a, now) =>
      MonitorInKey(a);
      FireLights(cfg, s, a, now, k);
    case Resolve(hint, now) =>
      MonitorInKey(hint);
      assert KeysAgree(s.active) by { TidyMeans(s, k); }
      ResolveUnlights(cfg, s, hint, now, k);
    case Sweep(m, keep, order, stamps) =>
      TidyMeans(s, k);
      SweepPasses(cfg, s, m, keep, order, stamps, k);
    case Tick(now) =>
      if s.digestQ != [] {
        CountNext(s.sent, TickStep(cfg, s, now).sent[|s.sent|], k);
      }
  }

  lemma TidyMeans(s: EngineState, k: string)
    requires Tidy(s)
    ensures KeysAgree(s.active) && (k in s.active ==> s.active[k].monitor == Cut(k).0)
  {
    if k in s.active {
      MonitorInKey(s.active[k]);
    }
  }

  /** A monitor's own call shows on the alert it names and on no other. */
  lemma CallShows(cfg: Config, s: EngineState, c: Call, at: int, k: string)
    requires cfg.resolution && Tidy(s) && '|' !in c.a.monitor
    ensures var t := Step(cfg, s, OpOf(cfg, c, at));
            && Tidy(t)
            && LampOf(t, k) == if c.a.Key() != k then LampOf(s, k)
                               else if c.Submit? then Lit(LampOf(s, k)) else Unlit(LampOf(s, k))
  {
    StepStaysTidy(cfg, s, OpOf(cfg, c, at));
    hide Alert.Key, FireStep, ResolveStep, KeysAgree;
    PreparedKeepsKey(c.a, cfg.cluster, if c.Submit? then Firing else Resolved, at);
    match c
    case Submit(a) => FireLights(cfg, s, Prepared(a, cfg.cluster, Firing, at), at, k);
    case Clear(a) => ResolveUnlights(cfg, s, Prepared(a, cfg.cluster, Resolved, at), at, k);
  }

  /** What a list of calls does to the lamp of `k`. */
  function LampAfter(l: Lamp, calls: seq<Call>, k: string): Lamp {
    if calls == [] then l
    else
      var before, c := LampAfter(l, calls[..|calls| - 1], k), calls[|calls| - 1];
      if c.a.Key() != k then before else if c.Submit? then Lit(before) else Unlit(before)
  }

  lemma LampNext(l: Lamp, calls: seq<Call>, c: Call, k: string)
    ensures LampAfter(l, calls + [c], k) ==
              var before := LampAfter(l, calls, k);
              if c.a.Key() != k then before else if c.Submit? then Lit(before) else Unlit(before)
  {
    assert (calls + [c])[..|calls|] == calls;
  }

  lemma {:induction false} ServedShows(cfg: Config, s: EngineState, calls: seq<Call>, at: int, k: string)
    requires cfg.resolution && Tidy(s) && forall c :: c in calls ==> '|' !in c.a.monitor
    ensures Tidy(Served(cfg, s, calls, at))
    ensures LampOf(Served(cfg, s, calls, at), k) == LampAfter(LampOf(s, k), calls, k)
  {
    hide Tidy, Alert.Key, OpOf, LampOf, Step;
    if calls != [] {
      var n := |calls| - 1;
      ServedShows(cfg, s, calls[..n], at, k);
      assert calls[n] in calls;
      CallShows(cfg, Served(cfg, s, calls[..n], at), calls[n], at, k);
    }
  }

  lemma ServedOne(cfg: Config, s: EngineState, calls: seq<Call>, c: Call, at: int)
    ensures Served(cfg, s, calls + [c], at) == Step(cfg, Served(cfg, s, calls, at), OpOf(cfg, c, at))
    ensures Served(cfg, s, [], at) == s
  {
    assert (calls + [c])[..|calls|] == calls;
  }

  /** What is active after an operation was active before or is the alert it fires. */
  lemma StepAdds(cfg: Config, s: EngineState, op: Op)
    ensures forall k :: k in Step(cfg, s, op).active ==>
              || (k in s.active && Step(cfg, s, op).active[k] == s.active[k])
              || (op.Fire? && Step(cfg, s, op).active[k] == op.a)
  {
    hide Alert.Key, Send, Merged;
    if op.Sweep? {
      SweepOnlyRemoves(cfg, s, op.monitor, op.keep, op.order, op.stamps);
    }
  }

  /** What is active after some calls was active before or was submitted by one of them. */
  lemma {:induction false} ServedAdds(cfg: Config, s: EngineState, calls: seq<Call>, at: int)
    ensures var t := Served(cfg, s, calls, at);
            forall k :: k in t.active ==>
              || (k in s.active && t.active[k] == s.active[k])
              || exists c :: c in calls && c.Submit? && t.active[k] == Prepared(c.a, cfg.cluster, Firing, at)
  {
    hide Step, Prepared;
    if calls != [] {
      var n := |calls| - 1;
      ServedAdds(cfg, s, calls[..n], at);
      StepAdds(cfg, Served(cfg, s, calls[..n], at), OpOf(cfg, calls[n], at));
      assert calls[n] in calls && forall c :: c in calls[..n] ==> c in calls;
    }
  }

  lemma FourSteps(cfg: Config, s: EngineState, a: Op, b: Op, c: Op, d: Op)
    ensures Run(cfg, s, [a, b, c, d]) == Step(cfg, Step(cfg, Step(cfg, Step(cfg, s, a), b), c), d)
  {
    hide Step;
    assert [a, b, c, d] == [a, b, c] + [d] && [a, b, c] == [a, b] + [c] && [a, b] == [a] + [b] && [a] == [] + [a];
    RunSnoc(cfg, s, [a, b, c], d);
    RunSnoc(cfg, s, [a, b], c);
    RunSnoc(cfg, s, [a], b);
    RunSnoc(cfg, s, [], a);
  }

  /**
    A fire that the window suppresses still makes its alert active, so its end is announced although
    its beginning was not: two resolved messages, and two firing ones only if the window had passed.
   */
  lemma SuppressedFireIsStillResolved(cfg: Config, a: Alert, hint: Alert, fired: int, ended: int, again: int, over: int)
    requires cfg.resolution && !Digested(cfg, a) && a.state == Firing && hint.Key() == a.Key()
    ensures var s := Run(cfg, NEW, [Fire(a, fired), Resolve(hint, ended), Fire(a, again), Resolve(hint, over)]);
            && ResolvedCount(s.sent, a.Key()) == 2
            && SentFiring(s.sent) == if again - fired < cfg.window then [a] else [a, a]
  {
    hide Alert.Key, Digested, FireStep, ResolveStep, Queued, KeysAgree, Run, ResolvedCount, SentFiring;
    var k := a.Key();
    FourSteps(cfg, NEW, Fire(a, fired), Resolve(hint, ended), Fire(a, again), Resolve(hint, over));
    var s0 := FireStep(cfg, NEW, a, fired);
    var s1 := ResolveStep(cfg, s0, hint, ended);
    var s2 := FireStep(cfg, s1, a, again);
    NewIsDark(k);
    StepKeepsKeys(cfg, NEW, Fire(a, fired));
    StepKeepsKeys(cfg, s0, Resolve(hint, ended));
    StepKeepsKeys(cfg, s1, Fire(a, again));
    FireLights(cfg, NEW, a, fired, k);
    ResolveUnlights(cfg, s0, hint, ended, k);
    FireLights(cfg, s1, a, again, k);
    ResolveUnlights(cfg, s2, hint, over, k);
    FireConserves(cfg, NEW, a, fired);
    ResolveConserves(cfg, s0, hint, ended);
    FireConserves(cfg, s1, a, again);
    ResolveConserves(cfg, s2, hint, over);
  }

  lemma NewIsDark(k: string)
    ensures KeysAgree(NEW.active) && LampOf(NEW, k) == Lamp(false, 0) && SentFiring(NEW.sent) == []
  {
  }
}
