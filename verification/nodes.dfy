/** Node conditions (internal/monitors/node_conditions.go). */
module NodeConditions {
  import opened Options
  import opened Alerts
  import opened EngineSpec
  import opened Submitter
  import Cells

  const MONITOR := "node_conditions"

  datatype Condition = Condition(kind: string, isTrue: bool, reason: string, message: string, lastTransition: int)

  datatype Node = Node(name: string, deleting: bool, taints: seq<string>, conditions: seq<Condition>)

  datatype Settings = Settings(alertOn: set<string>, grace: int)

  /** The name under which a condition is firing, if it is. */
  function FiringName(cfg: Settings, c: Condition): Option<string> {
    if c.kind == "Ready" then
      if "NotReady" in cfg.alertOn && !c.isTrue then Some("NotReady") else None
    else if c.kind in cfg.alertOn && c.isTrue then Some(c.kind) else None
  }

  function FirstReady(conditions: seq<Condition>): Option<Condition> {
    if conditions == [] then None
    else if conditions[0].kind == "Ready" then Some(conditions[0])
    else FirstReady(conditions[1..])
  }

  /** Whether a firing condition is worth an alert: routine node churn is not. */
  predicate ShouldAlert(cfg: Settings, n: Node, name: string, now: int) {
    name != "NotReady" ||
    (&& !n.deleting
     && "ToBeDeletedByClusterAutoscaler" !in n.taints && "node.kubernetes.io/unschedulable" !in n.taints
     && (cfg.grace <= 0 ||
         match FirstReady(n.conditions)
         case Some(c) => now - c.lastTransition >= cfg.grace
         case None => true))
  }

  /** The firing conditions by name; a later condition of the same name replaces an earlier one. */
  function Current(cfg: Settings, conditions: seq<Condition>): map<string, Condition> {
    if conditions == [] then map[]
    else
      var before, c := Current(cfg, conditions[..|conditions| - 1]), conditions[|conditions| - 1];
      match FiringName(cfg, c)
      case Some(name) => before[name := c]
      case None => before
  }

  function CurrentNames(cfg: Settings, n: Node): set<string> {
    Current(cfg, n.conditions).Keys
  }

  function Alerting(cfg: Settings, n: Node, now: int): set<string> {
    set c | c in CurrentNames(cfg, n) && ShouldAlert(cfg, n, c, now)
  }

  /** The remembered keys of conditions of one node. */
  function KeysFor(node: string, names: set<string>): set<string> {
    set c | c in names :: Bar(node, c)
  }

  function Marked(cfg: Settings, seen: set<string>, n: Node, now: int): set<string> {
    seen + KeysFor(n.name, Alerting(cfg, n, now))
  }

  /** The remembered conditions of this node that are no longer reported. */
  function Lapsed(cfg: Settings, seen: set<string>, n: Node): set<string> {
    set x | x in seen && Cut(x).0 == n.name && Cut(x).1 !in CurrentNames(cfg, n)
  }

  function After(cfg: Settings, seen: set<string>, n: Node, now: int): set<string> {
    var marked := Marked(cfg, seen, n, now);
    marked - Lapsed(cfg, marked, n)
  }

  /** The call for firing condition `c`, quoting the condition reported under that name. */
  function SubmitFor(n: Node, c: string, cond: Condition): Call {
    Submit(Alert(MONITOR, Critical, Firing, "", "", "Node", n.name, c, "Node " + n.name + ": " + c,
                 "Node condition " + c + " reason=" + cond.reason + " message=" + cond.message, ZERO_TIME))
  }

  function ClearFor(x: string): Call {
    var (node, c) := Cut(x);
    Clear(Alert(MONITOR, Info, Firing, "", "", "Node", node, c, "Node " + node + ": " + c + " cleared",
                "The condition is no longer reported by the kubelet.", ZERO_TIME))
  }

  function Reported(cfg: Settings, n: Node, c: string): Condition {
    var current := Current(cfg, n.conditions);
    if c in current then current[c] else Condition(c, false, "", "", ZERO_TIME)
  }

  function Submits(cfg: Settings, n: Node, order: seq<string>): seq<Call> {
    if order == [] then []
    else
      var c := order[|order| - 1];
      Submits(cfg, n, order[..|order| - 1]) + [SubmitFor(n, c, Reported(cfg, n, c))]
  }

  function Clears(order: seq<string>): seq<Call> {
    if order == [] then [] else Clears(order[..|order| - 1]) + [ClearFor(order[|order| - 1])]
  }

  function Elements(s: seq<string>): set<string> {
    set x | x in s
  }

  class NodeConditionsMonitor {
    const cfg: Settings
    var seen: set<string>

    constructor (cfg: Settings)
      ensures this.cfg == cfg && seen == {}
    {
      this.cfg := cfg;
      seen := {};
    }

    /** One observation; the two maps are walked in the orders returned. */
    method Handle(n: Node, now: int)
      returns (calls: seq<Call>, ghost fired: seq<string>, ghost lapsed: seq<string>)
      modifies this
      ensures Walks(fired, Alerting(cfg, n, now))
      ensures Walks(lapsed, Lapsed(cfg, Marked(cfg, old(seen), n, now), n))
      ensures calls == Submits(cfg, n, fired) + Clears(lapsed)
      ensures seen == After(cfg, old(seen), n, now)
    {
      hide Submits, Alerting, Lapsed, Current;
      var current := BuildCurrent(n);
      calls, fired := FireCurrent(n, now, current);
      var toResolve := ForgetLapsed(n, current);
      lapsed := toResolve;
      ghost var submits := calls;
      for i := 0 to |toResolve|
        invariant calls == submits + Clears(toResolve[..i])
      {
        assert toResolve[..i + 1][..i] == toResolve[..i];
        calls := calls + [ClearFor(toResolve[i])];
      }
      assert toResolve[..|toResolve|] == toResolve;
    }

    /** Submits each firing condition that is worth an alert, and remembers it. */
    method FireCurrent(n: Node, now: int, current: map<string, Condition>)
      returns (calls: seq<Call>, ghost fired: seq<string>)
      requires current == Current(cfg, n.conditions)
      modifies this
      ensures Walks(fired, Alerting(cfg, n, now)) && calls == Submits(cfg, n, fired)
      ensures seen == Marked(cfg, old(seen), n, now)
    {
      hide Current, ShouldAlert, SubmitFor, Bar;
      calls, fired := [], [];
      var todo := current.Keys;
      while todo != {}
        invariant todo <= current.Keys
        invariant Walks(fired, Alerting(cfg, n, now) - todo)
        invariant calls == Submits(cfg, n, fired)
        invariant seen == old(seen) + KeysFor(n.name, Alerting(cfg, n, now) - todo)
        decreases todo
      {
        ghost var before := Alerting(cfg, n, now) - todo;
        var c :| c in todo;
        todo := todo - {c};
        if ShouldAlert(cfg, n, c, now) {
          assert Alerting(cfg, n, now) - todo == before + {c};
          assert (fired + [c])[..|fired|] == fired;
          assert KeysFor(n.name, before + {c}) == KeysFor(n.name, before) + {Bar(n.name, c)};
          fired := fired + [c];
          calls := calls + [SubmitFor(n, c, current[c])];
          seen := seen + {Bar(n.name, c)};
        } else {
          assert Alerting(cfg, n, now) - todo == before;
        }
      }
      assert Alerting(cfg, n, now) - todo == Alerting(cfg, n, now);
    }

    /** Forgets, and returns, the conditions of this node that are no longer reported. */
    method ForgetLapsed(n: Node, current: map<string, Condition>) returns (toResolve: seq<string>)
      requires current == Current(cfg, n.conditions)
      modifies this
      ensures Walks(toResolve, Lapsed(cfg, old(seen), n))
      ensures seen == old(seen) - Lapsed(cfg, old(seen), n)
    {
      hide Current, CutAt;
      toResolve := [];
      var keys := seen;
      while keys != {}
        invariant keys <= seen && seen == old(seen)
        invariant Walks(toResolve, Lapsed(cfg, seen, n) - keys)
        decreases keys
      {
        var x :| x in keys;
        keys := keys - {x};
        var node, c := SplitNodeCondKey(x);
        if node == n.name && c !in current {
          toResolve := toResolve + [x];
        }
      }
      for i := 0 to |toResolve|
        invariant seen == old(seen) - Elements(toResolve[..i])
      {
        assert toResolve[..i + 1] == toResolve[..i] + [toResolve[i]];
        seen := seen - {toResolve[i]};
      }
      assert toResolve[..|toResolve|] == toResolve;
    }

    /** The loop over the reported conditions. */
    method BuildCurrent(n: Node) returns (current: map<string, Condition>)
      ensures current == Current(cfg, n.conditions)
    {
      current := map[];
      for i := 0 to |n.conditions|
        invariant current == Current(cfg, n.conditions[..i])
      {
        assert n.conditions[..i + 1][..i] == n.conditions[..i];
        var cond := n.conditions[i];
        var name, fire := cond.kind, false;
        if name == "Ready" {
          if "NotReady" in cfg.alertOn && !cond.isTrue {
            fire, name := true, "NotReady";
          }
        } else if name in cfg.alertOn && cond.isTrue {
          fire := true;
        }
        if fire {
          current := current[name := cond];
        }
      }
      assert n.conditions[..|n.conditions|] == n.conditions;
    }
  }

  /** Splits a remembered key at its first bar. */
  method SplitNodeCondKey(s: string) returns (node: string, condition: string)
    ensures (node, condition) == Cut(s)
  {
    var i := 0;
    while i < |s|
      invariant 0 <= i <= |s| && '|' !in s[..i]
    {
      if s[i] == '|' {
        assert s == s[..i] + ['|'] + s[i + 1..];
        CutAtFirst(s[..i], '|', s[i + 1..]);
        return s[..i], s[i + 1..];
      }
      i := i + 1;
    }
    assert s[..|s|] == s;
    CutNothing(s);
    return s, "";
  }

  lemma {:induction false} CutNothing(s: string)
    requires '|' !in s
    ensures Cut(s) == (s, "")
  {
    if s != "" {
      CutNothing(s[1..]);
      assert s == [s[0]] + s[1..];
    }
  }

  // ---- The monitor feeding the engine ------------------------------------------------

  datatype Happening =
    | Saw(n: Node, now: int, fired: seq<string>, lapsed: seq<string>, at: int)
    | Other(op: Op)

  datatype Both = Both(seen: set<string>, s: EngineState)

  /** The walks are possible ones in the state in which the node was observed. */
  ghost predicate Possible(ns: Settings, seen: set<string>, e: Happening) {
    if e.Saw? then
      && Walks(e.fired, Alerting(ns, e.n, e.now))
      && Walks(e.lapsed, Lapsed(ns, Marked(ns, seen, e.n, e.now), e.n))
    else Foreign(e.op, MONITOR)
  }

  function PlayOne(cfg: Config, ns: Settings, b: Both, e: Happening): Both {
    match e
    case Saw(n, now, fired, lapsed, at) =>
      Both(After(ns, b.seen, n, now), Served(cfg, b.s, Submits(ns, n, fired) + Clears(lapsed), at))
    case Other(op) => b.(s := Step(cfg, b.s, op))
  }

  function Play(cfg: Config, restored: map<string, int>, ns: Settings, h: seq<Happening>): Both {
    if h == [] then Both({}, Started(restored))
    else PlayOne(cfg, ns, Play(cfg, restored, ns, h[..|h| - 1]), h[|h| - 1])
  }

  /** Every event of the history is possible where it happens. */
  ghost predicate History(cfg: Config, restored: map<string, int>, ns: Settings, h: seq<Happening>) {
    h == [] ||
    (History(cfg, restored, ns, h[..|h| - 1]) && Possible(ns, Play(cfg, restored, ns, h[..|h| - 1]).seen, h[|h| - 1]))
  }

  /** The engine's key for a remembered key. */
  function AlertKey(x: string): string {
    Bar(MONITOR, Bar("", Bar("Node", x)))
  }

  lemma AlertKeyInjective(x: string, y: string)
    ensures AlertKey(x) == AlertKey(y) <==> x == y
    ensures Cut(AlertKey(x)).0 == MONITOR
  {
    hide CutAt;
    CutOfBar(MONITOR, Bar("", Bar("Node", x)));
    CutOfBar(MONITOR, Bar("", Bar("Node", y)));
    CutOfBar("", Bar("Node", x));
    CutOfBar("", Bar("Node", y));
    CutOfBar("Node", x);
    CutOfBar("Node", y);
  }

  lemma {:induction false} SubmitsLight(ns: Settings, n: Node, order: seq<string>, l: Lamp, x: string)
    ensures var calls := Submits(ns, n, order);
            && LampAfter(l, calls, AlertKey(x)) ==
                 (if exists c :: c in order && Bar(n.name, c) == x then Lit(l) else l)
            && forall c :: c in calls ==> c.a.monitor == MONITOR
  {
    hide CurrentNames, Current;
    if order != [] {
      var front, c := order[..|order| - 1], order[|order| - 1];
      SubmitsLight(ns, n, front, l, x);
      assert SubmitFor(n, c, Reported(ns, n, c)).a.Key() == AlertKey(Bar(n.name, c));
      AlertKeyInjective(Bar(n.name, c), x);
      var calls := Submits(ns, n, order);
      assert calls[..|calls| - 1] == Submits(ns, n, front);
      assert forall d :: d in order <==> d in front || d == c;
    }
  }

  lemma {:induction false} ClearsUnlight(before: seq<Call>, order: seq<string>, l: Lamp, x: string)
    requires forall y :: y in order ==> '|' in y
    requires forall i, j :: 0 <= i < j < |order| ==> order[i] != order[j]
    ensures var calls := before + Clears(order);
            LampAfter(l, calls, AlertKey(x)) ==
              if x in order then Unlit(LampAfter(l, before, AlertKey(x))) else LampAfter(l, before, AlertKey(x))
  {
    hide AlertKey, CutAt, LampAfter, ClearFor, Alert.Key;
    if order == [] {
      assert before + Clears(order) == before;
    } else {
      var front, y := order[..|order| - 1], order[|order| - 1];
      ClearsUnlight(before, front, l, x);
      assert y in order && y !in front;
      ClearKey(y);
      AlertKeyInjective(y, x);
      LampNext(l, before + Clears(front), ClearFor(y), AlertKey(x));
      assert before + Clears(order) == before + Clears(front) + [ClearFor(y)];
      assert x in order <==> x in front || x == y;
    }
  }

  lemma ClearKey(y: string)
    requires '|' in y
    ensures ClearFor(y).Clear? && ClearFor(y).a.Key() == AlertKey(y)
  {
    CutJoins(y);
  }

  ghost predicate Barred(seen: set<string>) {
    forall x :: x in seen ==> '|' in x
  }

  /** One observation through the engine, for one remembered key. */
  lemma ObservationShows(cfg: Config, ns: Settings, b: Both, e: Happening, x: string)
    requires cfg.resolution && Tidy(b.s) && Barred(b.seen) && e.Saw? && Possible(ns, b.seen, e)
    ensures var t, marked := PlayOne(cfg, ns, b, e), Marked(ns, b.seen, e.n, e.now);
            var l := if exists c :: c in Alerting(ns, e.n, e.now) && Bar(e.n.name, c) == x
                     then Lit(LampOf(b.s, AlertKey(x))) else LampOf(b.s, AlertKey(x));
            && Tidy(t.s) && Barred(t.seen)
            && LampOf(t.s, AlertKey(x)) == if x in Lapsed(ns, marked, e.n) then Unlit(l) else l
  {
    hide AlertKey, Tidy, LampAfter, Submits, Clears, ShouldAlert, Current, CutAt, Served, LampOf;
    var submits := Submits(ns, e.n, e.fired);
    var k := AlertKey(x);
    SubmitsLight(ns, e.n, e.fired, LampOf(b.s, k), x);
    assert forall y :: y in e.lapsed ==> '|' in y;
    ClearsUnlight(submits, e.lapsed, LampOf(b.s, k), x);
    ClearsClear(e.lapsed);
    ServedShows(cfg, b.s, submits + Clears(e.lapsed), e.at, k);
  }

  /** Every alert of this monitor is the alert of some remembered key. */
  ghost predicate OnlyNodes(s: EngineState) {
    forall k :: k in s.active && Cut(k).0 == MONITOR ==> exists x :: '|' in x && k == AlertKey(x)
  }

  lemma StepOnlyNodes(cfg: Config, s: EngineState, op: Op)
    requires OnlyNodes(s)
    requires op.Fire? && Cut(op.a.Key()).0 == MONITOR ==> exists x :: '|' in x && op.a.Key() == AlertKey(x)
    ensures OnlyNodes(Step(cfg, s, op))
  {
    hide Step, Alert.Key, CutAt, AlertKey;
    Cells.StepShrinks(cfg, s, op);
    var t := Step(cfg, s, op);
    forall k | k in t.active && Cut(k).0 == MONITOR ensures exists x :: '|' in x && k == AlertKey(x) {
      assert k in t.active.Keys;
      if !(op.Fire? && k == op.a.Key()) {
        assert k in s.active;
      }
    }
  }

  lemma {:induction false} ServedOnlyNodes(cfg: Config, s: EngineState, calls: seq<Call>, at: int)
    requires OnlyNodes(s)
    requires forall c :: c in calls && c.Submit? ==> exists x :: '|' in x && c.a.Key() == AlertKey(x)
    ensures OnlyNodes(Served(cfg, s, calls, at))
  {
    hide OnlyNodes, Step, Alert.Key, AlertKey, CutAt;
    if calls != [] {
      var n := |calls| - 1;
      ServedOnlyNodes(cfg, s, calls[..n], at);
      assert calls[n] in calls;
      PreparedKeepsKey(calls[n].a, cfg.cluster, if calls[n].Submit? then Firing else Resolved, at);
      StepOnlyNodes(cfg, Served(cfg, s, calls[..n], at), OpOf(cfg, calls[n], at));
    }
  }

  lemma {:induction false} SubmitsName(ns: Settings, n: Node, order: seq<string>)
    ensures forall c :: c in Submits(ns, n, order) ==> exists x :: '|' in x && c.a.Key() == AlertKey(x)
  {
    if order != [] {
      var c := order[|order| - 1];
      SubmitsName(ns, n, order[..|order| - 1]);
      assert SubmitFor(n, c, Reported(ns, n, c)).a.Key() == AlertKey(Bar(n.name, c)) && '|' in Bar(n.name, c);
    }
  }

  lemma {:induction false} ClearsClear(order: seq<string>)
    ensures forall c :: c in Clears(order) ==> c.Clear? && c.a.monitor == MONITOR
  {
    if order != [] {
      ClearsClear(order[..|order| - 1]);
    }
  }

  lemma ObservationOnlyNodes(cfg: Config, ns: Settings, b: Both, e: Happening)
    requires OnlyNodes(b.s) && Possible(ns, b.seen, e)
    ensures OnlyNodes(PlayOne(cfg, ns, b, e).s)
  {
    hide OnlyNodes, Alert.Key, AlertKey, Served, Submits, Clears, CurrentNames, CutAt, Step, ShouldAlert;
    if e.Saw? {
      SubmitsName(ns, e.n, e.fired);
      ClearsClear(e.lapsed);
      ServedOnlyNodes(cfg, b.s, Submits(ns, e.n, e.fired) + Clears(e.lapsed), e.at);
    } else {
      if e.op.Fire? { MonitorInKey(e.op.a); }
      StepOnlyNodes(cfg, b.s, e.op);
    }
  }

  lemma {:induction false} SeenMatches(
      cfg: Config, restored: map<string, int>, ns: Settings, h: seq<Happening>, x: string)
    requires cfg.resolution && History(cfg, restored, ns, h)
    ensures var b := Play(cfg, restored, ns, h);
            && Tidy(b.s) && OnlyNodes(b.s) && Barred(b.seen)
            && ('|' in x ==> (AlertKey(x) in b.s.active <==> x in b.seen))
  {
    hide OnlyNodes, Tidy, AlertKey, CutAt, PlayOne, Possible, Barred;
    if h == [] {
      NothingSeen(restored, x);
    } else {
      var a, e := Play(cfg, restored, ns, h[..|h| - 1]), h[|h| - 1];
      SeenMatches(cfg, restored, ns, h[..|h| - 1], x);
      ObservationOnlyNodes(cfg, ns, a, e);
      StepMatches(cfg, ns, a, e, x);
    }
  }

  lemma NothingSeen(restored: map<string, int>, x: string)
    ensures var s := Started(restored);
            Tidy(s) && OnlyNodes(s) && Barred({}) && AlertKey(x) !in s.active
  {
  }

  lemma StepMatches(cfg: Config, ns: Settings, b: Both, e: Happening, x: string)
    requires cfg.resolution && Tidy(b.s) && Barred(b.seen) && Possible(ns, b.seen, e)
    requires '|' in x ==> (AlertKey(x) in b.s.active <==> x in b.seen)
    ensures var t := PlayOne(cfg, ns, b, e);
            && Tidy(t.s) && Barred(t.seen)
            && ('|' in x ==> (AlertKey(x) in t.s.active <==> x in t.seen))
  {
    hide Tidy, AlertKey, CutAt, ShouldAlert, Current, Served, Step;
    if e.Saw? {
      ObservationShows(cfg, ns, b, e, x);
    } else {
      AlertKeyInjective(x, x);
      ForeignPasses(cfg, b.s, e.op, MONITOR, AlertKey(x));
    }
  }

  /** After every observation the engine's alerts of this monitor are exactly the image of `seen`. */
  lemma {:induction false} SeenIsActive(
      cfg: Config, restored: map<string, int>, ns: Settings, h: seq<Happening>, k: string)
    requires cfg.resolution && History(cfg, restored, ns, h)
    ensures var b := Play(cfg, restored, ns, h);
            k in b.s.active && b.s.active[k].monitor == MONITOR <==> exists x :: x in b.seen && k == AlertKey(x)
  {
    hide Play, History, AlertKey, Tidy, CutAt;
    var b := Play(cfg, restored, ns, h);
    SeenMatches(cfg, restored, ns, h, "");
    TidyMeans(b.s, k);
    if k in b.s.active && b.s.active[k].monitor == MONITOR {
      var x :| '|' in x && k == AlertKey(x);
      SeenMatches(cfg, restored, ns, h, x);
    }
    if x :| x in b.seen && k == AlertKey(x) {
      SeenMatches(cfg, restored, ns, h, x);
      AlertKeyInjective(x, x);
    }
  }

  // ---- One condition of one node -------------------------------------------------------

  datatype NodeObs = NodeObs(n: Node, now: int)

  function ObsOf(h: seq<Happening>, node: string): seq<NodeObs> {
    if h == [] then []
    else
      var e, before := h[|h| - 1], ObsOf(h[..|h| - 1], node);
      if e.Saw? && e.n.name == node then before + [NodeObs(e.n, e.now)] else before
  }

  /** Some observation was worth an alert on `c`, and `c` has been reported ever since. */
  ghost predicate Standing(ns: Settings, obs: seq<NodeObs>, c: string) {
    exists i :: 0 <= i < |obs| && c in Alerting(ns, obs[i].n, obs[i].now)
                && forall j :: i <= j < |obs| ==> c in CurrentNames(ns, obs[j].n)
  }

  /** How often a standing condition was next not reported. */
  ghost function Cleared(ns: Settings, obs: seq<NodeObs>, c: string): nat {
    if obs == [] then 0
    else
      var n := |obs| - 1;
      Cleared(ns, obs[..n], c) + (if c !in CurrentNames(ns, obs[n].n) && Standing(ns, obs[..n], c) then 1 else 0)
  }

  lemma StandingNext(ns: Settings, obs: seq<NodeObs>, c: string)
    requires obs != []
    ensures var n := |obs| - 1;
            Standing(ns, obs, c) <==>
              || c in Alerting(ns, obs[n].n, obs[n].now)
              || (Standing(ns, obs[..n], c) && c in CurrentNames(ns, obs[n].n))
  {
    hide Current, ShouldAlert, CurrentNames;
    var n := |obs| - 1;
    if c in Alerting(ns, obs[n].n, obs[n].now) {
      assert c in CurrentNames(ns, obs[n].n) by { AlertingIsCurrent(ns, obs[n].n, obs[n].now, c); }
    }
    if Standing(ns, obs[..n], c) && c in CurrentNames(ns, obs[n].n) {
      var i :| 0 <= i < n && c in Alerting(ns, obs[..n][i].n, obs[..n][i].now)
               && forall j :: i <= j < n ==> c in CurrentNames(ns, obs[..n][j].n);
      forall j | i <= j < |obs| ensures c in CurrentNames(ns, obs[j].n) {
        assert j < n ==> obs[..n][j] == obs[j];
      }
      assert c in Alerting(ns, obs[i].n, obs[i].now);
    }
    if Standing(ns, obs, c) && c !in Alerting(ns, obs[n].n, obs[n].now) {
      var i :| 0 <= i < |obs| && c in Alerting(ns, obs[i].n, obs[i].now)
               && forall j :: i <= j < |obs| ==> c in CurrentNames(ns, obs[j].n);
      assert obs[..n][i] == obs[i];
      assert forall j :: i <= j < n ==> obs[..n][j] == obs[j];
    }
  }

  lemma AlertingIsCurrent(ns: Settings, n: Node, now: int, c: string)
    requires c in Alerting(ns, n, now)
    ensures c in CurrentNames(ns, n)
  {
  }

  /** What an observation of node `e.n` means for condition `c` of `node`, neither name holding a bar. */
  lemma ConditionShows(cfg: Config, ns: Settings, b: Both, e: Happening, node: string, c: string)
    requires cfg.resolution && Tidy(b.s) && Barred(b.seen) && e.Saw? && Possible(ns, b.seen, e)
    requires '|' !in node && '|' !in e.n.name
    requires Bar(node, c) in b.seen <==> AlertKey(Bar(node, c)) in b.s.active
    ensures var k := AlertKey(Bar(node, c));
            LampOf(PlayOne(cfg, ns, b, e).s, k) ==
              if e.n.name != node then LampOf(b.s, k)
              else if c in Alerting(ns, e.n, e.now) then Lit(LampOf(b.s, k))
              else if c in CurrentNames(ns, e.n) then LampOf(b.s, k)
              else Unlit(LampOf(b.s, k))
  {
    hide Tidy, AlertKey, CutAt, ShouldAlert, Current, Served, Step;
    var x := Bar(node, c);
    ObservationShows(cfg, ns, b, e, x);
    CutOfBar(node, c);
    forall d ensures Bar(e.n.name, d) == x <==> e.n.name == node && d == c {
      CutOfBar(e.n.name, d);
    }
    assert x in Marked(ns, b.seen, e.n, e.now) <==>
           x in b.seen || (e.n.name == node && c in Alerting(ns, e.n, e.now)) by {
      MarkedMeans(ns, b.seen, e.n, e.now, x);
    }
  }

  lemma MarkedMeans(ns: Settings, seen: set<string>, n: Node, now: int, x: string)
    ensures x in Marked(ns, seen, n, now) <==>
              x in seen || exists c :: c in Alerting(ns, n, now) && Bar(n.name, c) == x
  {
    hide Alerting, Bar;
    assert x in KeysFor(n.name, Alerting(ns, n, now)) <==> exists c :: c in Alerting(ns, n, now) && Bar(n.name, c) == x;
  }

  lemma {:induction false} NodeInStep(
      cfg: Config, restored: map<string, int>, ns: Settings, h: seq<Happening>, node: string, c: string)
    requires cfg.resolution && History(cfg, restored, ns, h) && '|' !in node
    requires forall i :: 0 <= i < |h| && h[i].Saw? ==> '|' !in h[i].n.name
    ensures LampOf(Play(cfg, restored, ns, h).s, AlertKey(Bar(node, c))) ==
              Lamp(Standing(ns, ObsOf(h, node), c), Cleared(ns, ObsOf(h, node), c))
  {
    hide Standing, Tidy, AlertKey, CutAt, PlayOne, Possible, Barred, LampOf, Cleared, ObsOf;
    if h == [] {
      NothingStands(restored, ns, node, c);
    } else {
      var n := |h| - 1;
      NodeInStep(cfg, restored, ns, h[..n], node, c);
      SeenMatches(cfg, restored, ns, h[..n], Bar(node, c));
      NodeStep(cfg, ns, h, Play(cfg, restored, ns, h[..n]), node, c);
    }
  }

  lemma NodeStep(cfg: Config, ns: Settings, h: seq<Happening>, a: Both, node: string, c: string)
    requires cfg.resolution && '|' !in node && h != []
    requires var e := h[|h| - 1];
             Tidy(a.s) && Barred(a.seen) && Possible(ns, a.seen, e) && (e.Saw? ==> '|' !in e.n.name)
    requires Bar(node, c) in a.seen <==> AlertKey(Bar(node, c)) in a.s.active
    requires var obs := ObsOf(h[..|h| - 1], node);
             LampOf(a.s, AlertKey(Bar(node, c))) == Lamp(Standing(ns, obs, c), Cleared(ns, obs, c))
    ensures var obs := ObsOf(h, node);
            LampOf(PlayOne(cfg, ns, a, h[|h| - 1]).s, AlertKey(Bar(node, c))) ==
              Lamp(Standing(ns, obs, c), Cleared(ns, obs, c))
  {
    hide Standing, Current, ShouldAlert, Tidy, AlertKey, CutAt, Foreign, Submits, Clears, Served, After, Step, LampOf;
    var e := h[|h| - 1];
    if e.Saw? {
      ConditionShows(cfg, ns, a, e, node, c);
      if e.n.name == node {
        var obs := ObsOf(h, node);
        assert obs[..|obs| - 1] == ObsOf(h[..|h| - 1], node);
        StandingNext(ns, obs, c);
        if c in Alerting(ns, e.n, e.now) { AlertingIsCurrent(ns, e.n, e.now, c); }
      }
    } else {
      OtherShows(cfg, ns, a, e, Bar(node, c));
    }
  }

  lemma NothingStands(restored: map<string, int>, ns: Settings, node: string, c: string)
    ensures LampOf(Started(restored), AlertKey(Bar(node, c))) ==
              Lamp(Standing(ns, ObsOf([], node), c), Cleared(ns, ObsOf([], node), c))
  {
  }

  lemma OtherShows(cfg: Config, ns: Settings, b: Both, e: Happening, x: string)
    requires cfg.resolution && Tidy(b.s) && e.Other? && Possible(ns, b.seen, e)
    ensures LampOf(PlayOne(cfg, ns, b, e).s, AlertKey(x)) == LampOf(b.s, AlertKey(x))
  {
    hide Tidy, AlertKey, CutAt, Step;
    AlertKeyInjective(x, x);
    ForeignPasses(cfg, b.s, e.op, MONITOR, AlertKey(x));
  }

  /**
    Through the engine, condition `c` of a node is active exactly while it stands, and each time it
    stops being reported after it stood there is one resolved message.
   */
  lemma {:induction false} ConditionThroughEngine(
      cfg: Config, restored: map<string, int>, ns: Settings, h: seq<Happening>, node: string, c: string)
    requires cfg.resolution && History(cfg, restored, ns, h) && '|' !in node
    requires forall i :: 0 <= i < |h| && h[i].Saw? ==> '|' !in h[i].n.name
    ensures var s, k, obs := Play(cfg, restored, ns, h).s, AlertKey(Bar(node, c)), ObsOf(h, node);
            && (k in s.active <==> Standing(ns, obs, c))
            && ResolvedCount(s.sent, k) == Cleared(ns, obs, c)
  {
    hide Play, History, AlertKey;
    NodeInStep(cfg, restored, ns, h, node, c);
  }

  // ---- By the fields of the node ---------------------------------------------------------------

  /** The condition counts under the name `c`: true under its own, or Ready not true under NotReady. */
  ghost predicate CountsAs(cond: Condition, c: string) {
    if cond.kind == "Ready" then c == "NotReady" && !cond.isTrue else c == cond.kind && cond.isTrue
  }

  ghost predicate Reports(ns: Settings, n: Node, c: string) {
    c in ns.alertOn && exists cond :: cond in n.conditions && CountsAs(cond, c)
  }

  /** The node is on its way out of the cluster. */
  ghost predicate Leaving(n: Node) {
    || n.deleting
    || (exists i :: 0 <= i < |n.taints| &&
         (n.taints[i] == "ToBeDeletedByClusterAutoscaler" || n.taints[i] == "node.kubernetes.io/unschedulable"))
  }

  /** Condition `i` is the first Ready condition of the node. */
  ghost predicate FirstReadyAt(n: Node, i: nat) {
    i < |n.conditions| && n.conditions[i].kind == "Ready" && forall j :: 0 <= j < i ==> n.conditions[j].kind != "Ready"
  }

  /** NotReady is reported of a node that stays, at least `grace` after its Ready condition changed. */
  ghost predicate Incident(ns: Settings, o: NodeObs) {
    && Reports(ns, o.n, "NotReady") && !Leaving(o.n)
    && (ns.grace > 0 ==> forall i: nat :: FirstReadyAt(o.n, i) ==>
         o.now - o.n.conditions[i].lastTransition >= ns.grace)
  }

  lemma {:induction false} CurrentMeans(ns: Settings, conditions: seq<Condition>, c: string)
    ensures c in Current(ns, conditions) <==> c in ns.alertOn && exists cond :: cond in conditions && CountsAs(cond, c)
    ensures c in Current(ns, conditions) ==>
              exists i :: IsLatest(conditions, i, c) && Current(ns, conditions)[c] == conditions[i]
  {
    if conditions != [] {
      var n := |conditions| - 1;
      CurrentMeans(ns, conditions[..n], c);
      assert conditions == conditions[..n] + [conditions[n]];
      if CountsAs(conditions[n], c) {
        assert IsLatest(conditions, n, c);
      } else if c in Current(ns, conditions[..n]) {
        var i :| IsLatest(conditions[..n], i, c) && Current(ns, conditions[..n])[c] == conditions[..n][i];
        assert IsLatest(conditions, i, c);
      }
    }
  }

  /** Condition `i` is the last one that counts as `c`. */
  ghost predicate IsLatest(conditions: seq<Condition>, i: int, c: string) {
    && 0 <= i < |conditions| && CountsAs(conditions[i], c)
    && forall j :: i < j < |conditions| ==> !CountsAs(conditions[j], c)
  }

  lemma {:induction false} FirstReadyMeans(conditions: seq<Condition>)
    ensures FirstReady(conditions).None? ==> forall c :: c in conditions ==> c.kind != "Ready"
    ensures FirstReady(conditions).Some? ==>
              exists i :: 0 <= i < |conditions| && conditions[i] == FirstReady(conditions).value
                && conditions[i].kind == "Ready" && forall j :: 0 <= j < i ==> conditions[j].kind != "Ready"
  {
    if conditions != [] && conditions[0].kind != "Ready" {
      var rest := conditions[1..];
      FirstReadyMeans(rest);
      assert conditions == [conditions[0]] + rest;
      if FirstReady(rest).Some? {
        var i :| 0 <= i < |rest| && rest[i] == FirstReady(rest).value && rest[i].kind == "Ready"
                 && forall j :: 0 <= j < i ==> rest[j].kind != "Ready";
        assert conditions[i + 1] == rest[i];
        assert forall j :: 0 < j < i + 1 ==> conditions[j] == rest[j - 1];
      }
    }
  }

  lemma NamesMean(ns: Settings, n: Node, c: string)
    ensures c in CurrentNames(ns, n) <==> Reports(ns, n, c)
  {
    CurrentMeans(ns, n.conditions, c);
  }

  lemma GraceMeans(ns: Settings, n: Node, now: int)
    ensures ShouldAlert(ns, n, "NotReady", now) <==>
              !Leaving(n) && (ns.grace > 0 ==> forall i: nat :: FirstReadyAt(n, i) ==>
                               now - n.conditions[i].lastTransition >= ns.grace)
  {
    FirstReadyMeans(n.conditions);
    if FirstReady(n.conditions).Some? {
      var i :| 0 <= i < |n.conditions| && n.conditions[i] == FirstReady(n.conditions).value
               && n.conditions[i].kind == "Ready" && forall j :: 0 <= j < i ==> n.conditions[j].kind != "Ready";
      assert FirstReadyAt(n, i);
      assert forall j: nat :: FirstReadyAt(n, j) ==> j == i;
    }
  }

  lemma AlertingMeans(ns: Settings, o: NodeObs, c: string)
    ensures c in Alerting(ns, o.n, o.now) <==> if c == "NotReady" then Incident(ns, o) else Reports(ns, o.n, c)
  {
    hide ShouldAlert, Reports, Leaving, CurrentNames;
    NamesMean(ns, o.n, c);
    if c == "NotReady" {
      GraceMeans(ns, o.n, o.now);
    } else {
      OthersAlert(ns, o.n, c, o.now);
    }
  }

  lemma OthersAlert(ns: Settings, n: Node, c: string, now: int)
    requires c != "NotReady"
    ensures ShouldAlert(ns, n, c, now)
  {
  }

  /** Some observation made the condition an incident, and it has been reported ever since. */
  ghost predicate Lasting(ns: Settings, obs: seq<NodeObs>) {
    exists i :: 0 <= i < |obs| && Incident(ns, obs[i])
                && forall j :: i <= j < |obs| ==> Reports(ns, obs[j].n, "NotReady")
  }

  lemma StandingMeans(ns: Settings, obs: seq<NodeObs>, c: string)
    ensures c == "NotReady" ==> (Standing(ns, obs, c) <==> Lasting(ns, obs))
    ensures c != "NotReady" ==> (Standing(ns, obs, c) <==> obs != [] && Reports(ns, obs[|obs| - 1].n, c))
  {
    hide Alerting, CurrentNames, Incident, Reports;
    forall i | 0 <= i < |obs|
      ensures c in CurrentNames(ns, obs[i].n) <==> Reports(ns, obs[i].n, c)
      ensures c in Alerting(ns, obs[i].n, obs[i].now) <==>
                if c == "NotReady" then Incident(ns, obs[i]) else Reports(ns, obs[i].n, c)
    {
      NamesMean(ns, obs[i].n, c);
      AlertingMeans(ns, obs[i], c);
    }
    if c != "NotReady" && obs != [] && Reports(ns, obs[|obs| - 1].n, c) {
      var n := |obs| - 1;
      assert c in Alerting(ns, obs[n].n, obs[n].now);
    }
  }

  /**
    NotReady of a node is active exactly when it has been reported ever since some observation of the node
    staying, at least the grace after its Ready condition changed; any other condition exactly while it was
    last reported.
   */
  lemma {:induction false} NodeFieldsThroughEngine(
      cfg: Config, restored: map<string, int>, ns: Settings, h: seq<Happening>, node: string, c: string)
    requires cfg.resolution && History(cfg, restored, ns, h) && '|' !in node
    requires forall i :: 0 <= i < |h| && h[i].Saw? ==> '|' !in h[i].n.name
    ensures var on, obs := AlertKey(Bar(node, c)) in Play(cfg, restored, ns, h).s.active, ObsOf(h, node);
            on <==> if c == "NotReady" then Lasting(ns, obs) else obs != [] && Reports(ns, obs[|obs| - 1].n, c)
  {
    hide Play, History, AlertKey, Standing, Lasting, Reports, Cleared;
    ConditionThroughEngine(cfg, restored, ns, h, node, c);
    StandingMeans(ns, ObsOf(h, node), c);
  }

  /** A node that every observation saw leaving the cluster never has NotReady active. */
  lemma {:induction false} LeavingIsSilent(
      cfg: Config, restored: map<string, int>, ns: Settings, h: seq<Happening>, node: string)
    requires cfg.resolution && History(cfg, restored, ns, h) && '|' !in node
    requires forall i :: 0 <= i < |h| && h[i].Saw? ==> '|' !in h[i].n.name
    requires forall o :: o in ObsOf(h, node) ==>
               || o.n.deleting || "ToBeDeletedByClusterAutoscaler" in o.n.taints
               || "node.kubernetes.io/unschedulable" in o.n.taints
    ensures AlertKey(Bar(node, "NotReady")) !in Play(cfg, restored, ns, h).s.active
  {
    hide Play, History, AlertKey, Reports, ObsOf;
    NodeFieldsThroughEngine(cfg, restored, ns, h, node, "NotReady");
    forall o | o in ObsOf(h, node) ensures !Incident(ns, o) {
      TaintedLeaves(o.n);
    }
  }

  lemma TaintedLeaves(n: Node)
    ensures Leaving(n) <==>
              || n.deleting || "ToBeDeletedByClusterAutoscaler" in n.taints
              || "node.kubernetes.io/unschedulable" in n.taints
  {
  }

  /** Nor has one whose observations all came earlier than the grace after its Ready condition changed. */
  lemma {:induction false} GraceIsSilent(
      cfg: Config, restored: map<string, int>, ns: Settings, h: seq<Happening>, node: string)
    requires cfg.resolution && History(cfg, restored, ns, h) && '|' !in node
    requires forall i :: 0 <= i < |h| && h[i].Saw? ==> '|' !in h[i].n.name
    requires ns.grace > 0
    requires forall o :: o in ObsOf(h, node) ==>
               exists i: nat :: FirstReadyAt(o.n, i) && o.now - o.n.conditions[i].lastTransition < ns.grace
    ensures AlertKey(Bar(node, "NotReady")) !in Play(cfg, restored, ns, h).s.active
  {
    hide Play, History, AlertKey, Reports, ObsOf, Leaving, FirstReadyAt;
    NodeFieldsThroughEngine(cfg, restored, ns, h, node, "NotReady");
  }

  /**
    After an observation of NotReady on a node that is neither deleted nor tainted and whose Ready condition
    changed at least the grace earlier, the alert is active until a report without it.
   */
  lemma {:induction false} OverdueIsActive(
      cfg: Config, restored: map<string, int>, ns: Settings, h: seq<Happening>, node: string, i: nat, r: nat)
    requires cfg.resolution && History(cfg, restored, ns, h) && '|' !in node
    requires forall j :: 0 <= j < |h| && h[j].Saw? ==> '|' !in h[j].n.name
    requires i < |ObsOf(h, node)|
    requires var o := ObsOf(h, node)[i];
             && !o.n.deleting && "ToBeDeletedByClusterAutoscaler" !in o.n.taints
             && "node.kubernetes.io/unschedulable" !in o.n.taints
             && FirstReadyAt(o.n, r) && !o.n.conditions[r].isTrue
             && o.now - o.n.conditions[r].lastTransition >= ns.grace
    requires "NotReady" in ns.alertOn
    requires forall j :: i <= j < |ObsOf(h, node)| ==> Reports(ns, ObsOf(h, node)[j].n, "NotReady")
    ensures AlertKey(Bar(node, "NotReady")) in Play(cfg, restored, ns, h).s.active
  {
    hide Play, History, AlertKey, ObsOf, Leaving;
    NodeFieldsThroughEngine(cfg, restored, ns, h, node, "NotReady");
    var o := ObsOf(h, node)[i];
    TaintedLeaves(o.n);
    assert CountsAs(o.n.conditions[r], "NotReady") && o.n.conditions[r] in o.n.conditions;
    assert forall q: nat :: FirstReadyAt(o.n, q) ==> q == r;
    assert Incident(ns, o);
  }

  /** A submit quotes the last condition that counts under its name; a resolve names what lapsed. */
  ghost predicate IsNodeCall(n: Node, c: Call) {
    match c
    case Submit(a) => exists i :: IsLatest(n.conditions, i, a.reason) && IsNodeAlert(a, n, n.conditions[i])
    case Clear(a) =>
      && a.monitor == "node_conditions" && a.namespace == "" && a.objectKind == "Node" && a.objectName == n.name
      && a.title == "Node " + n.name + ": " + a.reason + " cleared"
      && a.body == "The condition is no longer reported by the kubelet."
  }

  ghost predicate IsNodeAlert(a: Alert, n: Node, cond: Condition) {
    && a.monitor == "node_conditions" && a.severity == Critical
    && a.namespace == "" && a.objectKind == "Node" && a.objectName == n.name
    && a.title == "Node " + n.name + ": " + a.reason
    && a.body == "Node condition " + a.reason + " reason=" + cond.reason + " message=" + cond.message
  }

  lemma {:induction false} SubmitsSay(ns: Settings, n: Node, order: seq<string>)
    requires forall c :: c in order ==> c in CurrentNames(ns, n)
    ensures forall call :: call in Submits(ns, n, order) ==>
              call.Submit? && call.a.reason in order && IsNodeCall(n, call)
  {
    hide Current;
    if order != [] {
      var front, c := order[..|order| - 1], order[|order| - 1];
      SubmitsSay(ns, n, front);
      CurrentMeans(ns, n.conditions, c);
      assert c in order && c in Current(ns, n.conditions) by {
        assert c in CurrentNames(ns, n);
      }
      var i :| IsLatest(n.conditions, i, c) && Current(ns, n.conditions)[c] == n.conditions[i];
      assert IsNodeAlert(SubmitFor(n, c, n.conditions[i]).a, n, n.conditions[i]);
    }
  }

  lemma {:induction false} ClearsSay(n: Node, order: seq<string>)
    requires forall x :: x in order ==> Cut(x).0 == n.name
    ensures forall call :: call in Clears(order) ==> call.Clear? && IsNodeCall(n, call)
  {
    if order != [] {
      ClearsSay(n, order[..|order| - 1]);
    }
  }

  /** Every call of an observation is worded after the node it observed. */
  lemma ObservationSays(ns: Settings, seen: set<string>, e: Happening)
    requires e.Saw? && Possible(ns, seen, e)
    ensures forall call :: call in Submits(ns, e.n, e.fired) + Clears(e.lapsed) ==> IsNodeCall(e.n, call)
  {
    hide IsNodeCall, ShouldAlert, CurrentNames;
    SubmitsSay(ns, e.n, e.fired);
    ClearsSay(e.n, e.lapsed);
  }
}
