/** The engine seen through one key: a machine with a single cell, which the engine refines. */
module Cells {
  import opened Options
  import opened Alerts
  import opened Dedupe
  import opened EngineSpec

  /** What one key can observe: its entry, its limiter and its own output. */
  datatype Cell = Cell(active: Option<Alert>, last: Option<int>, direct: seq<Delivery>, queued: seq<Alert>)

  datatype CellOp =
    | CellFire(a: Alert, now: int)
    | CellResolve(hint: Alert, now: int)
    | CellSweep(monitor: string, kept: bool, now: int)
    | CellReset

  function CellStep(cfg: Config, c: Cell, op: CellOp): Cell {
    match op
    case CellFire(a, now) =>
      var marked := if cfg.resolution then c.(active := Some(a)) else c;
      if c.last.Some? && now - c.last.value < cfg.window then marked
      else if Digested(cfg, a) then marked.(last := Some(now), queued := c.queued + [a])
      else marked.(last := Some(now), direct := c.direct + [Send(cfg, a, now)])
    case CellResolve(hint, now) =>
      if cfg.resolution && c.active.Some? then
        c.(active := None, direct := c.direct + [Send(cfg, Merged(c.active.value, hint, now), now)])
      else c
    case CellSweep(monitor, kept, now) =>
      if cfg.resolution && c.active.Some? && c.active.value.monitor == monitor && !kept then
        c.(active := None, direct := c.direct + [Send(cfg, Merged(c.active.value, NO_HINT, now), now)])
      else c
    case CellReset => c.(active := None, last := None)
  }

  function CellRun(cfg: Config, c: Cell, ops: seq<CellOp>): Cell {
    if ops == [] then c
    else CellStep(cfg, CellRun(cfg, c, ops[..|ops| - 1]), ops[|ops| - 1])
  }

  // ---- Views of a state and a run through key k ---------------------------

  /** The alerts of all flushed batches, oldest first. */
  function Flushed(sent: seq<Delivery>): seq<Alert> {
    if sent == [] then []
    else
      var d := sent[|sent| - 1];
      if d.Digest? then Flushed(sent[..|sent| - 1]) + d.batch else Flushed(sent[..|sent| - 1])
  }

  /** Everything ever queued for a digest: what was flushed, then what still waits. */
  function Queued(s: EngineState): seq<Alert> {
    Flushed(s.sent) + s.digestQ
  }

  function DirectOf(sent: seq<Delivery>, k: string): seq<Delivery> {
    if sent == [] then []
    else
      var d := sent[|sent| - 1];
      var before := DirectOf(sent[..|sent| - 1], k);
      if d.Direct? && d.alert.Key() == k then before + [d] else before
  }

  function AlertsOf(q: seq<Alert>, k: string): seq<Alert> {
    if q == [] then []
    else
      var before := AlertsOf(q[..|q| - 1], k);
      if q[|q| - 1].Key() == k then before + [q[|q| - 1]] else before
  }

  function CellOf(s: EngineState, k: string): Cell {
    Cell(Lookup(s.active, k), Lookup(s.last, k), DirectOf(s.sent, k), AlertsOf(Queued(s), k))
  }

  /** What operation `op` is for key `k`, if anything. */
  function CellOpOf(op: Op, k: string): Option<CellOp> {
    match op
    case Fire(a, now) => if a.Key() == k then Some(CellFire(a, now)) else None
    case Resolve(hint, now) => if hint.Key() == k then Some(CellResolve(hint, now)) else None
    case Sweep(monitor, keep, order, stamps) => Some(CellSweep(monitor, k in keep, stamps(k)))
    case Tick(now) => None
    case Reset => Some(CellReset)
  }

  function CellOps(ops: seq<Op>, k: string): seq<CellOp> {
    if ops == [] then []
    else
      var before := CellOps(ops[..|ops| - 1], k);
      match CellOpOf(ops[|ops| - 1], k)
      case Some(c) => before + [c]
      case None => before
  }

  // ---- Refinement -----------------------------------------------------------

  lemma SentSnoc(sent: seq<Delivery>, d: Delivery, k: string)
    ensures Flushed(sent + [d]) == (if d.Digest? then Flushed(sent) + d.batch else Flushed(sent))
    ensures DirectOf(sent + [d], k) ==
              (if d.Direct? && d.alert.Key() == k then DirectOf(sent, k) + [d] else DirectOf(sent, k))
  {
    assert (sent + [d])[..|sent|] == sent;
  }

  lemma AlertsSnoc(q: seq<Alert>, a: Alert, k: string)
    ensures AlertsOf(q + [a], k) == if a.Key() == k then AlertsOf(q, k) + [a] else AlertsOf(q, k)
  {
    assert (q + [a])[..|q|] == q;
  }

  /** Retiring `x` is visible through `x` alone. */
  lemma RetireRefines(cfg: Config, s: EngineState, x: string, hint: Alert, now: int, k: string)
    requires x in s.active && s.active[x].Key() == x
    ensures var t := Retire(cfg, s, x, hint, now);
            && Flushed(t.sent) == Flushed(s.sent)
            && CellOf(t, k) == if k != x then CellOf(s, k) else
                 CellOf(s, k).(active := None,
                               direct := DirectOf(s.sent, k) + [Send(cfg, Merged(s.active[x], hint, now), now)])
  {
    var d := Send(cfg, Merged(s.active[x], hint, now), now);
    MergedKeepsKey(s.active[x], hint, now);
    SentSnoc(s.sent, d, k);
  }

  lemma FireRefines(cfg: Config, s: EngineState, a: Alert, now: int, k: string)
    ensures CellOf(FireStep(cfg, s, a, now), k) ==
              if a.Key() == k then CellStep(cfg, CellOf(s, k), CellFire(a, now)) else CellOf(s, k)
  {
    hide Channels, Alert.Key;
    var t := FireStep(cfg, s, a, now);
    if Suppressed(s.last, cfg.window, a.Key(), now) {
      assert Queued(t) == Queued(s);
    } else if Digested(cfg, a) {
      assert Queued(t) == Queued(s) + [a];
      AlertsSnoc(Queued(s), a, k);
    } else {
      SentSnoc(s.sent, Send(cfg, a, now), k);
      assert Queued(t) == Queued(s);
    }
  }

  /** Flushing moves alerts from the queue to the log without changing what was queued. */
  lemma TickRefines(cfg: Config, s: EngineState, now: int, k: string)
    ensures Queued(TickStep(cfg, s, now)) == Queued(s)
    ensures CellOf(TickStep(cfg, s, now), k) == CellOf(s, k)
  {
    var t := TickStep(cfg, s, now);
    if s.digestQ != [] {
      SentSnoc(s.sent, t.sent[|s.sent|], k);
      assert Queued(t) == Queued(s);
    }
  }

  /** A sweep seen through `k`: it drops and announces `k` at most once, wherever `k` was met. */
  lemma {:induction false} SweepRefines(
      cfg: Config, s: EngineState, m: string, keep: set<string>, order: seq<string>, stamps: string -> int, k: string)
    requires cfg.resolution && KeysAgree(s.active)
    ensures var t := SweepStep(cfg, s, m, keep, order, stamps);
            CellOf(t, k) == if k in order then CellStep(cfg, CellOf(s, k), CellSweep(m, k in keep, stamps(k)))
                            else CellOf(s, k)
  {
    hide Channels, Merged, Alert.Key, DirectOf, AlertsOf, Flushed;
    if order != [] {
      var front, x := order[..|order| - 1], order[|order| - 1];
      var t := SweepStep(cfg, s, m, keep, front, stamps);
      SweepRefines(cfg, s, m, keep, front, stamps, k);
      assert k in order <==> k in front || k == x;
      if Drops(t, m, keep, x) {
        assert t.active[x].Key() == x by {
          SweepKeepsKeys(cfg, s, m, keep, front, stamps);
        }
        RetireRefines(cfg, t, x, NO_HINT, stamps(x), k);
      }
    }
  }

  /** One engine operation acts on the cell of `k` as its view through `k` does. */
  lemma StepRefines(cfg: Config, s: EngineState, op: Op, k: string)
    requires KeysAgree(s.active) && Covers(s, op)
    ensures CellOf(Step(cfg, s, op), k) ==
              match CellOpOf(op, k)
              case Some(c) => CellStep(cfg, CellOf(s, k), c)
              case None => CellOf(s, k)
  {
    hide Channels, Merged, Alert.Key, DirectOf, AlertsOf, Flushed, SweepStep, FireStep, TickStep;
    match op
    case Fire(a, now) => FireRefines(cfg, s, a, now, k);
    case Resolve(hint, now) =>
      if hint.Key() in s.active {
        RetireRefines(cfg, s, hint.Key(), hint, now, k);
      }
    case Sweep(m, keep, order, stamps) =>
      if cfg.resolution {
        SweepRefines(cfg, s, m, keep, order, stamps, k);
      }
    case Tick(now) => TickRefines(cfg, s, now, k);
    case Reset =>
  }

  /** The last operation of a run, seen through `k`. */
  lemma SnocRefines(cfg: Config, s: EngineState, ops: seq<Op>, op: Op, k: string)
    requires KeysAgree(s.active) && Feasible(cfg, s, ops + [op])
    ensures CellOf(Run(cfg, s, ops + [op]), k) ==
              match CellOpOf(op, k)
              case Some(c) => CellStep(cfg, CellOf(Run(cfg, s, ops), k), c)
              case None => CellOf(Run(cfg, s, ops), k)
  {
    hide CellOf, CellStep, Step, Feasible, Covers, KeysAgree;
    RunSnoc(cfg, s, ops, op);
    KeysAlwaysAgree(cfg, s, ops);
    StepRefines(cfg, Run(cfg, s, ops), op, k);
  }

  /** The engine refines, for every key at once, the independent single-key machine. */
  lemma {:induction false} RunRefines(cfg: Config, s: EngineState, ops: seq<Op>, k: string)
    requires KeysAgree(s.active) && Feasible(cfg, s, ops)
    ensures CellOf(Run(cfg, s, ops), k) == CellRun(cfg, CellOf(s, k), CellOps(ops, k))
  {
    hide Step, CellStep, CellOf, KeysAgree, Alert.Key, CellOpOf, Covers;
    if ops != [] {
      var front, op := ops[..|ops| - 1], ops[|ops| - 1];
      RunRefines(cfg, s, front, k);
      KeysAlwaysAgree(cfg, s, front);
      StepRefines(cfg, Run(cfg, s, front), op, k);
      var before := CellOps(front, k);
      match CellOpOf(op, k)
      case Some(c) => assert (before + [c])[..|before|] == before;
      case None =>
    }
  }

  /** Two runs that look alike through `k` leave `k` with the same entry, limiter and output. */
  lemma {:induction false} Noninterference(
      cfg: Config, s: EngineState, t: EngineState, p: seq<Op>, q: seq<Op>, k: string)
    requires KeysAgree(s.active) && KeysAgree(t.active)
    requires Feasible(cfg, s, p) && Feasible(cfg, t, q)
    requires CellOf(s, k) == CellOf(t, k) && CellOps(p, k) == CellOps(q, k)
    ensures CellOf(Run(cfg, s, p), k) == CellOf(Run(cfg, t, q), k)
  {
    hide Run, CellRun, CellOf, CellOps, Feasible, KeysAgree;
    RunRefines(cfg, s, p, k);
    RunRefines(cfg, t, q, k);
  }

  /** The run with other keys' fires and resolves removed and every reconcile list filtered to `k`. */
  function Only(ops: seq<Op>, k: string): seq<Op> {
    if ops == [] then []
    else
      var before, op := Only(ops[..|ops| - 1], k), ops[|ops| - 1];
      match op
      case Fire(a, now) => if a.Key() == k then before + [op] else before
      case Resolve(hint, now) => if hint.Key() == k then before + [op] else before
      case Sweep(m, keep, order, stamps) => before + [Sweep(m, keep * {k}, order, stamps)]
      case Tick(now) => before
      case Reset => before + [op]
  }

  lemma {:induction false} OnlyLooksAlike(ops: seq<Op>, k: string)
    ensures CellOps(Only(ops, k), k) == CellOps(ops, k)
  {
    hide Alert.Key;
    if ops != [] {
      var n := |ops| - 1;
      OnlyLooksAlike(ops[..n], k);
      var before, all := Only(ops[..n], k), Only(ops, k);
      if all != before {
        assert all[..|before|] == before;
      }
    }
  }

  /** A sweep removes entries and changes none. */
  lemma {:induction false} SweepShrinks(
      cfg: Config, s: EngineState, m: string, keep: set<string>, order: seq<string>, stamps: string -> int)
    ensures SweepStep(cfg, s, m, keep, order, stamps).active.Keys <= s.active.Keys
  {
    if order != [] {
      SweepShrinks(cfg, s, m, keep, order[..|order| - 1], stamps);
    }
  }

  /** Every step keeps the active keys within those of `s` and the one it fires. */
  lemma StepShrinks(cfg: Config, s: EngineState, op: Op)
    ensures Step(cfg, s, op).active.Keys <= s.active.Keys + (if op.Fire? then {op.a.Key()} else {})
  {
    if op.Sweep? {
      SweepShrinks(cfg, s, op.monitor, op.keep, op.order, op.stamps);
    }
  }

  lemma {:induction false} OnlyStays(cfg: Config, s: EngineState, ops: seq<Op>, k: string)
    requires s.active.Keys <= {k}
    ensures Run(cfg, s, Only(ops, k)).active.Keys <= {k}
  {
    if ops != [] {
      var n := |ops| - 1;
      var before, all := Only(ops[..n], k), Only(ops, k);
      OnlyStays(cfg, s, ops[..n], k);
      if all != before {
        RunSnoc(cfg, s, before, all[|before|]);
        StepShrinks(cfg, Run(cfg, s, before), all[|before|]);
      }
    }
  }

  lemma {:induction false} OnlyFeasible(cfg: Config, s: EngineState, ops: seq<Op>, k: string)
    requires KeysAgree(s.active) && s.active.Keys <= {k} && Feasible(cfg, s, ops)
    ensures Feasible(cfg, s, Only(ops, k))
  {
    hide Step, CellStep, Alert.Key;
    if ops != [] {
      var n := |ops| - 1;
      var before, all := Only(ops[..n], k), Only(ops, k);
      OnlyFeasible(cfg, s, ops[..n], k);
      if all != before {
        var r, t := Run(cfg, s, ops[..n]), Run(cfg, s, before);
        OnlyStays(cfg, s, ops[..n], k);
        OnlyLooksAlike(ops[..n], k);
        Noninterference(cfg, s, s, ops[..n], before, k);
        assert CellOf(r, k).active == CellOf(t, k).active;
        RunSnoc(cfg, s, before, all[|before|]);
      }
    }
  }

  /**
    What the engine keeps, sends and queues for `k` is what it does when only `k`'s inputs are given,
    from any state in which no other alert is active, as when the engine starts.
   */
  lemma {:induction false} KeyIndependence(cfg: Config, s: EngineState, ops: seq<Op>, k: string)
    requires KeysAgree(s.active) && s.active.Keys <= {k} && Feasible(cfg, s, ops)
    ensures Feasible(cfg, s, Only(ops, k))
    ensures CellOf(Run(cfg, s, ops), k) == CellOf(Run(cfg, s, Only(ops, k)), k)
  {
    OnlyFeasible(cfg, s, ops, k);
    OnlyLooksAlike(ops, k);
    Noninterference(cfg, s, s, ops, Only(ops, k), k);
  }
}
