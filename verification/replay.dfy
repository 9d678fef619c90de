/** What the active set means: a replay of the history, and the meaning of a reconcile. */
module Replay {
  import opened Options
  import opened Alerts
  import opened Dedupe
  import opened EngineSpec
  import opened Cells

  ghost predicate Fires(op: Op, k: string) {
    op.Fire? && op.a.Key() == k
  }

  /** The operations that end an entry of `k` put there by `monitor`. */
  ghost predicate Clears(op: Op, k: string, monitor: string) {
    match op
    case Fire(_, _) => false
    case Resolve(hint, _) => hint.Key() == k
    case Sweep(m, keep, _, _) => m == monitor && k !in keep
    case Tick(_) => false
    case Reset => true
  }

  /** Operation `i` is the last fire of `k`, it carried `a`, and nothing has cleared it since. */
  ghost predicate Explains(ops: seq<Op>, i: nat, k: string, a: Alert) {
    && i < |ops| && Fires(ops[i], k) && ops[i].a == a
    && forall j :: i < j < |ops| ==> !Fires(ops[j], k) && !Clears(ops[j], k, a.monitor)
  }

  /** How one operation changes the entry of `k`. */
  lemma ActiveStep(cfg: Config, s: EngineState, op: Op, k: string)
    requires cfg.resolution && KeysAgree(s.active) && Covers(s, op)
    ensures Lookup(Step(cfg, s, op).active, k) ==
              if Fires(op, k) then Some(op.a)
              else if k in s.active && Clears(op, k, s.active[k].monitor) then None
              else Lookup(s.active, k)
  {
    StepRefines(cfg, s, op, k);
    assert Lookup(s.active, k) == CellOf(s, k).active;
    assert Lookup(Step(cfg, s, op).active, k) == CellOf(Step(cfg, s, op), k).active;
  }

  /** From a start with nothing active, `a` is active under `k` exactly when some fire explains it. */
  lemma {:induction false} StateIsReplay(cfg: Config, s: EngineState, ops: seq<Op>, k: string, a: Alert)
    requires cfg.resolution && s.active == map[] && Feasible(cfg, s, ops)
    ensures Lookup(Run(cfg, s, ops).active, k) == Some(a) <==> exists i: nat :: Explains(ops, i, k, a)
  {
    if ops != [] {
      var n := |ops| - 1;
      var front, op, t := ops[..n], ops[n], Run(cfg, s, ops[..n]);
      StateIsReplay(cfg, s, front, k, a);
      KeysAlwaysAgree(cfg, s, front);
      ActiveStep(cfg, t, op, k);
      if Fires(op, k) {
        assert op.a == a ==> Explains(ops, n, k, a);
        assert forall i: nat :: Explains(ops, i, k, a) ==> i == n;
      } else {
        var stays := !Clears(op, k, a.monitor);
        forall i: nat ensures Explains(ops, i, k, a) <==> Explains(front, i, k, a) && stays {
          ExplainsSnoc(ops, i, k, a);
        }
        if stays && Lookup(t.active, k) == Some(a) {
          var i: nat :| Explains(front, i, k, a);
          assert Explains(ops, i, k, a);
        }
      }
    }
  }

  lemma ExplainsSnoc(ops: seq<Op>, i: nat, k: string, a: Alert)
    requires ops != [] && !Fires(ops[|ops| - 1], k)
    ensures Explains(ops, i, k, a) <==>
              Explains(ops[..|ops| - 1], i, k, a) && !Clears(ops[|ops| - 1], k, a.monitor)
  {
    var n := |ops| - 1;
    if Explains(ops[..n], i, k, a) && !Clears(ops[n], k, a.monitor) {
      forall j | i < j < |ops| ensures !Fires(ops[j], k) && !Clears(ops[j], k, a.monitor) {
        assert j < n ==> ops[..n][j] == ops[j];
      }
    }
    if Explains(ops, i, k, a) {
      assert i < n && ops[..n][i] == ops[i];
    }
  }

  /** With resolution off, an empty active set stays empty and nothing is ever announced as resolved. */
  lemma {:induction false} DisabledNeverResolves(cfg: Config, s: EngineState, ops: seq<Op>)
    requires !cfg.resolution && s.active == map[]
    requires forall i :: 0 <= i < |ops| && ops[i].Fire? ==> ops[i].a.state == Firing
    ensures var t := Run(cfg, s, ops);
            && t.active == map[] && s.sent <= t.sent
            && forall i :: |s.sent| <= i < |t.sent| ==> t.sent[i].alert.state == Firing
  {
    if ops != [] {
      var n := |ops| - 1;
      DisabledNeverResolves(cfg, s, ops[..n]);
      assert ops[n].Fire? ==> ops[n].a.state == Firing;
    }
  }

  // ---- Reconcile ---------------------------------------------------------

  /** The last alert of the list with key `k`. */
  function LatestOf(firing: seq<Alert>, k: string): Option<Alert> {
    if firing == [] then None
    else if firing[|firing| - 1].Key() == k then Some(firing[|firing| - 1])
    else LatestOf(firing[..|firing| - 1], k)
  }

  lemma {:induction false} LatestIsThere(firing: seq<Alert>, k: string)
    ensures LatestOf(firing, k).Some? <==> k in KeysOf(firing)
    ensures LatestOf(firing, k).Some? ==> LatestOf(firing, k).value in firing && LatestOf(firing, k).value.Key() == k
  {
    hide Alert.Key;
    if firing != [] {
      var n := |firing| - 1;
      LatestIsThere(firing[..n], k);
      assert KeysOf(firing) == KeysOf(firing[..n]) + {firing[n].Key()} by {
        forall x | x in KeysOf(firing) ensures x in KeysOf(firing[..n]) + {firing[n].Key()} {
          var i :| 0 <= i < |firing| && firing[i].Key() == x;
          assert i < n ==> firing[..n][i].Key() == x;
        }
        forall x | x in KeysOf(firing[..n]) ensures x in KeysOf(firing) {
          var i :| 0 <= i < n && firing[..n][i].Key() == x;
          assert firing[i].Key() == x;
        }
      }
    }
  }

  /** The fires of a list leave every key outside the list alone and mark the others with their latest alert. */
  lemma {:induction false} FireOpsEffect(cfg: Config, s: EngineState, firing: seq<Alert>, clock: nat -> int, k: string)
    requires cfg.resolution
    ensures var t := Run(cfg, s, FireOps(firing, clock));
            && Feasible(cfg, s, FireOps(firing, clock))
            && (LatestOf(firing, k) == None ==> CellOf(t, k) == CellOf(s, k))
            && (LatestOf(firing, k).Some? ==> Lookup(t.active, k) == LatestOf(firing, k) && k in t.last)
  {
    hide Alert.Key, Send, DirectOf, AlertsOf, Flushed;
    if firing != [] {
      var n := |firing| - 1;
      var ops := FireOps(firing[..n], clock);
      FireOpsEffect(cfg, s, firing[..n], clock, k);
      RunSnoc(cfg, s, ops, Fire(firing[n], clock(n)));
      FireRefines(cfg, Run(cfg, s, ops), firing[n], clock(n), k);
    }
  }

  lemma SweepCell(
      cfg: Config, s: EngineState, ops: seq<Op>, m: string, keep: set<string>, order: seq<string>,
      stamps: string -> int, k: string)
    requires KeysAgree(s.active) && Feasible(cfg, s, ops + [Sweep(m, keep, order, stamps)])
    ensures CellOf(Run(cfg, s, ops + [Sweep(m, keep, order, stamps)]), k) ==
              CellStep(cfg, CellOf(Run(cfg, s, ops), k), CellSweep(m, k in keep, stamps(k)))
  {
    hide Run, Feasible, CellOf, CellStep;
    SnocRefines(cfg, s, ops, Sweep(m, keep, order, stamps), k);
  }

  /** A reconcile seen through `k`: its fires, then one sweep of the cell. */
  lemma ReconcileCell(
      cfg: Config, s: EngineState, m: string, firing: seq<Alert>, clock: nat -> int, order: seq<string>,
      stamps: string -> int, k: string)
    requires cfg.resolution && KeysAgree(s.active)
    requires Feasible(cfg, s, ReconcileOps(m, firing, clock, order, stamps))
    ensures CellOf(Run(cfg, s, ReconcileOps(m, firing, clock, order, stamps)), k) ==
              CellStep(cfg, CellOf(Run(cfg, s, FireOps(firing, clock)), k),
                       CellSweep(m, k in KeysOf(firing), stamps(k)))
  {
    hide Run, Feasible, CellOf, CellStep, FireOps, KeysOf, KeysAgree;
    SweepCell(cfg, s, FireOps(firing, clock), m, KeysOf(firing), order, stamps, k);
  }

  /** The entry of `k` ends with exactly one message, its farewell. */
  ghost predicate EndsWithFarewell(cfg: Config, s: EngineState, t: EngineState, k: string, stamps: string -> int)
    requires k in s.active
  {
    CellOf(t, k) == CellOf(s, k).(active := None, direct := DirectOf(s.sent, k) + [Farewell(cfg, s.active[k], stamps)])
  }

  /**
    After a reconcile of `m` with alerts of `m`, the keys `m` owns are the listed ones, each under
    its latest alert and with no message but those of its fires; any other entry of `m` is gone with
    exactly one resolved message; every other key is as before. The order of the walk does not show.
   */
  lemma ReconcileMeaning(
      cfg: Config, s: EngineState, m: string, firing: seq<Alert>, clock: nat -> int, order: seq<string>,
      stamps: string -> int, k: string)
    requires cfg.resolution && KeysAgree(s.active)
    requires forall i :: 0 <= i < |firing| ==> firing[i].monitor == m
    requires Feasible(cfg, s, ReconcileOps(m, firing, clock, order, stamps))
    ensures var t := Run(cfg, s, ReconcileOps(m, firing, clock, order, stamps));
            && (k in t.active && t.active[k].monitor == m <==> k in KeysOf(firing))
            && (if k in KeysOf(firing) then
                  && k in t.last && Lookup(t.active, k) == LatestOf(firing, k)
                  && CellOf(t, k) == CellOf(Run(cfg, s, FireOps(firing, clock)), k)
                else if k in s.active && s.active[k].monitor == m then EndsWithFarewell(cfg, s, t, k, stamps)
                else CellOf(t, k) == CellOf(s, k))
  {
    hide Run, Feasible, Alert.Key, KeysOf, DirectOf, AlertsOf, Queued, ReconcileOps, FireOps, LatestOf;
    var t := Run(cfg, s, ReconcileOps(m, firing, clock, order, stamps));
    ReconcileCell(cfg, s, m, firing, clock, order, stamps, k);
    FireOpsEffect(cfg, s, firing, clock, k);
    LatestIsThere(firing, k);
    var mid := Run(cfg, s, FireOps(firing, clock));
    assert CellOf(t, k).active == Lookup(t.active, k) && CellOf(t, k).last == Lookup(t.last, k);
    assert CellOf(mid, k).active == Lookup(mid.active, k) && CellOf(mid, k).last == Lookup(mid.last, k);
    assert CellOf(s, k).active == Lookup(s.active, k);
  }

  lemma SuppressedFire(cfg: Config, s: EngineState, a: Alert, now: int)
    requires cfg.resolution && Suppressed(s.last, cfg.window, a.Key(), now)
    ensures FireStep(cfg, s, a, now) == s.(active := s.active[a.Key() := a])
  {
    hide Alert.Key, Send;
  }

  /** Fires inside their window send, queue and stamp nothing. */
  lemma {:induction false} RefiresAreSilent(cfg: Config, s: EngineState, firing: seq<Alert>, clock: nat -> int)
    requires cfg.resolution
    requires forall i :: 0 <= i < |firing| ==> Suppressed(s.last, cfg.window, firing[i].Key(), clock(i))
    ensures var t := Run(cfg, s, FireOps(firing, clock));
            t == s.(active := t.active)
  {
    hide Alert.Key, FireStep, Suppressed, Feasible, Covers;
    if firing != [] {
      var n := |firing| - 1;
      forall i | 0 <= i < n ensures Suppressed(s.last, cfg.window, firing[..n][i].Key(), clock(i)) {
        assert firing[..n][i] == firing[i];
      }
      RefiresAreSilent(cfg, s, firing[..n], clock);
      var mid := Run(cfg, s, FireOps(firing[..n], clock));
      RunSnoc(cfg, s, FireOps(firing[..n], clock), Fire(firing[n], clock(n)));
      SuppressedFire(cfg, mid, firing[n], clock(n));
    }
  }

  lemma {:induction false} SweepOfNothing(
      cfg: Config, s: EngineState, m: string, keep: set<string>, order: seq<string>, stamps: string -> int)
    requires forall k :: k in s.active && s.active[k].monitor == m ==> k in keep
    ensures SweepStep(cfg, s, m, keep, order, stamps) == s
  {
    if order != [] {
      SweepOfNothing(cfg, s, m, keep, order[..|order| - 1], stamps);
    }
  }

  /** Repeating a reconcile before any listed key's window ends sends and queues nothing. */
  lemma ReconcileTwiceIsSilent(
      cfg: Config, s: EngineState, m: string, firing: seq<Alert>,
      clock: nat -> int, order: seq<string>, stamps: string -> int,
      clock2: nat -> int, order2: seq<string>, stamps2: string -> int)
    requires cfg.resolution && KeysAgree(s.active)
    requires forall i :: 0 <= i < |firing| ==> firing[i].monitor == m
    requires Feasible(cfg, s, ReconcileOps(m, firing, clock, order, stamps))
    requires var t := Run(cfg, s, ReconcileOps(m, firing, clock, order, stamps));
             forall i :: 0 <= i < |firing| && firing[i].Key() in t.last ==>
               clock2(i) - t.last[firing[i].Key()] < cfg.window
    ensures var t := Run(cfg, s, ReconcileOps(m, firing, clock, order, stamps));
            Run(cfg, t, ReconcileOps(m, firing, clock2, order2, stamps2)) == t
  {
    var t := Run(cfg, s, ReconcileOps(m, firing, clock, order, stamps));
    forall k ensures (k in KeysOf(firing) ==> k in t.last && Lookup(t.active, k) == LatestOf(firing, k))
                  && (k in t.active && t.active[k].monitor == m ==> k in KeysOf(firing))
    {
      ReconcileMeaning(cfg, s, m, firing, clock, order, stamps, k);
    }
    forall i | 0 <= i < |firing| ensures Suppressed(t.last, cfg.window, firing[i].Key(), clock2(i)) {
      assert firing[i].Key() in KeysOf(firing);
    }
    RefiresAreSilent(cfg, t, firing, clock2);
    var mid := Run(cfg, t, FireOps(firing, clock2));
    forall k ensures Lookup(mid.active, k) == Lookup(t.active, k) {
      FireOpsEffect(cfg, t, firing, clock2, k);
      LatestIsThere(firing, k);
      assert Lookup(mid.active, k) == CellOf(mid, k).active && Lookup(t.active, k) == CellOf(t, k).active;
    }
    SameLookups(mid.active, t.active);
    SweepOfNothing(cfg, mid, m, KeysOf(firing), order2, stamps2);
    RunSnoc(cfg, t, FireOps(firing, clock2), Sweep(m, KeysOf(firing), order2, stamps2));
  }

  lemma SameLookups<V>(m: map<string, V>, n: map<string, V>)
    requires forall k :: Lookup(m, k) == Lookup(n, k)
    ensures m == n
  {
    forall k ensures k in m <==> k in n {
      assert Lookup(m, k) == Lookup(n, k);
    }
    forall k | k in m ensures m[k] == n[k] {
      assert Lookup(m, k) == Lookup(n, k);
    }
  }

  // ---- Digest conservation ---------------------------------------------------

  /** The limiter on its own: only fires and resets concern it. */
  function LimiterAfter(window: int, last: map<string, int>, ops: seq<Op>): map<string, int> {
    if ops == [] then last
    else
      var before := LimiterAfter(window, last, ops[..|ops| - 1]);
      match ops[|ops| - 1]
      case Fire(a, now) => AfterAttempt(before, window, a.Key(), now)
      case Reset => map[]
      case _ => before
  }

  /** The accepted alerts of a run, oldest first, that are meant (or not meant) for the digest. */
  function Accepted(cfg: Config, last: map<string, int>, ops: seq<Op>, digested: bool): seq<Alert> {
    if ops == [] then []
    else
      var before, op := Accepted(cfg, last, ops[..|ops| - 1], digested), ops[|ops| - 1];
      if op.Fire? && !Suppressed(LimiterAfter(cfg.window, last, ops[..|ops| - 1]), cfg.window, op.a.Key(), op.now)
         && Digested(cfg, op.a) == digested
      then before + [op.a] else before
  }

  /** The alerts sent as messages of their own while firing, oldest first. */
  function SentFiring(sent: seq<Delivery>): seq<Alert> {
    if sent == [] then []
    else
      var d := sent[|sent| - 1];
      if d.Direct? && d.alert.state == Firing then SentFiring(sent[..|sent| - 1]) + [d.alert]
      else SentFiring(sent[..|sent| - 1])
  }

  /** The deliveries that are not digests. */
  function Directs(sent: seq<Delivery>): seq<Delivery> {
    if sent == [] then []
    else
      var d := sent[|sent| - 1];
      if d.Direct? then Directs(sent[..|sent| - 1]) + [d] else Directs(sent[..|sent| - 1])
  }

  lemma LogSnoc(sent: seq<Delivery>, d: Delivery)
    ensures Flushed(sent + [d]) == (if d.Digest? then Flushed(sent) + d.batch else Flushed(sent))
    ensures SentFiring(sent + [d]) ==
              (if d.Direct? && d.alert.state == Firing then SentFiring(sent) + [d.alert] else SentFiring(sent))
    ensures Directs(sent + [d]) == (if d.Direct? then Directs(sent) + [d] else Directs(sent))
  {
    assert (sent + [d])[..|sent|] == sent;
  }

  lemma {:induction false} SweepKeepsQueue(
      cfg: Config, s: EngineState, m: string, keep: set<string>, order: seq<string>, stamps: string -> int)
    ensures var t := SweepStep(cfg, s, m, keep, order, stamps);
            t.last == s.last && Queued(t) == Queued(s) && SentFiring(t.sent) == SentFiring(s.sent)
  {
    if order != [] {
      var front, x := order[..|order| - 1], order[|order| - 1];
      SweepKeepsQueue(cfg, s, m, keep, front, stamps);
      var t := SweepStep(cfg, s, m, keep, front, stamps);
      if Drops(t, m, keep, x) {
        LogSnoc(t.sent, Farewell(cfg, t.active[x], stamps));
      }
    }
  }

  lemma FireConserves(cfg: Config, s: EngineState, a: Alert, now: int)
    requires a.state == Firing
    ensures var t := FireStep(cfg, s, a, now);
            var accepted := !Suppressed(s.last, cfg.window, a.Key(), now);
            && t.last == AfterAttempt(s.last, cfg.window, a.Key(), now)
            && Queued(t) == (if accepted && Digested(cfg, a) then Queued(s) + [a] else Queued(s))
            && SentFiring(t.sent) ==
                 (if accepted && !Digested(cfg, a) then SentFiring(s.sent) + [a] else SentFiring(s.sent))
  {
    hide Channels, Alert.Key, Suppressed, Digested, AfterAttempt;
    LogSnoc(s.sent, Send(cfg, a, now));
    assert Flushed(s.sent) + (s.digestQ + [a]) == Queued(s) + [a];
  }

  lemma ResolveConserves(cfg: Config, s: EngineState, hint: Alert, now: int)
    ensures var t := ResolveStep(cfg, s, hint, now);
            t.last == s.last && Queued(t) == Queued(s) && SentFiring(t.sent) == SentFiring(s.sent)
  {
    hide Channels, Alert.Key;
    if hint.Key() in s.active {
      LogSnoc(s.sent, Send(cfg, Merged(s.active[hint.Key()], hint, now), now));
    }
  }

  lemma TickConserves(cfg: Config, s: EngineState, now: int)
    ensures var t := TickStep(cfg, s, now);
            t.last == s.last && Queued(t) == Queued(s) && SentFiring(t.sent) == SentFiring(s.sent)
  {
    hide Channels, DigestAlert;
    if s.digestQ != [] {
      LogSnoc(s.sent, TickStep(cfg, s, now).sent[|s.sent|]);
      TickRefines(cfg, s, now, "");
    }
  }

  /** One operation queues or sends an accepted alert once, and nothing else. */
  lemma StepConserves(cfg: Config, s: EngineState, op: Op)
    requires op.Fire? ==> op.a.state == Firing
    ensures var t := Step(cfg, s, op);
            var accepted := op.Fire? && !Suppressed(s.last, cfg.window, op.a.Key(), op.now);
            && t.last == (match op case Fire(a, now) => AfterAttempt(s.last, cfg.window, a.Key(), now)
                                   case Reset => map[]
                                   case _ => s.last)
            && Queued(t) == (if accepted && Digested(cfg, op.a) then Queued(s) + [op.a] else Queued(s))
            && SentFiring(t.sent) ==
                 (if accepted && !Digested(cfg, op.a) then SentFiring(s.sent) + [op.a] else SentFiring(s.sent))
  {
    hide FireStep, ResolveStep, SweepStep, TickStep, Alert.Key, Suppressed, Digested, AfterAttempt, SentFiring, Flushed;
    match op
    case Fire(a, now) => FireConserves(cfg, s, a, now);
    case Resolve(hint, now) => ResolveConserves(cfg, s, hint, now);
    case Sweep(m, keep, order, stamps) => SweepKeepsQueue(cfg, s, m, keep, order, stamps);
    case Tick(now) => TickConserves(cfg, s, now);
    case Reset =>
  }

  /**
    Every accepted alert is sent once on its own or queued once, in order: the flushed batches
    followed by the waiting queue are exactly the accepted digest alerts.
   */
  lemma {:induction false} DigestConserves(cfg: Config, s: EngineState, ops: seq<Op>)
    requires forall i :: 0 <= i < |ops| && ops[i].Fire? ==> ops[i].a.state == Firing
    ensures var t := Run(cfg, s, ops);
            && t.last == LimiterAfter(cfg.window, s.last, ops)
            && Flushed(t.sent) + t.digestQ == Queued(s) + Accepted(cfg, s.last, ops, true)
            && SentFiring(t.sent) == SentFiring(s.sent) + Accepted(cfg, s.last, ops, false)
  {
    hide Step, Alert.Key, SentFiring, Flushed, Suppressed, AfterAttempt, Digested;
    if ops != [] {
      var n := |ops| - 1;
      DigestConserves(cfg, s, ops[..n]);
      assert ops[n].Fire? ==> ops[n].a.state == Firing;
      StepConserves(cfg, Run(cfg, s, ops[..n]), ops[n]);
    }
  }

  /** Equal up to when the digest was flushed. */
  ghost predicate SameButFlushes(s: EngineState, t: EngineState) {
    s.active == t.active && s.last == t.last && Queued(s) == Queued(t) && Directs(s.sent) == Directs(t.sent)
  }

  lemma {:induction false} SweepIgnoresFlushes(
      cfg: Config, s: EngineState, t: EngineState, m: string, keep: set<string>, order: seq<string>,
      stamps: string -> int)
    requires SameButFlushes(s, t)
    ensures SameButFlushes(SweepStep(cfg, s, m, keep, order, stamps), SweepStep(cfg, t, m, keep, order, stamps))
  {
    if order != [] {
      var front, x := order[..|order| - 1], order[|order| - 1];
      SweepIgnoresFlushes(cfg, s, t, m, keep, front, stamps);
      var s1, t1 := SweepStep(cfg, s, m, keep, front, stamps), SweepStep(cfg, t, m, keep, front, stamps);
      if Drops(s1, m, keep, x) {
        var d := Farewell(cfg, s1.active[x], stamps);
        LogSnoc(s1.sent, d);
        LogSnoc(t1.sent, d);
      }
    }
  }

  lemma FireIgnoresFlushes(cfg: Config, s: EngineState, t: EngineState, a: Alert, now: int)
    requires SameButFlushes(s, t)
    ensures SameButFlushes(FireStep(cfg, s, a, now), FireStep(cfg, t, a, now))
  {
    hide Channels, Alert.Key, Digested;
    LogSnoc(s.sent, Send(cfg, a, now));
    LogSnoc(t.sent, Send(cfg, a, now));
    assert Flushed(s.sent) + (s.digestQ + [a]) == Queued(s) + [a];
    assert Flushed(t.sent) + (t.digestQ + [a]) == Queued(t) + [a];
  }

  lemma ResolveIgnoresFlushes(cfg: Config, s: EngineState, t: EngineState, hint: Alert, now: int)
    requires SameButFlushes(s, t)
    ensures SameButFlushes(ResolveStep(cfg, s, hint, now), ResolveStep(cfg, t, hint, now))
  {
    hide Channels, Merged, Alert.Key;
    if hint.Key() in s.active {
      var d := Send(cfg, Merged(s.active[hint.Key()], hint, now), now);
      LogSnoc(s.sent, d);
      LogSnoc(t.sent, d);
    }
  }

  lemma StepIgnoresFlushes(cfg: Config, s: EngineState, t: EngineState, op: Op)
    requires SameButFlushes(s, t) && !op.Tick?
    ensures SameButFlushes(Step(cfg, s, op), Step(cfg, t, op))
  {
    hide FireStep, ResolveStep, SweepStep, Flushed;
    match op
    case Fire(a, now) => FireIgnoresFlushes(cfg, s, t, a, now);
    case Resolve(hint, now) => ResolveIgnoresFlushes(cfg, s, t, hint, now);
    case Sweep(m, keep, order, stamps) => SweepIgnoresFlushes(cfg, s, t, m, keep, order, stamps);
    case Reset =>
  }

  lemma SameAsItself(s: EngineState)
    ensures SameButFlushes(s, s)
  {
  }

  lemma TickIsFlush(cfg: Config, s: EngineState, t: EngineState, now: int)
    requires SameButFlushes(s, t)
    ensures SameButFlushes(Step(cfg, s, Tick(now)), t)
  {
    hide DigestAlert, Channels;
    TickRefines(cfg, s, now, "");
    if s.digestQ != [] {
      LogSnoc(s.sent, TickStep(cfg, s, now).sent[|s.sent|]);
    }
  }

  function WithoutTicks(ops: seq<Op>): seq<Op> {
    if ops == [] then []
    else if ops[|ops| - 1].Tick? then WithoutTicks(ops[..|ops| - 1])
    else WithoutTicks(ops[..|ops| - 1]) + [ops[|ops| - 1]]
  }

  /** Dropping every tick changes neither the state nor the direct sends nor what was queued. */
  lemma {:induction false} TicksDoNotMatter(cfg: Config, s: EngineState, ops: seq<Op>)
    ensures SameButFlushes(Run(cfg, s, ops), Run(cfg, s, WithoutTicks(ops)))
  {
    hide Step, SameButFlushes;
    if ops == [] {
      SameAsItself(s);
    } else {
      var n := |ops| - 1;
      TicksDoNotMatter(cfg, s, ops[..n]);
      var mid := Run(cfg, s, ops[..n]);
      if ops[n].Tick? {
        TickIsFlush(cfg, mid, Run(cfg, s, WithoutTicks(ops[..n])), ops[n].now);
      } else {
        RunSnoc(cfg, s, WithoutTicks(ops[..n]), ops[n]);
        StepIgnoresFlushes(cfg, mid, Run(cfg, s, WithoutTicks(ops[..n])), ops[n]);
      }
    }
  }

  /** So two runs that differ only in their ticks end alike. */
  lemma TicksMayMove(cfg: Config, s: EngineState, p: seq<Op>, q: seq<Op>)
    requires WithoutTicks(p) == WithoutTicks(q)
    ensures SameButFlushes(Run(cfg, s, p), Run(cfg, s, q))
  {
    TicksDoNotMatter(cfg, s, p);
    TicksDoNotMatter(cfg, s, q);
  }
}
