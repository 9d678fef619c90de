/** When the end of an alert is announced although no fire of it passed the limiter. */
module Farewells {
  import opened Options
  import opened Alerts
  import opened Dedupe
  import opened EngineSpec
  import opened Cells
  import opened Replay
  import opened Submitter

  /** The cell of a key before operation `j` of a run that starts from `start`. */
  function At(cfg: Config, start: Cell, ops: seq<CellOp>, j: nat): Cell
    requires j <= |ops|
  {
    if j == 0 then start else CellStep(cfg, At(cfg, start, ops, j - 1), ops[j - 1])
  }

  /** Operation `j` is a fire that passes the limiter. */
  ghost predicate Accepts(cfg: Config, start: Cell, ops: seq<CellOp>, j: nat)
    requires j < |ops|
  {
    var last := At(cfg, start, ops, j).last;
    ops[j].CellFire? && (last.Some? ==> ops[j].now - last.value >= cfg.window)
  }

  /** Operation `i` makes the alert active. */
  ghost predicate Starts(cfg: Config, start: Cell, ops: seq<CellOp>, i: nat)
    requires i < |ops|
  {
    At(cfg, start, ops, i).active.None? && At(cfg, start, ops, i + 1).active.Some?
  }

  /** Operation `e` ends the alert, and not by a Reset. */
  ghost predicate Ends(cfg: Config, start: Cell, ops: seq<CellOp>, e: nat)
    requires e < |ops|
  {
    At(cfg, start, ops, e).active.Some? && At(cfg, start, ops, e + 1).active.None? && !ops[e].CellReset?
  }

  /** The alert is active without a break after `i` up to `e`. */
  ghost predicate ActiveFrom(cfg: Config, start: Cell, ops: seq<CellOp>, i: nat, e: nat)
    requires e <= |ops|
  {
    i < e && Starts(cfg, start, ops, i) && forall j :: i < j <= e ==> At(cfg, start, ops, j).active.Some?
  }

  /** One activation: started by `i` and ended by `e`. */
  ghost predicate Spans(cfg: Config, start: Cell, ops: seq<CellOp>, i: nat, e: nat)
    requires e < |ops|
  {
    ActiveFrom(cfg, start, ops, i, e) && Ends(cfg, start, ops, e)
  }

  /** Some fire of the activation passed the limiter. */
  ghost predicate Announced(cfg: Config, start: Cell, ops: seq<CellOp>, i: nat, e: nat)
    requires e <= |ops|
  {
    exists j :: i <= j < e && Accepts(cfg, start, ops, j)
  }

  /** `p` is the last fire before `i` to pass the limiter, and no Reset lies between. */
  ghost predicate LastAccept(cfg: Config, start: Cell, ops: seq<CellOp>, p: nat, i: nat)
    requires i <= |ops|
  {
    p < i && Accepts(cfg, start, ops, p) && forall j :: p < j < i ==> !Accepts(cfg, start, ops, j) && !ops[j].CellReset?
  }

  /** `t` is the last accepted time before `i` with no Reset since: of this run, or restored at its start. */
  ghost predicate Known(cfg: Config, start: Cell, ops: seq<CellOp>, t: int, i: nat)
    requires i <= |ops|
  {
    || (exists p: nat :: LastAccept(cfg, start, ops, p, i) && ops[p].now == t)
    || (start.last == Some(t) && forall j :: 0 <= j < i ==> !Accepts(cfg, start, ops, j) && !ops[j].CellReset?)
  }

  ghost predicate LastFire(ops: seq<CellOp>, i: nat, l: nat, e: nat)
    requires e <= |ops|
  {
    i <= l < e && ops[l].CellFire? && forall j :: l < j < e ==> !ops[j].CellFire?
  }

  /** The last fire of the activation came within the window of the last accepted time before the activation. */
  ghost predicate Covered(cfg: Config, start: Cell, ops: seq<CellOp>, i: nat, e: nat)
    requires e <= |ops|
  {
    exists t: int, l: nat ::
      LastFire(ops, i, l, e) && Known(cfg, start, ops, t, i) && ops[l].now - t < cfg.window
  }

  /** Fire times do not decrease. */
  ghost predicate FiresOrdered(ops: seq<CellOp>) {
    forall i, j :: 0 <= i < j < |ops| && ops[i].CellFire? && ops[j].CellFire? ==> ops[i].now <= ops[j].now
  }

  lemma {:induction false} RunIsAt(cfg: Config, start: Cell, ops: seq<CellOp>, j: nat)
    requires j <= |ops|
    ensures CellRun(cfg, start, ops[..j]) == At(cfg, start, ops, j)
  {
    hide CellStep;
    if j > 0 {
      RunIsAt(cfg, start, ops, j - 1);
      assert ops[..j][..j - 1] == ops[..j - 1];
    }
  }

  /** Between accepted fires and Resets the limiter stays as it is. */
  lemma {:induction false} LimiterStays(cfg: Config, start: Cell, ops: seq<CellOp>, i: nat, j: nat)
    requires i <= j <= |ops|
    requires forall m :: i <= m < j ==> !Accepts(cfg, start, ops, m) && !ops[m].CellReset?
    ensures At(cfg, start, ops, j).last == At(cfg, start, ops, i).last
  {
    if i < j {
      LimiterStays(cfg, start, ops, i, j - 1);
      assert !Accepts(cfg, start, ops, j - 1);
    }
  }

  lemma AcceptStamps(cfg: Config, start: Cell, ops: seq<CellOp>, p: nat)
    requires p < |ops| && Accepts(cfg, start, ops, p)
    ensures At(cfg, start, ops, p + 1).last == Some(ops[p].now)
  {
  }

  lemma KnownNext(cfg: Config, start: Cell, ops: seq<CellOp>, t: int, i: nat)
    requires i < |ops| && !Accepts(cfg, start, ops, i) && !ops[i].CellReset? && Known(cfg, start, ops, t, i)
    ensures Known(cfg, start, ops, t, i + 1)
  {
    hide At;
    if p: nat :| LastAccept(cfg, start, ops, p, i) && ops[p].now == t {
      assert LastAccept(cfg, start, ops, p, i + 1);
    }
  }

  /** A time that the limiter holds after an operation was stamped by it or held before. */
  lemma StampedOrHeld(cfg: Config, start: Cell, ops: seq<CellOp>, i: nat)
    requires i < |ops| && At(cfg, start, ops, i + 1).last.Some?
    ensures if Accepts(cfg, start, ops, i) then At(cfg, start, ops, i + 1).last == Some(ops[i].now)
            else !ops[i].CellReset? && At(cfg, start, ops, i).last == At(cfg, start, ops, i + 1).last
  {
    hide Send, Merged, Digested;
  }

  lemma {:induction false} LimiterIsKnown(cfg: Config, start: Cell, ops: seq<CellOp>, i: nat)
    requires i <= |ops| && At(cfg, start, ops, i).last.Some?
    ensures Known(cfg, start, ops, At(cfg, start, ops, i).last.value, i)
  {
    if i == 0 {
      AtStart(cfg, start, ops);
    } else {
      hide At, Accepts;
      StampedOrHeld(cfg, start, ops, i - 1);
      if Accepts(cfg, start, ops, i - 1) {
        assert LastAccept(cfg, start, ops, i - 1, i);
      } else {
        hide Known;
        LimiterIsKnown(cfg, start, ops, i - 1);
        KnownNext(cfg, start, ops, At(cfg, start, ops, i).last.value, i - 1);
      }
    }
  }

  /** What the limiter remembers is the last accepted time since the last Reset, restored ones included. */
  lemma LimiterKnows(cfg: Config, start: Cell, ops: seq<CellOp>, t: int, i: nat)
    requires i <= |ops|
    ensures Known(cfg, start, ops, t, i) <==> At(cfg, start, ops, i).last == Some(t)
  {
    hide At;
    if At(cfg, start, ops, i).last == Some(t) {
      LimiterIsKnown(cfg, start, ops, i);
    }
    if Known(cfg, start, ops, t, i) {
      if p: nat :| LastAccept(cfg, start, ops, p, i) && ops[p].now == t {
        AcceptStamps(cfg, start, ops, p);
        LimiterStays(cfg, start, ops, p + 1, i);
      } else {
        LimiterStays(cfg, start, ops, 0, i);
        AtStart(cfg, start, ops);
      }
    }
  }

  lemma AtStart(cfg: Config, start: Cell, ops: seq<CellOp>)
    ensures At(cfg, start, ops, 0) == start
  {
  }

  lemma {:induction false} SomeLastFire(ops: seq<CellOp>, i: nat, e: nat) returns (l: nat)
    requires i < e <= |ops| && ops[i].CellFire?
    ensures LastFire(ops, i, l, e)
  {
    if ops[e - 1].CellFire? {
      l := e - 1;
    } else {
      l := SomeLastFire(ops, i, e - 1);
    }
  }

  /** Only a fire makes an alert active, and a Reset leaves it inactive. */
  lemma NoResetWithin(cfg: Config, start: Cell, ops: seq<CellOp>, i: nat, e: nat)
    requires e <= |ops| && ActiveFrom(cfg, start, ops, i, e)
    ensures ops[i].CellFire? && forall j :: i <= j < e ==> !ops[j].CellReset?
  {
    forall j | i <= j < e ensures !ops[j].CellReset? {
      assert At(cfg, start, ops, j + 1).active.Some?;
    }
    assert At(cfg, start, ops, i + 1) == CellStep(cfg, At(cfg, start, ops, i), ops[i]);
  }

  lemma SilentIsCovered(cfg: Config, start: Cell, ops: seq<CellOp>, i: nat, e: nat)
    requires e <= |ops| && ActiveFrom(cfg, start, ops, i, e) && !Announced(cfg, start, ops, i, e)
    ensures Covered(cfg, start, ops, i, e)
  {
    hide At, CellStep, Known;
    NoResetWithin(cfg, start, ops, i, e);
    assert !Accepts(cfg, start, ops, i);
    var t := At(cfg, start, ops, i).last.value;
    LimiterKnows(cfg, start, ops, t, i);
    var l := SomeLastFire(ops, i, e);
    LimiterStays(cfg, start, ops, i, l);
    assert !Accepts(cfg, start, ops, l);
  }

  lemma {:induction false} SilentUpTo(
      cfg: Config, start: Cell, ops: seq<CellOp>, t: int, i: nat, l: nat, e: nat, j: nat)
    requires i <= j <= e <= |ops| && FiresOrdered(ops)
    requires LastFire(ops, i, l, e) && At(cfg, start, ops, i).last == Some(t) && ops[l].now - t < cfg.window
    requires forall m :: i <= m < e ==> !ops[m].CellReset?
    ensures forall m :: i <= m < j ==> !Accepts(cfg, start, ops, m)
  {
    hide At;
    if i < j {
      SilentUpTo(cfg, start, ops, t, i, l, e, j - 1);
      LimiterStays(cfg, start, ops, i, j - 1);
      assert ops[j - 1].CellFire? ==> ops[j - 1].now <= ops[l].now;
    }
  }

  lemma CoveredIsSilent(cfg: Config, start: Cell, ops: seq<CellOp>, i: nat, e: nat)
    requires e <= |ops| && ActiveFrom(cfg, start, ops, i, e) && Covered(cfg, start, ops, i, e) && FiresOrdered(ops)
    ensures !Announced(cfg, start, ops, i, e)
  {
    hide At, Known;
    NoResetWithin(cfg, start, ops, i, e);
    var t: int, l: nat :|
      LastFire(ops, i, l, e) && Known(cfg, start, ops, t, i) && ops[l].now - t < cfg.window;
    LimiterKnows(cfg, start, ops, t, i);
    SilentUpTo(cfg, start, ops, t, i, l, e, e);
  }

  /**
    No fire of an activation passed the limiter exactly when its last fire came within the window of the
    last accepted time before it, of this run or restored at its start, with no Reset between.
   */
  lemma SilentExactly(cfg: Config, start: Cell, ops: seq<CellOp>, i: nat, e: nat)
    requires e <= |ops| && ActiveFrom(cfg, start, ops, i, e) && FiresOrdered(ops)
    ensures !Announced(cfg, start, ops, i, e) <==> Covered(cfg, start, ops, i, e)
  {
    hide ActiveFrom, Announced, Covered, FiresOrdered;
    if !Announced(cfg, start, ops, i, e) {
      SilentIsCovered(cfg, start, ops, i, e);
    }
    if Covered(cfg, start, ops, i, e) {
      CoveredIsSilent(cfg, start, ops, i, e);
    }
  }

  lemma {:induction false} ActiveHasStart(cfg: Config, start: Cell, ops: seq<CellOp>, e: nat) returns (i: nat)
    requires e <= |ops| && start.active.None? && At(cfg, start, ops, e).active.Some?
    ensures ActiveFrom(cfg, start, ops, i, e)
  {
    hide CellStep;
    if At(cfg, start, ops, e - 1).active.Some? {
      i := ActiveHasStart(cfg, start, ops, e - 1);
    } else {
      i := e - 1;
    }
  }

  lemma OneStart(cfg: Config, start: Cell, ops: seq<CellOp>, i: nat, j: nat, e: nat)
    requires e <= |ops| && ActiveFrom(cfg, start, ops, i, e) && ActiveFrom(cfg, start, ops, j, e)
    ensures i == j
  {
    hide At;
  }

  /** Every end belongs to an activation in which some fire passed the limiter. */
  ghost predicate AllAnnounced(cfg: Config, start: Cell, ops: seq<CellOp>) {
    forall e :: 0 <= e < |ops| && Ends(cfg, start, ops, e) ==>
      exists i: nat :: Spans(cfg, start, ops, i, e) && Announced(cfg, start, ops, i, e)
  }

  lemma AllAnnouncedExactly(cfg: Config, start: Cell, ops: seq<CellOp>)
    requires FiresOrdered(ops) && start.active.None?
    ensures AllAnnounced(cfg, start, ops) <==>
              !exists i: nat, e: nat :: e < |ops| && Spans(cfg, start, ops, i, e) && Covered(cfg, start, ops, i, e)
  {
    hide At, Announced, Covered, FiresOrdered, ActiveFrom, Ends;
    if AllAnnounced(cfg, start, ops) {
      forall i: nat, e: nat | e < |ops| && Spans(cfg, start, ops, i, e) ensures !Covered(cfg, start, ops, i, e) {
        var j: nat :| Spans(cfg, start, ops, j, e) && Announced(cfg, start, ops, j, e);
        OneStart(cfg, start, ops, i, j, e);
        SilentExactly(cfg, start, ops, i, e);
      }
    }
    if !exists i: nat, e: nat :: e < |ops| && Spans(cfg, start, ops, i, e) && Covered(cfg, start, ops, i, e) {
      forall e | 0 <= e < |ops| && Ends(cfg, start, ops, e)
        ensures exists i: nat :: Spans(cfg, start, ops, i, e) && Announced(cfg, start, ops, i, e)
      {
        EndedWasActive(cfg, start, ops, e);
        var i := ActiveHasStart(cfg, start, ops, e);
        SilentExactly(cfg, start, ops, i, e);
      }
    }
  }

  lemma EndedWasActive(cfg: Config, start: Cell, ops: seq<CellOp>, e: nat)
    requires e < |ops| && Ends(cfg, start, ops, e)
    ensures At(cfg, start, ops, e).active.Some?
  {
  }

  // ---- In the engine ------------------------------------------------------------------------

  /** How many of the first `j` operations end the alert. */
  ghost function EndsBefore(cfg: Config, start: Cell, ops: seq<CellOp>, j: nat): nat
    requires j <= |ops|
  {
    if j == 0 then 0
    else if Ends(cfg, start, ops, j - 1) then EndsBefore(cfg, start, ops, j - 1) + 1
    else EndsBefore(cfg, start, ops, j - 1)
  }

  /** How many messages of a list say resolved. */
  function ResolvedIn(direct: seq<Delivery>): nat {
    if direct == [] then 0
    else
      var d, before := direct[|direct| - 1], ResolvedIn(direct[..|direct| - 1]);
      if d.alert.state == Resolved then before + 1 else before
  }

  lemma ResolvedNext(direct: seq<Delivery>, d: Delivery)
    ensures ResolvedIn(direct + [d]) == if d.alert.state == Resolved then ResolvedIn(direct) + 1 else ResolvedIn(direct)
  {
    assert (direct + [d])[..|direct|] == direct;
  }

  lemma {:induction false} CountIsDirect(sent: seq<Delivery>, k: string)
    ensures ResolvedCount(sent, k) == ResolvedIn(DirectOf(sent, k))
  {
    hide Alert.Key;
    if sent != [] {
      var front, d := sent[..|sent| - 1], sent[|sent| - 1];
      CountIsDirect(front, k);
      ResolvedNext(DirectOf(front, k), d);
    }
  }

  /** Fires carry firing alerts, as Submit and Reconcile prepare them. */
  ghost predicate Firings(ops: seq<CellOp>) {
    forall i :: 0 <= i < |ops| && ops[i].CellFire? ==> ops[i].a.state == Firing
  }

  lemma EndCounts(cfg: Config, c: Cell, op: CellOp)
    requires op.CellFire? ==> op.a.state == Firing
    ensures var d := CellStep(cfg, c, op);
            ResolvedIn(d.direct) ==
              if c.active.Some? && d.active.None? && !op.CellReset? then ResolvedIn(c.direct) + 1
              else ResolvedIn(c.direct)
  {
    hide Channels, Merged, Digested, Alert.Key, ResolvedIn;
    match op
    case CellFire(a, now) => ResolvedNext(c.direct, Send(cfg, a, now));
    case CellResolve(hint, now) =>
      if c.active.Some? {
        MessageSays(cfg, c, hint, now);
      }
    case CellSweep(monitor, kept, now) =>
      if c.active.Some? {
        MessageSays(cfg, c, NO_HINT, now);
      }
    case CellReset =>
  }

  lemma MessageSays(cfg: Config, c: Cell, hint: Alert, now: int)
    requires c.active.Some?
    ensures ResolvedIn(c.direct + [Send(cfg, Merged(c.active.value, hint, now), now)]) == ResolvedIn(c.direct) + 1
  {
    MergedKeepsKey(c.active.value, hint, now);
    ResolvedNext(c.direct, Send(cfg, Merged(c.active.value, hint, now), now));
  }

  lemma {:induction false} OneMessagePerEnd(cfg: Config, start: Cell, ops: seq<CellOp>, j: nat)
    requires j <= |ops| && Firings(ops)
    ensures ResolvedIn(At(cfg, start, ops, j).direct) == ResolvedIn(start.direct) + EndsBefore(cfg, start, ops, j)
  {
    hide CellStep;
    if j > 0 {
      OneMessagePerEnd(cfg, start, ops, j - 1);
      EndCounts(cfg, At(cfg, start, ops, j - 1), ops[j - 1]);
    }
  }

  lemma {:induction false} OpsGrow(ops: seq<Op>, n: nat, k: string)
    requires n <= |ops|
    ensures |CellOps(ops[..n], k)| <= |CellOps(ops, k)|
    ensures CellOps(ops, k)[..|CellOps(ops[..n], k)|] == CellOps(ops[..n], k)
  {
    hide CellOpOf;
    if n == |ops| {
      assert ops[..n] == ops;
    } else {
      var m := |ops| - 1;
      OpsGrow(ops[..m], n, k);
      assert ops[..m][..n] == ops[..n];
    }
  }

  lemma {:induction false} FeasiblePrefix(cfg: Config, s: EngineState, ops: seq<Op>, n: nat)
    requires n <= |ops| && Feasible(cfg, s, ops)
    ensures Feasible(cfg, s, ops[..n])
  {
    hide Covers, Run;
    if n == |ops| {
      assert ops[..n] == ops;
    } else {
      FeasiblePrefix(cfg, s, ops[..|ops| - 1], n);
      assert ops[..|ops| - 1][..n] == ops[..n];
    }
  }

  /** The view before operation `n` of a run is the cell at the place that operation has for `k`. */
  lemma ViewIsAt(cfg: Config, s: EngineState, ops: seq<Op>, n: nat, k: string)
    requires n <= |ops| && KeysAgree(s.active) && Feasible(cfg, s, ops)
    ensures |CellOps(ops[..n], k)| <= |CellOps(ops, k)|
    ensures CellOf(Run(cfg, s, ops[..n]), k) == At(cfg, CellOf(s, k), CellOps(ops, k), |CellOps(ops[..n], k)|)
  {
    hide Run, CellRun, CellOps, Feasible, At;
    var place := |CellOps(ops[..n], k)|;
    OpsGrow(ops, n, k);
    FeasiblePrefix(cfg, s, ops, n);
    RunRefines(cfg, s, ops[..n], k);
    RunIsAt(cfg, CellOf(s, k), CellOps(ops, k), place);
  }

  /** An operation of the engine that shows on `k` is accepted, and ends the alert, as its place in the view says. */
  lemma PlaceMeans(cfg: Config, s: EngineState, ops: seq<Op>, n: nat, k: string)
    requires n < |ops| && KeysAgree(s.active) && Feasible(cfg, s, ops) && CellOpOf(ops[n], k).Some?
    ensures var before, after := Run(cfg, s, ops[..n]), Run(cfg, s, ops[..n + 1]);
            var start, c, j := CellOf(s, k), CellOps(ops, k), |CellOps(ops[..n], k)|;
            && j < |c| && c[j] == CellOpOf(ops[n], k).value
            && (Accepts(cfg, start, c, j) <==> ops[n].Fire? && !Suppressed(before.last, cfg.window, k, ops[n].now))
            && (Ends(cfg, start, c, j) <==> k in before.active && k !in after.active && !ops[n].Reset?)
            && (Starts(cfg, start, c, j) <==> k !in before.active && k in after.active)
  {
    hide Run, CellOps, Feasible, At, Alert.Key, DirectOf, AlertsOf, Queued, KeysAgree;
    ViewIsAt(cfg, s, ops, n, k);
    ViewIsAt(cfg, s, ops, n + 1, k);
    OpsGrow(ops, n + 1, k);
    NextPlace(ops, n, k);
  }

  lemma NextPlace(ops: seq<Op>, n: nat, k: string)
    requires n < |ops| && CellOpOf(ops[n], k).Some?
    ensures CellOps(ops[..n + 1], k) == CellOps(ops[..n], k) + [CellOpOf(ops[n], k).value]
  {
    hide CellOpOf;
    assert ops[..n + 1][..n] == ops[..n];
  }

  /** The cell of `k` when the engine starts. */
  function StartCell(restored: map<string, int>, k: string): Cell {
    Cell(None, Lookup(restored, k), [], [])
  }

  lemma StartOf(restored: map<string, int>, k: string)
    ensures KeysAgree(Started(restored).active) && CellOf(Started(restored), k) == StartCell(restored, k)
  {
  }

  /**
    In a run of an engine started with a restored limiter there is one resolved message per end of an
    alert's activation, and all of those ends follow an accepted fire of their activation exactly when no
    ended activation had its last fire within the window of the last accepted time before it, which may
    be a restored one, with no Reset between.
   */
  lemma {:induction false} FarewellsFollowExactly(cfg: Config, restored: map<string, int>, ops: seq<Op>, k: string)
    requires Feasible(cfg, Started(restored), ops)
    requires forall i :: 0 <= i < |ops| && ops[i].Fire? ==> ops[i].a.state == Firing
    requires forall i, j :: 0 <= i < j < |ops| && ops[i].Fire? && ops[j].Fire? ==> ops[i].now <= ops[j].now
    ensures var start, c := StartCell(restored, k), CellOps(ops, k);
            ResolvedCount(Run(cfg, Started(restored), ops).sent, k) == EndsBefore(cfg, start, c, |c|)
    ensures var start, c := StartCell(restored, k), CellOps(ops, k);
            AllAnnounced(cfg, start, c) <==>
              !exists i: nat, e: nat :: e < |c| && Spans(cfg, start, c, i, e) && Covered(cfg, start, c, i, e)
  {
    hide Run, CellOps, Feasible, At, AllAnnounced, Spans, Covered, FiresOrdered, Firings, EndsBefore, CellOf;
    var s, start, c := Started(restored), StartCell(restored, k), CellOps(ops, k);
    OpsInherit(ops, k);
    StartOf(restored, k);
    assert ops[..|ops|] == ops;
    ViewIsAt(cfg, s, ops, |ops|, k);
    ViewSends(Run(cfg, s, ops), k);
    OneMessagePerEnd(cfg, start, c, |c|);
    AllAnnouncedExactly(cfg, start, c);
  }

  lemma ViewSends(s: EngineState, k: string)
    ensures ResolvedCount(s.sent, k) == ResolvedIn(CellOf(s, k).direct)
  {
    CountIsDirect(s.sent, k);
  }

  lemma {:induction false} OpsInherit(ops: seq<Op>, k: string)
    requires forall i :: 0 <= i < |ops| && ops[i].Fire? ==> ops[i].a.state == Firing
    requires forall i, j :: 0 <= i < j < |ops| && ops[i].Fire? && ops[j].Fire? ==> ops[i].now <= ops[j].now
    ensures Firings(CellOps(ops, k)) && FiresOrdered(CellOps(ops, k))
    ensures forall c :: c in CellOps(ops, k) && c.CellFire? ==> exists i :: 0 <= i < |ops| && ops[i] == Fire(c.a, c.now)
  {
    hide Alert.Key;
    if ops != [] {
      OpsInherit(ops[..|ops| - 1], k);
    }
  }

  // ---- The first fire after a restart -----------------------------------------------------------

  /**
    After a restart an alert that still fires is announced afresh only if its restored time has left the
    window. Its end is announced in either case.
   */
  lemma FirstFireAfterRestart(
      cfg: Config, restored: map<string, int>, a: Alert, hint: Alert, again: int, over: int)
    requires cfg.resolution && a.state == Firing && hint.Key() == a.Key()
    ensures var s := Run(cfg, Started(restored), [Fire(a, again), Resolve(hint, over)]);
            var silent := a.Key() in restored && again - restored[a.Key()] < cfg.window;
            && ResolvedCount(s.sent, a.Key()) == 1
            && SentFiring(s.sent) == (if silent || Digested(cfg, a) then [] else [a])
            && Queued(s) == (if !silent && Digested(cfg, a) then [a] else [])
  {
    hide Alert.Key, Digested, FireStep, ResolveStep, Queued, KeysAgree, Run;
    var k, s, ops := a.Key(), Started(restored), [Fire(a, again), Resolve(hint, over)];
    TwoSteps(cfg, s, Fire(a, again), Resolve(hint, over));
    var s0 := FireStep(cfg, s, a, again);
    StartIsDark(restored, k);
    StepKeepsKeys(cfg, s, Fire(a, again));
    FireLights(cfg, s, a, again, k);
    ResolveUnlights(cfg, s0, hint, over, k);
    FireConserves(cfg, s, a, again);
    ResolveConserves(cfg, s0, hint, over);
  }

  lemma TwoSteps(cfg: Config, s: EngineState, a: Op, b: Op)
    ensures Run(cfg, s, [a, b]) == Step(cfg, Step(cfg, s, a), b)
  {
    hide Step;
    assert [a, b] == [a] + [b] && [a] == [] + [a];
    RunSnoc(cfg, s, [a], b);
    RunSnoc(cfg, s, [], a);
  }

  lemma StartIsDark(restored: map<string, int>, k: string)
    ensures KeysAgree(Started(restored).active) && LampOf(Started(restored), k) == Lamp(false, 0)
    ensures Queued(Started(restored)) == [] && SentFiring(Started(restored).sent) == []
  {
  }
}
