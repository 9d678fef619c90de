/**
  The alert engine as a function of its state and one atomic operation
  (internal/engine/engine.go). A reconcile is its fires followed by one sweep.
 */
module EngineSpec {
  import opened Options
  import opened Alerts
  import opened Dedupe

  datatype Rule = Rule(severity: string, monitor: string, channels: seq<string>)

  datatype Config = Config(
    window: int, resolution: bool, digest: bool, digestInterval: int, digestSeverities: seq<Severity>,
    cluster: string, rules: seq<Rule>, defaults: seq<string>)

  /** The first matching rule's channels, or the defaults. */
  function Channels(rules: seq<Rule>, defaults: seq<string>, a: Alert): seq<string> {
    if rules == [] then defaults
    else if Matches(rules[0], a) then rules[0].channels
    else Channels(rules[1..], defaults, a)
  }

  predicate Matches(r: Rule, a: Alert) {
    && !(r.severity == "" && r.monitor == "")
    && (r.severity != "" ==> r.severity == a.severity.Text())
    && (r.monitor != "" ==> r.monitor == a.monitor)
  }

  predicate Digested(cfg: Config, a: Alert) {
    cfg.digest && a.severity in cfg.digestSeverities
  }

  /** One message handed to the notifiers: an alert of its own, or a digest over a batch. */
  datatype Delivery =
    | Direct(alert: Alert, channels: seq<string>, at: int)
    | Digest(batch: seq<Alert>, alert: Alert, channels: seq<string>, at: int)

  datatype EngineState = EngineState(
    active: map<string, Alert>, last: map<string, int>, digestQ: seq<Alert>, sent: seq<Delivery>)

  /** The state in which an engine starts, given what its limiter was restored to. */
  function Started(restored: map<string, int>): EngineState {
    EngineState(map[], restored, [], [])
  }

  const NEW := Started(map[])

  /**
    Atomic operations. The order of a sweep is the order in which the map happened to be walked, and
    `stamps` is the clock reading made for the message about each key.
   */
  datatype Op =
    | Fire(a: Alert, now: int)
    | Resolve(hint: Alert, now: int)
    | Sweep(monitor: string, keep: set<string>, order: seq<string>, stamps: string -> int)
    | Tick(now: int)
    | Reset

  function Send(cfg: Config, a: Alert, now: int): Delivery {
    Direct(a, Channels(cfg.rules, cfg.defaults, a), now)
  }

  function Merged(prev: Alert, hint: Alert, now: int): Alert {
    prev.(state := Resolved, severity := Info, firedAt := now,
          title := if hint.title != "" then hint.title else "Resolved: " + prev.title,
          body := if hint.body != "" then hint.body
                  else "kpulse no longer detects the condition that triggered this alert.")
  }

  function Decimal(n: nat): string {
    var digit := ["0", "1", "2", "3", "4", "5", "6", "7", "8", "9"][n % 10];
    if n < 10 then digit else Decimal(n / 10) + digit
  }

  function DigestLine(a: Alert): string {
    "- [" + a.severity.Text() + "] " + a.namespace + "/" + a.Object() + " " + a.reason + ": " + a.title + "\n"
  }

  function DigestLines(batch: seq<Alert>): string {
    if batch == [] then ""
    else DigestLines(batch[..|batch| - 1]) + DigestLine(batch[|batch| - 1])
  }

  function DigestAlert(cfg: Config, batch: seq<Alert>, now: int): Alert {
    Alert("digest", Info, Firing, cfg.cluster, "", "", "", "",
          Decimal(|batch|) + " alerts (digest)",
          Decimal(|batch|) + " alerts in the last interval:\n\n" + DigestLines(batch), now)
  }

  function FireStep(cfg: Config, s: EngineState, a: Alert, now: int): EngineState {
    var k := a.Key();
    var marked := s.(last := AfterAttempt(s.last, cfg.window, k, now),
                     active := if cfg.resolution then s.active[k := a] else s.active);
    if Suppressed(s.last, cfg.window, k, now) then marked
    else if Digested(cfg, a) then marked.(digestQ := s.digestQ + [a])
    else marked.(sent := s.sent + [Send(cfg, a, now)])
  }

  /** Take entry `k` out and announce it as resolved. */
  function Retire(cfg: Config, s: EngineState, k: string, hint: Alert, now: int): EngineState
    requires k in s.active
  {
    s.(active := s.active - {k}, sent := s.sent + [Send(cfg, Merged(s.active[k], hint, now), now)])
  }

  function ResolveStep(cfg: Config, s: EngineState, hint: Alert, now: int): EngineState {
    if cfg.resolution && hint.Key() in s.active then Retire(cfg, s, hint.Key(), hint, now) else s
  }

  predicate Drops(s: EngineState, monitor: string, keep: set<string>, k: string) {
    k in s.active && s.active[k].monitor == monitor && k !in keep
  }

  function SweepStep(
      cfg: Config, s: EngineState, monitor: string, keep: set<string>, order: seq<string>,
      stamps: string -> int)
    : EngineState
  {
    if order == [] then s
    else
      var k := order[|order| - 1];
      var t := SweepStep(cfg, s, monitor, keep, order[..|order| - 1], stamps);
      if Drops(t, monitor, keep, k) then Retire(cfg, t, k, NO_HINT, stamps(t.active[k].Key())) else t
  }

  /** One walk over the map: what stays, and what was taken out in the order met. */
  function Taken(active: map<string, Alert>, m: string, keep: set<string>, order: seq<string>)
    : (map<string, Alert>, seq<Alert>)
  {
    if order == [] then (active, [])
    else
      var (rest, out) := Taken(active, m, keep, order[..|order| - 1]);
      var k := order[|order| - 1];
      if k in rest && rest[k].monitor == m && k !in keep then (rest - {k}, out + [rest[k]]) else (rest, out)
  }

  /** The message that announces the end of an entry which a sweep takes out. */
  function Farewell(cfg: Config, a: Alert, stamps: string -> int): Delivery {
    Send(cfg, Merged(a, NO_HINT, stamps(a.Key())), stamps(a.Key()))
  }

  /** The resolved messages for entries taken out. */
  function Announcements(cfg: Config, out: seq<Alert>, stamps: string -> int): seq<Delivery> {
    if out == [] then []
    else Announcements(cfg, out[..|out| - 1], stamps) + [Farewell(cfg, out[|out| - 1], stamps)]
  }

  function TickStep(cfg: Config, s: EngineState, now: int): EngineState {
    if s.digestQ == [] then s
    else
      var d := DigestAlert(cfg, s.digestQ, now);
      s.(digestQ := [], sent := s.sent + [Digest(s.digestQ, d, Channels(cfg.rules, cfg.defaults, d), now)])
  }

  function Step(cfg: Config, s: EngineState, op: Op): EngineState {
    match op
    case Fire(a, now) => FireStep(cfg, s, a, now)
    case Resolve(hint, now) => ResolveStep(cfg, s, hint, now)
    case Sweep(monitor, keep, order, stamps) =>
      if cfg.resolution then SweepStep(cfg, s, monitor, keep, order, stamps) else s
    case Tick(now) => TickStep(cfg, s, now)
    case Reset => s.(active := map[], last := map[])
  }

  function Run(cfg: Config, s: EngineState, ops: seq<Op>): EngineState {
    if ops == [] then s
    else Step(cfg, Run(cfg, s, ops[..|ops| - 1]), ops[|ops| - 1])
  }

  function KeysOf(firing: seq<Alert>): set<string> {
    set i | 0 <= i < |firing| :: firing[i].Key()
  }

  /** The fires of a reconcile; reading `i` of the clock serves alert `i`. */
  function FireOps(firing: seq<Alert>, clock: nat -> int): seq<Op> {
    if firing == [] then []
    else
      var n := |firing| - 1;
      FireOps(firing[..n], clock) + [Fire(firing[n], clock(n))]
  }

  function ReconcileOps(
      m: string, firing: seq<Alert>, clock: nat -> int, order: seq<string>, stamps: string -> int): seq<Op> {
    FireOps(firing, clock) + [Sweep(m, KeysOf(firing), order, stamps)]
  }

  /** A map walk visits every key that is present. */
  ghost predicate Covers(s: EngineState, op: Op) {
    op.Sweep? ==> forall k :: k in s.active ==> k in op.order
  }

  ghost predicate Feasible(cfg: Config, s: EngineState, ops: seq<Op>) {
    ops == [] ||
    (Feasible(cfg, s, ops[..|ops| - 1]) && Covers(Run(cfg, s, ops[..|ops| - 1]), ops[|ops| - 1]))
  }

  /** Every active entry sits under its own key. */
  ghost predicate KeysAgree(active: map<string, Alert>) {
    forall k :: k in active ==> active[k].Key() == k
  }

  lemma RunSnoc(cfg: Config, s: EngineState, ops: seq<Op>, op: Op)
    ensures Run(cfg, s, ops + [op]) == Step(cfg, Run(cfg, s, ops), op)
    ensures Feasible(cfg, s, ops + [op]) <==> Feasible(cfg, s, ops) && Covers(Run(cfg, s, ops), op)
  {
    assert (ops + [op])[..|ops|] == ops;
  }

  lemma {:induction false} RunConcat(cfg: Config, s: EngineState, p: seq<Op>, q: seq<Op>)
    ensures Run(cfg, s, p + q) == Run(cfg, Run(cfg, s, p), q)
    ensures Feasible(cfg, s, p + q) <==> Feasible(cfg, s, p) && Feasible(cfg, Run(cfg, s, p), q)
    decreases |q|
  {
    if q == [] {
      assert p + q == p;
    } else {
      var n := |q| - 1;
      RunConcat(cfg, s, p, q[..n]);
      assert p + q == (p + q[..n]) + [q[n]];
      RunSnoc(cfg, s, p + q[..n], q[n]);
    }
  }

  /** A resolved message names what was firing, says so, and is never without text. */
  lemma MergedKeepsKey(prev: Alert, hint: Alert, now: int)
    ensures var r := Merged(prev, hint, now);
            && r.Key() == prev.Key() && r.state == Resolved && r.cluster == prev.cluster
            && r.severity == Info && r.firedAt == now
            && r.title != "" && r.body != ""
  {
    assert |"Resolved: " + prev.title| > 0;
  }

  /** The digest text is one line per alert: those queued before, its own, those queued after, and nothing else. */
  lemma {:induction false} DigestListsAll(batch: seq<Alert>, i: nat)
    requires i < |batch|
    ensures DigestLines(batch) == DigestLines(batch[..i]) + DigestLine(batch[i]) + DigestLines(batch[i + 1..])
  {
    hide DigestLine;
    var n := |batch| - 1;
    if i < n {
      var front := batch[..n];
      DigestListsAll(front, i);
      assert front[..i] == batch[..i] && front[i] == batch[i];
      var rest := batch[i + 1..];
      assert rest[..|rest| - 1] == front[i + 1..] && rest[|rest| - 1] == batch[n];
    }
  }

  lemma AnnouncementsNone(cfg: Config, stamps: string -> int)
    ensures Announcements(cfg, [], stamps) == []
  {
  }

  lemma AnnouncementsSnoc(cfg: Config, out: seq<Alert>, a: Alert, stamps: string -> int)
    ensures Announcements(cfg, out + [a], stamps) == Announcements(cfg, out, stamps) + [Farewell(cfg, a, stamps)]
  {
    assert (out + [a])[..|out|] == out;
  }

  /** Taking one more entry out and announcing it later is retiring it. */
  lemma TakenNext(cfg: Config, s: EngineState, m: string, keep: set<string>, order: seq<string>, stamps: string -> int)
    requires order != []
    requires var (rest, out) := Taken(s.active, m, keep, order[..|order| - 1]);
             SweepStep(cfg, s, m, keep, order[..|order| - 1], stamps) ==
               s.(active := rest, sent := s.sent + Announcements(cfg, out, stamps))
    ensures var (stay, out) := Taken(s.active, m, keep, order);
            SweepStep(cfg, s, m, keep, order, stamps) ==
              s.(active := stay, sent := s.sent + Announcements(cfg, out, stamps))
  {
    hide Send, Merged, Announcements, Alert.Key;
    var front, k := order[..|order| - 1], order[|order| - 1];
    var (rest, out) := Taken(s.active, m, keep, front);
    if k in rest {
      var d := Farewell(cfg, rest[k], stamps);
      AnnouncementsSnoc(cfg, out, rest[k], stamps);
      assert s.sent + Announcements(cfg, out, stamps) + [d] == s.sent + (Announcements(cfg, out, stamps) + [d]);
    }
  }

  /** The walk under the lock and its later announcements make up the sweep. */
  lemma {:induction false} SweepIsTaken(
      cfg: Config, s: EngineState, m: string, keep: set<string>, order: seq<string>, stamps: string -> int)
    ensures var (stay, out) := Taken(s.active, m, keep, order);
            SweepStep(cfg, s, m, keep, order, stamps) ==
              s.(active := stay, sent := s.sent + Announcements(cfg, out, stamps))
  {
    if order == [] {
      assert s.sent + [] == s.sent;
    } else {
      hide SweepStep, Taken, Announcements;
      SweepIsTaken(cfg, s, m, keep, order[..|order| - 1], stamps);
      TakenNext(cfg, s, m, keep, order, stamps);
    }
  }

  lemma {:induction false} SweepKeepsKeys(
      cfg: Config, s: EngineState, m: string, keep: set<string>, order: seq<string>, stamps: string -> int)
    requires KeysAgree(s.active)
    ensures KeysAgree(SweepStep(cfg, s, m, keep, order, stamps).active)
  {
    hide Channels, Merged, Alert.Key;
    if order != [] {
      SweepKeepsKeys(cfg, s, m, keep, order[..|order| - 1], stamps);
    }
  }

  lemma StepKeepsKeys(cfg: Config, s: EngineState, op: Op)
    requires KeysAgree(s.active)
    ensures KeysAgree(Step(cfg, s, op).active)
  {
    hide Channels, Merged, Digested, DigestAlert;
    if op.Sweep? {
      SweepKeepsKeys(cfg, s, op.monitor, op.keep, op.order, op.stamps);
    }
  }

  /** In every reachable state the alert stored under `k` has key `k`. */
  lemma {:induction false} KeysAlwaysAgree(cfg: Config, s: EngineState, ops: seq<Op>)
    requires KeysAgree(s.active)
    ensures KeysAgree(Run(cfg, s, ops).active)
  {
    hide Step, KeysAgree;
    if ops != [] {
      KeysAlwaysAgree(cfg, s, ops[..|ops| - 1]);
      StepKeepsKeys(cfg, Run(cfg, s, ops[..|ops| - 1]), ops[|ops| - 1]);
    }
  }
}
