/** The engine object: its handlers, its input queue and its loop (internal/engine/engine.go). */
module Engine {
  import opened Alerts
  import opened Dedupe
  import opened EngineSpec
  import opened Stats
  import opened Wording
  import Messages

  const INBOX_CAPACITY := 256

  datatype Input =
    | FireInput(alert: Alert)
    | ResolveInput(alert: Alert)
    | ReconcileInput(monitor: string, firing: seq<Alert>)

  /**
    One turn while the loop runs: a receive, with the readings its handler will make of the clock (in
    order, and for the message about each key a sweep announces), a due digest tick, or the arrival of
    an input that a monitor hands over. Arrivals touch nothing but the queue, so one that falls within
    a handler may be taken as falling after it.
   */
  datatype Turn = Receive(clock: nat -> int, stamps: string -> int) | TickDue(now: int) | Arrival(inp: Input)

  /** A listing of a finite set, in some order. */
  ghost function Listing(s: set<string>): (r: seq<string>)
    ensures forall k :: k in s <==> k in r
  {
    if s == {} then [] else var k :| k in s; Listing(s - {k}) + [k]
  }

  /** The operations that serving one input may amount to. */
  ghost predicate ServedBy(inp: Input, clock: nat -> int, stamps: string -> int, ops: seq<Op>) {
    match inp
    case FireInput(a) => ops == [Fire(a, clock(0))]
    case ResolveInput(a) => ops == [EngineSpec.Resolve(a, clock(0))]
    case ReconcileInput(m, firing) => exists order :: ops == ReconcileOps(m, firing, clock, order, stamps)
  }

  /** The non-blocking channel send: a full channel drops the input. */
  function Offered(waiting: seq<Input>, inp: Input): seq<Input> {
    if |waiting| < INBOX_CAPACITY then waiting + [inp] else waiting
  }

  /** The inputs that wait before turn `i`. */
  function Waiting(inbox: seq<Input>, turns: seq<Turn>, i: nat): seq<Input>
    requires i <= |turns|
  {
    if i == 0 then inbox
    else
      var before := Waiting(inbox, turns, i - 1);
      match turns[i - 1]
      case Receive(_, _) => if before == [] then [] else before[1..]
      case TickDue(_) => before
      case Arrival(inp) => Offered(before, inp)
  }

  ghost predicate TurnServed(cfg: Config, inbox: seq<Input>, turns: seq<Turn>, i: nat, ops: seq<Op>)
    requires i < |turns|
  {
    var waiting := Waiting(inbox, turns, i);
    match turns[i]
    case Receive(clock, stamps) =>
      if waiting != [] then ServedBy(waiting[0], clock, stamps, ops) else ops == []
    case TickDue(now) => ops == if cfg.digest && cfg.digestInterval > 0 then [Tick(now)] else []
    case Arrival(_) => ops == []
  }

  /** The inputs served in the first `i` turns, in order. */
  function ServedInputs(inbox: seq<Input>, turns: seq<Turn>, i: nat): seq<Input>
    requires i <= |turns|
  {
    if i == 0 then []
    else
      var before, waiting := ServedInputs(inbox, turns, i - 1), Waiting(inbox, turns, i - 1);
      if turns[i - 1].Receive? && waiting != [] then before + [waiting[0]] else before
  }

  /** The arrivals of the first `i` turns that found room, in order. */
  function Entered(inbox: seq<Input>, turns: seq<Turn>, i: nat): seq<Input>
    requires i <= |turns|
  {
    if i == 0 then []
    else
      var before, waiting := Entered(inbox, turns, i - 1), Waiting(inbox, turns, i - 1);
      if turns[i - 1].Arrival? && |waiting| < INBOX_CAPACITY then before + [turns[i - 1].inp] else before
  }

  /** Whatever arrives while the loop runs, inputs are served first in, first out, and none is lost once queued. */
  lemma {:induction false} ChannelIsFifo(inbox: seq<Input>, turns: seq<Turn>, i: nat)
    requires i <= |turns|
    ensures ServedInputs(inbox, turns, i) + Waiting(inbox, turns, i) == inbox + Entered(inbox, turns, i)
    ensures |inbox| <= INBOX_CAPACITY ==> |Waiting(inbox, turns, i)| <= INBOX_CAPACITY
  {
    if i > 0 {
      ChannelIsFifo(inbox, turns, i - 1);
      var served, entered := ServedInputs(inbox, turns, i - 1), Entered(inbox, turns, i - 1);
      var waiting := Waiting(inbox, turns, i - 1);
      match turns[i - 1]
      case Receive(_, _) =>
        if waiting != [] {
          FirstMoves(served, waiting);
        }
      case TickDue(_) =>
      case Arrival(inp) => LastJoins(served, waiting, inbox, entered, inp);
    }
  }

  lemma FirstMoves(served: seq<Input>, waiting: seq<Input>)
    requires waiting != []
    ensures served + [waiting[0]] + waiting[1..] == served + waiting
  {
  }

  lemma LastJoins(served: seq<Input>, waiting: seq<Input>, inbox: seq<Input>, entered: seq<Input>, inp: Input)
    requires served + waiting == inbox + entered
    ensures served + (waiting + [inp]) == inbox + (entered + [inp])
  {
    assert served + (waiting + [inp]) == served + waiting + [inp];
    assert inbox + (entered + [inp]) == inbox + entered + [inp];
  }

  function Joined(pieces: seq<seq<Op>>): seq<Op> {
    if pieces == [] then [] else Joined(pieces[..|pieces| - 1]) + pieces[|pieces| - 1]
  }

  class Engine {
    const cfg: Config
    const dedupe: Deduper
    const stats: StatsRecorder
    var inbox: seq<Input>
    var active: map<string, Alert>
    var digestQ: seq<Alert>
    /** Everything handed to the notifiers so far. */
    ghost var sent: seq<Delivery>

    /** The limiter is the configured one, and the statistics say what was sent. */
    ghost predicate Valid()
      reads this, stats
    {
      && dedupe.window == cfg.window && stats.capacity > 0
      && Agrees(stats.monitors, stats.recent, stats.capacity, sent)
    }

    ghost function View(): EngineState
      reads this, dedupe
    {
      EngineState(active, dedupe.last, digestQ, sent)
    }

    constructor (cfg: Config, dedupe: Deduper)
      requires dedupe.window == cfg.window
      ensures this.cfg == cfg && this.dedupe == dedupe && fresh(stats)
      ensures Valid() && View() == Started(dedupe.last) && inbox == [] && stats.capacity == 100
    {
      this.cfg := cfg;
      this.dedupe := dedupe;
      this.stats := new StatsRecorder(100);
      inbox := [];
      active := map[];
      digestQ := [];
      sent := [];
    }

    // ---- Called by the monitors ---------------------------------------------

    method Submit(a: Alert, now: int)
      modifies `inbox
      ensures inbox == Offered(old(inbox), FireInput(Prepared(a, cfg.cluster, Firing, now)))
      ensures if |old(inbox)| >= 256 then inbox == old(inbox)
              else exists b :: inbox == old(inbox) + [FireInput(b)] && IsPrepared(b, a, cfg.cluster, Firing, now)
    {
      PreparedIsPrepared(a, cfg.cluster, Firing, now);
      Offer(FireInput(Prepared(a, cfg.cluster, Firing, now)));
    }

    method Resolve(a: Alert, now: int)
      modifies `inbox
      ensures inbox == Offered(old(inbox), ResolveInput(Prepared(a, cfg.cluster, Resolved, now)))
      ensures if |old(inbox)| >= 256 then inbox == old(inbox)
              else exists b :: inbox == old(inbox) + [ResolveInput(b)] && IsPrepared(b, a, cfg.cluster, Resolved, now)
    {
      PreparedIsPrepared(a, cfg.cluster, Resolved, now);
      Offer(ResolveInput(Prepared(a, cfg.cluster, Resolved, now)));
    }

    method Reconcile(monitor: string, firing: seq<Alert>, clock: nat -> int)
      modifies `inbox
      ensures inbox == Offered(old(inbox), ReconcileInput(monitor, PreparedAll(firing, cfg.cluster, clock)))
      ensures if |old(inbox)| >= 256 then inbox == old(inbox)
              else exists cp :: inbox == old(inbox) + [ReconcileInput(monitor, cp)] && |cp| == |firing|
                     && forall i :: 0 <= i < |cp| ==> IsPrepared(cp[i], firing[i], cfg.cluster, Firing, clock(i))
    {
      ghost var all := PreparedAll(firing, cfg.cluster, clock);
      forall i | 0 <= i < |firing| ensures IsPrepared(all[i], firing[i], cfg.cluster, Firing, clock(i)) {
        PreparedIsPrepared(firing[i], cfg.cluster, Firing, clock(i));
      }
      var cp := [];
      for i := 0 to |firing|
        invariant cp == PreparedAll(firing[..i], cfg.cluster, clock)
      {
        cp := cp + [Prepared(firing[i], cfg.cluster, Firing, clock(i))];
      }
      assert firing[..|firing|] == firing;
      assert |cp| == |firing|;
      Offer(ReconcileInput(monitor, cp));
    }

    method Offer(inp: Input)
      modifies `inbox
      ensures inbox == Offered(old(inbox), inp)
    {
      if |inbox| < INBOX_CAPACITY {
        inbox := inbox + [inp];
      }
    }

    // ---- Read by the user interface ----------------------------------------------

    /** The counters of every monitor that sent anything, by increasing name. */
    method MonitorStats() returns (out: array<Stats.MonitorStats>)
      requires Valid()
      ensures fresh(out) && forall i, j :: 0 <= i < j < out.Length ==> Before(out[i].name, out[j].name)
      ensures forall d :: d in sent ==> exists i :: 0 <= i < out.Length && out[i].name == d.alert.monitor
      ensures forall i :: 0 <= i < out.Length ==>
                Tells(out[i], sent) && exists d :: d in sent && d.alert.monitor == out[i].name
    {
      hide Less, Tells, CountSent, NewestOf, IsFeed;
      out := stats.Monitors();
      forall i, j | 0 <= i < j < out.Length ensures Before(out[i].name, out[j].name) {
        LessMeans(out[i].name, out[j].name);
      }
      forall i | 0 <= i < out.Length ensures out[i].name in Senders(sent) && Tells(out[i], sent) {
        assert out[i] in out[..];
        StatsTell(sent, out[i].name);
      }
      forall d | d in sent ensures exists i :: 0 <= i < out.Length && out[i].name == d.alert.monitor {
        assert d.alert.monitor in NamesOf(out[..]);
        var x :| x in out[..] && x.name == d.alert.monitor;
        assert exists i :: 0 <= i < out.Length && out[i] == x;
      }
    }

    /** The last sends, newest first, as many as the feed has room for. */
    method Recent() returns (out: array<RecentEntry>)
      requires Valid()
      ensures fresh(out) && out.Length == if |sent| < stats.capacity then |sent| else stats.capacity
      ensures forall i :: 0 <= i < out.Length ==> Shows(out[i], sent[|sent| - 1 - i])
    {
      hide Shows, EntryOf;
      out := stats.Recent();
      forall i | 0 <= i < out.Length ensures Shows(out[i], sent[|sent| - 1 - i]) {
        EntryShows(sent[|sent| - 1 - i]);
      }
    }

    // ---- Called by the owner ----------------------------------------------------

    method ActiveSnapshot() returns (out: map<string, Alert>)
      ensures out == active
    {
      out := map[];
      var todo := active.Keys;
      while todo != {}
        invariant todo <= active.Keys
        invariant out == map k | k in active && k !in todo :: active[k]
        decreases todo
      {
        var k :| k in todo;
        out := out[k := active[k]];
        todo := todo - {k};
      }
    }

    method RestoreActive(m: map<string, Alert>)
      modifies `active
      ensures active == old(active) + m
    {
      var todo := m.Keys;
      while todo != {}
        invariant todo <= m.Keys
        invariant active == old(active) + (map k | k in m && k !in todo :: m[k])
        decreases todo
      {
        var k :| k in todo;
        active := active[k := m[k]];
        todo := todo - {k};
      }
      assert m == map k | k in m && k !in todo :: m[k];
    }

    /** Clears the active set and the limiter and says how many entries each held. */
    method Reset() returns (activeN: nat, dedupeN: nat)
      requires Valid()
      modifies `active, dedupe
      ensures Valid() && View() == Step(cfg, old(View()), EngineSpec.Reset)
      ensures activeN == |old(active)| && dedupeN == |old(dedupe.last)|
    {
      activeN := |active|;
      active := map[];
      dedupeN := dedupe.Reset();
    }

    // ---- Handlers --------------------------------------------------------------

    /** What was handed to the notifiers is counted and shown, whether or not that succeeded. */
    method RecordSent(a: Alert, channels: seq<string>, now: int, ghost d: Delivery)
      requires Valid() && d.alert == a && d.channels == channels && d.at == now
      modifies `sent, stats
      ensures Valid() && sent == old(sent) + [d]
    {
      hide Recorded, EntryOf, StatsFor, IsFeed, IsTail;
      ghost var monitors, recent, was := stats.monitors, stats.recent, sent;
      sent := sent + [d];
      stats.Record(a, channels, now);
      RecordAgrees(monitors, recent, stats.recent, stats.capacity, was, d);
    }

    /** Route, send and record one message. */
    method Notify(a: Alert, now: int)
      requires Valid()
      modifies `sent, stats
      ensures Valid() && sent == old(sent) + [Send(cfg, a, now)]
    {
      RecordSent(a, Channels(cfg.rules, cfg.defaults, a), now, Send(cfg, a, now));
    }

    method HandleFire(a: Alert, now: int)
      requires Valid()
      modifies `active, `digestQ, `sent, dedupe, stats
      ensures Valid() && View() == FireStep(cfg, old(View()), a, now)
    {
      var ok := dedupe.Allow(a, now);
      if !ok {
        if cfg.resolution {
          active := active[a.Key() := a];
        }
        return;
      }
      if cfg.resolution {
        active := active[a.Key() := a];
      }
      if cfg.digest && a.severity in cfg.digestSeverities {
        digestQ := digestQ + [a];
        return;
      }
      Notify(a, now);
    }

    method HandleResolve(a: Alert, now: int)
      requires Valid()
      modifies `active, `sent, stats
      ensures Valid() && View() == ResolveStep(cfg, old(View()), a, now)
    {
      if !cfg.resolution {
        return;
      }
      if a.Key() !in active {
        return;
      }
      var prev := active[a.Key()];
      active := active - {a.Key()};
      Notify(Merged(prev, a, now), now);
    }

    /**
      The section of a reconcile under the lock: one walk over the map, in the order returned, takes
      out the entries of `monitor` that are not to be kept.
     */
    method TakeAbsent(monitor: string, keep: set<string>) returns (toResolve: seq<Alert>, ghost order: seq<string>)
      modifies `active
      ensures (active, toResolve) == Taken(old(active), monitor, keep, order)
      ensures forall k :: k in old(active) ==> k in order
    {
      toResolve, order := [], [];
      var todo := active.Keys;
      while todo != {}
        invariant (active, toResolve) == Taken(old(active), monitor, keep, order)
        invariant todo <= active.Keys && forall k :: k in old(active) ==> k in todo || k in order
        decreases todo
      {
        var k :| k in todo;
        todo := todo - {k};
        assert (order + [k])[..|order|] == order;
        order := order + [k];
        if active[k].monitor == monitor && k !in keep {
          toResolve := toResolve + [active[k]];
          active := active - {k};
        }
      }
    }

    /** Fires every listed alert, then resolves the other entries of `monitor`, met in the order returned. */
    method HandleReconcile(monitor: string, firing: seq<Alert>, clock: nat -> int, stamps: string -> int)
      returns (ghost order: seq<string>)
      requires Valid()
      modifies `active, `digestQ, `sent, dedupe, stats
      ensures Valid() && View() == EngineSpec.Run(cfg, old(View()), ReconcileOps(monitor, firing, clock, order, stamps))
      ensures Feasible(cfg, old(View()), ReconcileOps(monitor, firing, clock, order, stamps))
    {
      hide EngineSpec.Run, Feasible, FireStep, KeysOf, FireOps, Agrees, SweepStep, Send, Merged, Channels, Alert.Key,
           Announcements, Taken;
      ghost var start := View();
      FireOpsNone(cfg, start, clock);
      var firingKeys: set<string> := {};
      for i := 0 to |firing|
        invariant Valid()
        invariant firingKeys == KeysOf(firing[..i])
        invariant View() == EngineSpec.Run(cfg, start, FireOps(firing[..i], clock))
        invariant Feasible(cfg, start, FireOps(firing[..i], clock))
      {
        firingKeys := firingKeys + {firing[i].Key()};
        HandleFire(firing[i], clock(i));
        FireOpsNext(cfg, start, firing, clock, i);
      }
      assert firing[..|firing|] == firing;
      if !cfg.resolution {
        order := Listing(active.Keys);
        RunSnoc(cfg, start, FireOps(firing, clock), Sweep(monitor, firingKeys, order, stamps));
        return;
      }
      var toResolve: seq<Alert>;
      ghost var fired := View();
      toResolve, order := TakeAbsent(monitor, firingKeys);
      SweepIsTaken(cfg, fired, monitor, firingKeys, order, stamps);
      RunSnoc(cfg, start, FireOps(firing, clock), Sweep(monitor, firingKeys, order, stamps));
      ghost var mid := View();
      AnnouncementsNone(cfg, stamps);
      for i := 0 to |toResolve|
        invariant Valid() && View() == mid.(sent := mid.sent + Announcements(cfg, toResolve[..i], stamps))
      {
        AnnouncementsSnoc(cfg, toResolve[..i], toResolve[i], stamps);
        assert toResolve[..i + 1] == toResolve[..i] + [toResolve[i]];
        var now := stamps(toResolve[i].Key());
        Notify(Merged(toResolve[i], NO_HINT, now), now);
      }
      assert toResolve[..|toResolve|] == toResolve;
    }

    method FlushDigest(now: int)
      requires Valid()
      modifies `digestQ, `sent, stats
      ensures Valid() && View() == TickStep(cfg, old(View()), now)
    {
      hide Agrees, DigestAlert, Channels;
      var batch := digestQ;
      digestQ := [];
      if |batch| == 0 {
        return;
      }
      var digest := Summary(batch, now);
      var channels := Channels(cfg.rules, cfg.defaults, digest);
      RecordSent(digest, channels, now, Digest(batch, digest, channels, now));
    }

    /** The digest over a batch, its text built line by line. */
    method Summary(batch: seq<Alert>, now: int) returns (digest: Alert)
      ensures digest == DigestAlert(cfg, batch, now)
    {
      hide Decimal, DigestLine;
      var head := Decimal(|batch|) + " alerts in the last interval:\n\n";
      var lines := "";
      for i := 0 to |batch|
        invariant lines == DigestLines(batch[..i])
      {
        assert batch[..i + 1][..i] == batch[..i];
        lines := lines + DigestLine(batch[i]);
      }
      assert batch[..|batch|] == batch;
      digest := Alert("digest", Info, Firing, cfg.cluster, "", "", "", "",
                      Decimal(|batch|) + " alerts (digest)", head + lines, now);
    }

    // ---- The loop --------------------------------------------------------------

    method Take(clock: nat -> int, stamps: string -> int) returns (ghost ops: seq<Op>)
      requires Valid() && inbox != []
      modifies `inbox, `active, `digestQ, `sent, dedupe, stats
      ensures inbox == old(inbox)[1..] && ServedBy(old(inbox)[0], clock, stamps, ops)
      ensures Valid() && View() == EngineSpec.Run(cfg, old(View()), ops) && Feasible(cfg, old(View()), ops)
    {
      var inp := inbox[0];
      inbox := inbox[1..];
      match inp
      case FireInput(a) =>
        HandleFire(a, clock(0));
        ops := [Fire(a, clock(0))];
        RunSnoc(cfg, old(View()), [], Fire(a, clock(0)));
      case ResolveInput(a) =>
        HandleResolve(a, clock(0));
        ops := [EngineSpec.Resolve(a, clock(0))];
        RunSnoc(cfg, old(View()), [], EngineSpec.Resolve(a, clock(0)));
      case ReconcileInput(m, firing) =>
        ghost var order := HandleReconcile(m, firing, clock, stamps);
        ops := ReconcileOps(m, firing, clock, order, stamps);
    }

    /** One turn. */
    method ServeTurn(turn: Turn) returns (ghost ops: seq<Op>)
      requires Valid()
      modifies `inbox, `active, `digestQ, `sent, dedupe, stats
      ensures Valid() && View() == EngineSpec.Run(cfg, old(View()), ops) && Feasible(cfg, old(View()), ops)
      ensures match turn
              case Receive(clock, stamps) =>
                if old(inbox) != [] then inbox == old(inbox)[1..] && ServedBy(old(inbox)[0], clock, stamps, ops)
                else inbox == [] && ops == []
              case TickDue(now) =>
                inbox == old(inbox) && ops == if cfg.digest && cfg.digestInterval > 0 then [Tick(now)] else []
              case Arrival(inp) => inbox == Offered(old(inbox), inp) && ops == []
    {
      hide EngineSpec.Run, Feasible, ServedBy, Agrees;
      ops := [];
      RunNothing(cfg, View());
      match turn {
        case Receive(clock, stamps) =>
          if inbox != [] {
            ops := Take(clock, stamps);
          }
        case TickDue(now) =>
          if cfg.digest && cfg.digestInterval > 0 {
            RunOne(cfg, View(), Tick(now));
            FlushDigest(now);
            ops := [Tick(now)];
          }
        case Arrival(inp) => Offer(inp);
      }
    }

    /** The loop serves the inputs in the order queued, one per receive, and flushes on each enabled tick. */
    method Run(turns: seq<Turn>) returns (ghost pieces: seq<seq<Op>>)
      requires Valid()
      modifies `inbox, `active, `digestQ, `sent, dedupe, stats
      ensures Valid() && View() == EngineSpec.Run(cfg, old(View()), Joined(pieces))
      ensures Feasible(cfg, old(View()), Joined(pieces)) && |pieces| == |turns|
      ensures forall i :: 0 <= i < |turns| ==> TurnServed(cfg, old(inbox), turns, i, pieces[i])
      ensures inbox == Waiting(old(inbox), turns, |turns|)
    {
      hide EngineSpec.Run, Feasible, ServedBy, Agrees;
      ghost var start := View();
      pieces := [];
      assert EngineSpec.Run(cfg, start, []) == start && Feasible(cfg, start, []) by {
        RunConcat(cfg, start, [], []);
        RunNothing(cfg, start);
      }
      for i := 0 to |turns|
        invariant Valid() && |pieces| == i
        invariant View() == EngineSpec.Run(cfg, start, Joined(pieces)) && Feasible(cfg, start, Joined(pieces))
        invariant inbox == Waiting(old(inbox), turns, i)
        invariant forall j :: 0 <= j < i ==> TurnServed(cfg, old(inbox), turns, j, pieces[j])
      {
        ghost var ops := ServeTurn(turns[i]);
        RunConcat(cfg, start, Joined(pieces), ops);
        assert (pieces + [ops])[..|pieces|] == pieces;
        pieces := pieces + [ops];
      }
    }
  }

  /**
    The loop flushes the queue at every due tick if digests are on with a positive interval; otherwise what
    is queued is never sent.
   */
  lemma {:induction false} LoopFlushes(
      cfg: Config, s: EngineState, inbox: seq<Input>, turns: seq<Turn>, pieces: seq<seq<Op>>)
    requires |pieces| == |turns| && forall i :: 0 <= i < |turns| ==> TurnServed(cfg, inbox, turns, i, pieces[i])
    ensures var t := EngineSpec.Run(cfg, s, Joined(pieces));
            if cfg.digest && cfg.digestInterval > 0
            then turns != [] && turns[|turns| - 1].TickDue? ==> t.digestQ == []
            else s.digestQ <= t.digestQ && forall d :: d in t.sent ==> d in s.sent || d.Direct?
  {
    hide EngineSpec.Run, TurnServed, Step;
    if cfg.digest && cfg.digestInterval > 0 {
      if turns != [] && turns[|turns| - 1].TickDue? {
        var n := |turns| - 1;
        var before := EngineSpec.Run(cfg, s, Joined(pieces[..n]));
        TickServed(cfg, inbox, turns, n, pieces[n]);
        RunSnoc(cfg, s, Joined(pieces[..n]), pieces[n][0]);
        assert pieces[n] == [pieces[n][0]];
        Messages.StepQueues(cfg, before, pieces[n][0]);
      }
    } else {
      NoTicks(cfg, inbox, turns, pieces);
      Messages.NothingFlushed(cfg, s, Joined(pieces));
    }
  }

  lemma TickServed(cfg: Config, inbox: seq<Input>, turns: seq<Turn>, i: nat, ops: seq<Op>)
    requires i < |turns| && turns[i].TickDue? && TurnServed(cfg, inbox, turns, i, ops)
    requires cfg.digest && cfg.digestInterval > 0
    ensures |ops| == 1 && ops[0].Tick?
  {
  }

  lemma {:induction false} NoTicks(cfg: Config, inbox: seq<Input>, turns: seq<Turn>, pieces: seq<seq<Op>>)
    requires |pieces| <= |turns| && forall i :: 0 <= i < |pieces| ==> TurnServed(cfg, inbox, turns, i, pieces[i])
    requires !(cfg.digest && cfg.digestInterval > 0)
    ensures forall op :: op in Joined(pieces) ==> !op.Tick?
  {
    hide TurnServed;
    if pieces != [] {
      var n := |pieces| - 1;
      NoTicks(cfg, inbox, turns, pieces[..n]);
      NoTickServed(cfg, inbox, turns, n, pieces[n]);
    }
  }

  lemma NoTickServed(cfg: Config, inbox: seq<Input>, turns: seq<Turn>, i: nat, ops: seq<Op>)
    requires i < |turns| && TurnServed(cfg, inbox, turns, i, ops) && !(cfg.digest && cfg.digestInterval > 0)
    ensures forall op :: op in ops ==> !op.Tick?
  {
    hide Waiting;
    var waiting := Waiting(inbox, turns, i);
    if turns[i].Receive? && waiting != [] && waiting[0].ReconcileInput? {
      FireOpsFire(waiting[0].firing, turns[i].clock);
    }
  }

  lemma {:induction false} FireOpsFire(firing: seq<Alert>, clock: nat -> int)
    ensures forall op :: op in FireOps(firing, clock) ==> op.Fire?
  {
    if firing != [] {
      FireOpsFire(firing[..|firing| - 1], clock);
    }
  }

  lemma RunNothing(cfg: Config, s: EngineState)
    ensures EngineSpec.Run(cfg, s, []) == s && Feasible(cfg, s, [])
  {
  }

  lemma RunOne(cfg: Config, s: EngineState, op: Op)
    ensures EngineSpec.Run(cfg, s, [op]) == Step(cfg, s, op)
    ensures Feasible(cfg, s, [op]) <==> Covers(s, op)
  {
    RunSnoc(cfg, s, [], op);
  }

  lemma FireOpsNone(cfg: Config, s: EngineState, clock: nat -> int)
    ensures EngineSpec.Run(cfg, s, FireOps([], clock)) == s && Feasible(cfg, s, FireOps([], clock))
    ensures KeysOf([]) == {}
  {
  }

  lemma FireOpsNext(cfg: Config, s: EngineState, firing: seq<Alert>, clock: nat -> int, i: nat)
    requires i < |firing|
    ensures EngineSpec.Run(cfg, s, FireOps(firing[..i + 1], clock)) ==
              FireStep(cfg, EngineSpec.Run(cfg, s, FireOps(firing[..i], clock)), firing[i], clock(i))
    ensures Feasible(cfg, s, FireOps(firing[..i + 1], clock)) <==> Feasible(cfg, s, FireOps(firing[..i], clock))
    ensures KeysOf(firing[..i + 1]) == KeysOf(firing[..i]) + {firing[i].Key()}
  {
    assert firing[..i + 1][..i] == firing[..i];
    RunSnoc(cfg, s, FireOps(firing[..i], clock), Fire(firing[i], clock(i)));
    KeysOfNext(firing, i);
  }

  lemma KeysOfNext(firing: seq<Alert>, i: nat)
    requires i < |firing|
    ensures KeysOf(firing[..i + 1]) == KeysOf(firing[..i]) + {firing[i].Key()}
  {
    hide Alert.Key;
    var more, less := firing[..i + 1], firing[..i];
    forall k | k in KeysOf(more) ensures k in KeysOf(less) + {firing[i].Key()} {
      var j :| 0 <= j < |more| && more[j].Key() == k;
      assert j < i ==> less[j].Key() == k;
    }
    forall k | k in KeysOf(less) ensures k in KeysOf(more) {
      var j :| 0 <= j < |less| && less[j].Key() == k;
      assert more[j].Key() == k;
    }
    assert more[i].Key() in KeysOf(more);
  }
}
