/**
  The handlers and Reset at the granularity of their locks (internal/engine/engine.go).
  A handler is a list of actions, each of which holds one lock; Reset is two actions of another
  goroutine, and any number of them may fall between two actions of a handler.
 */
module Races {
  import opened Options
  import opened Alerts
  import opened Dedupe
  import opened EngineSpec

  datatype Act =
    | TryAllow(a: Alert, now: int)
    | Mark(a: Alert)
    | Enqueue(a: Alert)
    | Deliver(d: Delivery)
    | TakeEntry(hint: Alert, now: int)
    | TakeAbsent(monitor: string, keep: set<string>, order: seq<string>, stamps: string -> int)
    | TakeQueue(now: int)

  /**
    The shared state, what the handler in progress still has to do, and how many Resets are half
    done; with counts of the keys that entered `active`, those Reset dropped and what Reset returned.
   */
  datatype Fine = Fine(
    s: EngineState, work: seq<Act>, clearing: nat,
    inserted: multiset<string>, dropped: multiset<string>, returned: seq<nat>)

  /** An engine at rest with a restored limiter. */
  function Start(restored: map<string, int>): Fine {
    Fine(Started(restored), [], 0, multiset{}, multiset{}, [])
  }

  datatype Move = Begin(ops: seq<Op>) | Work | ResetActive | ResetDedupe

  /** The actions of the handler that serves `op`. */
  function Code(cfg: Config, op: Op): seq<Act> {
    match op
    case Fire(a, now) => [TryAllow(a, now)]
    case Resolve(hint, now) => if cfg.resolution then [TakeEntry(hint, now)] else []
    case Sweep(m, keep, order, stamps) => if cfg.resolution then [TakeAbsent(m, keep, order, stamps)] else []
    case Tick(now) => [TakeQueue(now)]
    case Reset => []
  }

  function CodeOf(cfg: Config, ops: seq<Op>): seq<Act> {
    if ops == [] then [] else Code(cfg, ops[0]) + CodeOf(cfg, ops[1..])
  }

  function Deliveries(ds: seq<Delivery>): seq<Act> {
    if ds == [] then [] else Deliveries(ds[..|ds| - 1]) + [Deliver(ds[|ds| - 1])]
  }

  /** The next action of the handler. */
  function Exec(cfg: Config, f: Fine): Fine
    requires f.work != []
  {
    var s, rest := f.s, f.work[1..];
    match f.work[0]
    case TryAllow(a, now) =>
      var emit := if Suppressed(s.last, cfg.window, a.Key(), now) then []
                  else if Digested(cfg, a) then [Enqueue(a)] else [Deliver(Send(cfg, a, now))];
      f.(s := s.(last := AfterAttempt(s.last, cfg.window, a.Key(), now)),
         work := (if cfg.resolution then [Mark(a)] else []) + emit + rest)
    case Mark(a) =>
      f.(s := s.(active := s.active[a.Key() := a]), work := rest,
         inserted := if a.Key() in s.active then f.inserted else f.inserted + multiset{a.Key()})
    case Enqueue(a) => f.(s := s.(digestQ := s.digestQ + [a]), work := rest)
    case Deliver(d) => f.(s := s.(sent := s.sent + [d]), work := rest)
    case TakeEntry(hint, now) =>
      if hint.Key() !in s.active then f.(work := rest)
      else f.(s := s.(active := s.active - {hint.Key()}),
              work := [Deliver(Send(cfg, Merged(s.active[hint.Key()], hint, now), now))] + rest)
    case TakeAbsent(m, keep, order, stamps) =>
      var (stay, out) := Taken(s.active, m, keep, order);
      f.(s := s.(active := stay), work := Deliveries(Announcements(cfg, out, stamps)) + rest)
    case TakeQueue(now) =>
      if s.digestQ == [] then f.(work := rest)
      else
        var d := DigestAlert(cfg, s.digestQ, now);
        f.(s := s.(digestQ := []),
           work := [Deliver(Digest(s.digestQ, d, Channels(cfg.rules, cfg.defaults, d), now))] + rest)
  }

  /** One move of either goroutine; a move that is not enabled changes nothing. */
  function Do(cfg: Config, f: Fine, mv: Move): Fine {
    match mv
    case Begin(ops) => if f.work == [] then f.(work := CodeOf(cfg, ops)) else f
    case Work => if f.work == [] then f else Exec(cfg, f)
    case ResetActive =>
      f.(s := f.s.(active := map[]), clearing := f.clearing + 1,
         dropped := f.dropped + multiset(f.s.active.Keys), returned := f.returned + [|f.s.active|])
    case ResetDedupe => if f.clearing == 0 then f else f.(s := f.s.(last := map[]), clearing := f.clearing - 1)
  }

  function DoAll(cfg: Config, f: Fine, moves: seq<Move>): Fine {
    if moves == [] then f
    else Do(cfg, DoAll(cfg, f, moves[..|moves| - 1]), moves[|moves| - 1])
  }

  // ---- Conservation -----------------------------------------------------------

  function ClosedKey(d: Delivery): multiset<string> {
    if d.Direct? && d.alert.state == Resolved then multiset{d.alert.Key()} else multiset{}
  }

  /** The keys of the resolved messages sent, with their number. */
  function ResolvedKeys(sent: seq<Delivery>): multiset<string> {
    if sent == [] then multiset{}
    else ResolvedKeys(sent[..|sent| - 1]) + ClosedKey(sent[|sent| - 1])
  }

  /** The keys of the resolved messages the handler still has to send. */
  function PendingKeys(work: seq<Act>): multiset<string> {
    if work == [] then multiset{}
    else (if work[0].Deliver? then ClosedKey(work[0].d) else multiset{}) + PendingKeys(work[1..])
  }

  function Sum(ns: seq<nat>): nat {
    if ns == [] then 0 else Sum(ns[..|ns| - 1]) + ns[|ns| - 1]
  }

  /** Submit and Reconcile only ever hand over firing alerts. */
  ghost predicate FiringOps(ops: seq<Op>) {
    forall op :: op in ops && op.Fire? ==> op.a.state == Firing
  }

  ghost predicate FiringWork(work: seq<Act>) {
    forall w :: w in work && w.TryAllow? ==> w.a.state == Firing
  }

  /** Every key that entered `active` is still there, was announced, is about to be, or was reset. */
  ghost predicate Balanced(f: Fine) {
    && KeysAgree(f.s.active) && FiringWork(f.work)
    && f.inserted == ResolvedKeys(f.s.sent) + PendingKeys(f.work) + f.dropped + multiset(f.s.active.Keys)
    && Sum(f.returned) == |f.dropped|
  }

  lemma {:induction false} PendingConcat(p: seq<Act>, q: seq<Act>)
    ensures PendingKeys(p + q) == PendingKeys(p) + PendingKeys(q)
  {
    if p == [] {
      assert p + q == q;
    } else {
      assert (p + q)[1..] == p[1..] + q;
      PendingConcat(p[1..], q);
    }
  }

  lemma StepCodeIsQuiet(cfg: Config, op: Op)
    requires op.Fire? ==> op.a.state == Firing
    ensures FiringWork(Code(cfg, op)) && PendingKeys(Code(cfg, op)) == multiset{}
  {
    var code := Code(cfg, op);
    assert code != [] ==> code[1..] == [];
  }

  lemma {:induction false} CodeIsQuiet(cfg: Config, ops: seq<Op>)
    requires FiringOps(ops)
    ensures FiringWork(CodeOf(cfg, ops)) && PendingKeys(CodeOf(cfg, ops)) == multiset{}
  {
    hide Code;
    if ops != [] {
      assert ops[0] in ops && forall op :: op in ops[1..] ==> op in ops;
      StepCodeIsQuiet(cfg, ops[0]);
      CodeIsQuiet(cfg, ops[1..]);
      PendingConcat(Code(cfg, ops[0]), CodeOf(cfg, ops[1..]));
    }
  }

  /** What a walk takes out is what it removes. */
  lemma {:induction false} TakenBalances(
      cfg: Config, active: map<string, Alert>, m: string, keep: set<string>, order: seq<string>,
      stamps: string -> int)
    requires KeysAgree(active)
    ensures var (stay, out) := Taken(active, m, keep, order);
            && KeysAgree(stay)
            && PendingKeys(Deliveries(Announcements(cfg, out, stamps))) + multiset(stay.Keys) == multiset(active.Keys)
  {
    hide Alert.Key, Channels;
    if order != [] {
      var front, k := order[..|order| - 1], order[|order| - 1];
      var (rest, out) := Taken(active, m, keep, front);
      TakenBalances(cfg, active, m, keep, front, stamps);
      if k in rest && rest[k].monitor == m && k !in keep {
        FarewellNext(cfg, out, rest[k], stamps);
        KeyRemoved(rest, k);
      }
    }
  }

  lemma FarewellNext(cfg: Config, out: seq<Alert>, a: Alert, stamps: string -> int)
    ensures var before := Deliveries(Announcements(cfg, out, stamps));
            var after := Deliveries(Announcements(cfg, out + [a], stamps));
            PendingKeys(after) == PendingKeys(before) + multiset{a.Key()}
  {
    hide Alert.Key, Channels;
    var ds, d := Announcements(cfg, out, stamps), Farewell(cfg, a, stamps);
    MergedKeepsKey(a, NO_HINT, stamps(a.Key()));
    AnnouncementsSnoc(cfg, out, a, stamps);
    assert (ds + [d])[..|ds|] == ds;
    PendingConcat(Deliveries(ds), [Deliver(d)]);
    assert [Deliver(d)][1..] == [];
  }

  lemma SentNext(sent: seq<Delivery>, d: Delivery)
    ensures ResolvedKeys(sent + [d]) == ResolvedKeys(sent) + ClosedKey(d)
  {
    assert (sent + [d])[..|sent|] == sent;
  }

  /** What an allowed or refused fire still has to do announces nothing. */
  lemma AllowIsQuiet(cfg: Config, f: Fine)
    requires f.work != [] && f.work[0].TryAllow? && f.work[0].a.state == Firing
    ensures PendingKeys(Exec(cfg, f).work) == PendingKeys(f.work)
  {
    hide Alert.Key, Channels, Suppressed, Digested;
    var a, now, rest, g := f.work[0].a, f.work[0].now, f.work[1..], Exec(cfg, f);
    var left := if cfg.resolution then g.work[1..] else g.work;
    assert cfg.resolution ==> g.work[0] == Mark(a);
    if Suppressed(f.s.last, cfg.window, a.Key(), now) {
      assert left == rest;
    } else {
      assert left[1..] == rest;
    }
  }

  lemma {:induction false} DeliveriesDeliver(ds: seq<Delivery>)
    ensures forall w :: w in Deliveries(ds) ==> w.Deliver?
  {
    if ds != [] {
      DeliveriesDeliver(ds[..|ds| - 1]);
    }
  }

  lemma ExecKeepsFiring(cfg: Config, f: Fine)
    requires f.work != [] && FiringWork(f.work)
    ensures FiringWork(Exec(cfg, f).work)
  {
    hide Channels, DigestAlert, Taken, Merged, Send, Alert.Key, Suppressed, Digested, Deliveries;
    var w, rest, g := f.work[0], f.work[1..], Exec(cfg, f);
    if w.TakeAbsent? {
      DeliveriesDeliver(Announcements(cfg, Taken(f.s.active, w.monitor, w.keep, w.order).1, w.stamps));
    }
    forall x | x in g.work && x.TryAllow? ensures x.a.state == Firing {
      assert x in rest ==> x in f.work;
    }
  }

  lemma KeyAdded<V>(m: map<string, V>, k: string, v: V)
    ensures multiset(m[k := v].Keys) == if k in m then multiset(m.Keys) else multiset(m.Keys) + multiset{k}
  {
    assert m[k := v].Keys == m.Keys + {k};
  }

  lemma KeyRemoved<V>(m: map<string, V>, k: string)
    requires k in m
    ensures multiset(m.Keys) == multiset((m - {k}).Keys) + multiset{k}
  {
    assert m.Keys == (m - {k}).Keys + {k};
  }

  lemma HeadIsFiring(work: seq<Act>)
    requires work != [] && FiringWork(work)
    ensures work[0].TryAllow? ==> work[0].a.state == Firing
  {
    assert work[0] in work;
  }

  lemma Regroup(r: multiset<string>, d: multiset<string>,
                p: multiset<string>, m: multiset<string>, p': multiset<string>, m': multiset<string>)
    requires p + m == p' + m'
    ensures r + p + d + m == r + p' + d + m'
  {
    assert r + p + d + m == r + d + (p + m);
    assert r + p' + d + m' == r + d + (p' + m');
  }

  /** The next action keeps the balance. */
  lemma ExecBalances(cfg: Config, f: Fine)
    requires f.work != [] && Balanced(f)
    ensures Balanced(Exec(cfg, f))
  {
    hide Exec, Balanced;
    match f.work[0]
    case TryAllow(a, now) => LocalBalances(cfg, f);
    case Mark(a) => MarkBalances(cfg, f);
    case Enqueue(a) => LocalBalances(cfg, f);
    case Deliver(d) => DeliverBalances(cfg, f);
    case TakeEntry(hint, now) => EntryBalances(cfg, f);
    case TakeAbsent(m, keep, order, stamps) => AbsentBalances(cfg, f);
    case TakeQueue(now) => LocalBalances(cfg, f);
  }

  /** Moving keys between the entries and the messages still to be sent keeps the balance. */
  lemma TransferBalances(f: Fine, g: Fine)
    requires Balanced(f) && KeysAgree(g.s.active) && FiringWork(g.work)
    requires g.s.sent == f.s.sent && g.inserted == f.inserted && g.dropped == f.dropped && g.returned == f.returned
    requires PendingKeys(g.work) + multiset(g.s.active.Keys) == PendingKeys(f.work) + multiset(f.s.active.Keys)
    ensures Balanced(g)
  {
    hide ResolvedKeys, PendingKeys, Sum, FiringWork, KeysAgree;
    Regroup(ResolvedKeys(f.s.sent), f.dropped, PendingKeys(f.work), multiset(f.s.active.Keys),
            PendingKeys(g.work), multiset(g.s.active.Keys));
  }

  lemma BalancedMeans(f: Fine)
    requires Balanced(f)
    ensures KeysAgree(f.s.active) && FiringWork(f.work)
  {
  }

  /** Actions on the limiter and the digest queue touch no entry. */
  lemma LocalBalances(cfg: Config, f: Fine)
    requires f.work != [] && Balanced(f)
    requires f.work[0].TryAllow? || f.work[0].Enqueue? || f.work[0].TakeQueue?
    ensures Balanced(Exec(cfg, f))
  {
    hide Balanced, Channels, DigestAlert, Send, Alert.Key, FiringWork, Suppressed, Digested, KeysAgree;
    BalancedMeans(f);
    ExecKeepsFiring(cfg, f);
    HeadIsFiring(f.work);
    var rest, g := f.work[1..], Exec(cfg, f);
    if f.work[0].TryAllow? {
      AllowIsQuiet(cfg, f);
    } else {
      assert g.work == rest || g.work[1..] == rest;
    }
    TransferBalances(f, g);
  }

  lemma MarkBalances(cfg: Config, f: Fine)
    requires f.work != [] && Balanced(f) && f.work[0].Mark?
    ensures Balanced(Exec(cfg, f))
  {
    hide ResolvedKeys, Alert.Key, Sum, FiringWork;
    ExecKeepsFiring(cfg, f);
    KeyAdded(f.s.active, f.work[0].a.Key(), f.work[0].a);
  }

  lemma DeliverBalances(cfg: Config, f: Fine)
    requires f.work != [] && Balanced(f) && f.work[0].Deliver?
    ensures Balanced(Exec(cfg, f))
  {
    hide ResolvedKeys, ClosedKey, Alert.Key, Sum, FiringWork, KeysAgree;
    ExecKeepsFiring(cfg, f);
    SentNext(f.s.sent, f.work[0].d);
  }

  lemma EntryBalances(cfg: Config, f: Fine)
    requires f.work != [] && Balanced(f) && f.work[0].TakeEntry?
    ensures Balanced(Exec(cfg, f))
  {
    hide ResolvedKeys, Channels, Alert.Key, Sum, FiringWork;
    ExecKeepsFiring(cfg, f);
    var k, g := f.work[0].hint.Key(), Exec(cfg, f);
    if k in f.s.active {
      MergedKeepsKey(f.s.active[k], f.work[0].hint, f.work[0].now);
      KeyRemoved(f.s.active, k);
      assert g.work[1..] == f.work[1..];
      Regroup(ResolvedKeys(f.s.sent), f.dropped, PendingKeys(f.work), multiset(f.s.active.Keys),
              PendingKeys(g.work), multiset(g.s.active.Keys));
    }
  }

  lemma AbsentPending(cfg: Config, f: Fine)
    requires f.work != [] && f.work[0].TakeAbsent?
    ensures var w, g := f.work[0], Exec(cfg, f);
            var (stay, out) := Taken(f.s.active, w.monitor, w.keep, w.order);
            && g == f.(s := f.s.(active := stay), work := g.work)
            && PendingKeys(g.work) == PendingKeys(Deliveries(Announcements(cfg, out, w.stamps))) + PendingKeys(f.work)
  {
    hide Taken, Deliveries, Announcements, ClosedKey;
    var w, rest := f.work[0], f.work[1..];
    PendingConcat(Deliveries(Announcements(cfg, Taken(f.s.active, w.monitor, w.keep, w.order).1, w.stamps)), rest);
  }

  lemma AbsentBalances(cfg: Config, f: Fine)
    requires f.work != [] && Balanced(f) && f.work[0].TakeAbsent?
    ensures Balanced(Exec(cfg, f))
  {
    hide Balanced, Alert.Key, FiringWork, KeysAgree, Taken, Deliveries, Announcements, Exec, PendingKeys;
    BalancedMeans(f);
    ExecKeepsFiring(cfg, f);
    AbsentPending(cfg, f);
    var w, g := f.work[0], Exec(cfg, f);
    TakenBalances(cfg, f.s.active, w.monitor, w.keep, w.order, w.stamps);
    TransferBalances(f, g);
  }

  lemma NothingPending()
    ensures PendingKeys([]) == multiset{}
  {
  }

  lemma MoveBalances(cfg: Config, f: Fine, mv: Move)
    requires Balanced(f) && (mv.Begin? ==> FiringOps(mv.ops))
    ensures Balanced(Do(cfg, f, mv))
  {
    hide Exec, ResolvedKeys, PendingKeys, Alert.Key, KeysAgree, Sum;
    match mv
    case Begin(ops) =>
      CodeIsQuiet(cfg, ops);
      assert PendingKeys([]) == multiset{} by { NothingPending(); }
    case Work =>
      if f.work != [] {
        ExecBalances(cfg, f);
      }
    case ResetActive => ResetBalances(cfg, f);
    case ResetDedupe =>
  }

  lemma ResetBalances(cfg: Config, f: Fine)
    requires Balanced(f)
    ensures Balanced(Do(cfg, f, ResetActive))
  {
    hide ResolvedKeys, PendingKeys, FiringWork;
    assert (f.returned + [|f.s.active|])[..|f.returned|] == f.returned;
    assert |multiset(f.s.active.Keys)| == |f.s.active|;
  }

  lemma {:induction false} AlwaysBalanced(cfg: Config, restored: map<string, int>, moves: seq<Move>)
    requires forall i :: 0 <= i < |moves| && moves[i].Begin? ==> FiringOps(moves[i].ops)
    ensures Balanced(DoAll(cfg, Start(restored), moves))
  {
    if moves != [] {
      var n := |moves| - 1;
      AlwaysBalanced(cfg, restored, moves[..n]);
      MoveBalances(cfg, DoAll(cfg, Start(restored), moves[..n]), moves[n]);
    }
  }

  /**
    In every interleaving, for each key: the times it became active are the resolved messages sent or
    pending for it, plus the times Reset dropped it, plus one if it is active.
   */
  lemma {:induction false} TokensConserved(cfg: Config, restored: map<string, int>, moves: seq<Move>, k: string)
    requires forall i :: 0 <= i < |moves| && moves[i].Begin? ==> FiringOps(moves[i].ops)
    ensures var f := DoAll(cfg, Start(restored), moves);
            f.inserted[k] == ResolvedKeys(f.s.sent)[k] + PendingKeys(f.work)[k] + f.dropped[k]
                             + (if k in f.s.active then 1 else 0)
  {
    AlwaysBalanced(cfg, restored, moves);
  }

  /** What the Resets returned adds up to the entries they dropped. */
  lemma {:induction false} ReturnsAddUp(cfg: Config, restored: map<string, int>, moves: seq<Move>)
    requires forall i :: 0 <= i < |moves| && moves[i].Begin? ==> FiringOps(moves[i].ops)
    ensures Sum(DoAll(cfg, Start(restored), moves).returned) == |DoAll(cfg, Start(restored), moves).dropped|
  {
    AlwaysBalanced(cfg, restored, moves);
  }

  // ---- A handler left alone is one atomic operation ----------------------------

  /** `n` moves of the handler in a row. */
  function Works(cfg: Config, f: Fine, n: nat): Fine {
    if n == 0 then f else Do(cfg, Works(cfg, f, n - 1), Work)
  }

  lemma {:induction false} WorksAdd(cfg: Config, f: Fine, m: nat, n: nat)
    ensures Works(cfg, f, m + n) == Works(cfg, Works(cfg, f, m), n)
  {
    hide Do;
    if n > 0 {
      WorksAdd(cfg, f, m, n - 1);
    }
  }

  lemma WorksFew(cfg: Config, f: Fine)
    ensures Works(cfg, f, 0) == f
    ensures f.work != [] ==> Works(cfg, f, 1) == Exec(cfg, f)
  {
    hide Exec;
    assert Works(cfg, f, 0) == f;
  }

  lemma {:induction false} DeliverAll(cfg: Config, f: Fine, ds: seq<Delivery>, rest: seq<Act>)
    requires f.work == Deliveries(ds) + rest
    ensures Works(cfg, f, |ds|) == f.(s := f.s.(sent := f.s.sent + ds), work := rest)
    decreases |ds|
  {
    hide Do;
    if ds == [] {
      assert f.work == rest;
    } else {
      var n := |ds| - 1;
      assert f.work == Deliveries(ds[..n]) + ([Deliver(ds[n])] + rest);
      DeliverAll(cfg, f, ds[..n], [Deliver(ds[n])] + rest);
      DeliverOne(cfg, Works(cfg, f, n), ds[n], rest);
      assert f.s.sent + ds == f.s.sent + ds[..n] + [ds[n]];
    }
  }

  lemma DeliverOne(cfg: Config, f: Fine, d: Delivery, rest: seq<Act>)
    requires f.work == [Deliver(d)] + rest
    ensures Do(cfg, f, Work) == f.(s := f.s.(sent := f.s.sent + [d]), work := rest)
  {
    assert f.work[1..] == rest;
  }

  /** Run without interference, the code of `op` has exactly the effect of the atomic operation. */
  lemma {:induction false} HandlerIsAtomic(cfg: Config, f: Fine, op: Op, rest: seq<Act>) returns (n: nat)
    requires !op.Reset? && f.work == Code(cfg, op) + rest
    ensures Works(cfg, f, n).work == rest && Works(cfg, f, n).s == Step(cfg, f.s, op)
  {
    hide Works, FireStep, SweepStep, TickStep;
    if Code(cfg, op) == [] {
      n := 0;
      assert f.work == rest;
      WorksFew(cfg, f);
    } else {
      match op
      case Fire(a, now) => n := FireIsAtomic(cfg, f, a, now, rest);
      case Resolve(hint, now) => n := ResolveIsAtomic(cfg, f, hint, now, rest);
      case Sweep(m, keep, order, stamps) => n := SweepIsAtomic(cfg, f, m, keep, order, stamps, rest);
      case Tick(now) => n := TickIsAtomic(cfg, f, now, rest);
    }
  }

  lemma FireIsAtomic(cfg: Config, f: Fine, a: Alert, now: int, rest: seq<Act>) returns (n: nat)
    requires f.work == [TryAllow(a, now)] + rest
    ensures Works(cfg, f, n).work == rest && Works(cfg, f, n).s == FireStep(cfg, f.s, a, now)
  {
    hide Alert.Key, Send;
    var f1 := Exec(cfg, f);
    assert f.work[1..] == rest;
    var emit := if Suppressed(f.s.last, cfg.window, a.Key(), now) then []
                else if Digested(cfg, a) then [Enqueue(a)] else [Deliver(Send(cfg, a, now))];
    assert Works(cfg, f, 0) == f && Works(cfg, f, 1) == f1;
    var f2 := if cfg.resolution then Exec(cfg, f1) else f1;
    n := if cfg.resolution then 2 else 1;
    assert f2.work == emit + rest;
    assert Works(cfg, f, n) == f2;
    if emit != [] {
      assert Works(cfg, f, n + 1) == Exec(cfg, f2);
      assert (emit + rest)[1..] == rest;
      n := n + 1;
    }
  }

  lemma ResolveIsAtomic(cfg: Config, f: Fine, hint: Alert, now: int, rest: seq<Act>) returns (n: nat)
    requires cfg.resolution && f.work == [TakeEntry(hint, now)] + rest
    ensures Works(cfg, f, n).work == rest && Works(cfg, f, n).s == ResolveStep(cfg, f.s, hint, now)
  {
    hide Alert.Key, Send, Merged;
    assert Works(cfg, f, 0) == f && f.work[1..] == rest;
    n := 1;
    if hint.Key() in f.s.active {
      var f1 := Exec(cfg, f);
      assert Works(cfg, f, 1) == f1 && Works(cfg, f, 2) == Exec(cfg, f1);
      assert f1.work[1..] == rest;
      n := 2;
    }
  }

  lemma TickIsAtomic(cfg: Config, f: Fine, now: int, rest: seq<Act>) returns (n: nat)
    requires f.work == [TakeQueue(now)] + rest
    ensures Works(cfg, f, n).work == rest && Works(cfg, f, n).s == TickStep(cfg, f.s, now)
  {
    hide Channels, DigestAlert;
    assert Works(cfg, f, 0) == f && f.work[1..] == rest;
    n := 1;
    if f.s.digestQ != [] {
      var f1 := Exec(cfg, f);
      assert Works(cfg, f, 1) == f1 && Works(cfg, f, 2) == Exec(cfg, f1);
      assert f1.work[1..] == rest;
      n := 2;
    }
  }

  lemma SweepIsAtomic(
      cfg: Config, f: Fine, m: string, keep: set<string>, order: seq<string>, stamps: string -> int,
      rest: seq<Act>)
    returns (n: nat)
    requires f.work == [TakeAbsent(m, keep, order, stamps)] + rest
    ensures Works(cfg, f, n).work == rest && Works(cfg, f, n).s == SweepStep(cfg, f.s, m, keep, order, stamps)
  {
    hide Taken, Deliveries, Works, SweepStep, Announcements;
    var out := Taken(f.s.active, m, keep, order).1;
    var f1 := Exec(cfg, f);
    assert f.work[1..] == rest;
    WorksFew(cfg, f);
    var ds := Announcements(cfg, out, stamps);
    DeliverAll(cfg, f1, ds, rest);
    WorksAdd(cfg, f, 1, |ds|);
    SweepIsTaken(cfg, f.s, m, keep, order, stamps);
    n := 1 + |ds|;
  }

  lemma RunNone(cfg: Config, s: EngineState)
    ensures Run(cfg, s, []) == s
  {
  }

  /** So an uninterrupted handler does to the state what the run of its operations does. */
  lemma {:induction false} AloneIsAtomic(cfg: Config, f: Fine, ops: seq<Op>) returns (n: nat)
    requires Reset !in ops && f.work == CodeOf(cfg, ops)
    ensures Works(cfg, f, n).work == [] && Works(cfg, f, n).s == Run(cfg, f.s, ops)
    decreases |ops|
  {
    hide Step, Code, Works, Run;
    if ops == [] {
      n := 0;
      WorksFew(cfg, f);
      assert Run(cfg, f.s, []) == f.s by { RunNone(cfg, f.s); }
    } else {
      var m := HandlerIsAtomic(cfg, f, ops[0], CodeOf(cfg, ops[1..]));
      var mid := Works(cfg, f, m);
      var r := AloneIsAtomic(cfg, mid, ops[1..]);
      WorksAdd(cfg, f, m, r);
      n := m + r;
      assert ops == [ops[0]] + ops[1..];
      RunConcat(cfg, f.s, [ops[0]], ops[1..]);
      RunNone(cfg, f.s);
      RunSnoc(cfg, f.s, [], ops[0]);
      assert [] + [ops[0]] == [ops[0]];
    }
  }

  // ---- What a racing Reset can leave behind ---------------------------------------

  ghost predicate Within(s: EngineState) {
    s.active.Keys <= s.last.Keys
  }

  /** When handlers and Reset are atomic, every active key is remembered by the limiter. */
  lemma {:induction false} AtomicStaysWithin(cfg: Config, s: EngineState, ops: seq<Op>)
    requires Within(s)
    ensures Within(Run(cfg, s, ops))
  {
    hide Alert.Key, Channels;
    if ops != [] {
      var n := |ops| - 1;
      AtomicStaysWithin(cfg, s, ops[..n]);
      var t, op := Run(cfg, s, ops[..n]), ops[n];
      if op.Sweep? {
        SweepIsTaken(cfg, t, op.monitor, op.keep, op.order, op.stamps);
        TakenShrinks(t.active, op.monitor, op.keep, op.order);
      }
    }
  }

  lemma {:induction false} TakenShrinks(active: map<string, Alert>, m: string, keep: set<string>, order: seq<string>)
    ensures Taken(active, m, keep, order).0.Keys <= active.Keys
  {
    if order != [] {
      TakenShrinks(active, m, keep, order[..|order| - 1]);
    }
  }

  /** The handler has just passed the limiter and is about to mark its alert active. */
  predicate AboutToMark(f: Fine) {
    f.work != [] && f.work[0].Mark?
  }

  /** Every active key is remembered by the limiter, and so is the one about to be marked. */
  ghost predicate Ready(f: Fine) {
    Within(f.s) && (AboutToMark(f) ==> f.work[0].a.Key() in f.s.last)
  }

  /** A mark only ever stands at the head of what a handler has to do. */
  ghost predicate MarksFirst(work: seq<Act>) {
    forall i :: 0 < i < |work| ==> !work[i].Mark?
  }

  /** The second half of a Reset clears the limiter while an entry is active or between limiter and mark. */
  predicate Strands(f: Fine, mv: Move) {
    mv.ResetDedupe? && f.clearing > 0 && (f.s.active != map[] || AboutToMark(f))
  }

  lemma DeliveriesAt(ds: seq<Delivery>, i: nat)
    requires i < |Deliveries(ds)|
    ensures Deliveries(ds)[i].Deliver?
  {
    DeliveriesDeliver(ds);
    assert Deliveries(ds)[i] in Deliveries(ds);
  }

  lemma {:induction false} CodeNeverMarks(cfg: Config, ops: seq<Op>)
    ensures forall i :: 0 <= i < |CodeOf(cfg, ops)| ==> !CodeOf(cfg, ops)[i].Mark?
  {
    if ops != [] {
      CodeNeverMarks(cfg, ops[1..]);
    }
  }

  lemma ExecKeepsMarksFirst(cfg: Config, f: Fine)
    requires f.work != [] && MarksFirst(f.work)
    ensures MarksFirst(Exec(cfg, f).work)
  {
    hide Alert.Key, Channels, Merged, DigestAlert, Suppressed, Digested, Taken, Deliveries, Announcements;
    var w, rest, g := f.work[0], f.work[1..], Exec(cfg, f);
    forall i | 0 < i < |g.work| ensures !g.work[i].Mark? {
      if w.TakeAbsent? {
        var ds := Announcements(cfg, Taken(f.s.active, w.monitor, w.keep, w.order).1, w.stamps);
        assert g.work == Deliveries(ds) + rest;
        if i < |Deliveries(ds)| {
          DeliveriesAt(ds, i);
        } else {
          assert g.work[i] == f.work[i - |Deliveries(ds)| + 1];
        }
      } else {
        var added := |g.work| - |rest|;
        assert i >= added ==> g.work[i] == f.work[i - added + 1];
      }
    }
  }

  /** What the handler does next keeps the limiter in step with the active set. */
  lemma ExecKeepsReady(cfg: Config, f: Fine)
    requires f.work != [] && MarksFirst(f.work) && Ready(f)
    ensures Ready(Exec(cfg, f))
  {
    hide Alert.Key, Channels, Merged, DigestAlert, Taken, Deliveries, Announcements;
    var w, rest, g := f.work[0], f.work[1..], Exec(cfg, f);
    assert rest != [] ==> rest[0] == f.work[1];
    if w.TakeAbsent? {
      TakenShrinks(f.s.active, w.monitor, w.keep, w.order);
      var ds := Announcements(cfg, Taken(f.s.active, w.monitor, w.keep, w.order).1, w.stamps);
      if |Deliveries(ds)| > 0 {
        DeliveriesAt(ds, 0);
      }
    }
  }

  /** A single move keeps limiter and active set in step exactly unless it strands something. */
  lemma MoveKeepsReady(cfg: Config, f: Fine, mv: Move)
    requires MarksFirst(f.work) && Ready(f)
    ensures MarksFirst(Do(cfg, f, mv).work)
    ensures Ready(Do(cfg, f, mv)) <==> !Strands(f, mv)
  {
    hide Exec, Alert.Key;
    match mv
    case Begin(ops) =>
      CodeNeverMarks(cfg, ops);
    case Work =>
      if f.work != [] {
        ExecKeepsMarksFirst(cfg, f);
        ExecKeepsReady(cfg, f);
      }
    case ResetActive =>
    case ResetDedupe =>
      if f.clearing > 0 && f.s.active != map[] {
        var k :| k in f.s.active;
        assert k in f.s.active.Keys;
      }
  }

  /** Where the first `n` moves of a schedule lead. */
  function After(cfg: Config, restored: map<string, int>, moves: seq<Move>, n: nat): Fine
    requires n <= |moves|
  {
    if n == 0 then Start(restored) else Do(cfg, After(cfg, restored, moves, n - 1), moves[n - 1])
  }

  lemma {:induction false} AfterIsDoAll(cfg: Config, restored: map<string, int>, moves: seq<Move>, n: nat)
    requires n <= |moves|
    ensures After(cfg, restored, moves, n) == DoAll(cfg, Start(restored), moves[..n])
  {
    hide Do;
    if n > 0 {
      AfterIsDoAll(cfg, restored, moves, n - 1);
      assert moves[..n][..n - 1] == moves[..n - 1];
    }
  }

  /**
    Over a whole schedule, the limiter stays in step with the active set exactly when the second half
    of no Reset falls while an entry is active or while a handler is between limiter and mark.
   */
  lemma {:induction false} ResetRaceExactly(cfg: Config, restored: map<string, int>, moves: seq<Move>, n: nat)
    requires n <= |moves|
    ensures (forall m :: 0 <= m <= n ==> Ready(After(cfg, restored, moves, m))) <==>
              (forall m :: 0 <= m < n ==> !Strands(After(cfg, restored, moves, m), moves[m]))
    ensures (forall m :: 0 <= m < n ==> !Strands(After(cfg, restored, moves, m), moves[m])) ==>
              MarksFirst(After(cfg, restored, moves, n).work)
  {
    hide Do, Ready, Strands, MarksFirst;
    if n == 0 {
      StartIsReady(restored);
    } else {
      ResetRaceExactly(cfg, restored, moves, n - 1);
      var f, mv := After(cfg, restored, moves, n - 1), moves[n - 1];
      if forall m :: 0 <= m < n - 1 ==> !Strands(After(cfg, restored, moves, m), moves[m]) {
        assert Ready(f);
        MoveKeepsReady(cfg, f, mv);
        assert After(cfg, restored, moves, n) == Do(cfg, f, mv);
      }
    }
  }

  lemma StartIsReady(restored: map<string, int>)
    ensures Ready(Start(restored)) && MarksFirst(Start(restored).work)
  {
  }

  /** A Reset that falls between the limiter and the mark of a fire leaves an entry it should have dropped. */
  lemma ResetMayMissAFire(cfg: Config, restored: map<string, int>, a: Alert, now: int)
    requires cfg.resolution && !Digested(cfg, a)
    ensures var f := DoAll(cfg, Start(restored), [Begin([Fire(a, now)]), Work, ResetActive, ResetDedupe, Work, Work]);
            f.work == [] && f.clearing == 0 && a.Key() in f.s.active && a.Key() !in f.s.last
  {
    hide Alert.Key, Channels, Suppressed, Digested, AfterAttempt;
    var moves := [Begin([Fire(a, now)]), Work, ResetActive, ResetDedupe, Work, Work];
    assert [Fire(a, now)][1..] == [];
    var f1 := Do(cfg, Start(restored), moves[0]);
    assert CodeOf(cfg, [Fire(a, now)]) == [TryAllow(a, now)] by {
      assert [Fire(a, now)][1..] == [] && CodeOf(cfg, []) == [];
    }
    assert f1.work == [TryAllow(a, now)];
    var f2 := Do(cfg, f1, Work);
    var out := if Suppressed(restored, cfg.window, a.Key(), now) then [] else [Deliver(Send(cfg, a, now))];
    assert f2.work == [Mark(a)] + out;
    var f3 := Do(cfg, f2, ResetActive);
    var f4 := Do(cfg, f3, ResetDedupe);
    var f5 := Do(cfg, f4, Work);
    assert f5.work == out;
    var f6 := Do(cfg, f5, Work);
    assert f6.work == [];
    DoAllSix(cfg, restored, moves);
  }

  lemma DoAllSix(cfg: Config, restored: map<string, int>, m: seq<Move>)
    requires |m| == 6
    ensures DoAll(cfg, Start(restored), m) ==
              Do(cfg, Do(cfg, Do(cfg, Do(cfg, Do(cfg, Do(cfg, Start(restored), m[0]), m[1]), m[2]), m[3]), m[4]), m[5])
  {
    hide Do;
    assert m[..5][..4] == m[..4] && m[..4][..3] == m[..3] && m[..3][..2] == m[..2] && m[..2][..1] == m[..1];
    assert m[..1][..0] == [];
    assert DoAll(cfg, Start(restored), m[..1]) == Do(cfg, Start(restored), m[0]);
    assert DoAll(cfg, Start(restored), m[..2]) == Do(cfg, DoAll(cfg, Start(restored), m[..1]), m[1]);
    assert DoAll(cfg, Start(restored), m[..3]) == Do(cfg, DoAll(cfg, Start(restored), m[..2]), m[2]);
    assert DoAll(cfg, Start(restored), m[..4]) == Do(cfg, DoAll(cfg, Start(restored), m[..3]), m[3]);
    assert DoAll(cfg, Start(restored), m[..5]) == Do(cfg, DoAll(cfg, Start(restored), m[..4]), m[4]);
  }
}
