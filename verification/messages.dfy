/** What is sent, queued and said: every message of a run, field by field, from the operation behind it. */
module Messages {
  import opened Alerts
  import opened Dedupe
  import opened EngineSpec
  import opened Wording
  import Submitter

  /** Digests are on and take this severity. */
  ghost predicate Listed(cfg: Config, a: Alert) {
    cfg.digest && exists i :: 0 <= i < |cfg.digestSeverities| && cfg.digestSeverities[i] == a.severity
  }

  /** The limiter holds no time for the alert that is less than a window old. */
  ghost predicate Due(cfg: Config, s: EngineState, a: Alert, now: int) {
    a.Key() in s.last ==> now - s.last[a.Key()] >= cfg.window
  }

  /** A fire that is due and not listed is sent as it is. */
  ghost predicate IsNotice(cfg: Config, s: EngineState, a: Alert, now: int, d: Delivery) {
    && Due(cfg, s, a, now) && !Listed(cfg, a)
    && d.Direct? && d.alert == a && d.at == now && Routed(cfg, a.severity, a.monitor, d.channels)
  }

  /** The end of `e`: its identity and cluster, severity Info, the stamp of the sending, and the given texts. */
  ghost predicate IsEnd(cfg: Config, e: Alert, title: string, body: string, now: int, d: Delivery) {
    && d.Direct? && d.at == now && Routed(cfg, Info, e.monitor, d.channels)
    && d.alert == Alert(e.monitor, Info, Resolved, e.cluster, e.namespace, e.objectKind, e.objectName, e.reason,
                        title, body, now)
  }

  const STOCK := "kpulse no longer detects the condition that triggered this alert."

  /** `d` is a message that `op` sends in state `s`. */
  ghost predicate SentBy(cfg: Config, s: EngineState, op: Op, d: Delivery) {
    match op
    case Fire(a, now) => IsNotice(cfg, s, a, now, d)
    case Resolve(hint, now) =>
      cfg.resolution && hint.Key() in s.active &&
      var e := s.active[hint.Key()];
      IsEnd(cfg, e, if hint.title == "" then "Resolved: " + e.title else hint.title,
            if hint.body == "" then STOCK else hint.body, now, d)
    case Sweep(m, keep, _, stamps) =>
      cfg.resolution && SomeSwept(cfg, s, m, keep, stamps, d)
    case Tick(now) =>
      && s.digestQ != [] && d.Digest? && d.batch == s.digestQ && d.at == now
      && IsDigest(cfg, s.digestQ, d.alert, now) && Routed(cfg, Info, "digest", d.channels)
    case Reset => false
  }

  /** The end that a sweep announces for entry `e` of `k`. */
  ghost predicate IsSwept(
      cfg: Config, e: Alert, k: string, m: string, keep: set<string>, stamps: string -> int, d: Delivery)
  {
    e.monitor == m && k !in keep && IsEnd(cfg, e, "Resolved: " + e.title, STOCK, stamps(k), d)
  }

  // ---- One operation -----------------------------------------------------------------------

  /** A fire is sent when it is due and not listed, queued when due and listed, and neither otherwise. */
  lemma FireGoesOut(cfg: Config, s: EngineState, a: Alert, now: int)
    ensures var t := Step(cfg, s, Fire(a, now));
            if !Due(cfg, s, a, now) then t.sent == s.sent && t.digestQ == s.digestQ
            else if Listed(cfg, a) then t.sent == s.sent && t.digestQ == s.digestQ + [a]
            else t.digestQ == s.digestQ && |t.sent| == |s.sent| + 1 && t.sent[..|s.sent|] == s.sent
                 && IsNotice(cfg, s, a, now, t.sent[|s.sent|])
  {
    hide Alert.Key, Channels, Routed;
    RoutedByFirst(cfg, a);
  }

  lemma EndSaid(cfg: Config, e: Alert, hint: Alert, now: int)
    ensures IsEnd(cfg, e, if hint.title == "" then "Resolved: " + e.title else hint.title,
                  if hint.body == "" then STOCK else hint.body, now, Send(cfg, Merged(e, hint, now), now))
  {
    hide Channels, Routed;
    RoutedByFirst(cfg, Merged(e, hint, now));
  }

  /** Every message of `t` beyond those of `s` is the end that a sweep announces for an entry of `s`. */
  ghost predicate OnlySwept(
      cfg: Config, s: EngineState, m: string, keep: set<string>, stamps: string -> int, t: EngineState)
  {
    && |s.sent| <= |t.sent| && t.sent[..|s.sent|] == s.sent && t.digestQ == s.digestQ
    && forall i :: |s.sent| <= i < |t.sent| ==> SomeSwept(cfg, s, m, keep, stamps, t.sent[i])
  }

  ghost predicate SomeSwept(
      cfg: Config, s: EngineState, m: string, keep: set<string>, stamps: string -> int, d: Delivery)
  {
    exists k :: k in s.active && IsSwept(cfg, s.active[k], k, m, keep, stamps, d)
  }

  lemma RetireSays(
      cfg: Config, s: EngineState, m: string, keep: set<string>, stamps: string -> int, t: EngineState, k: string)
    requires k in s.active && k in t.active && t.active[k] == s.active[k]
    requires s.active[k].monitor == m && k !in keep && OnlySwept(cfg, s, m, keep, stamps, t)
    ensures OnlySwept(cfg, s, m, keep, stamps, Retire(cfg, t, k, NO_HINT, stamps(k)))
  {
    hide Send, Merged, IsEnd;
    var d := Send(cfg, Merged(s.active[k], NO_HINT, stamps(k)), stamps(k));
    EndSaid(cfg, s.active[k], NO_HINT, stamps(k));
    assert IsSwept(cfg, s.active[k], k, m, keep, stamps, d);
    assert SomeSwept(cfg, s, m, keep, stamps, d);
  }

  /** New messages of a sweep, one walk step at a time. */
  lemma {:induction false} SweepSays(
      cfg: Config, s: EngineState, m: string, keep: set<string>, order: seq<string>, stamps: string -> int)
    requires KeysAgree(s.active)
    ensures OnlySwept(cfg, s, m, keep, stamps, SweepStep(cfg, s, m, keep, order, stamps))
  {
    hide Retire, Alert.Key, SomeSwept;
    if order != [] {
      var front, k := order[..|order| - 1], order[|order| - 1];
      SweepSays(cfg, s, m, keep, front, stamps);
      SweepKeepsKeys(cfg, s, m, keep, front, stamps);
      Submitter.SweepOnlyRemoves(cfg, s, m, keep, front, stamps);
      var t := SweepStep(cfg, s, m, keep, front, stamps);
      if Drops(t, m, keep, k) {
        assert t.active[k].Key() == k;
        RetireSays(cfg, s, m, keep, stamps, t, k);
      }
    }
  }

  /** An operation only adds messages, and each is one that it sends. */
  lemma StepSays(cfg: Config, s: EngineState, op: Op)
    requires KeysAgree(s.active)
    ensures var t := Step(cfg, s, op);
            && |s.sent| <= |t.sent| && t.sent[..|s.sent|] == s.sent
            && forall i :: |s.sent| <= i < |t.sent| ==> SentBy(cfg, s, op, t.sent[i])
  {
    hide Send, Merged, Alert.Key, IsEnd, IsNotice, IsDigest, DigestAlert, Routed, SweepStep, FireStep, Due, Listed,
         Channels, KeysAgree, SomeSwept;
    match op
    case Fire(a, now) => FireGoesOut(cfg, s, a, now);
    case Resolve(hint, now) =>
      if cfg.resolution && hint.Key() in s.active {
        EndSaid(cfg, s.active[hint.Key()], hint, now);
      }
    case Sweep(m, keep, order, stamps) =>
      if cfg.resolution {
        SweepSays(cfg, s, m, keep, order, stamps);
      }
    case Tick(now) => TickSays(cfg, s, now);
    case Reset =>
  }

  lemma TickSays(cfg: Config, s: EngineState, now: int)
    ensures var t := TickStep(cfg, s, now);
            && t.digestQ == []
            && if s.digestQ == [] then t.sent == s.sent
               else |t.sent| == |s.sent| + 1 && t.sent[..|s.sent|] == s.sent
                    && SentBy(cfg, s, Tick(now), t.sent[|s.sent|])
  {
    hide Channels, Routed, IsDigest;
    var d := DigestAlert(cfg, s.digestQ, now);
    DigestReads(cfg, s.digestQ, now);
    RoutedByFirst(cfg, d);
  }

  // ---- Every run -----------------------------------------------------------------------------

  /** Operation `n` of the run sends message `i`. */
  ghost predicate Sends(cfg: Config, s: EngineState, ops: seq<Op>, n: nat, i: nat)
    requires n < |ops| && i < |Run(cfg, s, ops).sent|
  {
    var before := Run(cfg, s, ops[..n]);
    && |before.sent| <= i < |Run(cfg, s, ops[..n + 1]).sent|
    && SentBy(cfg, before, ops[n], Run(cfg, s, ops).sent[i])
  }

  /** Every message of a run is one that some operation of the run sends where it stands. */
  lemma {:induction false} EveryMessageIsSent(cfg: Config, restored: map<string, int>, ops: seq<Op>, i: nat)
    requires i < |Run(cfg, Started(restored), ops).sent|
    ensures exists n: nat :: n < |ops| && Sends(cfg, Started(restored), ops, n, i)
  {
    hide SentBy, Step;
    var s := Started(restored);
    if ops != [] {
      var m := |ops| - 1;
      var front, before := ops[..m], Run(cfg, s, ops[..m]);
      KeysAlwaysAgree(cfg, s, front);
      StepSays(cfg, before, ops[m]);
      assert ops[..m + 1] == ops;
      if i < |before.sent| {
        EveryMessageIsSent(cfg, restored, front, i);
        var n: nat :| n < m && Sends(cfg, s, front, n, i);
        assert front[..n] == ops[..n] && front[..n + 1] == ops[..n + 1];
        assert before.sent[i] == Run(cfg, s, ops).sent[i];
        assert Sends(cfg, s, ops, n, i);
      } else {
        assert Sends(cfg, s, ops, m, i);
      }
    }
  }

  ghost predicate BatchesListed(cfg: Config, s: EngineState) {
    && (s.digestQ != [] ==> cfg.digest) && (forall a :: a in s.digestQ ==> Listed(cfg, a))
    && (forall d :: d in s.sent && d.Digest? ==> cfg.digest && forall a :: a in d.batch ==> Listed(cfg, a))
    && (forall d :: d in s.sent && d.Direct? && d.alert.state == Firing ==> !Listed(cfg, d.alert))
  }

  lemma {:induction false} AlwaysBatchesListed(cfg: Config, restored: map<string, int>, ops: seq<Op>)
    ensures BatchesListed(cfg, Run(cfg, Started(restored), ops))
  {
    hide BatchesListed, Step;
    if ops == [] {
      NothingListed(cfg, restored);
    } else {
      var n := |ops| - 1;
      AlwaysBatchesListed(cfg, restored, ops[..n]);
      KeysAlwaysAgree(cfg, Started(restored), ops[..n]);
      StepBatches(cfg, Run(cfg, Started(restored), ops[..n]), ops[n]);
    }
  }

  lemma NothingListed(cfg: Config, restored: map<string, int>)
    ensures BatchesListed(cfg, Started(restored))
  {
  }

  /** What is batched or waits for a batch is listed; a firing message of its own is not; digests off queue nothing. */
  lemma {:induction false} ListedAreBatched(cfg: Config, restored: map<string, int>, ops: seq<Op>)
    ensures var t := Run(cfg, Started(restored), ops);
            && (forall a :: a in t.digestQ ==> cfg.digest && a.severity in cfg.digestSeverities)
            && (forall d, a :: d in t.sent && d.Digest? && a in d.batch ==>
                  cfg.digest && a.severity in cfg.digestSeverities)
            && (forall d :: d in t.sent && d.Direct? && d.alert.state == Firing ==>
                  !(cfg.digest && d.alert.severity in cfg.digestSeverities))
            && (!cfg.digest ==> t.digestQ == [] && forall d :: d in t.sent ==> d.Direct?)
  {
    hide Run;
    AlwaysBatchesListed(cfg, restored, ops);
  }

  lemma NewOrOld(cfg: Config, s: EngineState, op: Op, d: Delivery)
    requires KeysAgree(s.active) && d in Step(cfg, s, op).sent
    ensures d in s.sent || SentBy(cfg, s, op, d)
  {
    hide Step, SentBy, KeysAgree;
    StepSays(cfg, s, op);
    var t := Step(cfg, s, op);
    var i :| 0 <= i < |t.sent| && t.sent[i] == d;
    assert i < |s.sent| ==> t.sent[..|s.sent|][i] == d;
  }

  lemma SentAsListed(cfg: Config, s: EngineState, op: Op, d: Delivery)
    requires BatchesListed(cfg, s) && SentBy(cfg, s, op, d)
    ensures d.Digest? ==> cfg.digest && forall a :: a in d.batch ==> Listed(cfg, a)
    ensures d.Direct? && d.alert.state == Firing ==> !Listed(cfg, d.alert)
  {
    hide Listed, Routed, IsDigest, Alert.Key, Due;
  }

  lemma ListedMeansOn(cfg: Config)
    ensures forall a :: Listed(cfg, a) ==> cfg.digest
  {
  }

  lemma StepBatches(cfg: Config, s: EngineState, op: Op)
    requires KeysAgree(s.active) && BatchesListed(cfg, s)
    ensures BatchesListed(cfg, Step(cfg, s, op))
  {
    hide Step, SentBy, KeysAgree, Due, Listed;
    StepQueues(cfg, s, op);
    ListedMeansOn(cfg);
    var t := Step(cfg, s, op);
    forall d | d in t.sent
      ensures d.Digest? ==> cfg.digest && forall a :: a in d.batch ==> Listed(cfg, a)
      ensures d.Direct? && d.alert.state == Firing ==> !Listed(cfg, d.alert)
    {
      NewOrOld(cfg, s, op, d);
      if d !in s.sent {
        SentAsListed(cfg, s, op, d);
      }
    }
  }

  lemma {:induction false} SweepLeavesQueue(
      cfg: Config, s: EngineState, m: string, keep: set<string>, order: seq<string>, stamps: string -> int)
    ensures var t := SweepStep(cfg, s, m, keep, order, stamps);
            t.digestQ == s.digestQ && s.sent <= t.sent && forall d :: d in t.sent ==> d in s.sent || d.Direct?
  {
    hide Alert.Key, Merged, Channels;
    if order != [] {
      SweepLeavesQueue(cfg, s, m, keep, order[..|order| - 1], stamps);
    }
  }

  /** The queue grows by a due, listed fire and is emptied by a tick; batches are sent by ticks alone. */
  lemma StepQueues(cfg: Config, s: EngineState, op: Op)
    ensures var t := Step(cfg, s, op);
            && t.digestQ == (if op.Fire? && Due(cfg, s, op.a, op.now) && Listed(cfg, op.a) then s.digestQ + [op.a]
                             else if op.Tick? then [] else s.digestQ)
            && (op.Tick? || forall d :: d in t.sent ==> d in s.sent || d.Direct?)
  {
    hide Alert.Key, Due, Listed, FireStep, SweepStep, IsNotice, DigestAlert, Merged;
    match op
    case Fire(a, now) =>
      FireGoesOut(cfg, s, a, now);
      FireIsDirect(cfg, s, a, now);
    case Resolve(hint, now) =>
    case Sweep(m, keep, order, stamps) =>
      if cfg.resolution {
        SweepLeavesQueue(cfg, s, m, keep, order, stamps);
      }
    case Tick(now) =>
    case Reset =>
  }

  lemma FireIsDirect(cfg: Config, s: EngineState, a: Alert, now: int)
    ensures forall d :: d in FireStep(cfg, s, a, now).sent ==> d in s.sent || d.Direct?
  {
    hide Alert.Key, Channels, Suppressed, Digested;
  }

  /** Without ticks nothing leaves the queue and no batch is sent. */
  lemma {:induction false} NothingFlushed(cfg: Config, s: EngineState, ops: seq<Op>)
    requires forall op :: op in ops ==> !op.Tick?
    ensures var t := Run(cfg, s, ops);
            s.digestQ <= t.digestQ && forall d :: d in t.sent ==> d in s.sent || d.Direct?
  {
    hide Step, Due, Listed;
    if ops != [] {
      var n := |ops| - 1;
      assert ops[n] in ops && forall op :: op in ops[..n] ==> op in ops;
      NothingFlushed(cfg, s, ops[..n]);
      StepQueues(cfg, Run(cfg, s, ops[..n]), ops[n]);
    }
  }
}
