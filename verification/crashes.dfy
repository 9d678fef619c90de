/** Crashing containers (internal/monitors/pod_crashes.go). */
module PodCrashes {
  import opened Options
  import opened Alerts
  import opened EngineSpec
  import opened Submitter
  import opened Wording

  const MONITOR := "pod_crashes"

  datatype Status = Status(name: string, waiting: Option<string>, terminated: Option<string>, running: bool)

  datatype Pod = Pod(uid: string, ns: string, name: string, statuses: seq<Status>)

  datatype Entry = Entry(ns: string, podName: string, container: string, reason: string)

  /** A call made for the container remembered under `key`. */
  datatype Report = Opened(key: string, f: Entry) | Closed(key: string, f: Entry)

  function ReasonOf(cs: Status): string {
    if cs.waiting.Some? then cs.waiting.value
    else if cs.terminated.Some? then cs.terminated.value
    else ""
  }

  function SlotKey(uid: string, container: string): string {
    Bar(uid, container)
  }

  function AlertOn(f: Entry, severity: Severity, title: string, body: string): Alert {
    Alert(MONITOR, severity, AlertState.Firing, "", f.ns, "Pod", f.podName, f.reason, title, body, ZERO_TIME)
  }

  function AlertKey(f: Entry): string {
    AlertOn(f, Info, "", "").Key()
  }

  function PlaceOf(f: Entry): string {
    f.podName + "/" + f.container
  }

  /** The call behind a report; a deletion words its resolves in its own way. */
  function CallOf(r: Report, deleted: bool): Call {
    match r
    case Opened(_, f) =>
      Submit(AlertOn(f, Critical, f.reason + " on " + PlaceOf(f),
                     "Container " + f.container + " in pod " + f.ns + "/" + f.podName + " is in state " + f.reason))
    case Closed(_, f) =>
      if deleted then
        Clear(AlertOn(f, Info, PlaceOf(f) + " deleted",
                      "Pod " + f.ns + "/" + f.podName + " no longer exists; clearing the alert."))
      else
        Clear(AlertOn(f, Info, PlaceOf(f) + " is back to Running",
                      "Container " + f.container + " in pod " + f.ns + "/" + f.podName + " is now Running."))
  }

  function CallsOf(reports: seq<Report>, deleted: bool): seq<Call> {
    if reports == [] then []
    else CallsOf(reports[..|reports| - 1], deleted) + [CallOf(reports[|reports| - 1], deleted)]
  }

  function EntryFor(p: Pod, cs: Status): Entry {
    Entry(p.ns, p.name, cs.name, ReasonOf(cs))
  }

  /** One container status of an update. */
  function StatusStep(reasons: set<string>, p: Pod, cs: Status, seen: map<string, Entry>)
    : (map<string, Entry>, seq<Report>)
  {
    var key := SlotKey(p.uid, cs.name);
    if ReasonOf(cs) in reasons then
      var f := EntryFor(p, cs);
      (seen[key := f], [Opened(key, f)])
    else if cs.running && key in seen then (seen - {key}, [Closed(key, seen[key])])
    else (seen, [])
  }

  function UpdateStep(reasons: set<string>, p: Pod, n: nat, seen: map<string, Entry>): (map<string, Entry>, seq<Report>)
    requires n <= |p.statuses|
  {
    if n == 0 then (seen, [])
    else
      var (before, reports) := UpdateStep(reasons, p, n - 1, seen);
      var (after, more) := StatusStep(reasons, p, p.statuses[n - 1], before);
      (after, reports + more)
  }

  predicate HasPrefix(s: string, prefix: string) {
    |s| >= |prefix| && s[..|prefix|] == prefix
  }

  /** The entries a deletion of the pod takes out. */
  function EntriesOf(seen: map<string, Entry>, uid: string): set<string> {
    set k | k in seen && HasPrefix(k, uid + "|")
  }

  function ResolveAll(seen: map<string, Entry>, order: seq<string>): seq<Report> {
    if order == [] then []
    else
      var before, k := ResolveAll(seen, order[..|order| - 1]), order[|order| - 1];
      if k in seen then before + [Closed(k, seen[k])] else before
  }

  class PodCrashesMonitor {
    const reasons: set<string>
    var seen: map<string, Entry>

    constructor (reasons: set<string>)
      ensures this.reasons == reasons && seen == map[]
    {
      this.reasons := reasons;
      seen := map[];
    }

    method Handle(p: Pod) returns (reports: seq<Report>)
      modifies this
      ensures (seen, reports) == UpdateStep(reasons, p, |p.statuses|, old(seen))
    {
      reports := [];
      for i := 0 to |p.statuses|
        invariant (seen, reports) == UpdateStep(reasons, p, i, old(seen))
      {
        var cs := p.statuses[i];
        var reason := "";
        if cs.waiting.Some? {
          reason := cs.waiting.value;
        } else if cs.terminated.Some? {
          reason := cs.terminated.value;
        }
        var key := p.uid + "|" + cs.name;
        assert reports + [] == reports;
        if reason in reasons {
          var f := Entry(p.ns, p.name, cs.name, reason);
          reports := reports + [Opened(key, f)];
          seen := seen[key := f];
        } else if cs.running && key in seen {
          reports := reports + [Closed(key, seen[key])];
          seen := seen - {key};
        }
      }
    }

    /** Takes out every entry of the pod, met in the order returned. */
    method HandleDelete(uid: string) returns (reports: seq<Report>, ghost order: seq<string>)
      modifies this
      ensures Walks(order, EntriesOf(old(seen), uid)) && reports == ResolveAll(old(seen), order)
      ensures seen == old(seen) - EntriesOf(old(seen), uid)
    {
      hide HasPrefix;
      var prefix := uid + "|";
      reports, order := [], [];
      var todo := seen.Keys;
      while todo != {}
        invariant todo <= old(seen).Keys && todo <= seen.Keys
        invariant Walks(order, EntriesOf(old(seen), uid) - todo)
        invariant reports == ResolveAll(old(seen), order)
        invariant seen == old(seen) - (EntriesOf(old(seen), uid) - todo)
        decreases todo
      {
        ghost var gone := EntriesOf(old(seen), uid) - todo;
        var k :| k in todo;
        todo := todo - {k};
        if HasPrefix(k, prefix) {
          assert EntriesOf(old(seen), uid) - todo == gone + {k};
          assert (order + [k])[..|order|] == order;
          reports := reports + [Closed(k, seen[k])];
          order := order + [k];
          seen := seen - {k};
        } else {
          assert EntriesOf(old(seen), uid) - todo == gone;
        }
      }
      assert EntriesOf(old(seen), uid) - todo == EntriesOf(old(seen), uid);
    }
  }

  // ---- The monitor feeding the engine ----------------------------------------------------

  datatype Event = Updated(p: Pod) | Deleted(uid: string, order: seq<string>)

  datatype Happening = Saw(e: Event, at: int) | Other(op: Op)

  /** What the monitor remembers, all reports it made, and the engine that served them. */
  datatype Both = Both(seen: map<string, Entry>, log: seq<Report>, s: EngineState)

  function React(reasons: set<string>, seen: map<string, Entry>, e: Event): (map<string, Entry>, seq<Report>) {
    match e
    case Updated(p) => UpdateStep(reasons, p, |p.statuses|, seen)
    case Deleted(uid, order) => (seen - EntriesOf(seen, uid), ResolveAll(seen, order))
  }

  /** A deletion walks over the entries it takes out; the rest is traffic of other monitors. */
  ghost predicate Possible(seen: map<string, Entry>, e: Happening) {
    match e
    case Saw(Updated(_), _) => true
    case Saw(Deleted(uid, order), _) => Walks(order, EntriesOf(seen, uid))
    case Other(op) => Foreign(op, MONITOR)
  }

  function PlayOne(cfg: Config, reasons: set<string>, b: Both, e: Happening): Both {
    match e
    case Saw(event, at) =>
      var (seen, reports) := React(reasons, b.seen, event);
      Both(seen, b.log + reports, Served(cfg, b.s, CallsOf(reports, event.Deleted?), at))
    case Other(op) => b.(s := Step(cfg, b.s, op))
  }

  function Play(cfg: Config, restored: map<string, int>, reasons: set<string>, h: seq<Happening>): Both {
    if h == [] then Both(map[], [], Started(restored))
    else PlayOne(cfg, reasons, Play(cfg, restored, reasons, h[..|h| - 1]), h[|h| - 1])
  }

  /** Every event of the history is possible where it happens. */
  ghost predicate History(cfg: Config, restored: map<string, int>, reasons: set<string>, h: seq<Happening>) {
    h == [] ||
    (&& History(cfg, restored, reasons, h[..|h| - 1])
     && Possible(Play(cfg, restored, reasons, h[..|h| - 1]).seen, h[|h| - 1]))
  }

  // ---- Reports follow the memory ------------------------------------------------------------

  /** What a report does to the memory. */
  function Applied(seen: map<string, Entry>, r: Report): map<string, Entry> {
    if r.Opened? then seen[r.key := r.f] else seen - {r.key}
  }

  function AppliedAll(seen: map<string, Entry>, reports: seq<Report>): map<string, Entry> {
    if reports == [] then seen
    else Applied(AppliedAll(seen, reports[..|reports| - 1]), reports[|reports| - 1])
  }

  /** Every resolve carries what is remembered when it is made. */
  ghost predicate Lawful(seen: map<string, Entry>, reports: seq<Report>) {
    reports == [] ||
    var front, r := reports[..|reports| - 1], reports[|reports| - 1];
    Lawful(seen, front) && (r.Closed? ==> Lookup(AppliedAll(seen, front), r.key) == Some(r.f))
  }

  lemma LawfulNext(seen: map<string, Entry>, reports: seq<Report>, r: Report)
    requires Lawful(seen, reports) && (r.Closed? ==> Lookup(AppliedAll(seen, reports), r.key) == Some(r.f))
    ensures Lawful(seen, reports + [r]) && AppliedAll(seen, reports + [r]) == Applied(AppliedAll(seen, reports), r)
  {
    assert (reports + [r])[..|reports|] == reports;
  }

  lemma {:induction false} UpdateIsLawful(reasons: set<string>, p: Pod, n: nat, seen: map<string, Entry>)
    requires n <= |p.statuses|
    ensures var (after, reports) := UpdateStep(reasons, p, n, seen);
            Lawful(seen, reports) && AppliedAll(seen, reports) == after
  {
    hide Lawful, AppliedAll, SlotKey, ReasonOf;
    if n == 0 {
      NothingReported(seen);
    } else {
      UpdateIsLawful(reasons, p, n - 1, seen);
      var (before, reports) := UpdateStep(reasons, p, n - 1, seen);
      var (after, more) := StatusStep(reasons, p, p.statuses[n - 1], before);
      if more == [] {
        assert reports + more == reports;
      } else {
        LawfulNext(seen, reports, more[0]);
      }
    }
  }

  lemma NothingReported(seen: map<string, Entry>)
    ensures Lawful(seen, []) && AppliedAll(seen, []) == seen
  {
  }

  lemma {:induction false} DeleteIsLawful(seen: map<string, Entry>, order: seq<string>)
    requires forall k :: k in order ==> k in seen
    requires forall i, j :: 0 <= i < j < |order| ==> order[i] != order[j]
    ensures Lawful(seen, ResolveAll(seen, order))
    ensures AppliedAll(seen, ResolveAll(seen, order)) == seen - (set k | k in order)
  {
    hide Lawful, AppliedAll;
    if order == [] {
      NothingReported(seen);
      assert (set k | k in order) == {};
    } else {
      var front, k := order[..|order| - 1], order[|order| - 1];
      DeleteIsLawful(seen, front);
      assert k in order && k !in front;
      LawfulNext(seen, ResolveAll(seen, front), Closed(k, seen[k]));
      assert seen - (set x | x in order) == seen - (set x | x in front) - {k};
    }
  }

  /** The reports of an event tell, one by one, how the memory changed. */
  lemma ReactIsLawful(reasons: set<string>, seen: map<string, Entry>, e: Event, at: int)
    requires Possible(seen, Saw(e, at))
    ensures var (after, reports) := React(reasons, seen, e);
            Lawful(seen, reports) && AppliedAll(seen, reports) == after
  {
    hide Lawful, AppliedAll, UpdateStep, HasPrefix;
    match e
    case Updated(p) => UpdateIsLawful(reasons, p, |p.statuses|, seen);
    case Deleted(uid, order) =>
      DeleteIsLawful(seen, order);
      assert (set k | k in order) == EntriesOf(seen, uid);
  }

  // ---- Submits and resolves are paired -----------------------------------------------------

  /** Report `j` submitted `f` for `key`, and it is the last report about `key` before `i`. */
  ghost predicate Open(log: seq<Report>, j: nat, i: nat, key: string, f: Entry) {
    && j < i <= |log| && log[j] == Opened(key, f)
    && forall m :: j < m < i ==> log[m].key != key
  }

  /** What is open for `key` at the end of the log, computed as reports arrive. */
  function Pending(log: seq<Report>, key: string): Option<Entry> {
    if log == [] then None
    else
      var r := log[|log| - 1];
      if r.key != key then Pending(log[..|log| - 1], key)
      else if r.Opened? then Some(r.f) else None
  }

  /** Every resolve closes an open submit of the same container and carries what it carried. */
  ghost predicate Paired(log: seq<Report>) {
    forall i :: 0 <= i < |log| && log[i].Closed? ==> exists j :: Open(log, j, i, log[i].key, log[i].f)
  }

  ghost predicate Consistent(seen: map<string, Entry>, log: seq<Report>) {
    Paired(log) && forall key :: Lookup(seen, key) == Pending(log, key)
  }

  lemma {:induction false} PendingMeans(log: seq<Report>, key: string, f: Entry)
    ensures Pending(log, key) == Some(f) <==> exists j :: Open(log, j, |log|, key, f)
  {
    if log != [] {
      var n := |log| - 1;
      PendingMeans(log[..n], key, f);
      if log[n].key != key {
        forall j: nat ensures Open(log, j, |log|, key, f) <==> Open(log[..n], j, n, key, f) {
          assert forall m :: 0 <= m < n ==> log[..n][m] == log[m];
        }
        if j :| Open(log[..n], j, n, key, f) { assert Open(log, j, |log|, key, f); }
      } else {
        assert log[n] == Opened(key, f) ==> Open(log, n, |log|, key, f);
        forall j: nat | Open(log, j, |log|, key, f) ensures j == n {
          LastReportCounts(log, j, key, f);
        }
      }
    }
  }

  lemma LastReportCounts(log: seq<Report>, j: nat, key: string, f: Entry)
    requires Open(log, j, |log|, key, f)
    ensures j == |log| - 1 || log[|log| - 1].key != key
  {
  }

  /** One lawful report keeps memory and log consistent. */
  lemma ReportKeeps(seen: map<string, Entry>, log: seq<Report>, r: Report)
    requires Consistent(seen, log) && (r.Closed? ==> Lookup(seen, r.key) == Some(r.f))
    ensures Consistent(Applied(seen, r), log + [r])
  {
    var grown, n := log + [r], |log|;
    assert grown[..n] == log;
    if r.Closed? {
      PendingMeans(log, r.key, r.f);
    }
    forall key ensures Lookup(Applied(seen, r), key) == Pending(grown, key) {
      assert Lookup(seen, key) == Pending(log, key);
    }
    forall i | 0 <= i < |grown| && grown[i].Closed? ensures exists j :: Open(grown, j, i, grown[i].key, grown[i].f) {
      if i < n {
        var j :| Open(log, j, i, log[i].key, log[i].f);
        OpenGrows(log, r, j, i, log[i].key, log[i].f);
      } else {
        var j :| Open(log, j, n, r.key, r.f);
        OpenGrows(log, r, j, n, r.key, r.f);
      }
    }
  }

  lemma OpenGrows(log: seq<Report>, r: Report, j: nat, i: nat, key: string, f: Entry)
    requires Open(log, j, i, key, f)
    ensures Open(log + [r], j, i, key, f)
  {
    assert forall m :: 0 <= m < |log| ==> (log + [r])[m] == log[m];
  }

  lemma {:induction false} LawfulKeeps(seen: map<string, Entry>, log: seq<Report>, reports: seq<Report>)
    requires Consistent(seen, log) && Lawful(seen, reports)
    ensures Consistent(AppliedAll(seen, reports), log + reports)
  {
    hide Consistent;
    if reports == [] {
      assert log + reports == log;
    } else {
      var front, r := reports[..|reports| - 1], reports[|reports| - 1];
      LawfulKeeps(seen, log, front);
      ReportKeeps(AppliedAll(seen, front), log + front, r);
      assert log + reports == log + front + [r];
    }
  }

  /**
    In every run, each resolve carries what the latest submit for that container carried, and follows
    it with no other report about the container between; and what is remembered is what is open.
   */
  lemma {:induction false} CrashesPaired(
      cfg: Config, restored: map<string, int>, reasons: set<string>, h: seq<Happening>)
    requires History(cfg, restored, reasons, h)
    ensures var b := Play(cfg, restored, reasons, h);
            Paired(b.log) && forall key :: Lookup(b.seen, key) == Pending(b.log, key)
  {
    hide Paired, Pending, Possible, Served, Step, React, AppliedAll, Lawful;
    if h == [] {
      NothingTracked();
    } else {
      var b, e := Play(cfg, restored, reasons, h[..|h| - 1]), h[|h| - 1];
      CrashesPaired(cfg, restored, reasons, h[..|h| - 1]);
      if e.Saw? {
        ReactIsLawful(reasons, b.seen, e.e, e.at);
        LawfulKeeps(b.seen, b.log, React(reasons, b.seen, e.e).1);
      }
    }
  }

  lemma NothingTracked()
    ensures Consistent(map[], [])
  {
  }

  /** How many reports of a list resolve `key`. */
  function ResolvesOf(reports: seq<Report>, key: string): nat {
    if reports == [] then 0
    else
      var r := reports[|reports| - 1];
      ResolvesOf(reports[..|reports| - 1], key) + (if r.Closed? && r.key == key then 1 else 0)
  }

  lemma {:induction false} EachResolvedOnce(seen: map<string, Entry>, order: seq<string>, key: string)
    requires forall k :: k in order ==> k in seen
    requires forall i, j :: 0 <= i < j < |order| ==> order[i] != order[j]
    ensures ResolvesOf(ResolveAll(seen, order), key) == if key in order then 1 else 0
  {
    if order != [] {
      var front, k := order[..|order| - 1], order[|order| - 1];
      EachResolvedOnce(seen, front, key);
      var all := ResolveAll(seen, order);
      assert all[..|all| - 1] == ResolveAll(seen, front);
      assert order == front + [k] && k !in front;
    }
  }

  lemma PrefixIsPod(uid: string, owner: string, container: string)
    requires '|' !in uid && '|' !in owner
    ensures HasPrefix(SlotKey(owner, container), uid + "|") <==> owner == uid
  {
    var key, prefix := SlotKey(owner, container), uid + "|";
    CutOfBar(owner, container);
    if owner == uid {
      assert key == prefix + container;
    }
    if HasPrefix(key, prefix) {
      assert key == Bar(uid, key[|prefix|..]);
      CutOfBar(uid, key[|prefix|..]);
    }
  }

  /** Deleting a pod resolves each of its entries exactly once and leaves the entries of other pods as they were. */
  lemma DeleteResolvesItsOwn(
      seen: map<string, Entry>, uid: string, order: seq<string>, owner: string, container: string)
    requires '|' !in uid && '|' !in owner && Walks(order, EntriesOf(seen, uid))
    ensures var key, after := SlotKey(owner, container), seen - EntriesOf(seen, uid);
            && ResolvesOf(ResolveAll(seen, order), key) == (if owner == uid && key in seen then 1 else 0)
            && Lookup(after, key) == if owner == uid then None else Lookup(seen, key)
  {
    hide HasPrefix, SlotKey;
    PrefixIsPod(uid, owner, container);
    EachResolvedOnce(seen, order, SlotKey(owner, container));
  }

  // ---- One alert through the engine ---------------------------------------------------------

  /** The latest report with alert key `k` is a submit. */
  ghost predicate LatestOpens(log: seq<Report>, k: string) {
    exists i :: 0 <= i < |log| && log[i].Opened? && Latest(log, i, k)
  }

  /** The latest report with alert key `k` is a resolve. */
  ghost predicate LatestCloses(log: seq<Report>, k: string) {
    exists i :: 0 <= i < |log| && log[i].Closed? && Latest(log, i, k)
  }

  ghost predicate Latest(log: seq<Report>, i: nat, k: string)
    requires i < |log|
  {
    AlertKey(log[i].f) == k && forall j :: i < j < |log| ==> AlertKey(log[j].f) != k
  }

  /** How many resolves with alert key `k` found a submit as the latest report with that key. */
  ghost function ClosedCount(log: seq<Report>, k: string): nat {
    if log == [] then 0
    else
      var front, r := log[..|log| - 1], log[|log| - 1];
      ClosedCount(front, k) + (if r.Closed? && AlertKey(r.f) == k && LatestOpens(front, k) then 1 else 0)
  }

  ghost function LampOfLog(log: seq<Report>, k: string): Lamp {
    Lamp(LatestOpens(log, k), ClosedCount(log, k))
  }

  lemma LatestNext(log: seq<Report>, r: Report, k: string)
    ensures LatestOpens(log + [r], k) <==> if AlertKey(r.f) == k then r.Opened? else LatestOpens(log, k)
    ensures LatestCloses(log + [r], k) <==> if AlertKey(r.f) == k then r.Closed? else LatestCloses(log, k)
  {
    hide AlertKey;
    var grown, n := log + [r], |log|;
    assert grown[n] == r;
    assert AlertKey(r.f) == k ==> Latest(grown, n, k);
    forall i: nat | i < n && AlertKey(r.f) != k ensures Latest(grown, i, k) <==> Latest(log, i, k) {
      assert forall j :: 0 <= j < n ==> grown[j] == log[j];
    }
    forall i: nat | i < n && AlertKey(r.f) == k ensures !Latest(grown, i, k) {
      assert AlertKey(grown[n].f) == k;
    }
  }

  lemma LampOfLogNext(log: seq<Report>, r: Report, k: string)
    ensures LampOfLog(log + [r], k) ==
              if AlertKey(r.f) != k then LampOfLog(log, k)
              else if r.Opened? then Lit(LampOfLog(log, k)) else Unlit(LampOfLog(log, k))
  {
    hide AlertKey, LatestOpens, LatestCloses;
    LatestNext(log, r, k);
    assert (log + [r])[..|log|] == log;
  }

  lemma CallNames(r: Report, deleted: bool)
    ensures var c := CallOf(r, deleted);
            c.a.Key() == AlertKey(r.f) && '|' !in c.a.monitor && (c.Submit? <==> r.Opened?)
    ensures Cut(AlertKey(r.f)).0 == MONITOR
  {
    hide Cut;
    MonitorInKey(AlertOn(r.f, Info, "", ""));
  }

  /** The calls of a list of reports change the lamp as the reports do. */
  lemma {:induction false} ReportsShow(log: seq<Report>, reports: seq<Report>, deleted: bool, k: string)
    ensures LampAfter(LampOfLog(log, k), CallsOf(reports, deleted), k) == LampOfLog(log + reports, k)
    ensures forall c :: c in CallsOf(reports, deleted) ==> '|' !in c.a.monitor
  {
    hide AlertKey, LampOfLog, CallOf, Alert.Key, LampAfter;
    if reports == [] {
      assert log + reports == log;
      LampAfterNothing(LampOfLog(log, k), k);
    } else {
      var front, r := reports[..|reports| - 1], reports[|reports| - 1];
      ReportsShow(log, front, deleted, k);
      CallNames(r, deleted);
      LampNext(LampOfLog(log, k), CallsOf(front, deleted), CallOf(r, deleted), k);
      LampOfLogNext(log + front, r, k);
      assert log + reports == log + front + [r];
    }
  }

  lemma LampAfterNothing(l: Lamp, k: string)
    ensures LampAfter(l, [], k) == l
  {
  }

  lemma StepShows(cfg: Config, reasons: set<string>, b: Both, e: Happening, k: string)
    requires cfg.resolution && Tidy(b.s) && Possible(b.seen, e) && Cut(k).0 == MONITOR
    requires LampOf(b.s, k) == LampOfLog(b.log, k)
    ensures var t := PlayOne(cfg, reasons, b, e);
            Tidy(t.s) && LampOf(t.s, k) == LampOfLog(t.log, k)
  {
    hide Tidy, LampOf, LampOfLog, Cut, React, CallsOf, Served, Step, Foreign, LampAfter;
    if e.Saw? {
      var reports := React(reasons, b.seen, e.e).1;
      ReportsShow(b.log, reports, e.e.Deleted?, k);
      ServedShows(cfg, b.s, CallsOf(reports, e.e.Deleted?), e.at, k);
    } else {
      ForeignPasses(cfg, b.s, e.op, MONITOR, k);
    }
  }

  lemma {:induction false} LampFollowsLog(
      cfg: Config, restored: map<string, int>, reasons: set<string>, h: seq<Happening>, k: string)
    requires cfg.resolution && History(cfg, restored, reasons, h) && Cut(k).0 == MONITOR
    ensures var b := Play(cfg, restored, reasons, h);
            Tidy(b.s) && LampOf(b.s, k) == LampOfLog(b.log, k)
  {
    hide Tidy, LampOf, LampOfLog, Cut, PlayOne, Possible;
    if h == [] {
      NothingLit(restored, k);
    } else {
      LampFollowsLog(cfg, restored, reasons, h[..|h| - 1], k);
      StepShows(cfg, reasons, Play(cfg, restored, reasons, h[..|h| - 1]), h[|h| - 1], k);
    }
  }

  lemma NothingLit(restored: map<string, int>, k: string)
    ensures Tidy(Started(restored)) && LampOf(Started(restored), k) == LampOfLog([], k)
  {
  }

  /**
    Through the engine, an alert of this monitor is active exactly when the latest report with its key
    is a submit, and there is one resolved message per resolve that followed a submit.
   */
  lemma {:induction false} CrashThroughEngine(
      cfg: Config, restored: map<string, int>, reasons: set<string>, h: seq<Happening>, k: string)
    requires cfg.resolution && History(cfg, restored, reasons, h) && Cut(k).0 == MONITOR
    ensures k in Play(cfg, restored, reasons, h).s.active <==> LatestOpens(Play(cfg, restored, reasons, h).log, k)
    ensures var b := Play(cfg, restored, reasons, h);
            ResolvedCount(b.s.sent, k) == ClosedCount(b.log, k)
  {
    hide Play, History, Cut, LatestOpens, ClosedCount;
    LampFollowsLog(cfg, restored, reasons, h, k);
  }

  // ---- Where monitor and engine part -------------------------------------------------------

  /** Some container is remembered with alert key `k`. */
  ghost predicate Held(seen: map<string, Entry>, k: string) {
    exists x :: x in seen && AlertKey(seen[x]) == k
  }

  /** The engine's alerts of this monitor are those of the remembered containers. */
  ghost predicate Agree(b: Both) {
    forall k :: Cut(k).0 == MONITOR ==> (k in b.s.active <==> Held(b.seen, k))
  }

  /** Report `i` replaces an entry of alert key `k` by one of another key. */
  ghost predicate ReplacedAt(seen: map<string, Entry>, reports: seq<Report>, i: nat, k: string)
    requires i < |reports|
  {
    var r, was := reports[i], AppliedAll(seen, reports[..i]);
    r.Opened? && AlertKey(r.f) != k && r.key in was && AlertKey(was[r.key]) == k
  }

  ghost predicate Replaced(seen: map<string, Entry>, reports: seq<Report>, k: string) {
    exists i :: 0 <= i < |reports| && ReplacedAt(seen, reports, i, k)
  }

  /**
    The event leaves no alert behind: a key whose last report closed it is held by no container
    afterwards, and a key that lost an entry to another key without being closed still is.
   */
  ghost predicate LeavesNothing(reasons: set<string>, seen: map<string, Entry>, e: Event) {
    var (after, reports) := React(reasons, seen, e);
    forall k ::
      && (LatestCloses(reports, k) ==> !Held(after, k))
      && (Replaced(seen, reports, k) && !LatestCloses(reports, k) ==> Held(after, k))
  }

  /** What one report does to who holds `k`. */
  lemma HeldNext(seen: map<string, Entry>, r: Report, k: string)
    requires r.Closed? ==> Lookup(seen, r.key) == Some(r.f)
    ensures var after := Applied(seen, r);
            && (r.Opened? && AlertKey(r.f) == k ==> Held(after, k))
            && (AlertKey(r.f) != k && Held(after, k) ==> Held(seen, k))
            && (AlertKey(r.f) != k && Held(seen, k) ==>
                  Held(after, k) || (r.Opened? && r.key in seen && AlertKey(seen[r.key]) == k))
  {
    hide AlertKey;
    var after := Applied(seen, r);
    if r.Opened? && AlertKey(r.f) == k {
      assert r.key in after && AlertKey(after[r.key]) == k;
    }
    if AlertKey(r.f) != k && Held(after, k) {
      var x :| x in after && AlertKey(after[x]) == k;
      assert x in seen && seen[x] == after[x];
    }
    if AlertKey(r.f) != k && Held(seen, k) {
      var x :| x in seen && AlertKey(seen[x]) == k;
      assert x != r.key ==> x in after && after[x] == seen[x];
    }
  }

  lemma ReplacedNext(seen: map<string, Entry>, reports: seq<Report>, r: Report, k: string)
    ensures Replaced(seen, reports + [r], k) <==>
              || Replaced(seen, reports, k)
              || (var was := AppliedAll(seen, reports);
                  r.Opened? && AlertKey(r.f) != k && r.key in was && AlertKey(was[r.key]) == k)
  {
    hide AlertKey, AppliedAll;
    var grown, n := reports + [r], |reports|;
    assert grown[..n] == reports && grown[n] == r;
    forall i: nat | i < n ensures ReplacedAt(seen, grown, i, k) <==> ReplacedAt(seen, reports, i, k) {
      assert grown[..i] == reports[..i] && grown[i] == reports[i];
    }
    if Replaced(seen, grown, k) {
      var i :| 0 <= i < n + 1 && ReplacedAt(seen, grown, i, k);
      assert i < n ==> ReplacedAt(seen, reports, i, k);
    }
    if Replaced(seen, reports, k) {
      var i :| 0 <= i < n && ReplacedAt(seen, reports, i, k);
      assert ReplacedAt(seen, grown, i, k);
    }
    assert ReplacedAt(seen, grown, n, k) <==>
             var was := AppliedAll(seen, reports);
             r.Opened? && AlertKey(r.f) != k && r.key in was && AlertKey(was[r.key]) == k;
  }

  /** How the reports of an event move the holding of `k`. */
  lemma {:induction false} HoldingMoves(seen: map<string, Entry>, reports: seq<Report>, k: string)
    requires Lawful(seen, reports)
    ensures var after := AppliedAll(seen, reports);
            var touched := LatestOpens(reports, k) || LatestCloses(reports, k);
            && (!touched && Held(after, k) ==> Held(seen, k))
            && (LatestOpens(reports, k) ==> Held(after, k) || Replaced(seen, reports, k))
            && (!touched && Held(seen, k) ==> Held(after, k) || Replaced(seen, reports, k))
            && (!touched && Replaced(seen, reports, k) ==> Held(seen, k))
            && !(LatestOpens(reports, k) && LatestCloses(reports, k))
  {
    hide AlertKey, Replaced, LatestOpens, LatestCloses, Held;
    if reports == [] {
      NothingMoves(seen, k);
    } else {
      var front, r := reports[..|reports| - 1], reports[|reports| - 1];
      assert reports == front + [r];
      HoldingMoves(seen, front, k);
      LatestNext(front, r, k);
      ReplacedNext(seen, front, r, k);
      HeldNext(AppliedAll(seen, front), r, k);
      HolderHolds(AppliedAll(seen, front), r.key, k);
    }
  }

  lemma HolderHolds(seen: map<string, Entry>, x: string, k: string)
    ensures x in seen && AlertKey(seen[x]) == k ==> Held(seen, k)
  {
  }

  lemma NothingMoves(seen: map<string, Entry>, k: string)
    ensures !LatestOpens([], k) && !LatestCloses([], k) && !Replaced(seen, [], k)
  {
  }

  /** Whether `k` is active after an event, from what it was before and the reports of the event. */
  lemma {:induction false} ActiveAfter(on: bool, offs: nat, reports: seq<Report>, deleted: bool, k: string)
    ensures LampAfter(Lamp(on, offs), CallsOf(reports, deleted), k).on <==>
              LatestOpens(reports, k) || (on && !LatestCloses(reports, k))
    ensures forall c :: c in CallsOf(reports, deleted) ==> '|' !in c.a.monitor
  {
    hide AlertKey, CallOf, Alert.Key, LampAfter, LatestOpens, LatestCloses;
    if reports == [] {
      LampAfterNothing(Lamp(on, offs), k);
      NothingMoves(map[], k);
    } else {
      var front, r := reports[..|reports| - 1], reports[|reports| - 1];
      assert reports == front + [r];
      ActiveAfter(on, offs, front, deleted, k);
      CallNames(r, deleted);
      LatestNext(front, r, k);
      LampNext(Lamp(on, offs), CallsOf(front, deleted), CallOf(r, deleted), k);
    }
  }

  /** One key: agreement about it survives the event exactly when the event leaves nothing behind for it. */
  lemma KeyAgreesExactly(cfg: Config, reasons: set<string>, b: Both, e: Event, at: int, k: string)
    requires cfg.resolution && Tidy(b.s) && Possible(b.seen, Saw(e, at))
    requires k in b.s.active <==> Held(b.seen, k)
    ensures var t := PlayOne(cfg, reasons, b, Saw(e, at));
            var reports := React(reasons, b.seen, e).1;
            (k in t.s.active <==> Held(t.seen, k)) <==>
              && (LatestCloses(reports, k) ==> !Held(t.seen, k))
              && (Replaced(b.seen, reports, k) && !LatestCloses(reports, k) ==> Held(t.seen, k))
  {
    hide Tidy, React, Possible, Held, LatestOpens, LatestCloses, Replaced, CallsOf, Served, LampAfter, Lawful,
         AppliedAll, ResolvedCount;
    var reports := React(reasons, b.seen, e).1;
    ReactIsLawful(reasons, b.seen, e, at);
    HoldingMoves(b.seen, reports, k);
    ActiveAfter(k in b.s.active, ResolvedCount(b.s.sent, k), reports, e.Deleted?, k);
    ServedShows(cfg, b.s, CallsOf(reports, e.Deleted?), at, k);
  }

  lemma ReportsName(reports: seq<Report>, seen: map<string, Entry>, k: string)
    requires LatestCloses(reports, k) || Replaced(seen, reports, k)
    ensures Cut(k).0 == MONITOR
  {
    hide Cut, AppliedAll;
    if LatestCloses(reports, k) {
      var i :| 0 <= i < |reports| && reports[i].Closed? && Latest(reports, i, k);
      CallNames(reports[i], false);
    } else {
      var i :| 0 <= i < |reports| && ReplacedAt(seen, reports, i, k);
      CallNames(Closed("", AppliedAll(seen, reports[..i])[reports[i].key]), false);
    }
  }

  /** Monitor and engine still agree after an event exactly when it leaves nothing behind. */
  lemma EventAgreesExactly(cfg: Config, reasons: set<string>, b: Both, e: Event, at: int)
    requires cfg.resolution && Tidy(b.s) && Possible(b.seen, Saw(e, at)) && Agree(b)
    ensures Agree(PlayOne(cfg, reasons, b, Saw(e, at))) <==> LeavesNothing(reasons, b.seen, e)
  {
    hide Tidy, React, Possible, Held, LatestOpens, LatestCloses, Replaced, Cut, CallsOf, Served;
    var t, reports := PlayOne(cfg, reasons, b, Saw(e, at)), React(reasons, b.seen, e).1;
    forall k ensures Cut(k).0 == MONITOR ==>
        ((k in t.s.active <==> Held(t.seen, k)) <==>
         && (LatestCloses(reports, k) ==> !Held(t.seen, k))
         && (Replaced(b.seen, reports, k) && !LatestCloses(reports, k) ==> Held(t.seen, k))) {
      if Cut(k).0 == MONITOR {
        KeyAgreesExactly(cfg, reasons, b, e, at, k);
      }
    }
    forall k ensures LatestCloses(reports, k) || Replaced(b.seen, reports, k) ==> Cut(k).0 == MONITOR {
      if LatestCloses(reports, k) || Replaced(b.seen, reports, k) {
        ReportsName(reports, b.seen, k);
      }
    }
  }

  /** Monitor and engine agree after every event of a history exactly when every event leaves nothing behind. */
  lemma {:induction false} RunAgreesExactly(
      cfg: Config, restored: map<string, int>, reasons: set<string>, h: seq<Happening>)
    requires cfg.resolution && History(cfg, restored, reasons, h)
    ensures (forall n :: 0 <= n <= |h| ==> Agree(Play(cfg, restored, reasons, h[..n]))) <==>
              forall n :: 0 <= n < |h| && h[n].Saw? ==>
                LeavesNothing(reasons, Play(cfg, restored, reasons, h[..n]).seen, h[n].e)
  {
    hide Agree, LeavesNothing, PlayOne, Possible;
    if h == [] {
      NothingApart(restored);
      assert h[..0] == [];
    } else {
      var m := |h| - 1;
      var front := h[..m];
      RunAgreesExactly(cfg, restored, reasons, front);
      assert h[..|h|] == h;
      assert forall n :: 0 <= n <= m ==> front[..n] == h[..n];
      assert front[..m] == front;
      if Agree(Play(cfg, restored, reasons, front)) {
        LastAgreesExactly(cfg, restored, reasons, h);
      }
    }
  }

  lemma NothingApart(restored: map<string, int>)
    ensures Agree(Both(map[], [], Started(restored)))
  {
  }

  lemma LastAgreesExactly(cfg: Config, restored: map<string, int>, reasons: set<string>, h: seq<Happening>)
    requires cfg.resolution && h != [] && History(cfg, restored, reasons, h)
    requires Agree(Play(cfg, restored, reasons, h[..|h| - 1]))
    ensures var e := h[|h| - 1];
            Agree(Play(cfg, restored, reasons, h)) <==>
              (e.Saw? ==> LeavesNothing(reasons, Play(cfg, restored, reasons, h[..|h| - 1]).seen, e.e))
  {
    hide Agree, LeavesNothing, Tidy, Cut, Step;
    var b, e := Play(cfg, restored, reasons, h[..|h| - 1]), h[|h| - 1];
    var any := AlertKey(Entry("", "", "", ""));
    CallNames(Closed("", Entry("", "", "", "")), false);
    LampFollowsLog(cfg, restored, reasons, h[..|h| - 1], any);
    if e.Saw? {
      EventAgreesExactly(cfg, reasons, b, e.e, e.at);
    } else {
      ForeignAgrees(cfg, b, e.op);
    }
  }

  lemma ForeignAgrees(cfg: Config, b: Both, op: Op)
    requires cfg.resolution && Tidy(b.s) && Foreign(op, MONITOR) && Agree(b)
    ensures Agree(b.(s := Step(cfg, b.s, op)))
  {
    hide Tidy, Foreign, Cut, Step, Held;
    forall k | Cut(k).0 == MONITOR ensures k in Step(cfg, b.s, op).active <==> Held(b.seen, k) {
      ForeignPasses(cfg, b.s, op, MONITOR, k);
    }
  }

  lemma {:induction false} AllAreClosed(seen: map<string, Entry>, order: seq<string>, k: string)
    ensures forall i :: 0 <= i < |ResolveAll(seen, order)| ==> ResolveAll(seen, order)[i].Closed?
    ensures LatestCloses(ResolveAll(seen, order), k) <==> exists x :: x in order && x in seen && AlertKey(seen[x]) == k
  {
    hide AlertKey, LatestCloses;
    if order == [] {
      NothingMoves(seen, k);
    } else {
      var front, x := order[..|order| - 1], order[|order| - 1];
      AllAreClosed(seen, front, k);
      assert forall y :: y in order <==> y in front || y == x;
      if x in seen {
        LatestNext(ResolveAll(seen, front), Closed(x, seen[x]), k);
      }
    }
  }

  lemma HeldWithout(seen: map<string, Entry>, gone: set<string>, k: string)
    ensures Held(seen - gone, k) <==> exists y :: y in seen && y !in gone && AlertKey(seen[y]) == k
  {
    hide AlertKey;
    var after := seen - gone;
    if y :| y in seen && y !in gone && AlertKey(seen[y]) == k {
      assert y in after && AlertKey(after[y]) == k;
    }
    if y :| y in after && AlertKey(after[y]) == k {
      assert y in seen && y !in gone;
    }
  }

  /** A deletion keeps agreement exactly when no container of another pod is remembered with an alert key it closed. */
  lemma DeletionAgreesExactly(cfg: Config, reasons: set<string>, b: Both, uid: string, order: seq<string>, at: int)
    requires cfg.resolution && Tidy(b.s) && Possible(b.seen, Saw(Deleted(uid, order), at)) && Agree(b)
    ensures Agree(PlayOne(cfg, reasons, b, Saw(Deleted(uid, order), at))) <==>
              forall x, y :: x in EntriesOf(b.seen, uid) && y in b.seen && y !in EntriesOf(b.seen, uid) ==>
                AlertKey(b.seen[x]) != AlertKey(b.seen[y])
  {
    hide Agree, Tidy, PlayOne, AlertKey, LatestCloses, HasPrefix;
    var e := Deleted(uid, order);
    var (after, reports) := React(reasons, b.seen, e);
    EventAgreesExactly(cfg, reasons, b, e, at);
    forall k ensures LatestCloses(reports, k) <==> exists x :: x in EntriesOf(b.seen, uid) && AlertKey(b.seen[x]) == k {
      AllAreClosed(b.seen, order, k);
    }
    forall k ensures !Replaced(b.seen, reports, k) {
      AllAreClosed(b.seen, order, k);
    }
    forall k
      ensures Held(after, k) <==>
                exists y :: y in b.seen && y !in EntriesOf(b.seen, uid) && AlertKey(b.seen[y]) == k
    {
      HeldWithout(b.seen, EntriesOf(b.seen, uid), k);
    }
    assert forall x :: x in EntriesOf(b.seen, uid) ==> LatestCloses(reports, AlertKey(b.seen[x]));
    assert forall y :: y in b.seen && y !in EntriesOf(b.seen, uid) ==> Held(after, AlertKey(b.seen[y]));
  }

  // ---- One update, from its statuses and the memory before it --------------------------------

  predicate Tracks(reasons: set<string>, cs: Status) {
    ReasonOf(cs) in reasons
  }

  /** The container runs, and would be resolved if it is remembered. */
  predicate Recovers(reasons: set<string>, cs: Status) {
    !Tracks(reasons, cs) && cs.running
  }

  /** Status `i` submits the alert `k`. */
  predicate FiresAs(reasons: set<string>, p: Pod, i: nat, k: string)
    requires i < |p.statuses|
  {
    Tracks(reasons, p.statuses[i]) && AlertKey(EntryFor(p, p.statuses[i])) == k
  }

  /** The container of status `i` was remembered with alert key `k`. */
  predicate WasAs(p: Pod, seen: map<string, Entry>, i: nat, k: string)
    requires i < |p.statuses|
  {
    var slot := SlotKey(p.uid, p.statuses[i].name);
    slot in seen && AlertKey(seen[slot]) == k
  }

  /** Status `i` resolves the alert `k`. */
  predicate RecoversAs(reasons: set<string>, p: Pod, seen: map<string, Entry>, i: nat, k: string)
    requires i < |p.statuses|
  {
    Recovers(reasons, p.statuses[i]) && WasAs(p, seen, i, k)
  }

  /** Status `i` turns an entry of `k` into one of another alert. */
  predicate RekeysFrom(reasons: set<string>, p: Pod, seen: map<string, Entry>, i: nat, k: string)
    requires i < |p.statuses|
  {
    Tracks(reasons, p.statuses[i]) && WasAs(p, seen, i, k) && !FiresAs(reasons, p, i, k)
  }

  /** None of the first `n` statuses acts on the entry `x`. */
  predicate Untouched(reasons: set<string>, p: Pod, n: nat, x: string)
    requires n <= |p.statuses|
  {
    forall i :: 0 <= i < n && SlotKey(p.uid, p.statuses[i].name) == x ==>
      !Tracks(reasons, p.statuses[i]) && !Recovers(reasons, p.statuses[i])
  }

  /** An entry with alert key `k` that the update does not act on. */
  ghost predicate StaysAs(reasons: set<string>, p: Pod, seen: map<string, Entry>, n: nat, k: string)
    requires n <= |p.statuses|
  {
    exists x :: x in seen && AlertKey(seen[x]) == k && Untouched(reasons, p, n, x)
  }

  /** One of the first `n` statuses submits `k`. */
  ghost predicate Fired(reasons: set<string>, p: Pod, n: nat, k: string)
    requires n <= |p.statuses|
  {
    exists i :: 0 <= i < n && FiresAs(reasons, p, i, k)
  }

  /** One of the first `n` statuses resolves `k`, and none after it submits it. */
  ghost predicate RecoversLast(reasons: set<string>, p: Pod, seen: map<string, Entry>, n: nat, k: string)
    requires n <= |p.statuses|
  {
    exists i :: 0 <= i < n && RecoversAs(reasons, p, seen, i, k) && NoneFires(reasons, p, i + 1, n, k)
  }

  predicate NoneFires(reasons: set<string>, p: Pod, from: nat, n: nat, k: string)
    requires n <= |p.statuses|
  {
    forall j :: from <= j < n ==> !FiresAs(reasons, p, j, k)
  }

  /** One of the first `n` statuses rekeys an entry of `k`. */
  ghost predicate Rekeyed(reasons: set<string>, p: Pod, seen: map<string, Entry>, n: nat, k: string)
    requires n <= |p.statuses|
  {
    exists i :: 0 <= i < n && RekeysFrom(reasons, p, seen, i, k)
  }

  ghost predicate DistinctNames(p: Pod) {
    forall i, j :: 0 <= i < j < |p.statuses| ==> p.statuses[i].name != p.statuses[j].name
  }

  lemma SlotsApart(p: Pod, i: nat, j: nat)
    requires DistinctNames(p) && i < |p.statuses| && j < |p.statuses|
    ensures SlotKey(p.uid, p.statuses[i].name) == SlotKey(p.uid, p.statuses[j].name) <==> i == j
  {
    if i != j {
      BarKeeps(p.uid, p.statuses[i].name, p.statuses[j].name);
    }
  }

  /** What is remembered under `x` after the first `n` statuses. */
  lemma {:induction false} EntryAfter(reasons: set<string>, p: Pod, n: nat, seen: map<string, Entry>, x: string)
    requires DistinctNames(p) && n <= |p.statuses|
    ensures var after := UpdateStep(reasons, p, n, seen).0;
            && (Untouched(reasons, p, n, x) ==> Lookup(after, x) == Lookup(seen, x))
            && (forall i :: 0 <= i < n && SlotKey(p.uid, p.statuses[i].name) == x && Tracks(reasons, p.statuses[i]) ==>
                  Lookup(after, x) == Some(EntryFor(p, p.statuses[i])))
            && (forall i :: 0 <= i < n && SlotKey(p.uid, p.statuses[i].name) == x ==>
                  Recovers(reasons, p.statuses[i]) ==> Lookup(after, x) == None)
  {
    hide SlotKey, ReasonOf;
    if n > 0 {
      EntryAfter(reasons, p, n - 1, seen, x);
      forall i | 0 <= i < n - 1
        ensures SlotKey(p.uid, p.statuses[i].name) != SlotKey(p.uid, p.statuses[n - 1].name)
      {
        SlotsApart(p, i, n - 1);
      }
    }
  }

  /** Who holds `k` after the update. */
  lemma HeldAfter(reasons: set<string>, p: Pod, seen: map<string, Entry>, k: string)
    requires DistinctNames(p)
    ensures var n := |p.statuses|;
            Held(UpdateStep(reasons, p, n, seen).0, k) <==> Fired(reasons, p, n, k) || StaysAs(reasons, p, seen, n, k)
  {
    hide AlertKey, UpdateStep, SlotKey, ReasonOf;
    var n, after := |p.statuses|, UpdateStep(reasons, p, |p.statuses|, seen).0;
    if Held(after, k) {
      var x :| x in after && AlertKey(after[x]) == k;
      EntryAfter(reasons, p, n, seen, x);
      if !Untouched(reasons, p, n, x) {
        var i :| 0 <= i < n && SlotKey(p.uid, p.statuses[i].name) == x
                 && (Tracks(reasons, p.statuses[i]) || Recovers(reasons, p.statuses[i]));
        assert FiresAs(reasons, p, i, k);
      }
    }
    if i :| 0 <= i < n && FiresAs(reasons, p, i, k) {
      var x := SlotKey(p.uid, p.statuses[i].name);
      EntryAfter(reasons, p, n, seen, x);
      assert x in after && AlertKey(after[x]) == k;
    }
    if StaysAs(reasons, p, seen, n, k) {
      var x :| x in seen && AlertKey(seen[x]) == k && Untouched(reasons, p, n, x);
      EntryAfter(reasons, p, n, seen, x);
      assert x in after && AlertKey(after[x]) == k;
    }
  }

  lemma RecoversNext(reasons: set<string>, p: Pod, seen: map<string, Entry>, n: nat, k: string)
    requires 0 < n <= |p.statuses|
    ensures RecoversLast(reasons, p, seen, n, k) <==>
              !FiresAs(reasons, p, n - 1, k)
              && (RecoversAs(reasons, p, seen, n - 1, k) || RecoversLast(reasons, p, seen, n - 1, k))
    ensures Rekeyed(reasons, p, seen, n, k) <==>
              Rekeyed(reasons, p, seen, n - 1, k) || RekeysFrom(reasons, p, seen, n - 1, k)
  {
    hide AlertKey, SlotKey, ReasonOf, WasAs;
    if RecoversAs(reasons, p, seen, n - 1, k) {
      assert NoneFires(reasons, p, n, n, k);
    }
    if i :| 0 <= i < n - 1 && RecoversAs(reasons, p, seen, i, k) && NoneFires(reasons, p, i + 1, n - 1, k) {
      assert !FiresAs(reasons, p, n - 1, k) ==> NoneFires(reasons, p, i + 1, n, k);
    }
    if i :| 0 <= i < n && RecoversAs(reasons, p, seen, i, k) && NoneFires(reasons, p, i + 1, n, k) {
      assert i < n - 1 ==> NoneFires(reasons, p, i + 1, n - 1, k);
    }
  }

  /** The report of the next status, from the memory before the update. */
  lemma NextReport(reasons: set<string>, p: Pod, n: nat, seen: map<string, Entry>, k: string)
    requires DistinctNames(p) && 0 < n <= |p.statuses|
    ensures var slot, before := SlotKey(p.uid, p.statuses[n - 1].name), UpdateStep(reasons, p, n - 1, seen).0;
            var more := StatusStep(reasons, p, p.statuses[n - 1], before).1;
            && Lookup(before, slot) == Lookup(seen, slot) && |more| <= 1
            && (FiresAs(reasons, p, n - 1, k) <==> |more| == 1 && more[0].Opened? && AlertKey(more[0].f) == k)
            && (RecoversAs(reasons, p, seen, n - 1, k) <==>
                  |more| == 1 && more[0].Closed? && AlertKey(more[0].f) == k)
            && (RekeysFrom(reasons, p, seen, n - 1, k) <==>
                  |more| == 1 && more[0].Opened? && AlertKey(more[0].f) != k
                  && slot in before && AlertKey(before[slot]) == k)
            && (|more| == 1 ==> more[0].key == slot)
  {
    hide AlertKey, SlotKey, ReasonOf, UpdateStep;
    SlotUntouched(reasons, p, n - 1);
    EntryAfter(reasons, p, n - 1, seen, SlotKey(p.uid, p.statuses[n - 1].name));
  }

  lemma SlotUntouched(reasons: set<string>, p: Pod, n: nat)
    requires DistinctNames(p) && n < |p.statuses|
    ensures Untouched(reasons, p, n, SlotKey(p.uid, p.statuses[n].name))
  {
    forall i | 0 <= i < n ensures SlotKey(p.uid, p.statuses[i].name) != SlotKey(p.uid, p.statuses[n].name) {
      SlotsApart(p, i, n);
    }
  }

  /** What the reports of the first `n` statuses say about `k`. */
  lemma {:induction false} ReportsAfter(reasons: set<string>, p: Pod, n: nat, seen: map<string, Entry>, k: string)
    requires DistinctNames(p) && n <= |p.statuses|
    ensures var reports := UpdateStep(reasons, p, n, seen).1;
            && (LatestCloses(reports, k) <==> RecoversLast(reasons, p, seen, n, k))
            && (Replaced(seen, reports, k) <==> Rekeyed(reasons, p, seen, n, k))
  {
    hide AlertKey, SlotKey, StatusStep, LatestCloses, Replaced, AppliedAll, LatestOpens, FiresAs, RecoversAs,
         RekeysFrom, DistinctNames;
    if n == 0 {
      NothingMoves(seen, k);
    } else {
      ReportsAfter(reasons, p, n - 1, seen, k);
      var (before, reports) := UpdateStep(reasons, p, n - 1, seen);
      var more := StatusStep(reasons, p, p.statuses[n - 1], before).1;
      RecoversNext(reasons, p, seen, n, k);
      NextReport(reasons, p, n, seen, k);
      UpdateIsLawful(reasons, p, n - 1, seen);
      if more == [] {
        assert reports + more == reports;
      } else {
        assert more == [more[0]];
        LatestNext(reports, more[0], k);
        ReplacedNext(seen, reports, more[0], k);
      }
    }
  }

  /**
    An update of a pod with distinct container names keeps agreement exactly when two things hold for every
    alert. If a recovering container resolves it and no later status submits it, then no earlier status
    submits it and no entry that the update leaves alone holds it. If an entry is rekeyed from it, then it is
    resolved in that way, or submitted by some status, or held by an entry that the update leaves alone.
   */
  lemma UpdateAgreesExactly(cfg: Config, reasons: set<string>, b: Both, p: Pod, at: int)
    requires cfg.resolution && Tidy(b.s) && Agree(b) && DistinctNames(p)
    ensures var n, seen := |p.statuses|, b.seen;
            Agree(PlayOne(cfg, reasons, b, Saw(Updated(p), at))) <==>
              forall k ::
                var held := Fired(reasons, p, n, k) || StaysAs(reasons, p, seen, n, k);
                && (RecoversLast(reasons, p, seen, n, k) ==> !held)
                && (Rekeyed(reasons, p, seen, n, k) ==> RecoversLast(reasons, p, seen, n, k) || held)
  {
    hide Agree, Tidy, PlayOne, LatestCloses, Replaced, Held, UpdateStep, Fired, RecoversLast, Rekeyed, StaysAs,
         DistinctNames;
    var n, seen := |p.statuses|, b.seen;
    var (after, reports) := React(reasons, seen, Updated(p));
    EventAgreesExactly(cfg, reasons, b, Updated(p), at);
    forall k
      ensures LatestCloses(reports, k) <==> RecoversLast(reasons, p, seen, n, k)
      ensures Replaced(seen, reports, k) <==> Rekeyed(reasons, p, seen, n, k)
      ensures Held(after, k) <==> Fired(reasons, p, n, k) || StaysAs(reasons, p, seen, n, k)
    {
      ReportsAfter(reasons, p, n, seen, k);
      HeldAfter(reasons, p, seen, k);
    }
  }

  // ---- A changed reason --------------------------------------------------------------------

  lemma BarKeeps(a: string, x: string, y: string)
    requires x != y
    ensures Bar(a, x) != Bar(a, y)
  {
    assert Bar(a, x)[|a| + 1..] == x && Bar(a, y)[|a| + 1..] == y;
  }

  lemma ReasonInKey(f: Entry, reason: string)
    requires f.reason != reason
    ensures AlertKey(f) != AlertKey(f.(reason := reason))
  {
    hide Bar;
    var x, y := f.reason, reason;
    BarKeeps(f.podName, x, y);
    BarKeeps("Pod", Bar(f.podName, x), Bar(f.podName, y));
    BarKeeps(f.ns, Bar("Pod", Bar(f.podName, x)), Bar("Pod", Bar(f.podName, y)));
    BarKeeps(MONITOR, Bar(f.ns, Bar("Pod", Bar(f.podName, x))), Bar(f.ns, Bar("Pod", Bar(f.podName, y))));
  }

  lemma PlayNext(cfg: Config, restored: map<string, int>, reasons: set<string>, h: seq<Happening>, e: Happening)
    ensures Play(cfg, restored, reasons, h + [e]) == PlayOne(cfg, reasons, Play(cfg, restored, reasons, h), e)
    ensures History(cfg, restored, reasons, h + [e]) <==>
              History(cfg, restored, reasons, h) && Possible(Play(cfg, restored, reasons, h).seen, e)
  {
    hide PlayOne, Possible;
    assert (h + [e])[..|h|] == h;
  }

  /** The pod of entry `f` with a single container status. */
  function PodOf(uid: string, f: Entry, cs: Status): Pod {
    Pod(uid, f.ns, f.podName, [cs])
  }

  lemma OneStatus(reasons: set<string>, p: Pod, seen: map<string, Entry>)
    requires |p.statuses| == 1
    ensures React(reasons, seen, Updated(p)) == StatusStep(reasons, p, p.statuses[0], seen)
  {
    var (after, more) := StatusStep(reasons, p, p.statuses[0], seen);
    assert UpdateStep(reasons, p, 0, seen) == (seen, []);
    assert [] + more == more;
  }

  /**
    A container that waits for one tracked reason, then for another, and then runs again leaves the
    first alert active, though it is no longer remembered: three updates after any history.
   */
  lemma ChangedReasonStaysActive(
      cfg: Config, restored: map<string, int>, reasons: set<string>, h: seq<Happening>, uid: string, f: Entry,
      reason: string, began: int, changed: int, over: int)
    requires cfg.resolution && History(cfg, restored, reasons, h)
    requires f.reason in reasons && reason in reasons && f.reason != reason && "" !in reasons
    ensures var more := h + [Saw(Updated(PodOf(uid, f, Status(f.container, Some(f.reason), None, false))), began)]
                          + [Saw(Updated(PodOf(uid, f, Status(f.container, Some(reason), None, false))), changed)]
                          + [Saw(Updated(PodOf(uid, f, Status(f.container, None, None, true))), over)];
            var seen := Play(cfg, restored, reasons, h).seen - {SlotKey(uid, f.container)};
            var b := Play(cfg, restored, reasons, more);
            && History(cfg, restored, reasons, more) && b.seen == seen
            && AlertKey(f) in b.s.active && AlertKey(f.(reason := reason)) !in b.s.active
            && (Agree(b) ==> Held(seen, AlertKey(f)))
  {
    hide Play, History, AlertKey, LatestOpens, ClosedCount, Held, Served, React, SlotKey, Cut;
    var key, g, seen := SlotKey(uid, f.container), f.(reason := reason), Play(cfg, restored, reasons, h).seen;
    var p0 := PodOf(uid, f, Status(f.container, Some(f.reason), None, false));
    var p1 := PodOf(uid, f, Status(f.container, Some(reason), None, false));
    var p2 := PodOf(uid, f, Status(f.container, None, None, true));
    var h0 := h + [Saw(Updated(p0), began)];
    var h1 := h0 + [Saw(Updated(p1), changed)];
    var h2 := h1 + [Saw(Updated(p2), over)];
    OneStatus(reasons, p0, seen);
    OneStatus(reasons, p1, seen[key := f]);
    OneStatus(reasons, p2, seen[key := f][key := g]);
    PlayNext(cfg, restored, reasons, h, Saw(Updated(p0), began));
    PlayNext(cfg, restored, reasons, h0, Saw(Updated(p1), changed));
    PlayNext(cfg, restored, reasons, h1, Saw(Updated(p2), over));
    ReasonInKey(f, reason);
    var log := Play(cfg, restored, reasons, h).log;
    forall k | k == AlertKey(f) || k == AlertKey(g)
      ensures LatestOpens(log + [Opened(key, f)] + [Opened(key, g)] + [Closed(key, g)], k) <==> k == AlertKey(f)
    {
      LatestNext(log, Opened(key, f), k);
      LatestNext(log + [Opened(key, f)], Opened(key, g), k);
      LatestNext(log + [Opened(key, f)] + [Opened(key, g)], Closed(key, g), k);
    }
    CallNames(Opened(key, f), false);
    CallNames(Opened(key, g), false);
    CrashThroughEngine(cfg, restored, reasons, h2, AlertKey(f));
    CrashThroughEngine(cfg, restored, reasons, h2, AlertKey(g));
    assert Play(cfg, restored, reasons, h2).seen == seen - {key};
  }

  // ---- By the fields of the pod -----------------------------------------------------------------

  /** Container status `i` waits for that tracked reason, or was terminated by it and does not wait. */
  ghost predicate CrashSeen(reasons: set<string>, p: Pod, i: nat, reason: string) {
    && i < |p.statuses| && reason in reasons
    && var cs := p.statuses[i];
       if cs.waiting.None? && cs.terminated.None? then reason == ""
       else cs.waiting == Some(reason) || (cs.waiting.None? && cs.terminated == Some(reason))
  }

  ghost predicate IsCrashAlert(a: Alert, p: Pod, i: nat, reason: string)
    requires i < |p.statuses|
  {
    var name := p.statuses[i].name;
    && a.monitor == "pod_crashes" && a.severity == Critical && a.state == Firing
    && a.namespace == p.ns && a.objectKind == "Pod" && a.objectName == p.name && a.reason == reason
    && a.title == reason + " on " + p.name + "/" + name
    && a.body == "Container " + name + " in pod " + p.ns + "/" + p.name + " is in state " + reason
  }

  /** The texts of a resolve: the container runs again, or its pod is gone. */
  ghost predicate IsCrashEnd(a: Alert, f: Entry, deleted: bool) {
    && a.monitor == "pod_crashes" && a.namespace == f.ns && a.objectKind == "Pod" && a.objectName == f.podName
    && a.reason == f.reason
    && if deleted then
         && a.title == f.podName + "/" + f.container + " deleted"
         && a.body == "Pod " + f.ns + "/" + f.podName + " no longer exists; clearing the alert."
       else
         && a.title == f.podName + "/" + f.container + " is back to Running"
         && a.body == "Container " + f.container + " in pod " + f.ns + "/" + f.podName + " is now Running."
  }

  /** Status `i` shows the crash `f`, remembered under `key`. */
  ghost predicate SubmittedAs(reasons: set<string>, p: Pod, i: nat, key: string, f: Entry)
    requires i < |p.statuses|
  {
    && CrashSeen(reasons, p, i, f.reason)
    && key == p.uid + "|" + p.statuses[i].name && f == Entry(p.ns, p.name, p.statuses[i].name, f.reason)
  }

  /** The submits of an update are exactly those of the statuses that show a tracked crash. */
  lemma {:induction false} SubmitsAreSeen(
      reasons: set<string>, p: Pod, n: nat, seen: map<string, Entry>, key: string, f: Entry)
    requires n <= |p.statuses|
    ensures Opened(key, f) in UpdateStep(reasons, p, n, seen).1 <==>
              exists i: nat :: i < n && SubmittedAs(reasons, p, i, key, f)
  {
    if n > 0 {
      SubmitsAreSeen(reasons, p, n - 1, seen, key, f);
      var (before, reports) := UpdateStep(reasons, p, n - 1, seen);
      var more := StatusStep(reasons, p, p.statuses[n - 1], before).1;
      assert Opened(key, f) in reports + more <==> Opened(key, f) in reports || Opened(key, f) in more;
      StatusSubmits(reasons, p, n - 1, before, key, f);
    }
  }

  lemma StatusSubmits(reasons: set<string>, p: Pod, i: nat, seen: map<string, Entry>, key: string, f: Entry)
    requires i < |p.statuses|
    ensures Opened(key, f) in StatusStep(reasons, p, p.statuses[i], seen).1 <==>
              SubmittedAs(reasons, p, i, key, f)
  {
  }

  /** A resolve says that the container runs again or that its pod is gone. */
  lemma EndSays(r: Report, deleted: bool)
    requires r.Closed?
    ensures CallOf(r, deleted).Clear? && IsCrashEnd(CallOf(r, deleted).a, r.f, deleted)
  {
  }

  lemma CallSays(r: Report, p: Pod, i: nat, deleted: bool)
    requires i < |p.statuses| && r.Opened? && r.f == Entry(p.ns, p.name, p.statuses[i].name, r.f.reason)
    ensures CallOf(r, deleted).Submit? && IsCrashAlert(CallOf(r, deleted).a, p, i, r.f.reason)
  {
  }

  lemma {:induction false} CallsFromReports(reports: seq<Report>, deleted: bool)
    ensures forall c :: c in CallsOf(reports, deleted) ==> exists r :: r in reports && c == CallOf(r, deleted)
  {
    hide CallOf;
    if reports != [] {
      var n := |reports| - 1;
      CallsFromReports(reports[..n], deleted);
      assert reports[n] in reports && forall r :: r in reports[..n] ==> r in reports;
    }
  }

  /** Some observed status of the history shows the crash of which `a` tells. */
  ghost predicate ToldOf(cfg: Config, reasons: set<string>, h: seq<Happening>, a: Alert) {
    a.cluster == cfg.cluster &&
    exists n: nat, i: nat :: n < |h| && TellsOf(reasons, h[n], i, a)
  }

  ghost predicate TellsOf(reasons: set<string>, e: Happening, i: nat, a: Alert) {
    e.Saw? && e.e.Updated? && i < |e.e.p.statuses|
    && CrashSeen(reasons, e.e.p, i, a.reason) && IsCrashAlert(a, e.e.p, i, a.reason)
  }

  /** Whatever this monitor has active, in every history, tells of a tracked crash that some pod showed. */
  lemma {:induction false} ActiveCrashWasSeen(
      cfg: Config, restored: map<string, int>, reasons: set<string>, h: seq<Happening>, k: string)
    requires History(cfg, restored, reasons, h)
    ensures var s := Play(cfg, restored, reasons, h).s;
            k in s.active && s.active[k].monitor == "pod_crashes" ==> ToldOf(cfg, reasons, h, s.active[k])
  {
    hide ToldOf, React, Served, CallsOf, Step, Alert.Key;
    if h != [] {
      var n := |h| - 1;
      var b, e, t := Play(cfg, restored, reasons, h[..n]), h[n], Play(cfg, restored, reasons, h).s;
      ActiveCrashWasSeen(cfg, restored, reasons, h[..n], k);
      if k in t.active && t.active[k].monitor == "pod_crashes" {
        if k in b.s.active && t.active[k] == b.s.active[k] {
          ToldLater(cfg, reasons, h[..n], e, t.active[k]);
          assert h == h[..n] + [e];
        } else if e.Saw? {
          ServedAdds(cfg, b.s, CallsOf(React(reasons, b.seen, e.e).1, e.e.Deleted?), e.at);
          var i := SawTells(cfg, reasons, b, e, t.active[k]);
          ToldNow(cfg, reasons, h, i, t.active[k]);
        } else {
          StepAdds(cfg, b.s, e.op);
        }
      }
    }
  }

  lemma ToldLater(cfg: Config, reasons: set<string>, h: seq<Happening>, e: Happening, a: Alert)
    requires ToldOf(cfg, reasons, h, a)
    ensures ToldOf(cfg, reasons, h + [e], a)
  {
    hide TellsOf;
    var n: nat, i: nat :| n < |h| && TellsOf(reasons, h[n], i, a);
    assert (h + [e])[n] == h[n];
  }

  lemma ToldNow(cfg: Config, reasons: set<string>, h: seq<Happening>, i: nat, a: Alert)
    requires h != [] && a.cluster == cfg.cluster && TellsOf(reasons, h[|h| - 1], i, a)
    ensures ToldOf(cfg, reasons, h, a)
  {
    hide TellsOf;
  }

  /** A new active alert of an event tells of one of its statuses. */
  lemma SawTells(cfg: Config, reasons: set<string>, b: Both, e: Happening, a: Alert) returns (i: nat)
    requires e.Saw?
    requires exists c :: c in CallsOf(React(reasons, b.seen, e.e).1, e.e.Deleted?) && c.Submit?
                         && a == Prepared(c.a, cfg.cluster, Firing, e.at)
    ensures a.cluster == cfg.cluster && TellsOf(reasons, e, i, a)
  {
    hide CallsOf, UpdateStep, ResolveAll, IsCrashEnd, IsCrashAlert, CrashSeen, HasPrefix;
    var reports := React(reasons, b.seen, e.e).1;
    var c :| c in CallsOf(reports, e.e.Deleted?) && c.Submit? && a == Prepared(c.a, cfg.cluster, Firing, e.at);
    CallsFromReports(reports, e.e.Deleted?);
    var r :| r in reports && c == CallOf(r, e.e.Deleted?);
    assert r.Opened?;
    match e.e
    case Updated(p) =>
      SubmitsAreSeen(reasons, p, |p.statuses|, b.seen, r.key, r.f);
      i :| i < |p.statuses| && SubmittedAs(reasons, p, i, r.key, r.f);
      CallSays(r, p, i, false);
      PreparedTells(c.a, cfg.cluster, e.at, p, i, r.f.reason);
    case Deleted(uid, order) =>
      NoneOpened(b.seen, order);
      assert false;
  }

  lemma PreparedTells(a: Alert, cluster: string, at: int, p: Pod, i: nat, reason: string)
    requires i < |p.statuses| && IsCrashAlert(a, p, i, reason) && a.cluster == ""
    ensures var b := Prepared(a, cluster, Firing, at);
            IsCrashAlert(b, p, i, reason) && b.cluster == cluster && b.reason == reason
  {
  }

  lemma {:induction false} NoneOpened(seen: map<string, Entry>, order: seq<string>)
    ensures forall r :: r in ResolveAll(seen, order) ==> r.Closed?
  {
    if order != [] {
      NoneOpened(seen, order[..|order| - 1]);
    }
  }
}
