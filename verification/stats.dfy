/** Per-monitor counters and the bounded activity feed (internal/engine/stats.go). */
module Stats {
  import opened Alerts
  import opened EngineSpec
  import opened Wording

  datatype MonitorStats = MonitorStats(name: string, fires: nat, resolves: nat, lastFired: int, lastEvent: string)

  datatype RecentEntry = RecentEntry(
    at: int, state: string, severity: string, monitor: string, ns: string, obj: string,
    reason: string, title: string, body: string, channels: seq<string>)

  function StateText(s: AlertState): string {
    if s == Resolved then "resolved" else "firing"
  }

  function EntryOf(a: Alert, channels: seq<string>, now: int): RecentEntry {
    RecentEntry(if a.firedAt == ZERO_TIME then now else a.firedAt, StateText(a.state), a.severity.Text(),
                a.monitor, a.namespace, a.Object(), a.reason, a.title, a.body, channels)
  }

  /** A monitor's counters after one more send. */
  function Bumped(st: MonitorStats, a: Alert): MonitorStats {
    st.(fires := if a.state == Resolved then st.fires else st.fires + 1,
        resolves := if a.state == Resolved then st.resolves + 1 else st.resolves,
        lastEvent := StateText(a.state),
        lastFired := if a.firedAt == ZERO_TIME then st.lastFired else a.firedAt)
  }

  // ---- What the recorder should know, read off the log of sends -----------

  function CountSent(sent: seq<Delivery>, m: string, state: AlertState): nat {
    if sent == [] then 0
    else
      var d, before := sent[|sent| - 1], CountSent(sent[..|sent| - 1], m, state);
      if d.alert.monitor == m && d.alert.state == state then before + 1 else before
  }

  /** The newest stamp of a message of `m`, and the state of its newest message. */
  function NewestOf(sent: seq<Delivery>, m: string): (int, string) {
    if sent == [] then (ZERO_TIME, "")
    else
      var d, before := sent[|sent| - 1], NewestOf(sent[..|sent| - 1], m);
      if d.alert.monitor != m then before
      else (if d.alert.firedAt == ZERO_TIME then before.0 else d.alert.firedAt, StateText(d.alert.state))
  }

  ghost function Senders(sent: seq<Delivery>): set<string> {
    set d | d in sent :: d.alert.monitor
  }

  /** The feed holds what the last sends show, oldest first, and as many of them as there is room for. */
  ghost predicate IsFeed(recent: seq<RecentEntry>, capacity: nat, sent: seq<Delivery>) {
    && |recent| == (if |sent| < capacity then |sent| else capacity)
    && forall i :: 0 <= i < |recent| ==>
         var d := sent[|sent| - |recent| + i];
         recent[i] == EntryOf(d.alert, d.channels, d.at)
  }

  function StatsFor(sent: seq<Delivery>, m: string): MonitorStats {
    MonitorStats(m, CountSent(sent, m, Firing), CountSent(sent, m, Resolved), NewestOf(sent, m).0, NewestOf(sent, m).1)
  }

  /** Counters and feed say exactly what the log of sends says. */
  ghost predicate Agrees(
      monitors: map<string, MonitorStats>, recent: seq<RecentEntry>, capacity: nat, sent: seq<Delivery>) {
    && monitors.Keys == Senders(sent)
    && (forall m :: m in monitors ==> monitors[m] == StatsFor(sent, m))
    && IsFeed(recent, capacity, sent)
  }

  function Recorded(monitors: map<string, MonitorStats>, a: Alert): map<string, MonitorStats> {
    monitors[a.monitor :=
      Bumped(if a.monitor in monitors then monitors[a.monitor] else MonitorStats(a.monitor, 0, 0, ZERO_TIME, ""), a)]
  }

  lemma {:induction false} UnseenStats(sent: seq<Delivery>, m: string)
    requires m !in Senders(sent)
    ensures StatsFor(sent, m) == MonitorStats(m, 0, 0, ZERO_TIME, "")
  {
    if sent != [] {
      var n := |sent| - 1;
      assert sent[n] in sent && forall d :: d in sent[..n] ==> d in sent;
      UnseenStats(sent[..n], m);
    }
  }

  lemma SendersSnoc(sent: seq<Delivery>, d: Delivery)
    ensures Senders(sent + [d]) == Senders(sent) + {d.alert.monitor}
  {
    assert forall x :: x in sent + [d] <==> x in sent || x == d;
  }

  /** How one more send changes the counters of each monitor. */
  lemma BumpedStats(sent: seq<Delivery>, d: Delivery, m: string)
    ensures StatsFor(sent + [d], m) ==
              if d.alert.monitor == m then Bumped(StatsFor(sent, m), d.alert) else StatsFor(sent, m)
  {
    assert (sent + [d])[..|sent|] == sent;
  }

  /** The last elements of a sequence, at most `capacity` of them. */
  ghost predicate IsTail<T>(r: seq<T>, s: seq<T>, capacity: nat) {
    |r| == (if |s| < capacity then |s| else capacity) && forall i :: 0 <= i < |r| ==> r[i] == s[|s| - |r| + i]
  }

  lemma FeedNext(
      recent: seq<RecentEntry>, after: seq<RecentEntry>, capacity: nat, sent: seq<Delivery>, d: Delivery)
    requires IsFeed(recent, capacity, sent)
    requires IsTail(after, recent + [EntryOf(d.alert, d.channels, d.at)], capacity)
    ensures IsFeed(after, capacity, sent + [d])
  {
    hide EntryOf;
    var all, e := sent + [d], EntryOf(d.alert, d.channels, d.at);
    forall i | 0 <= i < |after|
      ensures after[i] == var x := all[|all| - |after| + i]; EntryOf(x.alert, x.channels, x.at)
    {
      if i < |after| - 1 {
        assert after[i] == (recent + [e])[|recent| + 1 - |after| + i];
        assert all[|all| - |after| + i] == sent[|sent| - |recent| + (|recent| + 1 - |after| + i)];
      }
    }
  }

  /** Recording a send keeps counters and feed in agreement with the log. */
  lemma RecordAgrees(
      monitors: map<string, MonitorStats>, recent: seq<RecentEntry>, after: seq<RecentEntry>, capacity: nat,
      sent: seq<Delivery>, d: Delivery)
    requires Agrees(monitors, recent, capacity, sent)
    requires IsTail(after, recent + [EntryOf(d.alert, d.channels, d.at)], capacity)
    ensures Agrees(Recorded(monitors, d.alert), after, capacity, sent + [d])
  {
    hide EntryOf, IsFeed, IsTail;
    var all := sent + [d];
    assert all[..|sent|] == sent;
    SendersSnoc(sent, d);
    FeedNext(recent, after, capacity, sent, d);
    var counted := Recorded(monitors, d.alert);
    forall m | m in counted ensures counted[m] == StatsFor(all, m) {
      if m !in monitors {
        UnseenStats(sent, m);
      }
      BumpedStats(sent, d, m);
    }
  }

  // ---- What the counters and the feed show --------------------------------------------------

  /** A feed entry shows the message, and the time it was sent when it carries no stamp. */
  ghost predicate Shows(e: RecentEntry, d: Delivery) {
    && e.at == (if d.alert.firedAt != 0 then d.alert.firedAt else d.at)
    && e.state == (if d.alert.state == Firing then "firing" else "resolved") && IsWord(e.severity, d.alert.severity)
    && e.monitor == d.alert.monitor && e.ns == d.alert.namespace && NamesObject(e.obj, d.alert)
    && e.reason == d.alert.reason && e.title == d.alert.title && e.body == d.alert.body && e.channels == d.channels
  }

  lemma EntryShows(d: Delivery)
    ensures Shows(EntryOf(d.alert, d.channels, d.at), d)
  {
    WordReads(d.alert.severity);
    ObjectReads(d.alert);
  }

  /** The places in the log of the messages of `m` in state `state`. */
  ghost function PlacesOf(sent: seq<Delivery>, m: string, state: AlertState): set<nat> {
    set i: nat | i < |sent| && sent[i].alert.monitor == m && sent[i].alert.state == state
  }

  lemma PlacesNext(sent: seq<Delivery>, d: Delivery, m: string, state: AlertState)
    ensures PlacesOf(sent + [d], m, state) ==
              PlacesOf(sent, m, state) + (if d.alert.monitor == m && d.alert.state == state then {|sent|} else {})
  {
  }

  lemma {:induction false} CountIsPlaces(sent: seq<Delivery>, m: string, state: AlertState)
    ensures CountSent(sent, m, state) == |PlacesOf(sent, m, state)|
  {
    if sent != [] {
      var n := |sent| - 1;
      CountIsPlaces(sent[..n], m, state);
      PlacesNext(sent[..n], sent[n], m, state);
      assert sent == sent[..n] + [sent[n]];
    }
  }

  /** Message `i` is the last one of `m`. */
  ghost predicate LastSent(sent: seq<Delivery>, i: nat, m: string) {
    && i < |sent| && sent[i].alert.monitor == m
    && forall j :: i < j < |sent| ==> sent[j].alert.monitor != m
  }

  /** Message `i` is the last one of `m` that carries a stamp. */
  ghost predicate LastStamped(sent: seq<Delivery>, i: nat, m: string) {
    && i < |sent| && sent[i].alert.monitor == m && sent[i].alert.firedAt != 0
    && forall j :: i < j < |sent| ==> sent[j].alert.monitor != m || sent[j].alert.firedAt == 0
  }

  /** Some message of `m` is its last one and left that word. */
  ghost predicate SaysLast(sent: seq<Delivery>, m: string, word: string) {
    exists i: nat :: LastSent(sent, i, m) && word == (if sent[i].alert.state == Firing then "firing" else "resolved")
  }

  /** The stamp is that of the last stamped message of `m`, or the zero time when it has none. */
  ghost predicate StampsLast(sent: seq<Delivery>, m: string, at: int) {
    || (exists i: nat :: LastStamped(sent, i, m) && at == sent[i].alert.firedAt)
    || (at == 0 && forall d :: d in sent && d.alert.monitor == m ==> d.alert.firedAt == 0)
  }

  /** The counters of a monitor are those of the messages in the log. */
  ghost predicate Tells(x: MonitorStats, sent: seq<Delivery>) {
    && x.fires == |PlacesOf(sent, x.name, Firing)| && x.resolves == |PlacesOf(sent, x.name, Resolved)|
    && SaysLast(sent, x.name, x.lastEvent) && StampsLast(sent, x.name, x.lastFired)
  }

  lemma {:induction false} NewestSays(sent: seq<Delivery>, m: string)
    requires m in Senders(sent)
    ensures SaysLast(sent, m, NewestOf(sent, m).1)
  {
    assert sent != [];
    hide Senders;
    var n := |sent| - 1;
    var front := sent[..n];
    assert sent == front + [sent[n]];
    SendersSnoc(front, sent[n]);
    if sent[n].alert.monitor == m {
      assert LastSent(sent, n, m);
    } else {
      NewestSays(front, m);
      var i: nat :| LastSent(front, i, m)
                    && NewestOf(front, m).1 == (if front[i].alert.state == Firing then "firing" else "resolved");
      assert LastSent(sent, i, m) by {
        assert forall j :: 0 <= j < n ==> front[j] == sent[j];
      }
    }
  }

  lemma {:induction false} NewestStamps(sent: seq<Delivery>, m: string)
    ensures StampsLast(sent, m, NewestOf(sent, m).0)
  {
    if sent != [] {
      var n := |sent| - 1;
      var front := sent[..n];
      assert forall j :: 0 <= j < n ==> front[j] == sent[j];
      NewestStamps(front, m);
      if sent[n].alert.monitor == m && sent[n].alert.firedAt != 0 {
        assert LastStamped(sent, n, m);
      } else if i: nat :| LastStamped(front, i, m) && NewestOf(front, m).0 == front[i].alert.firedAt {
        assert LastStamped(sent, i, m);
      } else {
        forall d | d in sent && d.alert.monitor == m ensures d.alert.firedAt == 0 {
          assert d in front || d == sent[n];
        }
      }
    }
  }

  lemma StatsTell(sent: seq<Delivery>, m: string)
    requires m in Senders(sent)
    ensures Tells(StatsFor(sent, m), sent)
  {
    hide NewestOf, CountSent, PlacesOf, SaysLast, StampsLast;
    CountIsPlaces(sent, m, Firing);
    CountIsPlaces(sent, m, Resolved);
    NewestSays(sent, m);
    NewestStamps(sent, m);
  }

  // ---- Order of monitor names -----------------------------------------------

  /** Go's `<` on strings. */
  predicate Less(s: string, t: string) {
    t != "" && (s == "" || s[0] < t[0] || (s[0] == t[0] && Less(s[1..], t[1..])))
  }

  lemma {:induction false} LessIsOrder(s: string, t: string, u: string)
    ensures !Less(s, s)
    ensures s == t || Less(s, t) || Less(t, s)
    ensures Less(s, t) && Less(t, u) ==> Less(s, u)
  {
    if s != "" && t != "" && u != "" {
      LessIsOrder(s[1..], t[1..], u[1..]);
      assert s == [s[0]] + s[1..] && t == [t[0]] + t[1..];
    } else if s != "" {
      if t != "" {
        LessIsOrder(s[1..], t[1..], []);
        assert s == [s[0]] + s[1..] && t == [t[0]] + t[1..];
      } else {
        LessIsOrder(s[1..], [], []);
      }
    }
  }

  /** Where they first differ `s` has the smaller character, or ends. */
  ghost predicate Before(s: string, t: string) {
    exists i :: 0 <= i <= |s| && i < |t| && s[..i] == t[..i] && (i == |s| || s[i] < t[i])
  }

  lemma {:induction false} LessMeans(s: string, t: string)
    ensures Less(s, t) <==> Before(s, t)
  {
    if Before(s, t) {
      BeforeHead(s, t);
    }
    if s != "" && t != "" && s[0] == t[0] {
      LessMeans(s[1..], t[1..]);
      if i :| 0 <= i <= |s[1..]| && i < |t[1..]| && s[1..][..i] == t[1..][..i]
              && (i == |s[1..]| || s[1..][i] < t[1..][i]) {
        assert s[..i + 1] == [s[0]] + s[1..][..i] && t[..i + 1] == [t[0]] + t[1..][..i];
      }
      if i :| 0 <= i <= |s| && i < |t| && s[..i] == t[..i] && (i == |s| || s[i] < t[i]) {
        assert i > 0;
        assert s[1..][..i - 1] == s[..i][1..] && t[1..][..i - 1] == t[..i][1..];
      }
    } else if t != "" && (s == "" || s[0] < t[0]) {
      assert s[..0] == t[..0];
    }
  }

  lemma BeforeHead(s: string, t: string)
    requires Before(s, t)
    ensures t != "" && (s == "" || s[0] <= t[0])
  {
    var i :| 0 <= i <= |s| && i < |t| && s[..i] == t[..i] && (i == |s| || s[i] < t[i]);
    assert i > 0 ==> s[..i][0] == t[..i][0];
  }

  function NamesOf(s: seq<MonitorStats>): set<string> {
    set x | x in s :: x.name
  }

  ghost predicate Distinct(s: seq<MonitorStats>) {
    forall i, j :: 0 <= i < j < |s| ==> s[i].name != s[j].name
  }

  ghost predicate Sorted(s: seq<MonitorStats>) {
    forall i, j :: 0 <= i < j < |s| ==> Less(s[i].name, s[j].name)
  }

  /** The first `i` names are final, and none of the next ones up to `j` precedes the one at `i`. */
  ghost predicate Placed(s: seq<MonitorStats>, i: nat, j: nat) {
    && (forall p, q :: 0 <= p < i && p < q < |s| ==> Less(s[p].name, s[q].name))
    && (forall q :: i < q < j && q < |s| ==> i < |s| && Less(s[i].name, s[q].name))
  }

  function Swapped(s: seq<MonitorStats>, i: nat, j: nat): (t: seq<MonitorStats>)
    requires i < j < |s|
    ensures |t| == |s|
  {
    s[i := s[j]][j := s[i]]
  }

  function Elements(s: seq<MonitorStats>): set<MonitorStats> {
    set x | x in s
  }

  /** The two lists hold the same elements, each once. */
  ghost predicate Reordered(s: seq<MonitorStats>, t: seq<MonitorStats>) {
    |s| == |t| && Distinct(s) && Distinct(t) && Elements(s) == Elements(t)
  }

  function Exchanged(p: nat, i: nat, j: nat): nat {
    if p == i then j else if p == j then i else p
  }

  lemma SwapIndex(s: seq<MonitorStats>, i: nat, j: nat, p: nat)
    requires i < j < |s| && p < |s|
    ensures Swapped(s, i, j)[p] == s[Exchanged(p, i, j)]
    ensures Swapped(s, i, j)[Exchanged(p, i, j)] == s[p]
  {
  }

  lemma SwapReorders(s: seq<MonitorStats>, i: nat, j: nat)
    requires i < j < |s| && Distinct(s)
    ensures Reordered(s, Swapped(s, i, j))
  {
    hide Swapped;
    var t := Swapped(s, i, j);
    forall x | x in Elements(s) ensures x in Elements(t) {
      var p :| 0 <= p < |s| && s[p] == x;
      SwapIndex(s, i, j, p);
    }
    forall x | x in Elements(t) ensures x in Elements(s) {
      var p :| 0 <= p < |t| && t[p] == x;
      SwapIndex(s, i, j, p);
    }
    forall p, q | 0 <= p < q < |t| ensures t[p].name != t[q].name {
      SwapIndex(s, i, j, p);
      SwapIndex(s, i, j, q);
      assert Exchanged(p, i, j) != Exchanged(q, i, j);
    }
  }

  /** One comparison of the exchange sort. */
  lemma ExchangePlaces(s: seq<MonitorStats>, i: nat, j: nat)
    requires i < j < |s| && Distinct(s) && Placed(s, i, j)
    ensures Placed(if Less(s[j].name, s[i].name) then Swapped(s, i, j) else s, i, j + 1)
  {
    var t := if Less(s[j].name, s[i].name) then Swapped(s, i, j) else s;
    LessIsOrder(s[i].name, s[j].name, "");
    forall q | i < q < j + 1 ensures Less(t[i].name, t[q].name) {
      LessIsOrder(s[j].name, s[i].name, s[q].name);
    }
  }

  lemma SwapIs(s: seq<MonitorStats>, i: nat, j: nat)
    requires i < j < |s|
    ensures Swapped(s, i, j) == s[i := s[j]][j := s[i]]
  {
  }

  lemma StartsPlaced(s: seq<MonitorStats>)
    requires Distinct(s)
    ensures Reordered(s, s) && Placed(s, 0, 1)
  {
  }

  /** Swapping in a reordered list leaves it reordered. */
  lemma ReorderedAgain(listed: seq<MonitorStats>, s: seq<MonitorStats>, i: nat, j: nat)
    requires i < j < |s| && Reordered(listed, s)
    ensures Distinct(s) && Reordered(listed, Swapped(s, i, j))
  {
    hide Swapped, Elements;
    SwapReorders(s, i, j);
  }

  lemma PlacedNext(s: seq<MonitorStats>, i: nat)
    requires i < |s| && Placed(s, i, |s|)
    ensures Placed(s, i + 1, i + 2)
  {
    hide Less;
  }

  lemma AllPlaced(s: seq<MonitorStats>)
    requires Placed(s, |s|, |s| + 1)
    ensures Sorted(s)
  {
    hide Less;
  }

  lemma SameElements(s: seq<MonitorStats>, t: seq<MonitorStats>)
    requires Reordered(s, t)
    ensures NamesOf(s) == NamesOf(t) && forall x :: x in t ==> x in s
  {
    assert forall x :: x in t <==> x in Elements(t);
    assert forall x :: x in s <==> x in Elements(s);
  }

  class StatsRecorder {
    var monitors: map<string, MonitorStats>
    var recent: seq<RecentEntry>
    const capacity: nat

    constructor (capacity: int)
      ensures this.capacity == (if capacity <= 0 then 100 else capacity)
      ensures monitors == map[] && recent == []
      ensures Agrees(monitors, recent, this.capacity, [])
    {
      this.capacity := if capacity <= 0 then 100 else capacity;
      monitors := map[];
      recent := [];
    }

    method Record(a: Alert, channels: seq<string>, now: int)
      modifies this
      ensures monitors == Recorded(old(monitors), a)
      ensures IsTail(recent, old(recent) + [EntryOf(a, channels, now)], capacity)
    {
      var stat := MonitorStats(a.monitor, 0, 0, ZERO_TIME, "");
      if a.monitor in monitors {
        stat := monitors[a.monitor];
      }
      if a.state == Resolved {
        stat := stat.(resolves := stat.resolves + 1, lastEvent := "resolved");
      } else {
        stat := stat.(fires := stat.fires + 1, lastEvent := "firing");
      }
      if a.firedAt != ZERO_TIME {
        stat := stat.(lastFired := a.firedAt);
      }
      monitors := monitors[a.monitor := stat];

      var entry := RecentEntry(a.firedAt, StateText(a.state), a.severity.Text(), a.monitor, a.namespace,
                               a.Object(), a.reason, a.title, a.body, channels);
      if entry.at == ZERO_TIME {
        entry := entry.(at := now);
      }
      recent := recent + [entry];
      if |recent| > capacity {
        recent := recent[|recent| - capacity..];
      }
    }

    /** The counters of every monitor once, by strictly increasing name. */
    method Monitors() returns (out: array<MonitorStats>)
      requires forall m :: m in monitors ==> monitors[m].name == m
      ensures fresh(out) && Sorted(out[..]) && NamesOf(out[..]) == monitors.Keys
      ensures forall x :: x in out[..] ==> x.name in monitors && x == monitors[x.name]
    {
      hide Less, Placed, Reordered, Swapped;
      var listed := Collected();
      out := new MonitorStats[|listed|](i requires 0 <= i < |listed| => listed[i]);
      assert out[..] == listed;
      StartsPlaced(listed);
      var i := 0;
      while i < out.Length
        invariant 0 <= i <= out.Length
        invariant Reordered(listed, out[..])
        invariant Placed(out[..], i, i + 1)
      {
        var j := i + 1;
        while j < out.Length
          invariant i < j <= out.Length
          invariant Reordered(listed, out[..])
          invariant Placed(out[..], i, j)
        {
          ghost var was := out[..];
          ReorderedAgain(listed, was, i, j);
          ExchangePlaces(was, i, j);
          if Less(out[j].name, out[i].name) {
            out[i], out[j] := out[j], out[i];
            assert out[..] == Swapped(was, i, j) by { SwapIs(was, i, j); }
          }
          j := j + 1;
        }
        PlacedNext(out[..], i);
        i := i + 1;
      }
      AllPlaced(out[..]);
      SameElements(listed, out[..]);
    }

    /** The values of the map, in whatever order it is walked. */
    method Collected() returns (out: seq<MonitorStats>)
      requires forall m :: m in monitors ==> monitors[m].name == m
      ensures Distinct(out) && NamesOf(out) == monitors.Keys
      ensures forall x :: x in out ==> x.name in monitors && x == monitors[x.name]
    {
      out := [];
      var todo := monitors.Keys;
      while todo != {}
        invariant todo <= monitors.Keys
        invariant Distinct(out) && NamesOf(out) == monitors.Keys - todo
        invariant forall x :: x in out ==> x.name in monitors && x.name !in todo && x == monitors[x.name]
        decreases todo
      {
        var k :| k in todo;
        ghost var was := out;
        out := out + [monitors[k]];
        assert NamesOf(out) == NamesOf(was) + {k} by {
          assert forall x :: x in out <==> x in was || x == monitors[k];
        }
        todo := todo - {k};
      }
    }

    /** The feed, newest first. */
    method Recent() returns (out: array<RecentEntry>)
      ensures fresh(out) && out.Length == |recent|
      ensures forall i :: 0 <= i < |recent| ==> out[i] == recent[|recent| - 1 - i]
    {
      var blank := RecentEntry(ZERO_TIME, "", "", "", "", "", "", "", "", []);
      out := new RecentEntry[|recent|](_ => blank);
      var i := 0;
      while i < |recent|
        invariant 0 <= i <= |recent|
        invariant forall j :: 0 <= j < i ==> out[|recent| - 1 - j] == recent[j]
      {
        out[|recent| - 1 - i] := recent[i];
        i := i + 1;
      }
      forall k | 0 <= k < |recent| ensures out[k] == recent[|recent| - 1 - k] {
        assert out[|recent| - 1 - (|recent| - 1 - k)] == recent[|recent| - 1 - k];
      }
    }
  }
}
