/** Restart storms over a sliding window (internal/monitors/pod_restarts.go). */
module PodRestarts {
  import opened Options
  import opened Alerts
  import opened EngineSpec
  import opened Submitter
  import opened Wording

  const MONITOR := "pod_restarts"

  datatype Sample = Sample(at: int, count: int)

  datatype Container = Container(name: string, restartCount: int)

  datatype Pod = Pod(uid: string, ns: string, name: string, containers: seq<Container>)

  /** The samples no older than `cutoff`, in order. */
  function Kept(samples: seq<Sample>, cutoff: int): seq<Sample> {
    if samples == [] then []
    else
      var before, s := Kept(samples[..|samples| - 1], cutoff), samples[|samples| - 1];
      if s.at >= cutoff then before + [s] else before
  }

  function HistoryOf(hist: map<string, seq<Sample>>, key: string): seq<Sample> {
    if key in hist then hist[key] else []
  }

  /** The history of one container after one more sample. */
  function Noted(window: int, hist: map<string, seq<Sample>>, key: string, s: Sample): (r: map<string, seq<Sample>>)
    ensures key in r
  {
    hist[key := Kept(HistoryOf(hist, key) + [s], s.at - window)]
  }

  /** The newest count exceeds the oldest remembered one by the threshold. */
  predicate Storm(threshold: int, samples: seq<Sample>) {
    |samples| >= 2 && samples[|samples| - 1].count - samples[0].count >= threshold
  }

  function ContainerKey(p: Pod, c: Container): string {
    p.uid + "/" + c.name
  }

  function StormAlert(p: Pod, c: Container, delta: int, windowText: string): Alert {
    var times := if delta >= 0 then Decimal(delta) else "-" + Decimal(-delta);
    Alert(MONITOR, Warning, Firing, "", p.ns, "Pod", p.name, "RestartStorm",
          p.name + "/" + c.name + " restarted " + times + " times in " + windowText,
          "Container " + c.name + " in pod " + p.ns + "/" + p.name + " restarted " + times + " times within "
          + windowText + ".",
          ZERO_TIME)
  }

  function StormCalls(threshold: int, text: string, p: Pod, c: Container, samples: seq<Sample>): seq<Call> {
    if Storm(threshold, samples)
    then [Submit(StormAlert(p, c, samples[|samples| - 1].count - samples[0].count, text))] else []
  }

  /** The effect of the first `n` containers of an update. */
  function HandledUpTo(
      window: int, threshold: int, text: string, hist: map<string, seq<Sample>>, p: Pod, now: int, n: nat)
    : (map<string, seq<Sample>>, seq<Call>)
    requires n <= |p.containers|
  {
    if n == 0 then (hist, [])
    else
      var (before, calls) := HandledUpTo(window, threshold, text, hist, p, now, n - 1);
      var c := p.containers[n - 1];
      var after := Noted(window, before, ContainerKey(p, c), Sample(now, c.restartCount));
      (after, calls + StormCalls(threshold, text, p, c, after[ContainerKey(p, c)]))
  }

  class PodRestartsMonitor {
    const window: int
    const threshold: int
    const windowText: string
    var hist: map<string, seq<Sample>>

    constructor (window: int, threshold: int, windowText: string)
      ensures this.window == window && this.threshold == threshold && this.windowText == windowText && hist == map[]
    {
      this.window, this.threshold, this.windowText := window, threshold, windowText;
      hist := map[];
    }

    method Handle(p: Pod, now: int) returns (calls: seq<Call>)
      modifies this
      ensures (hist, calls) ==
                if window <= 0 || threshold <= 0 then (old(hist), [])
                else HandledUpTo(window, threshold, windowText, old(hist), p, now, |p.containers|)
    {
      hide StormAlert, Storm, Noted, ContainerKey, Kept;
      calls := [];
      if window <= 0 || threshold <= 0 {
        return;
      }
      for i := 0 to |p.containers|
        invariant (hist, calls) == HandledUpTo(window, threshold, windowText, old(hist), p, now, i)
      {
        var storm := HandleContainer(p, p.containers[i], now);
        calls := calls + storm;
      }
    }

    /** One round of the loop over the containers. */
    method HandleContainer(p: Pod, c: Container, now: int) returns (calls: seq<Call>)
      modifies this
      ensures hist == Noted(window, old(hist), ContainerKey(p, c), Sample(now, c.restartCount))
      ensures calls == StormCalls(threshold, windowText, p, c, hist[ContainerKey(p, c)])
    {
      hide StormAlert, Kept;
      calls := [];
      var key := p.uid + "/" + c.name;
      var was := if key in hist then hist[key] else [];
      var grown := was + [Sample(now, c.restartCount)];
      var samples := new Sample[|grown|](j requires 0 <= j < |grown| => grown[j]);
      assert samples[..] == grown;
      var n := TrimInPlace(samples, now - window);
      var trimmed := samples[..n];
      hist := hist[key := trimmed];
      if |trimmed| >= 2 {
        var delta := trimmed[|trimmed| - 1].count - trimmed[0].count;
        if delta >= threshold {
          calls := [Submit(StormAlert(p, c, delta, windowText))];
        }
      }
    }

    /** Filters the samples into the front of the very slice they are read from. */
    method TrimInPlace(samples: array<Sample>, cutoff: int) returns (n: nat)
      modifies samples
      ensures n <= samples.Length && samples[..n] == Kept(old(samples[..]), cutoff)
    {
      n := 0;
      for r := 0 to samples.Length
        invariant n <= r
        invariant samples[..n] == Kept(old(samples[..])[..r], cutoff)
        invariant forall j :: r <= j < samples.Length ==> samples[j] == old(samples[j])
      {
        var s := samples[r];
        assert old(samples[..])[..r + 1][..r] == old(samples[..])[..r];
        if s.at >= cutoff {
          samples[n] := s;
          n := n + 1;
          assert samples[..n] == samples[..n - 1] + [s];
        }
      }
      assert old(samples[..])[..samples.Length] == old(samples[..]);
    }
  }

  // ---- Over a whole stream -------------------------------------------------------------

  datatype Seen = Seen(key: string, sample: Sample)

  /** The histories after a stream of samples of many containers. */
  function HistoryAfter(window: int, stream: seq<Seen>): map<string, seq<Sample>> {
    if stream == [] then map[]
    else
      var n := |stream| - 1;
      Noted(window, HistoryAfter(window, stream[..n]), stream[n].key, stream[n].sample)
  }

  function SamplesOf(stream: seq<Seen>, key: string): seq<Sample> {
    if stream == [] then []
    else
      var before, e := SamplesOf(stream[..|stream| - 1], key), stream[|stream| - 1];
      if e.key == key then before + [e.sample] else before
  }

  /** The samples one update contributes to the stream. */
  function StreamOf(p: Pod, now: int, n: nat): seq<Seen>
    requires n <= |p.containers|
  {
    if n == 0 then []
    else
      var c := p.containers[n - 1];
      StreamOf(p, now, n - 1) + [Seen(ContainerKey(p, c), Sample(now, c.restartCount))]
  }

  ghost predicate Ordered(all: seq<Sample>) {
    forall i, j :: 0 <= i <= j < |all| ==> all[i].at <= all[j].at
  }

  ghost predicate Growing(all: seq<Sample>) {
    forall i, j :: 0 <= i <= j < |all| ==> all[i].count <= all[j].count
  }

  /** Handling an update is noting its samples one by one. */
  lemma {:induction false} UpdateIsStream(
      window: int, threshold: int, text: string, stream: seq<Seen>, p: Pod, now: int, n: nat)
    requires n <= |p.containers|
    ensures HandledUpTo(window, threshold, text, HistoryAfter(window, stream), p, now, n).0 ==
              HistoryAfter(window, stream + StreamOf(p, now, n))
  {
    hide Noted, StormCalls, ContainerKey;
    if n == 0 {
      assert stream + StreamOf(p, now, n) == stream;
    } else {
      UpdateIsStream(window, threshold, text, stream, p, now, n - 1);
      var all := stream + StreamOf(p, now, n);
      assert all[..|all| - 1] == stream + StreamOf(p, now, n - 1);
    }
  }

  lemma KeptSnoc(samples: seq<Sample>, s: Sample, cutoff: int)
    ensures Kept(samples + [s], cutoff) ==
              if s.at >= cutoff then Kept(samples, cutoff) + [s] else Kept(samples, cutoff)
  {
    assert (samples + [s])[..|samples|] == samples;
  }

  /** Trimming again with a later cutoff is trimming once with it. */
  lemma {:induction false} KeptTwice(samples: seq<Sample>, c: int, d: int)
    requires c <= d
    ensures Kept(Kept(samples, c), d) == Kept(samples, d)
  {
    if samples != [] {
      var n := |samples| - 1;
      KeptTwice(samples[..n], c, d);
      KeptSnoc(Kept(samples[..n], c), samples[n], d);
    }
  }

  lemma {:induction false} KeptMembers(samples: seq<Sample>, cutoff: int)
    ensures forall s :: s in Kept(samples, cutoff) <==> s in samples && s.at >= cutoff
  {
    if samples != [] {
      KeptMembers(samples[..|samples| - 1], cutoff);
      assert samples == samples[..|samples| - 1] + [samples[|samples| - 1]];
    }
  }

  /** Trimming keeps the order of the counts. */
  lemma {:induction false} KeptGrows(samples: seq<Sample>, cutoff: int)
    requires Growing(samples)
    ensures Growing(Kept(samples, cutoff))
    ensures forall s :: s in Kept(samples, cutoff) ==> s.count <= samples[|samples| - 1].count
  {
    if samples != [] {
      var n := |samples| - 1;
      KeptGrows(samples[..n], cutoff);
      if n > 0 {
        assert samples[n - 1].count <= samples[n].count;
      }
    }
  }

  /** The window of the newest sample. */
  function Recent(window: int, all: seq<Sample>): seq<Sample> {
    if all == [] then [] else Kept(all, all[|all| - 1].at - window)
  }

  lemma RecentNext(window: int, all: seq<Sample>, s: Sample)
    requires all != [] ==> all[|all| - 1].at <= s.at
    ensures Kept(Recent(window, all) + [s], s.at - window) == Recent(window, all + [s])
  {
    hide Kept;
    KeptSnoc(all, s, s.at - window);
    KeptSnoc(Recent(window, all), s, s.at - window);
    if all != [] {
      KeptTwice(all, all[|all| - 1].at - window, s.at - window);
    } else {
      KeptNothing(s.at - window);
    }
  }

  lemma KeptNothing(cutoff: int)
    ensures Kept([], cutoff) == []
  {
  }

  /** The trimmed history of a container is exactly its samples no older than the window. */
  lemma {:induction false} WindowIsExact(window: int, stream: seq<Seen>, key: string)
    requires Ordered(SamplesOf(stream, key))
    ensures HistoryOf(HistoryAfter(window, stream), key) == Recent(window, SamplesOf(stream, key))
  {
    hide Kept, Recent, Ordered;
    if stream == [] {
      assert Recent(window, []) == [] by { RecentNothing(window); }
    } else {
      var n := |stream| - 1;
      var before, s := SamplesOf(stream[..n], key), stream[n].sample;
      if stream[n].key == key {
        OrderedSnoc(before, s);
        WindowIsExact(window, stream[..n], key);
        RecentNext(window, before, s);
      } else {
        WindowIsExact(window, stream[..n], key);
      }
    }
  }

  lemma RecentNothing(window: int)
    ensures Recent(window, []) == []
  {
  }

  lemma OrderedSnoc(all: seq<Sample>, s: Sample)
    requires Ordered(all + [s])
    ensures Ordered(all) && (all != [] ==> all[|all| - 1].at <= s.at)
  {
    var more := all + [s];
    assert forall i :: 0 <= i < |all| ==> more[i] == all[i];
    assert all != [] ==> more[|all| - 1].at <= more[|all|].at;
  }

  /** A storm within a window, in terms of the samples themselves. */
  lemma StormInWindow(threshold: int, all: seq<Sample>, window: int)
    requires all != [] && window > 0 && threshold > 0 && Growing(all)
    ensures var newest := all[|all| - 1];
            Storm(threshold, Recent(window, all)) <==>
              exists s :: s in all && s.at >= newest.at - window && newest.count - s.count >= threshold
  {
    hide Kept;
    var newest, kept := all[|all| - 1], Recent(window, all);
    var cutoff := newest.at - window;
    KeptMembers(all, cutoff);
    assert Growing(kept) by { KeptGrows(all, cutoff); }
    assert kept != [] && kept[|kept| - 1] == newest by {
      KeptSnoc(all[..|all| - 1], newest, cutoff);
      assert all == all[..|all| - 1] + [newest];
    }
    hide Recent;
    if s :| s in all && s.at >= cutoff && newest.count - s.count >= threshold {
      assert s in kept;
      FirstIsLeast(kept, s);
    }
    if Storm(threshold, kept) {
      assert kept[0] in kept;
    }
  }

  lemma FirstIsLeast(samples: seq<Sample>, s: Sample)
    requires Growing(samples) && s in samples
    ensures samples[0].count <= s.count
  {
    var i :| 0 <= i < |samples| && samples[i] == s;
    assert samples[0].count <= samples[i].count;
  }

  /**
    When a sample arrives, a storm is reported exactly if some sample within the window is lower than
    the current count by at least the threshold.
   */
  lemma StormIsExact(window: int, threshold: int, stream: seq<Seen>)
    requires stream != [] && window > 0 && threshold > 0
    requires var all := SamplesOf(stream, stream[|stream| - 1].key); Ordered(all) && Growing(all)
    ensures var all, newest := SamplesOf(stream, stream[|stream| - 1].key), stream[|stream| - 1].sample;
            Storm(threshold, HistoryOf(HistoryAfter(window, stream), stream[|stream| - 1].key)) <==>
              exists s :: s in all && s.at >= newest.at - window && newest.count - s.count >= threshold
  {
    hide Kept, Recent, Storm, HistoryAfter, Ordered, Growing;
    var key := stream[|stream| - 1].key;
    WindowIsExact(window, stream, key);
    StormInWindow(threshold, SamplesOf(stream, key), window);
  }

  // ---- Over a run of updates -------------------------------------------------------------

  datatype Update = Update(p: Pod, now: int)

  /** The histories and all calls after a run of updates. */
  function Handled(window: int, threshold: int, text: string, run: seq<Update>): (map<string, seq<Sample>>, seq<Call>) {
    if run == [] then (map[], [])
    else
      var (hist, calls) := Handled(window, threshold, text, run[..|run| - 1]);
      var u := run[|run| - 1];
      var (after, more) := HandledUpTo(window, threshold, text, hist, u.p, u.now, |u.p.containers|);
      (after, calls + more)
  }

  /** All samples of a run, in the order they are noted. */
  function StreamOfRun(run: seq<Update>): seq<Seen> {
    if run == [] then []
    else
      var u := run[|run| - 1];
      StreamOfRun(run[..|run| - 1]) + StreamOf(u.p, u.now, |u.p.containers|)
  }

  /** Some sample no older than the window is lower than the newest by at least the threshold. */
  ghost predicate Rose(window: int, threshold: int, all: seq<Sample>)
    requires all != []
  {
    var newest := all[|all| - 1];
    exists s :: s in all && s.at >= newest.at - window && newest.count - s.count >= threshold
  }

  /** The increase within the window that the alert quotes. */
  function Increase(window: int, all: seq<Sample>): int {
    var recent := Recent(window, all);
    if recent == [] then 0 else recent[|recent| - 1].count - recent[0].count
  }

  /** The submits due for the first `n` containers of an update that follows `stream`. */
  ghost function Due(window: int, threshold: int, text: string, stream: seq<Seen>, p: Pod, now: int, n: nat): seq<Call>
    requires n <= |p.containers|
  {
    if n == 0 then []
    else
      var c := p.containers[n - 1];
      var all := SamplesOf(stream + StreamOf(p, now, n), ContainerKey(p, c));
      var before := Due(window, threshold, text, stream, p, now, n - 1);
      if all != [] && Rose(window, threshold, all)
      then before + [Submit(StormAlert(p, c, Increase(window, all), text))] else before
  }

  /** All submits due over a run. */
  ghost function DueOfRun(window: int, threshold: int, text: string, run: seq<Update>): seq<Call> {
    if run == [] then []
    else
      var front, u := run[..|run| - 1], run[|run| - 1];
      DueOfRun(window, threshold, text, front) +
      Due(window, threshold, text, StreamOfRun(front), u.p, u.now, |u.p.containers|)
  }

  /** Clock and restart counts of every container do not decrease. */
  ghost predicate Monotone(stream: seq<Seen>) {
    forall key :: Ordered(SamplesOf(stream, key)) && Growing(SamplesOf(stream, key))
  }

  lemma SamplesSnoc(stream: seq<Seen>, e: Seen, key: string)
    ensures SamplesOf(stream + [e], key) ==
              if e.key == key then SamplesOf(stream, key) + [e.sample] else SamplesOf(stream, key)
  {
    assert (stream + [e])[..|stream|] == stream;
  }

  lemma MonotoneBefore(stream: seq<Seen>, e: Seen)
    requires Monotone(stream + [e])
    ensures Monotone(stream)
  {
    forall key ensures Ordered(SamplesOf(stream, key)) && Growing(SamplesOf(stream, key)) {
      var less, more := SamplesOf(stream, key), SamplesOf(stream + [e], key);
      SamplesSnoc(stream, e, key);
      assert forall i :: 0 <= i < |less| ==> less[i] == more[i];
      assert Ordered(more) && Growing(more);
    }
  }

  /** The sample of the newest container ends its stream. */
  lemma NewestSample(stream: seq<Seen>, p: Pod, now: int, n: nat)
    requires 0 < n <= |p.containers|
    ensures var c := p.containers[n - 1];
            var all := SamplesOf(stream + StreamOf(p, now, n), ContainerKey(p, c));
            all != [] && all[|all| - 1] == Sample(now, c.restartCount)
    ensures stream + StreamOf(p, now, n) ==
              stream + StreamOf(p, now, n - 1) +
              [Seen(ContainerKey(p, p.containers[n - 1]), Sample(now, p.containers[n - 1].restartCount))]
  {
    var c := p.containers[n - 1];
    var e := Seen(ContainerKey(p, c), Sample(now, c.restartCount));
    assert stream + StreamOf(p, now, n) == stream + StreamOf(p, now, n - 1) + [e];
    SamplesSnoc(stream + StreamOf(p, now, n - 1), e, ContainerKey(p, c));
  }

  /** One container of an update: the call made is the one due. */
  lemma ContainerCall(window: int, threshold: int, text: string, stream: seq<Seen>, p: Pod, now: int, n: nat)
    requires window > 0 && threshold > 0 && 0 < n <= |p.containers| && Monotone(stream + StreamOf(p, now, n))
    ensures var c := p.containers[n - 1];
            var all := SamplesOf(stream + StreamOf(p, now, n), ContainerKey(p, c));
            var samples := HistoryOf(HistoryAfter(window, stream + StreamOf(p, now, n)), ContainerKey(p, c));
            StormCalls(threshold, text, p, c, samples) ==
              if all != [] && Rose(window, threshold, all)
              then [Submit(StormAlert(p, c, Increase(window, all), text))] else []
  {
    hide StormAlert, Ordered, Growing, HistoryAfter, HistoryOf, Recent, SamplesOf, StreamOf;
    var c := p.containers[n - 1];
    var key, all := ContainerKey(p, c), SamplesOf(stream + StreamOf(p, now, n), ContainerKey(p, c));
    NewestSample(stream, p, now, n);
    WindowIsExact(window, stream + StreamOf(p, now, n), key);
    StormInWindow(threshold, all, window);
  }

  lemma {:induction false} UpdateCalls(
      window: int, threshold: int, text: string, stream: seq<Seen>, p: Pod, now: int, n: nat)
    requires window > 0 && threshold > 0 && n <= |p.containers| && Monotone(stream + StreamOf(p, now, n))
    ensures HandledUpTo(window, threshold, text, HistoryAfter(window, stream), p, now, n) ==
              (HistoryAfter(window, stream + StreamOf(p, now, n)), Due(window, threshold, text, stream, p, now, n))
  {
    hide Noted, StormCalls, ContainerKey, StormAlert, Rose, Increase, Monotone, HistoryAfter, SamplesOf;
    UpdateIsStream(window, threshold, text, stream, p, now, n);
    if n > 0 {
      var c := p.containers[n - 1];
      NewestSample(stream, p, now, n);
      MonotoneBefore(stream + StreamOf(p, now, n - 1), Seen(ContainerKey(p, c), Sample(now, c.restartCount)));
      UpdateCalls(window, threshold, text, stream, p, now, n - 1);
      ContainerCall(window, threshold, text, stream, p, now, n);
      var hist := HandledUpTo(window, threshold, text, HistoryAfter(window, stream), p, now, n).0;
      assert ContainerKey(p, c) in hist;
      assert HistoryOf(hist, ContainerKey(p, c)) == hist[ContainerKey(p, c)];
      var before := Due(window, threshold, text, stream, p, now, n - 1);
      assert before + [] == before;
    }
  }

  lemma {:induction false} MonotonePrefix(stream: seq<Seen>, more: seq<Seen>)
    requires Monotone(stream + more)
    ensures Monotone(stream)
    decreases |more|
  {
    hide Monotone;
    if more == [] {
      assert stream + more == stream;
    } else {
      var n := |more| - 1;
      assert stream + more == (stream + more[..n]) + [more[n]];
      MonotoneBefore(stream + more[..n], more[n]);
      MonotonePrefix(stream, more[..n]);
    }
  }

  /**
    Over a run of updates the monitor submits, container by container, exactly when some sample of that
    container within the window is lower than its current count by at least the threshold.
   */
  lemma {:induction false} RunSubmitsExactly(window: int, threshold: int, text: string, run: seq<Update>)
    requires window > 0 && threshold > 0 && Monotone(StreamOfRun(run))
    ensures Handled(window, threshold, text, run) ==
              (HistoryAfter(window, StreamOfRun(run)), DueOfRun(window, threshold, text, run))
  {
    hide Monotone, HandledUpTo, HistoryAfter, Due, StreamOf;
    if run == [] {
      assert HistoryAfter(window, []) == map[] by { NoHistory(window); }
    } else {
      var front, u := run[..|run| - 1], run[|run| - 1];
      MonotonePrefix(StreamOfRun(front), StreamOf(u.p, u.now, |u.p.containers|));
      RunSubmitsExactly(window, threshold, text, front);
      UpdateCalls(window, threshold, text, StreamOfRun(front), u.p, u.now, |u.p.containers|);
    }
  }

  lemma NoHistory(window: int)
    ensures HistoryAfter(window, []) == map[]
  {
  }

  /** A restart alert of container `c`: it quotes an increase of at least the threshold in decimal. */
  ghost predicate IsStormAlert(a: Alert, p: Pod, c: Container, threshold: int, text: string) {
    exists delta: nat, times ::
      && IsDecimal(times, delta) && delta >= threshold
      && a == Alert("pod_restarts", Warning, Firing, "", p.ns, "Pod", p.name, "RestartStorm",
                    p.name + "/" + c.name + " restarted " + times + " times in " + text,
                    "Container " + c.name + " in pod " + p.ns + "/" + p.name + " restarted " + times + " times within "
                    + text + ".", 0)
  }

  lemma StormSays(threshold: int, text: string, p: Pod, c: Container, samples: seq<Sample>)
    requires threshold > 0
    ensures forall call :: call in StormCalls(threshold, text, p, c, samples) ==>
              call.Submit? && IsStormAlert(call.a, p, c, threshold, text)
  {
    hide Decimal, IsDecimal;
    if Storm(threshold, samples) {
      DecimalReads(samples[|samples| - 1].count - samples[0].count);
    }
  }

  /** Every call of an update reports one of its containers. */
  lemma {:induction false} UpdateSays(
      window: int, threshold: int, text: string, hist: map<string, seq<Sample>>, p: Pod, now: int, n: nat)
    requires threshold > 0 && n <= |p.containers|
    ensures forall call :: call in HandledUpTo(window, threshold, text, hist, p, now, n).1 ==>
              call.Submit? && exists i :: 0 <= i < n && IsStormAlert(call.a, p, p.containers[i], threshold, text)
  {
    hide StormCalls, IsStormAlert, Noted, ContainerKey;
    if n > 0 {
      UpdateSays(window, threshold, text, hist, p, now, n - 1);
      var before := HandledUpTo(window, threshold, text, hist, p, now, n - 1).0;
      var c := p.containers[n - 1];
      var after := Noted(window, before, ContainerKey(p, c), Sample(now, c.restartCount));
      StormSays(threshold, text, p, c, after[ContainerKey(p, c)]);
    }
  }

  /** Containers are told apart by the identity of their pod and their name. */
  lemma ContainersApart(p: Pod, c: Container, q: Pod, d: Container)
    requires '/' !in p.uid && '/' !in q.uid
    ensures ContainerKey(p, c) == ContainerKey(q, d) <==> p.uid == q.uid && c.name == d.name
  {
    CutAtFirst(p.uid, '/', c.name);
    CutAtFirst(q.uid, '/', d.name);
  }
}
