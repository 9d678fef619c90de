/** The per-key rate limiter (internal/engine/dedupe.go). */
module Dedupe {
  import opened Options
  import opened Alerts

  /** What Allow refuses: a key accepted less than `window` ago. */
  predicate Suppressed(last: map<string, int>, window: int, k: string, now: int) {
    k in last && now - last[k] < window
  }

  function AfterAttempt(last: map<string, int>, window: int, k: string, now: int): map<string, int> {
    if Suppressed(last, window, k, now) then last else last[k := now]
  }

  class Deduper {
    const window: int
    var last: map<string, int>

    constructor (window: int)
      ensures this.window == window && last == map[]
    {
      this.window := window;
      last := map[];
    }

    method Allow(a: Alert, now: int) returns (ok: bool)
      modifies this
      ensures ok == !Suppressed(old(last), window, a.Key(), now)
      ensures last == AfterAttempt(old(last), window, a.Key(), now)
    {
      if a.Key() in last && now - last[a.Key()] < window {
        return false;
      }
      last := last[a.Key() := now];
      return true;
    }

    method Snapshot() returns (out: map<string, int>)
      ensures out == last
    {
      out := map[];
      var todo := last.Keys;
      while todo != {}
        invariant todo <= last.Keys
        invariant out == map k | k in last && k !in todo :: last[k]
        decreases todo
      {
        var k :| k in todo;
        out := out[k := last[k]];
        todo := todo - {k};
      }
    }

    method Restore(m: map<string, int>)
      modifies this
      ensures last == old(last) + m
    {
      var todo := m.Keys;
      while todo != {}
        invariant todo <= m.Keys
        invariant last == old(last) + (map k | k in m && k !in todo :: m[k])
        decreases todo
      {
        var k :| k in todo;
        last := last[k := m[k]];
        todo := todo - {k};
      }
      assert m == map k | k in m && k !in todo :: m[k];
    }

    method Reset() returns (n: nat)
      modifies this
      ensures n == |old(last)| && last == map[]
    {
      n := |last|;
      last := map[];
    }
  }

  // ---- Greedy optimality -------------------------------------------------

  datatype Attempt = Attempt(key: string, at: int)

  /** The deduper's map after a run of attempts, starting from a fresh one. */
  function LastAfter(window: int, atts: seq<Attempt>): map<string, int> {
    if atts == [] then map[]
    else
      var n := |atts| - 1;
      AfterAttempt(LastAfter(window, atts[..n]), window, atts[n].key, atts[n].at)
  }

  /** The times at which a run of attempts was allowed for key `k`. */
  function AllowedTimes(window: int, atts: seq<Attempt>, k: string): seq<int> {
    if atts == [] then []
    else
      var n := |atts| - 1;
      var before := AllowedTimes(window, atts[..n], k);
      if atts[n].key == k && !Suppressed(LastAfter(window, atts[..n]), window, k, atts[n].at)
      then before + [atts[n].at] else before
  }

  function TimesOf(atts: seq<Attempt>, k: string): seq<int> {
    if atts == [] then []
    else
      var n := |atts| - 1;
      if atts[n].key == k then TimesOf(atts[..n], k) + [atts[n].at] else TimesOf(atts[..n], k)
  }

  /** The times that a first-come choice with spacing `window` takes from the first `n` times of one key. */
  function Greedy(window: int, ts: seq<int>, n: nat): seq<int>
    requires n <= |ts|
  {
    if n == 0 then []
    else
      var g := Greedy(window, ts, n - 1);
      if g != [] && ts[n - 1] - g[|g| - 1] < window then g else g + [ts[n - 1]]
  }

  ghost predicate NonDecreasing(ts: seq<int>) {
    forall i, j :: 0 <= i <= j < |ts| ==> ts[i] <= ts[j]
  }

  ghost predicate Apart(window: int, ts: seq<int>) {
    forall i, j :: 0 <= i < j < |ts| ==> ts[j] - ts[i] >= window
  }

  /** A choice of attempts, in order, that are pairwise at least `window` apart. */
  ghost predicate Spaced(window: int, ts: seq<int>, picks: seq<nat>) {
    && (forall i :: 0 <= i < |picks| ==> picks[i] < |ts|)
    && (forall i, j :: 0 <= i < j < |picks| ==> picks[i] < picks[j] && ts[picks[j]] - ts[picks[i]] >= window)
  }

  lemma {:induction false} GreedyPrefix(window: int, ts: seq<int>, t: int, n: nat)
    requires n <= |ts|
    ensures Greedy(window, ts + [t], n) == Greedy(window, ts, n)
  {
    if n > 0 {
      GreedyPrefix(window, ts, t, n - 1);
    }
  }

  function Final(ts: seq<int>): Option<int> {
    if ts == [] then None else Some(ts[|ts| - 1])
  }

  /** The deduper remembers the latest allowed time of each key and nothing else. */
  lemma {:induction false} LastIsLatestAllowed(window: int, atts: seq<Attempt>, k: string)
    ensures Lookup(LastAfter(window, atts), k) == Final(AllowedTimes(window, atts, k))
  {
    if atts != [] {
      LastIsLatestAllowed(window, atts[..|atts| - 1], k);
    }
  }

  /** Whatever other keys do, key `k` is allowed exactly at the greedy choice of its own times. */
  lemma {:induction false} AllowIsGreedy(window: int, atts: seq<Attempt>, k: string)
    ensures AllowedTimes(window, atts, k) == Greedy(window, TimesOf(atts, k), |TimesOf(atts, k)|)
  {
    if atts != [] {
      var n := |atts| - 1;
      AllowIsGreedy(window, atts[..n], k);
      LastIsLatestAllowed(window, atts[..n], k);
      if atts[n].key == k {
        var ts := TimesOf(atts[..n], k);
        GreedyPrefix(window, ts, atts[n].at, |ts|);
      }
    }
  }

  /** The greedy choice is sorted, pairwise `window` apart, and never ahead of the clock. */
  lemma {:induction false} GreedyApart(window: int, ts: seq<int>, n: nat)
    requires NonDecreasing(ts) && n <= |ts|
    ensures NonDecreasing(Greedy(window, ts, n)) && Apart(window, Greedy(window, ts, n))
    ensures Greedy(window, ts, n) != [] ==> n > 0 && Greedy(window, ts, n)[|Greedy(window, ts, n)| - 1] <= ts[n - 1]
  {
    if n > 0 {
      GreedyApart(window, ts, n - 1);
      var g, t := Greedy(window, ts, n - 1), ts[n - 1];
      if g != [] {
        assert ts[n - 2] <= t;
        assert forall i :: 0 <= i < |g| ==> g[i] <= g[|g| - 1];
      }
    }
  }

  /** Allowed attempts on a key are pairwise at least `window` apart. */
  lemma AllowedApart(window: int, atts: seq<Attempt>, k: string)
    requires NonDecreasing(TimesOf(atts, k))
    ensures Apart(window, AllowedTimes(window, atts, k))
  {
    AllowIsGreedy(window, atts, k);
    GreedyApart(window, TimesOf(atts, k), |TimesOf(atts, k)|);
  }

  /** An attempt is refused exactly when some allowed one on its key came less than `window` before. */
  lemma RefusedExactly(window: int, atts: seq<Attempt>, k: string, now: int)
    requires NonDecreasing(TimesOf(atts, k))
    ensures Suppressed(LastAfter(window, atts), window, k, now) <==>
              exists t :: t in AllowedTimes(window, atts, k) && now - t < window
  {
    AllowIsGreedy(window, atts, k);
    LastIsLatestAllowed(window, atts, k);
    var allowed := AllowedTimes(window, atts, k);
    GreedyApart(window, TimesOf(atts, k), |TimesOf(atts, k)|);
    if t :| t in allowed && now - t < window {
      var i :| 0 <= i < |allowed| && allowed[i] == t;
      assert allowed[i] <= allowed[|allowed| - 1];
    }
    if Suppressed(LastAfter(window, atts), window, k, now) {
      assert allowed[|allowed| - 1] in allowed;
    }
  }

  /** The first `m` spaced picks never outnumber the greedy ones, and when as many never end earlier. */
  lemma {:induction false} GreedyStaysAhead(window: int, ts: seq<int>, n: nat, picks: seq<nat>, m: nat)
    requires NonDecreasing(ts) && Spaced(window, ts, picks)
    requires n <= |ts| && m <= |picks| && (m > 0 ==> picks[m - 1] < n)
    ensures m <= |Greedy(window, ts, n)|
    ensures m > 0 && m == |Greedy(window, ts, n)| ==> Greedy(window, ts, n)[m - 1] <= ts[picks[m - 1]]
    decreases n
  {
    if m > 0 {
      var g := Greedy(window, ts, n - 1);
      if picks[m - 1] < n - 1 {
        GreedyStaysAhead(window, ts, n - 1, picks, m);
      } else {
        if m > 1 {
          assert picks[m - 2] < picks[m - 1] && ts[picks[m - 1]] - ts[picks[m - 2]] >= window;
        }
        GreedyStaysAhead(window, ts, n - 1, picks, m - 1);
        GreedyApart(window, ts, n);
      }
    }
  }

  /** No other `window`-spaced choice of the attempts of `k` is larger than what Allow accepts. */
  lemma AllowIsOptimal(window: int, atts: seq<Attempt>, k: string, picks: seq<nat>)
    requires NonDecreasing(TimesOf(atts, k)) && Spaced(window, TimesOf(atts, k), picks)
    ensures |picks| <= |AllowedTimes(window, atts, k)|
  {
    AllowIsGreedy(window, atts, k);
    var ts := TimesOf(atts, k);
    GreedyStaysAhead(window, ts, |ts|, picks, |picks|);
  }
}
