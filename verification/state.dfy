/** Persistence of the limiter across restarts (internal/state/state.go with internal/engine/dedupe.go). */
module Persistence {
  import opened Options
  import opened Alerts
  import opened Dedupe
  import opened EngineSpec
  import Engine

  const SECOND := 1_000_000_000
  const DEDUPE_JSON := "dedupe.json"

  /** A stored time: RFC 3339 text without a fraction, or text that does not parse. */
  datatype TimeText = Rfc3339(second: int) | Unreadable

  /** A value of the ConfigMap: a JSON object of time texts, or anything else. */
  datatype Blob = Json(entries: map<string, TimeText>) | Garbage

  datatype Loaded = Nothing | Failed | Times(times: map<string, int>)

  function Formatted(t: int): TimeText {
    Rfc3339(t / SECOND)
  }

  /** A time as it is after it was saved and loaded. */
  function Truncated(t: int): int {
    t / SECOND * SECOND
  }

  function TruncatedAll(last: map<string, int>): map<string, int> {
    map k | k in last :: Truncated(last[k])
  }

  class Store {
    /** The ConfigMap's data, when the object exists. */
    var configMap: Option<map<string, Blob>>

    constructor (configMap: Option<map<string, Blob>>)
      ensures this.configMap == configMap
    {
      this.configMap := configMap;
    }

    /** Writes every time of the limiter; `readable` and `writable` say whether the API calls succeed. */
    method Save(dedupe: map<string, int>, readable: bool, writable: bool) returns (ok: bool)
      modifies this
      ensures ok == (readable && writable)
      ensures configMap == if !ok then old(configMap) else
                Some((if old(configMap).Some? then old(configMap).value else map[])
                     ["dedupe.json" := Json(map k | k in dedupe :: Formatted(dedupe[k]))])
    {
      var m: map<string, TimeText> := map[];
      var todo := dedupe.Keys;
      while todo != {}
        invariant todo <= dedupe.Keys
        invariant m == map k | k in dedupe && k !in todo :: Formatted(dedupe[k])
        decreases todo
      {
        var k :| k in todo;
        m := m[k := Formatted(dedupe[k])];
        todo := todo - {k};
      }
      assert m == map k | k in dedupe :: Formatted(dedupe[k]);
      if !readable {
        return false;
      }
      var data := map[];
      if configMap.Some? {
        data := configMap.value;
      }
      data := data[DEDUPE_JSON := Json(m)];
      if writable {
        configMap := Some(data);
      }
      return writable;
    }

    /** Empties the stored limiter without deleting the object. */
    method Clear(readable: bool, writable: bool) returns (ok: bool)
      modifies this
      ensures ok == (readable && (old(configMap).None? || writable))
      ensures configMap == if !ok || old(configMap).None? then old(configMap)
                           else Some(old(configMap).value[DEDUPE_JSON := Json(map[])])
    {
      if !readable {
        return false;
      }
      if configMap.None? {
        return true;
      }
      if writable {
        configMap := Some(configMap.value[DEDUPE_JSON := Json(map[])]);
      }
      return writable;
    }

    /** Reads the times back, skipping those that do not parse. */
    method Load(readable: bool) returns (r: Loaded)
      ensures r == if !readable then Failed else LoadedFrom(configMap)
    {
      if !readable {
        return Failed;
      }
      if configMap.None? || DEDUPE_JSON !in configMap.value {
        return Nothing;
      }
      var blob := configMap.value[DEDUPE_JSON];
      if blob.Garbage? {
        return Failed;
      }
      var m := blob.entries;
      var out: map<string, int> := map[];
      var todo := m.Keys;
      while todo != {}
        invariant todo <= m.Keys
        invariant out == map k | k in m && k !in todo && m[k].Rfc3339? :: m[k].second * SECOND
        decreases todo
      {
        var k :| k in todo;
        todo := todo - {k};
        if m[k].Unreadable? {
          continue;
        }
        out := out[k := m[k].second * SECOND];
      }
      return Times(out);
    }
  }

  function LoadedFrom(configMap: Option<map<string, Blob>>): Loaded {
    if configMap.None? || DEDUPE_JSON !in configMap.value then Nothing
    else if configMap.value[DEDUPE_JSON].Garbage? then Failed
    else
      var m := configMap.value[DEDUPE_JSON].entries;
      Times(map k | k in m && m[k].Rfc3339? :: m[k].second * SECOND)
  }

  /** What a start restores: nothing when there is nothing to load or loading fails. */
  function Restorable(readable: bool, configMap: Option<map<string, Blob>>): map<string, int> {
    var loaded := LoadedFrom(configMap);
    if readable && loaded.Times? then loaded.times else map[]
  }

  /** A limiter filled from what is stored. */
  method Reloaded(window: int, store: Store, readable: bool) returns (e: Deduper)
    ensures fresh(e) && e.window == window && e.last == Restorable(readable, store.configMap)
  {
    e := new Deduper(window);
    var loaded := store.Load(readable);
    if loaded.Times? {
      e.Restore(loaded.times);
    }
  }

  /** The start of the program: the engine takes the reloaded limiter. */
  method Launched(cfg: Config, store: Store, readable: bool) returns (engine: Engine.Engine)
    ensures fresh(engine) && engine.Valid() && engine.cfg == cfg && engine.inbox == []
    ensures engine.View() == Started(Restorable(readable, store.configMap))
  {
    var dedupe := Reloaded(cfg.window, store, readable);
    engine := new Engine.Engine(cfg, dedupe);
  }

  /** A graceful stop and start: the final save, then a new limiter filled from what is stored. */
  method Restarted(d: Deduper, store: Store) returns (e: Deduper)
    modifies store
    ensures fresh(e) && e.window == d.window
    ensures e.last == TruncatedAll(d.last)
  {
    var snapshot := d.Snapshot();
    var ok := store.Save(snapshot, true, true);
    e := Reloaded(d.window, store, true);
  }

  /** Saving and loading moves a time back by less than a second, and once is as good as often. */
  lemma TruncatedBounds(t: int)
    ensures t - SECOND < Truncated(t) <= t
    ensures Truncated(Truncated(t)) == Truncated(t)
  {
  }

  /** The restored limiter allows whatever the original would, and more only at the rounded-off end of a window. */
  lemma RestoredAllows(last: map<string, int>, window: int, k: string, now: int)
    ensures Suppressed(TruncatedAll(last), window, k, now) ==> Suppressed(last, window, k, now)
    ensures Suppressed(last, window, k, now) && !Suppressed(TruncatedAll(last), window, k, now) <==>
              k in last && now - last[k] < window <= now - Truncated(last[k])
    ensures Suppressed(last, window, k, now) && !Suppressed(TruncatedAll(last), window, k, now) ==>
              window - (now - last[k]) < 1_000_000_000
  {
    if k in last {
      TruncatedBounds(last[k]);
    }
  }

  // ---- Over any number of restarts -------------------------------------------------------

  datatype Life = Try(key: string, now: int) | Restart

  function LimiterOf(window: int, lives: seq<Life>): map<string, int> {
    if lives == [] then map[]
    else
      var before := LimiterOf(window, lives[..|lives| - 1]);
      match lives[|lives| - 1]
      case Try(k, now) => AfterAttempt(before, window, k, now)
      case Restart => TruncatedAll(before)
  }

  /** The times at which `k` was allowed. */
  function AllowedOf(window: int, lives: seq<Life>, k: string): seq<int> {
    if lives == [] then []
    else
      var front, e := lives[..|lives| - 1], lives[|lives| - 1];
      var before := AllowedOf(window, front, k);
      if e.Try? && e.key == k && !Suppressed(LimiterOf(window, front), window, k, e.now)
      then before + [e.now] else before
  }

  /** The clock readings of the attempts on `k`. */
  function TriesOf(lives: seq<Life>, k: string): seq<int> {
    if lives == [] then []
    else
      var e, before := lives[|lives| - 1], TriesOf(lives[..|lives| - 1], k);
      if e.Try? && e.key == k then before + [e.now] else before
  }

  /** However often it was restarted, the limiter holds the last allowed time, at worst truncated once. */
  lemma {:induction false} ErrorDoesNotAdd(window: int, lives: seq<Life>, k: string)
    ensures var allowed, last := AllowedOf(window, lives, k), LimiterOf(window, lives);
            && (k in last <==> allowed != [])
            && (k in last ==> last[k] == allowed[|allowed| - 1] || last[k] == Truncated(allowed[|allowed| - 1]))
  {
    hide Truncated;
    if lives != [] {
      ErrorDoesNotAdd(window, lives[..|lives| - 1], k);
      var allowed := AllowedOf(window, lives[..|lives| - 1], k);
      if allowed != [] {
        TruncatedBounds(allowed[|allowed| - 1]);
      }
    }
  }

  lemma {:induction false} AllowedAreTries(window: int, lives: seq<Life>, k: string)
    requires NonDecreasing(TriesOf(lives, k))
    ensures NonDecreasing(AllowedOf(window, lives, k))
    ensures var allowed, tries := AllowedOf(window, lives, k), TriesOf(lives, k);
            allowed != [] ==> tries != [] && allowed[|allowed| - 1] <= tries[|tries| - 1]
  {
    hide LimiterOf;
    if lives != [] {
      var front, e := lives[..|lives| - 1], lives[|lives| - 1];
      var tries := TriesOf(front, k);
      if e.Try? && e.key == k {
        assert forall i :: 0 <= i < |tries| ==> (tries + [e.now])[i] == tries[i];
        assert tries != [] ==> (tries + [e.now])[|tries| - 1] <= (tries + [e.now])[|tries|];
      }
      AllowedAreTries(window, front, k);
      var allowed := AllowedOf(window, front, k);
      assert allowed != [] ==> forall i :: 0 <= i < |allowed| ==> allowed[i] <= allowed[|allowed| - 1];
    }
  }

  /**
    Over any number of graceful restarts, two allowed attempts on a key stay more than the window
    less one second apart.
   */
  lemma {:induction false} SpacingSurvivesRestarts(window: int, lives: seq<Life>, k: string, i: nat, j: nat)
    requires NonDecreasing(TriesOf(lives, k)) && i < j < |AllowedOf(window, lives, k)|
    ensures AllowedOf(window, lives, k)[j] - AllowedOf(window, lives, k)[i] > window - 1_000_000_000
  {
    hide Truncated, LimiterOf;
    var front, e := lives[..|lives| - 1], lives[|lives| - 1];
    var before := AllowedOf(window, front, k);
    var tries := TriesOf(front, k);
    assert NonDecreasing(tries) by {
      assert forall x :: 0 <= x < |tries| ==> TriesOf(lives, k)[x] == tries[x];
    }
    if j < |before| {
      SpacingSurvivesRestarts(window, front, k, i, j);
    } else {
      ErrorDoesNotAdd(window, front, k);
      AllowedAreTries(window, front, k);
      TruncatedBounds(before[|before| - 1]);
      assert before[i] <= before[|before| - 1];
    }
  }

  /** The bound is met to the nanosecond, by a first attempt just before a full second. */
  lemma SpacingIsTight(window: int, k: string)
    ensures AllowedOf(window, [Try(k, 999_999_999), Restart, Try(k, window)], k) == [999_999_999, window]
  {
    var lives := [Try(k, SECOND - 1), Restart, Try(k, window)];
    assert lives[..2] == [Try(k, SECOND - 1), Restart] && lives[..2][..1] == [Try(k, SECOND - 1)];
    assert lives[..2][..1][..0] == [];
    assert LimiterOf(window, lives[..2][..1]) == map[k := SECOND - 1];
    assert Truncated(SECOND - 1) == 0;
    assert LimiterOf(window, lives[..2]) == map[k := 0];
    assert AllowedOf(window, lives[..2][..1], k) == [SECOND - 1];
    assert AllowedOf(window, lives[..2], k) == [SECOND - 1];
  }
}
