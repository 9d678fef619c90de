/** Small definitions shared by the other modules. */
module Options {
  datatype Option<+T> = None | Some(value: T)

  function Lookup<K, V>(m: map<K, V>, k: K): Option<V> {
    if k in m then Some(m[k]) else None
  }

  /** `order` is a possible order of a map walk: the elements of `s`, each once. */
  ghost predicate Walks(order: seq<string>, s: set<string>) {
    && (forall x :: x in order <==> x in s)
    && (forall i, j :: 0 <= i < j < |order| ==> order[i] != order[j])
  }
}

/** The alert record and its deduplication key (internal/alert/alert.go). */
module Alerts {
  import opened Options

  /** Go's zero time. Instants are nanoseconds after it, so IsZero is `== 0`. */
  const ZERO_TIME := 0

  datatype Severity = Info | Warning | Critical {
    function Text(): string {
      match this
      case Info => "info"
      case Warning => "warning"
      case Critical => "critical"
    }
  }

  datatype AlertState = Firing | Resolved

  datatype Alert = Alert(
    monitor: string, severity: Severity, state: AlertState, cluster: string,
    namespace: string, objectKind: string, objectName: string, reason: string,
    title: string, body: string, firedAt: int)
  {
    /** The five identifying fields joined by '|'. The hash over it is taken to be injective. */
    function Key(): string {
      Bar(monitor, Bar(namespace, Bar(objectKind, Bar(objectName, reason))))
    }

    function Object(): string {
      if objectKind == "" then objectName else Lower(objectKind) + "/" + objectName
    }

    /** No '|' in the first four key fields; the reason may hold any text. */
    predicate BarFree() {
      '|' !in monitor && '|' !in namespace && '|' !in objectKind && '|' !in objectName
    }

    function KeyFields(): (string, string, string, string, string) {
      (monitor, namespace, objectKind, objectName, reason)
    }
  }

  /** Go's zero Alert value, as passed to mergeResolved by a reconcile. */
  const NO_HINT := Alert("", Info, Firing, "", "", "", "", "", "", "", ZERO_TIME)

  function Bar(a: string, b: string): string {
    a + "|" + b
  }

  function Lower(s: string): string {
    seq(|s|, i requires 0 <= i < |s| => if 'A' <= s[i] <= 'Z' then s[i] - 'A' + 'a' else s[i])
  }

  /** EnsureFiredAt, the default cluster and the state that Submit, Resolve and Reconcile set. */
  function Prepared(a: Alert, cluster: string, state: AlertState, now: int): Alert {
    a.(firedAt := if a.firedAt == ZERO_TIME then now else a.firedAt,
       cluster := if a.cluster == "" then cluster else a.cluster,
       state := state)
  }

  /** What Reconcile queues for a list; reading `i` of the clock serves alert `i`. */
  function PreparedAll(firing: seq<Alert>, cluster: string, clock: nat -> int): seq<Alert> {
    seq(|firing|, i requires 0 <= i < |firing| => Prepared(firing[i], cluster, Firing, clock(i)))
  }

  lemma PreparedKeepsKey(a: Alert, cluster: string, state: AlertState, at: int)
    ensures Prepared(a, cluster, state, at).Key() == a.Key()
    ensures Prepared(a, cluster, state, at).monitor == a.monitor && Prepared(a, cluster, state, at).state == state
  {
  }

  /** The text before and after the first `sep`; all of `s` and "" when there is none. */
  function CutAt(s: string, sep: char): (string, string) {
    if s == "" then ("", "")
    else if s[0] == sep then ("", s[1..])
    else var (head, tail) := CutAt(s[1..], sep); ([s[0]] + head, tail)
  }

  function Cut(s: string): (string, string) {
    CutAt(s, '|')
  }

  lemma {:induction false} CutAtFirst(a: string, sep: char, b: string)
    requires sep !in a
    ensures CutAt(a + [sep] + b, sep) == (a, b)
  {
    if a == "" {
      assert (a + [sep] + b)[1..] == b;
    } else {
      assert (a + [sep] + b)[1..] == a[1..] + [sep] + b;
      CutAtFirst(a[1..], sep, b);
      assert a == [a[0]] + a[1..];
    }
  }

  lemma CutOfBar(a: string, b: string)
    requires '|' !in a
    ensures Cut(Bar(a, b)) == (a, b)
  {
    CutAtFirst(a, '|', b);
  }

  lemma {:induction false} CutHeadBarFree(s: string)
    ensures '|' !in Cut(s).0
  {
    if s != "" && s[0] != '|' {
      CutHeadBarFree(s[1..]);
    }
  }

  /** The five fields read back from a key by cutting at its first four bars. */
  function FieldsOfKey(k: string): (string, string, string, string, string) {
    var (m, r1) := Cut(k);
    var (ns, r2) := Cut(r1);
    var (kind, r3) := Cut(r2);
    var (name, reason) := Cut(r3);
    (m, ns, kind, name, reason)
  }

  /** Reading the fields back recovers them exactly when the first four hold no '|'. */
  lemma KeyRoundTrip(a: Alert)
    ensures FieldsOfKey(a.Key()) == a.KeyFields() <==> a.BarFree()
  {
    var t3 := Bar(a.objectName, a.reason);
    var t2 := Bar(a.objectKind, t3);
    var t1 := Bar(a.namespace, t2);
    if a.BarFree() {
      CutOfBar(a.monitor, t1);
      CutOfBar(a.namespace, t2);
      CutOfBar(a.objectKind, t3);
      CutOfBar(a.objectName, a.reason);
    } else {
      var k := a.Key();
      CutHeadBarFree(k);
      CutHeadBarFree(Cut(k).1);
      CutHeadBarFree(Cut(Cut(k).1).1);
      CutHeadBarFree(Cut(Cut(Cut(k).1).1).1);
    }
  }

  /** Two alerts without bars share a key exactly when they agree on all five fields. */
  lemma KeyFaithful(a: Alert, b: Alert)
    requires a.BarFree() && b.BarFree()
    ensures a.Key() == b.Key() <==> a.KeyFields() == b.KeyFields()
  {
    KeyRoundTrip(a);
    KeyRoundTrip(b);
  }

  lemma {:induction false} CutJoins(x: string)
    requires '|' in x
    ensures Bar(Cut(x).0, Cut(x).1) == x
  {
    if x[0] != '|' {
      assert x == [x[0]] + x[1..];
      CutJoins(x[1..]);
    }
  }

  function Bars(s: string): nat {
    if s == "" then 0 else (if s[0] == '|' then 1 else 0) + Bars(s[1..])
  }

  lemma {:induction false} BarsAdd(s: string, t: string)
    ensures Bars(s + t) == Bars(s) + Bars(t)
  {
    if s == "" {
      assert s + t == t;
    } else {
      assert (s + t)[1..] == s[1..] + t;
      BarsAdd(s[1..], t);
    }
  }

  lemma {:induction false} NoBars(s: string)
    ensures Bars(s) == 0 <==> '|' !in s
  {
    if s != "" {
      NoBars(s[1..]);
      assert s == [s[0]] + s[1..];
    }
  }

  lemma BarsOfBar(s: string, t: string)
    ensures Bars(Bar(s, t)) == Bars(s) + 1 + Bars(t)
  {
    BarsAdd(s, "|" + t);
    BarsAdd("|", t);
    assert s + "|" + t == s + ("|" + t);
    assert Bars("|") == 1 by { assert "|"[1..] == ""; }
  }

  lemma BarsOfKey(a: Alert)
    ensures Bars(a.Key()) ==
              4 + Bars(a.monitor) + Bars(a.namespace) + Bars(a.objectKind) + Bars(a.objectName) + Bars(a.reason)
  {
    var t3 := Bar(a.objectName, a.reason);
    var t2 := Bar(a.objectKind, t3);
    BarsOfBar(a.objectName, a.reason);
    BarsOfBar(a.objectKind, t3);
    BarsOfBar(a.namespace, t2);
    BarsOfBar(a.monitor, Bar(a.namespace, t2));
  }

  /** No '|' in any of the five key fields. */
  predicate NoBarAtAll(a: Alert) {
    a.BarFree() && '|' !in a.reason
  }

  /** A key without a surplus bar has one reading only. */
  lemma PlainKeyIsUnique(a: Alert, b: Alert)
    requires NoBarAtAll(a) && a.Key() == b.Key()
    ensures a.KeyFields() == b.KeyFields()
  {
    hide Alert.Key, Bars;
    BarsOfKey(a);
    BarsOfKey(b);
    NoBars(a.monitor);
    NoBars(a.namespace);
    NoBars(a.objectKind);
    NoBars(a.objectName);
    NoBars(a.reason);
    NoBars(b.monitor);
    NoBars(b.namespace);
    NoBars(b.objectKind);
    NoBars(b.objectName);
    KeyFaithful(a, b);
  }

  /** The alert read back from a key with four bars has that key. */
  lemma RereadHasKey(a: Alert) returns (b: Alert)
    ensures b.Key() == a.Key() && b.KeyFields() == FieldsOfKey(a.Key())
  {
    var k := a.Key();
    var (m, ns, kind, name, reason) := FieldsOfKey(k);
    b := a.(monitor := m, namespace := ns, objectKind := kind, objectName := name, reason := reason);
    var r1, r2, r3 := Cut(k).1, Cut(Cut(k).1).1, Cut(Cut(Cut(k).1).1).1;
    BarsOfKey(a);
    CutTakesOneBar(k);
    CutTakesOneBar(r1);
    CutTakesOneBar(r2);
    CutTakesOneBar(r3);
  }

  /** With a bar left, cutting uses up exactly one and loses no text. */
  lemma CutTakesOneBar(s: string)
    requires Bars(s) > 0
    ensures Bars(Cut(s).1) == Bars(s) - 1 && Bar(Cut(s).0, Cut(s).1) == s
  {
    hide Bars, CutAt;
    NoBars(s);
    CutJoins(s);
    CutHeadBarFree(s);
    NoBars(Cut(s).0);
    BarsOfBar(Cut(s).0, Cut(s).1);
  }

  /** An alert shares its key with an alert of other fields exactly when one of its five fields holds a bar. */
  lemma KeySharedExactly(a: Alert)
    ensures (exists b: Alert :: b.Key() == a.Key() && b.KeyFields() != a.KeyFields()) <==> !NoBarAtAll(a)
  {
    hide Bars, CutAt;
    if NoBarAtAll(a) {
      forall b: Alert | b.Key() == a.Key() ensures b.KeyFields() == a.KeyFields() {
        PlainKeyIsUnique(a, b);
      }
    } else if a.BarFree() {
      CutJoins(a.reason);
      var (p, q) := Cut(a.reason);
      var b := a.(objectName := Bar(a.objectName, p), reason := q);
      assert Bar(Bar(a.objectName, p), q) == Bar(a.objectName, Bar(p, q));
      assert |b.objectName| > |a.objectName|;
      assert b.Key() == a.Key() && b.KeyFields() != a.KeyFields();
    } else {
      KeyRoundTrip(a);
      var b := RereadHasKey(a);
    }
  }

  /** Alerts of different monitors never share a key, whatever their other fields hold. */
  lemma MonitorsApart(a: Alert, b: Alert)
    requires '|' !in a.monitor && '|' !in b.monitor && a.monitor != b.monitor
    ensures a.Key() != b.Key()
  {
    CutOfBar(a.monitor, Bar(a.namespace, Bar(a.objectKind, Bar(a.objectName, a.reason))));
    CutOfBar(b.monitor, Bar(b.namespace, Bar(b.objectKind, Bar(b.objectName, b.reason))));
  }
}
