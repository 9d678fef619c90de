/** What words, lists, digests and routes have to look like, said from the outside. */
module Wording {
  import opened Alerts
  import opened EngineSpec

  ghost predicate IsWord(word: string, severity: Severity) {
    || (severity == Info && word == "info")
    || (severity == Warning && word == "warning")
    || (severity == Critical && word == "critical")
  }

  /** The ASCII letters of `s` in lower case, everything else as it is. */
  ghost predicate IsLower(lower: string, s: string) {
    && |lower| == |s|
    && forall i :: 0 <= i < |s| ==>
         if 'A' <= s[i] <= 'Z' then lower[i] as int == s[i] as int + 32 else lower[i] == s[i]
  }

  /** The lower-case kind, a slash and the name; the name alone when there is no kind. */
  ghost predicate NamesObject(text: string, a: Alert) {
    if a.objectKind == "" then text == a.objectName
    else exists kind :: IsLower(kind, a.objectKind) && text == kind + "/" + a.objectName
  }

  ghost predicate Digits(s: string) {
    forall i :: 0 <= i < |s| ==> '0' <= s[i] <= '9'
  }

  /** The number that a list of digits denotes. */
  ghost function Worth(s: string): int {
    if s == "" then 0 else 10 * Worth(s[..|s| - 1]) + (s[|s| - 1] as int - '0' as int)
  }

  ghost predicate IsDecimal(s: string, n: int) {
    s != "" && Digits(s) && Worth(s) == n && (|s| > 1 ==> s[0] != '0')
  }

  /** One line of a digest: severity, place, reason and title of the alert. */
  ghost predicate IsLine(line: string, a: Alert) {
    exists word, obj :: IsWord(word, a.severity) && NamesObject(obj, a) &&
      line == "- [" + word + "] " + a.namespace + "/" + obj + " " + a.reason + ": " + a.title + "\n"
  }

  /** The lines of the batch in order, and nothing else. */
  ghost predicate ListsAll(text: string, batch: seq<Alert>)
    decreases |batch|
  {
    if batch == [] then text == ""
    else exists line, rest :: IsLine(line, batch[0]) && ListsAll(rest, batch[1..]) && text == line + rest
  }

  ghost predicate IsDigest(cfg: Config, batch: seq<Alert>, a: Alert, now: int) {
    && a.monitor == "digest" && a.severity == Info && a.state == Firing && a.cluster == cfg.cluster
    && a.namespace == a.objectKind == a.objectName == a.reason == "" && a.firedAt == now
    && exists count, lines :: IsDecimal(count, |batch|) && ListsAll(lines, batch)
         && a.title == count + " alerts (digest)" && a.body == count + " alerts in the last interval:\n\n" + lines
  }

  /** A rule takes what agrees with all it names, and it names something. */
  ghost predicate Takes(r: Rule, severity: Severity, monitor: string) {
    && (IsWord(r.severity, severity) || (r.severity == "" && r.monitor != ""))
    && (r.monitor == monitor || r.monitor == "")
  }

  /** The channels of the first rule that takes it, and the defaults when none does. */
  ghost predicate Routed(cfg: Config, severity: Severity, monitor: string, channels: seq<string>) {
    || (exists i :: 0 <= i < |cfg.rules| && Takes(cfg.rules[i], severity, monitor) && channels == cfg.rules[i].channels
                    && forall j :: 0 <= j < i ==> !Takes(cfg.rules[j], severity, monitor))
    || (channels == cfg.defaults && forall j :: 0 <= j < |cfg.rules| ==> !Takes(cfg.rules[j], severity, monitor))
  }

  /** `b` is `a` in that state, stamped and placed in the cluster unless it says so itself. */
  ghost predicate IsPrepared(b: Alert, a: Alert, cluster: string, state: AlertState, now: int) {
    && b.state == state && b.severity == a.severity
    && b.monitor == a.monitor && b.namespace == a.namespace && b.objectKind == a.objectKind
    && b.objectName == a.objectName && b.reason == a.reason && b.title == a.title && b.body == a.body
    && (if a.firedAt == 0 then b.firedAt == now else b.firedAt == a.firedAt)
    && (if a.cluster == "" then b.cluster == cluster else b.cluster == a.cluster)
  }

  // ---- What is written is so worded ------------------------------------------------------

  lemma PreparedIsPrepared(a: Alert, cluster: string, state: AlertState, now: int)
    ensures IsPrepared(Prepared(a, cluster, state, now), a, cluster, state, now)
  {
  }

  lemma WordReads(severity: Severity)
    ensures IsWord(severity.Text(), severity)
  {
  }

  lemma ObjectReads(a: Alert)
    ensures NamesObject(a.Object(), a)
  {
    assert IsLower(Lower(a.objectKind), a.objectKind);
  }

  lemma {:induction false} DecimalReads(n: nat)
    ensures IsDecimal(Decimal(n), n) && (n > 0 ==> Decimal(n)[0] != '0')
  {
    if n >= 10 {
      DecimalReads(n / 10);
      var s := Decimal(n);
      assert s[..|s| - 1] == Decimal(n / 10);
    } else {
      assert Worth("") == 0;
    }
  }

  lemma LineReads(a: Alert)
    ensures IsLine(DigestLine(a), a)
  {
    WordReads(a.severity);
    ObjectReads(a);
  }

  lemma {:induction false} LinesRead(batch: seq<Alert>)
    ensures ListsAll(DigestLines(batch), batch)
  {
    hide DigestLine, IsLine;
    if batch != [] {
      DigestListsAll(batch, 0);
      LineReads(batch[0]);
      LinesRead(batch[1..]);
      assert batch[..0] == [];
      assert DigestLines(batch) == DigestLine(batch[0]) + DigestLines(batch[1..]);
    }
  }

  /** The digest names its size and lists its batch in order. */
  lemma DigestReads(cfg: Config, batch: seq<Alert>, now: int)
    ensures IsDigest(cfg, batch, DigestAlert(cfg, batch, now), now)
  {
    hide Decimal, DigestLines, IsDecimal, ListsAll;
    DecimalReads(|batch|);
    LinesRead(batch);
  }

  lemma MatchReads(r: Rule, a: Alert)
    ensures Matches(r, a) <==> Takes(r, a.severity, a.monitor)
  {
  }

  /** The router takes the first rule that agrees with the alert, else the defaults. */
  lemma {:induction false} RoutedByFirst(cfg: Config, a: Alert)
    ensures Routed(cfg, a.severity, a.monitor, Channels(cfg.rules, cfg.defaults, a))
    decreases |cfg.rules|
  {
    hide Matches, Takes;
    if cfg.rules != [] {
      MatchReads(cfg.rules[0], a);
      var later := cfg.(rules := cfg.rules[1..]);
      if !Matches(cfg.rules[0], a) {
        RoutedByFirst(later, a);
        var channels := Channels(cfg.rules, cfg.defaults, a);
        if i :| 0 <= i < |later.rules| && Takes(later.rules[i], a.severity, a.monitor)
                && channels == later.rules[i].channels
                && forall j :: 0 <= j < i ==> !Takes(later.rules[j], a.severity, a.monitor) {
          assert cfg.rules[i + 1] == later.rules[i];
          assert forall j :: 0 < j < i + 1 ==> cfg.rules[j] == later.rules[j - 1];
        } else {
          assert forall j :: 0 < j < |cfg.rules| ==> cfg.rules[j] == later.rules[j - 1];
        }
      }
    }
  }
}
