/** Expansion of $TOKEN references (internal/config/secrets.go). */
module Secrets {
  import opened Options

  /** The token pattern is a dollar, a letter A-Z or underscore, then any run of those and digits. */
  predicate IsStart(c: char) {
    'A' <= c <= 'Z' || c == '_'
  }

  predicate IsWord(c: char) {
    IsStart(c) || '0' <= c <= '9'
  }

  datatype Piece = Lit(c: char) | Token(name: string)

  datatype Expansion = Expanded(text: string) | Missing(name: string)

  function WordLength(s: string): (n: nat)
    ensures n <= |s|
  {
    if s == "" || !IsWord(s[0]) then 0 else 1 + WordLength(s[1..])
  }

  predicate StartsToken(s: string) {
    |s| > 1 && s[0] == '$' && IsStart(s[1])
  }

  /** The leftmost, longest matches of the pattern as tokens, and every other character by itself. */
  function Scan(s: string): seq<Piece>
    decreases |s|
  {
    if s == "" then []
    else if StartsToken(s) then
      var n := WordLength(s[1..]);
      [Token(s[1..1 + n])] + Scan(s[1 + n..])
    else [Lit(s[0])] + Scan(s[1..])
  }

  function PrintPiece(p: Piece): string {
    match p
    case Lit(c) => [c]
    case Token(name) => "$" + name
  }

  function Print(ps: seq<Piece>): string {
    if ps == [] then "" else PrintPiece(ps[0]) + Print(ps[1..])
  }

  /** What replaces a piece; an unknown token stays as it is. */
  function Value(secrets: map<string, string>, p: Piece): string {
    if p.Token? && p.name in secrets then secrets[p.name] else PrintPiece(p)
  }

  /** All pieces replaced once, side by side: nothing inserted is looked at again. */
  function Substituted(secrets: map<string, string>, ps: seq<Piece>): string {
    if ps == [] then "" else Value(secrets, ps[0]) + Substituted(secrets, ps[1..])
  }

  predicate IsMissing(secrets: map<string, string>, p: Piece) {
    p.Token? && p.name !in secrets
  }

  /** The last token that is not among the secrets. */
  function LastMissing(secrets: map<string, string>, ps: seq<Piece>): Option<string> {
    if ps == [] then None
    else if LastMissing(secrets, ps[1..]).Some? then LastMissing(secrets, ps[1..])
    else if IsMissing(secrets, ps[0]) then Some(ps[0].name)
    else None
  }

  function ExpansionOf(secrets: map<string, string>, s: string): Expansion {
    match LastMissing(secrets, Scan(s))
    case Some(name) => Missing(name)
    case None => Expanded(Substituted(secrets, Scan(s)))
  }

  /** The lookup by name. */
  function Get(secrets: map<string, string>, key: string): Expansion {
    if key in secrets then Expanded(secrets[key]) else Missing(key)
  }

  /** The match at position `i`: one past its last character. */
  method MatchEnd(s: string, i: nat) returns (j: nat)
    requires i + 1 < |s| && s[i] == '$' && IsStart(s[i + 1])
    ensures i + 1 < j <= |s| && j == i + 1 + WordLength(s[i + 1..])
  {
    j := i + 1;
    while j < |s| && IsWord(s[j])
      invariant i + 1 <= j <= |s|
      invariant WordLength(s[i + 1..]) == j - (i + 1) + WordLength(s[j..])
    {
      DropNext(s, j);
      j := j + 1;
    }
  }

  lemma DropNext(s: string, j: nat)
    requires j < |s|
    ensures s[j..] != "" && s[j..][0] == s[j] && s[j..][1..] == s[j + 1..]
  {
  }

  method Expand(secrets: map<string, string>, input: string) returns (r: Expansion)
    ensures r == ExpansionOf(secrets, input)
  {
    hide WordLength, Rest, Value, IsStart;
    var out, errToken := "", "";
    var i := 0;
    RestEnds(secrets, input);
    while i < |input|
      invariant 0 <= i <= |input|
      invariant out + Rest(secrets, input, i).0 == Rest(secrets, input, 0).0
      invariant Rest(secrets, input, 0).1 ==
                  if Rest(secrets, input, i).1.Some? || errToken == "" then Rest(secrets, input, i).1
                  else Some(errToken)
    {
      RestStep(secrets, input, i);
      ghost var was := out;
      if i + 1 < |input| && input[i] == '$' && IsStart(input[i + 1]) {
        var j := MatchEnd(input, i);
        var key := input[i + 1..j];
        if key !in secrets {
          errToken := key;
          out := out + input[i..j];
        } else {
          out := out + secrets[key];
        }
        assert out == was + Value(secrets, Token(key)) by { TokenValue(secrets, input, i, j); }
        i := j;
      } else {
        out := out + [input[i]];
        assert out == was + Value(secrets, Lit(input[i])) by { LitValue(secrets, input[i]); }
        i := i + 1;
      }
    }
    if errToken != "" {
      return Missing(errToken);
    }
    return Expanded(out);
  }

  /** What the text from position `i` on still contributes: its replacement and its last missing token. */
  function Rest(secrets: map<string, string>, input: string, i: nat): (string, Option<string>)
    requires i <= |input|
  {
    (Substituted(secrets, Scan(input[i..])), LastMissing(secrets, Scan(input[i..])))
  }

  lemma RestEnds(secrets: map<string, string>, input: string)
    ensures Rest(secrets, input, |input|) == ("", None)
    ensures ExpansionOf(secrets, input) ==
              match Rest(secrets, input, 0).1
              case Some(name) => Missing(name)
              case None => Expanded(Rest(secrets, input, 0).0)
  {
    assert input[|input|..] == "" && input[0..] == input;
  }

  /** The step of the scan at position `i`. */
  lemma RestStep(secrets: map<string, string>, input: string, i: nat)
    requires i < |input|
    ensures var token := i + 1 < |input| && input[i] == '$' && IsStart(input[i + 1]);
            var j := if token then i + 1 + WordLength(input[i + 1..]) else i + 1;
            i < j <= |input| &&
            var p := if token then Token(input[i + 1..j]) else Lit(input[i]);
            && Rest(secrets, input, i).0 == Value(secrets, p) + Rest(secrets, input, j).0
            && Rest(secrets, input, i).1 ==
                 (if Rest(secrets, input, j).1.Some? then Rest(secrets, input, j).1
                  else if IsMissing(secrets, p) then Some(p.name) else None)
            && (token ==> input[i + 1..j] != "")
  {
    hide Scan, Substituted, LastMissing, Value;
    var s := input[i..];
    ScanStep(secrets, s);
    if i + 1 < |input| && input[i] == '$' && IsStart(input[i + 1]) {
      TokenHere(input, i);
      var n := 1 + WordLength(s[1..]);
      assert s[n..] == input[i + n..] && s[1..n] == input[i + 1..i + n];
    } else {
      NoTokenHere(input, i);
      assert s[1..] == input[i + 1..];
    }
  }

  lemma TokenValue(secrets: map<string, string>, input: string, i: nat, j: nat)
    requires i + 1 <= j <= |input| && input[i] == '$'
    ensures var key := input[i + 1..j];
            Value(secrets, Token(key)) == if key in secrets then secrets[key] else input[i..j]
  {
    assert input[i..j] == "$" + input[i + 1..j];
  }

  lemma LitValue(secrets: map<string, string>, c: char)
    ensures Value(secrets, Lit(c)) == [c]
  {
  }

  lemma TokenHere(s: string, i: nat)
    requires i + 1 < |s| && s[i] == '$' && IsStart(s[i + 1])
    ensures StartsToken(s[i..]) && WordLength(s[i..][1..]) == WordLength(s[i + 1..]) > 0
  {
    assert s[i..][1..] == s[i + 1..];
  }

  lemma NoTokenHere(s: string, i: nat)
    requires i < |s| && !(i + 1 < |s| && s[i] == '$' && IsStart(s[i + 1]))
    ensures !StartsToken(s[i..])
  {
  }

  /** The first piece of a text and what it contributes. */
  lemma ScanStep(secrets: map<string, string>, s: string)
    requires s != ""
    ensures var n := if StartsToken(s) then 1 + WordLength(s[1..]) else 1;
            var p := if StartsToken(s) then Token(s[1..n]) else Lit(s[0]);
            && Scan(s) == [p] + Scan(s[n..])
            && Substituted(secrets, Scan(s)) == Value(secrets, p) + Substituted(secrets, Scan(s[n..]))
            && LastMissing(secrets, Scan(s)) ==
                 (if LastMissing(secrets, Scan(s[n..])).Some? then LastMissing(secrets, Scan(s[n..]))
                  else if IsMissing(secrets, p) then Some(p.name) else None)
  {
    var n := if StartsToken(s) then 1 + WordLength(s[1..]) else 1;
    assert Scan(s)[1..] == Scan(s[n..]);
  }

  /** Every entry expanded, or the failure of some entry. */
  method ExpandMap(
      secrets: map<string, string>,
      input: map<string, string>) returns (out: Option<map<string, string>>, name: string)
    ensures out.Some? <==> forall k :: k in input ==> ExpansionOf(secrets, input[k]).Expanded?
    ensures out.Some? ==> out.value.Keys == input.Keys
    ensures out.Some? ==> forall k :: k in input ==> ExpansionOf(secrets, input[k]) == Expanded(out.value[k])
    ensures out.None? ==> exists k :: k in input && ExpansionOf(secrets, input[k]) == Missing(name)
  {
    hide ExpansionOf;
    var done: map<string, string> := map[];
    var todo := input.Keys;
    while todo != {}
      invariant todo <= input.Keys && done.Keys == input.Keys - todo
      invariant forall k :: k in done ==> ExpansionOf(secrets, input[k]) == Expanded(done[k])
      decreases todo
    {
      var k :| k in todo;
      var v := Expand(secrets, input[k]);
      if v.Missing? {
        return None, v.name;
      }
      done := done[k := v.text];
      todo := todo - {k};
    }
    return Some(done), "";
  }

  // ---- The scan is exact ------------------------------------------------------------------

  predicate ValidName(name: string) {
    name != "" && IsStart(name[0]) && WordLength(name) == |name|
  }

  /** The first character, when the list begins with a literal one. */
  function FirstLit(ps: seq<Piece>): Option<char> {
    if ps != [] && ps[0].Lit? then Some(ps[0].c) else None
  }

  /** The pieces may follow each other in a scan: nothing after `p` belongs to a token with it. */
  predicate Fits(p: Piece, first: Option<char>) {
    match p
    case Lit(c) => !(c == '$' && first.Some? && IsStart(first.value))
    case Token(name) => ValidName(name) && !(first.Some? && IsWord(first.value))
  }

  predicate Normal(ps: seq<Piece>) {
    ps == [] || (Fits(ps[0], FirstLit(ps[1..])) && Normal(ps[1..]))
  }

  lemma {:induction false} WordOfPrefix(name: string, rest: string)
    requires WordLength(name) == |name|
    ensures WordLength(name + rest) == |name| + WordLength(rest)
  {
    if name == "" {
      assert name + rest == rest;
    } else {
      assert (name + rest)[1..] == name[1..] + rest;
      WordOfPrefix(name[1..], rest);
    }
  }

  lemma {:induction false} WordIsMaximal(s: string)
    ensures WordLength(s[..WordLength(s)]) == WordLength(s)
    ensures WordLength(s) < |s| ==> !IsWord(s[WordLength(s)])
  {
    var n := WordLength(s);
    if n > 0 {
      WordIsMaximal(s[1..]);
      assert s[..n][1..] == s[1..][..n - 1];
    }
  }

  lemma PrintCons(p: Piece, rest: seq<Piece>)
    ensures Print([p] + rest) == PrintPiece(p) + Print(rest)
  {
    assert ([p] + rest)[1..] == rest;
  }

  /** The scan loses nothing. */
  lemma {:induction false} ScanIsLossless(s: string)
    ensures Print(Scan(s)) == s
    decreases |s|
  {
    hide WordLength, StartsToken, Scan, Print;
    if s == "" {
      EmptyScan();
      assert Print([]) == "" by { PrintNothing(); }
    } else {
      ScanStep(map[], s);
      var n := if StartsToken(s) then 1 + WordLength(s[1..]) else 1;
      ScanIsLossless(s[n..]);
      PieceText(s);
      PrintCons(if StartsToken(s) then Token(s[1..n]) else Lit(s[0]), Scan(s[n..]));
      assert s == s[..n] + s[n..];
    }
  }

  lemma PrintNothing()
    ensures Print([]) == ""
  {
  }

  /** The first piece of a text prints as the characters it was read from. */
  lemma PieceText(s: string)
    requires s != ""
    ensures StartsToken(s) ==>
              s[..1 + WordLength(s[1..])] == PrintPiece(Token(s[1..1 + WordLength(s[1..])]))
    ensures s[..1] == PrintPiece(Lit(s[0]))
  {
  }

  lemma FirstLitOfScan(s: string)
    ensures FirstLit(Scan(s)) == if s == "" || StartsToken(s) then None else Some(s[0])
  {
  }

  /** The scan is greedy: its pieces never run into each other. */
  lemma {:induction false} ScanIsNormal(s: string)
    ensures Normal(Scan(s))
    decreases |s|
  {
    if s != "" {
      ScanStep(map[], s);
      var n := if StartsToken(s) then 1 + WordLength(s[1..]) else 1;
      ScanIsNormal(s[n..]);
      FirstLitOfScan(s[n..]);
      assert Scan(s)[1..] == Scan(s[n..]);
      if StartsToken(s) {
        WordIsMaximal(s[1..]);
        assert s[1..n] == s[1..][..n - 1];
      }
    }
  }

  lemma PrintStarts(ps: seq<Piece>)
    ensures Print(ps) != "" && Print(ps)[0] != '$' ==> FirstLit(ps) == Some(Print(ps)[0])
    ensures ps == [] <==> Print(ps) == ""
  {
  }

  lemma TokenRescans(name: string, rest: string)
    requires ValidName(name) && (rest != "" ==> !IsWord(rest[0]))
    ensures Scan("$" + name + rest) == [Token(name)] + Scan(rest)
  {
    var s := "$" + name + rest;
    assert s[1..] == name + rest;
    WordOfPrefix(name, rest);
    assert StartsToken(s) && s[1..1 + |name|] == name && s[1 + |name|..] == rest;
  }

  lemma LitRescans(c: char, rest: string)
    requires !(c == '$' && rest != "" && IsStart(rest[0]))
    ensures Scan([c] + rest) == [Lit(c)] + Scan(rest)
  {
    assert ([c] + rest)[1..] == rest;
  }

  /** Rescanning what was printed gives the pieces back. */
  lemma {:induction false} NormalRescans(ps: seq<Piece>)
    requires Normal(ps)
    ensures Scan(Print(ps)) == ps
  {
    hide Scan, ValidName;
    if ps == [] {
      assert Scan("") == [] by { EmptyScan(); }
    } else {
      var rest := Print(ps[1..]);
      NormalRescans(ps[1..]);
      PrintStarts(ps[1..]);
      assert ps == [ps[0]] + ps[1..];
      match ps[0]
      case Lit(c) => LitRescans(c, rest);
      case Token(name) => TokenRescans(name, rest);
    }
  }

  lemma EmptyScan()
    ensures Scan("") == []
  {
  }

  /** Printing and rescanning is the identity on exactly the normal lists. */
  lemma RoundTripExactly(ps: seq<Piece>)
    ensures Scan(Print(ps)) == ps <==> Normal(ps)
  {
    ScanIsNormal(Print(ps));
    if Normal(ps) {
      NormalRescans(ps);
    }
  }

  lemma {:induction false} PrintConcat(p: seq<Piece>, q: seq<Piece>)
    ensures Print(p + q) == Print(p) + Print(q)
  {
    if p == [] {
      assert p + q == q;
    } else {
      assert (p + q)[1..] == p[1..] + q;
      PrintConcat(p[1..], q);
    }
  }

  /** The end of `p` and the beginning of `q` do not combine. */
  predicate Meets(p: seq<Piece>, q: seq<Piece>) {
    p == [] || Fits(p[|p| - 1], FirstLit(q))
  }

  lemma {:induction false} NormalConcat(p: seq<Piece>, q: seq<Piece>)
    requires Normal(p) && Normal(q)
    ensures Normal(p + q) <==> Meets(p, q)
  {
    if p == [] {
      assert p + q == q;
    } else {
      assert (p + q)[1..] == p[1..] + q;
      NormalConcat(p[1..], q);
      if |p| > 1 {
        assert FirstLit((p + q)[1..]) == FirstLit(p[1..]);
      } else {
        assert p[1..] + q == q;
      }
    }
  }

  /** Two texts scan piecewise exactly when no token grows or appears across the seam. */
  lemma SeamExactly(s: string, t: string)
    ensures Scan(s + t) == Scan(s) + Scan(t) <==> Meets(Scan(s), Scan(t))
  {
    ScanIsNormal(s);
    ScanIsNormal(t);
    ScanIsNormal(s + t);
    NormalConcat(Scan(s), Scan(t));
    PrintConcat(Scan(s), Scan(t));
    ScanIsLossless(s);
    ScanIsLossless(t);
    if Meets(Scan(s), Scan(t)) {
      NormalRescans(Scan(s) + Scan(t));
    }
  }

  // ---- What expansion means -----------------------------------------------------------------

  lemma {:induction false} MissingMeans(secrets: map<string, string>, ps: seq<Piece>)
    ensures LastMissing(secrets, ps) == None <==> forall p :: p in ps && p.Token? ==> p.name in secrets
    ensures LastMissing(secrets, ps).Some? ==>
              exists i :: 0 <= i < |ps| && ps[i] == Token(LastMissing(secrets, ps).value) && IsMissing(secrets, ps[i])
                          && forall j :: i < j < |ps| ==> !IsMissing(secrets, ps[j])
  {
    if ps != [] {
      var rest := ps[1..];
      MissingMeans(secrets, rest);
      assert forall p :: p in ps <==> p == ps[0] || p in rest;
      if LastMissing(secrets, rest).Some? {
        var i :| 0 <= i < |rest| && rest[i] == Token(LastMissing(secrets, rest).value) && IsMissing(secrets, rest[i])
                 && forall j :: i < j < |rest| ==> !IsMissing(secrets, rest[j]);
        assert ps[i + 1] == rest[i];
        forall j | i + 1 < j < |ps| ensures !IsMissing(secrets, ps[j]) {
          assert ps[j] == rest[j - 1];
        }
      } else if IsMissing(secrets, ps[0]) {
        forall j | 0 < j < |ps| ensures !IsMissing(secrets, ps[j]) {
          assert ps[j] == rest[j - 1] && rest[j - 1] in rest;
        }
      }
    }
  }

  /** Expansion succeeds exactly when every token is among the secrets; otherwise it names the last that is not. */
  lemma {:induction false} ExpandSucceedsExactly(secrets: map<string, string>, s: string)
    ensures ExpansionOf(secrets, s).Expanded? <==> forall p :: p in Scan(s) && p.Token? ==> p.name in secrets
    ensures ExpansionOf(secrets, s).Missing? ==>
              exists i :: 0 <= i < |Scan(s)| && Scan(s)[i] == Token(ExpansionOf(secrets, s).name)
                          && IsMissing(secrets, Scan(s)[i])
                          && forall j :: i < j < |Scan(s)| ==> !IsMissing(secrets, Scan(s)[j])
  {
    MissingMeans(secrets, Scan(s));
  }

  lemma {:induction false} SubstitutedConcat(secrets: map<string, string>, p: seq<Piece>, q: seq<Piece>)
    ensures Substituted(secrets, p + q) == Substituted(secrets, p) + Substituted(secrets, q)
  {
    if p == [] {
      assert p + q == q;
    } else {
      assert (p + q)[1..] == p[1..] + q;
      SubstitutedConcat(secrets, p[1..], q);
    }
  }

  /**
    A token between two texts that do not touch it is replaced by its value verbatim, whatever tokens
    the value holds, and the texts around it expand as they would alone.
   */
  lemma ValueIsVerbatim(secrets: map<string, string>, before: string, name: string, after: string)
    requires ValidName(name) && name in secrets
    requires Meets(Scan(before), [Token(name)]) && Meets([Token(name)], Scan(after))
    requires ExpansionOf(secrets, before).Expanded? && ExpansionOf(secrets, after).Expanded?
    ensures ExpansionOf(secrets, before + "$" + name + after) ==
              Expanded(ExpansionOf(secrets, before).text + secrets[name] + ExpansionOf(secrets, after).text)
  {
    hide Scan, Substituted, LastMissing, Print, Fits;
    var a, t, b := Scan(before), [Token(name)], Scan(after);
    ScanIsNormal(before);
    ScanIsNormal(after);
    ScanIsLossless(before);
    ScanIsLossless(after);
    OneToken(secrets, name);
    NormalConcat(t, b);
    NormalConcat(a, t + b);
    assert Meets(a, t + b);
    PrintConcat(t, b);
    PrintConcat(a, t + b);
    NormalRescans(a + (t + b));
    assert before + "$" + name + after == before + ("$" + name + after);
    SubstitutedConcat(secrets, t, b);
    SubstitutedConcat(secrets, a, t + b);
    MissingMeans(secrets, a);
    MissingMeans(secrets, b);
    MissingMeans(secrets, a + (t + b));
    assert secrets[name] + Substituted(secrets, b) == Substituted(secrets, t + b);
    assert Substituted(secrets, a) + secrets[name] + Substituted(secrets, b) ==
           Substituted(secrets, a) + (secrets[name] + Substituted(secrets, b));
  }

  lemma OneToken(secrets: map<string, string>, name: string)
    requires ValidName(name) && name in secrets
    ensures Normal([Token(name)]) && Print([Token(name)]) == "$" + name
    ensures Substituted(secrets, [Token(name)]) == secrets[name]
  {
    assert [Token(name)][1..] == [];
    assert Print([]) == "" && Substituted(secrets, []) == "";
  }

  lemma {:induction false} NamesAreValid(ps: seq<Piece>, p: Piece)
    requires Normal(ps) && p in ps && p.Token?
    ensures ValidName(p.name)
  {
    if ps[0] != p {
      NamesAreValid(ps[1..], p);
    }
  }

  // ---- By the characters of the pattern --------------------------------------------------------

  /** A letter from A to Z or an underscore, and then only those and digits. */
  ghost predicate IsName(name: string) {
    && name != "" && ('A' <= name[0] <= 'Z' || name[0] == '_')
    && forall i :: 0 < i < |name| ==> 'A' <= name[i] <= 'Z' || name[i] == '_' || '0' <= name[i] <= '9'
  }

  /** Nothing of a name could go on at the start of `s`. */
  ghost predicate NoMore(s: string) {
    s == "" || !('A' <= s[0] <= 'Z' || s[0] == '_' || '0' <= s[0] <= '9')
  }

  lemma {:induction false} WordByCharacters(s: string)
    ensures WordLength(s) == |s| <==>
              forall i :: 0 <= i < |s| ==> 'A' <= s[i] <= 'Z' || s[i] == '_' || '0' <= s[i] <= '9'
  {
    if s != "" {
      WordByCharacters(s[1..]);
      assert forall i :: 0 < i < |s| ==> s[i] == s[1..][i - 1];
    }
  }

  lemma NameByCharacters(name: string)
    ensures ValidName(name) <==> IsName(name)
  {
    hide WordLength;
    WordByCharacters(name);
  }

  /**
    Writing `$` before a name and expanding is looking the name up, whatever the secrets are, exactly
    when the name is of the pattern's characters; a secret of another name cannot be referred to.
   */
  lemma ReferenceIsLookup(name: string)
    ensures (forall secrets: map<string, string> :: ExpansionOf(secrets, "$" + name) == Get(secrets, name)) <==>
              && name != "" && ('A' <= name[0] <= 'Z' || name[0] == '_')
              && forall i :: 0 < i < |name| ==> 'A' <= name[i] <= 'Z' || name[i] == '_' || '0' <= name[i] <= '9'
  {
    hide Scan, Substituted, LastMissing, Normal, ValidName;
    NameByCharacters(name);
    if ValidName(name) {
      forall secrets: map<string, string> ensures ExpansionOf(secrets, "$" + name) == Get(secrets, name) {
        ValidReference(secrets, name);
      }
    } else {
      var none: map<string, string> := map[];
      var text := "$" + name;
      if ExpansionOf(none, text) == Get(none, name) {
        ExpandSucceedsExactly(none, text);
        ScanIsNormal(text);
        NamesAreValid(Scan(text), Token(name));
        assert false;
      }
    }
  }

  /** A text in which no dollar is followed by a letter from A to Z or an underscore expands to itself. */
  lemma {:induction false} NothingToExpand(secrets: map<string, string>, s: string)
    requires forall i :: 0 <= i < |s| - 1 && s[i] == '$' ==> !('A' <= s[i + 1] <= 'Z' || s[i + 1] == '_')
    ensures ExpansionOf(secrets, s) == Expanded(s)
  {
    if s != "" {
      forall i | 0 <= i < |s[1..]| - 1 && s[1..][i] == '$'
        ensures !('A' <= s[1..][i + 1] <= 'Z' || s[1..][i + 1] == '_')
      {
        assert s[i + 1] == '$';
      }
      NothingToExpand(secrets, s[1..]);
      ScanStep(secrets, s);
      assert Scan(s) == [Lit(s[0])] + Scan(s[1..]);
    }
  }

  /** `p` may stand in front of `after`: a token is a name that could not go on, a single dollar begins none. */
  ghost predicate StandsBefore(p: Piece, after: string) {
    && (p.Token? ==> IsName(p.name) && NoMore(after))
    && (p == Lit('$') ==> after == "" || !('A' <= after[0] <= 'Z' || after[0] == '_'))
  }

  lemma TokenHead(s: string)
    requires StartsToken(s)
    ensures var n := 1 + WordLength(s[1..]);
            n <= |s| && IsName(s[1..n]) && NoMore(s[n..])
  {
    hide WordLength, IsName;
    var n := 1 + WordLength(s[1..]);
    WordIsMaximal(s[1..]);
    assert s[1..][..n - 1] == s[1..n];
    FirstOfWord(s[1..]);
    NameByCharacters(s[1..n]);
    assert n < |s| ==> s[1..][n - 1] == s[n];
  }

  lemma FirstOfWord(s: string)
    requires s != "" && IsStart(s[0])
    ensures WordLength(s) > 0
  {
  }

  lemma HeadStands(s: string)
    requires s != ""
    ensures if StartsToken(s) then var n := 1 + WordLength(s[1..]); StandsBefore(Token(s[1..n]), s[n..])
            else StandsBefore(Lit(s[0]), s[1..])
  {
    hide WordLength, IsName, NoMore;
    if StartsToken(s) {
      TokenHead(s);
    }
  }

  lemma FirstInPlace(s: string)
    requires s != ""
    ensures Scan(s) != []
    ensures var p, after := Scan(s)[0], Print(Scan(s)[1..]);
            s == PrintPiece(p) + after && Scan(s)[1..] == Scan(after) && |after| < |s| && StandsBefore(p, after)
  {
    hide WordLength, Scan, Print, StandsBefore, Substituted, LastMissing;
    var n := if StartsToken(s) then 1 + WordLength(s[1..]) else 1;
    ScanStep(map[], s);
    ScanIsLossless(s[n..]);
    HeadStands(s);
    assert Scan(s)[1..] == Scan(s[n..]);
    if StartsToken(s) {
      assert s == "$" + s[1..n] + s[n..];
    } else {
      assert s == [s[0]] + s[1..];
    }
  }

  /**
    Where the scan finds a token the text holds a dollar and a name that could not go on, and where it
    finds a dollar by itself no letter from A to Z or underscore follows.
   */
  lemma {:induction false} PieceInPlace(s: string, i: nat)
    requires i < |Scan(s)|
    ensures var before, p, after := Print(Scan(s)[..i]), Scan(s)[i], Print(Scan(s)[i + 1..]);
            && s == before + (match p case Lit(c) => [c] case Token(name) => "$" + name) + after
            && (p.Token? ==>
                  && p.name != "" && ('A' <= p.name[0] <= 'Z' || p.name[0] == '_')
                  && (forall j :: 0 < j < |p.name| ==>
                        'A' <= p.name[j] <= 'Z' || p.name[j] == '_' || '0' <= p.name[j] <= '9')
                  && (after == "" || !('A' <= after[0] <= 'Z' || after[0] == '_' || '0' <= after[0] <= '9')))
            && (p == Lit('$') ==> after == "" || !('A' <= after[0] <= 'Z' || after[0] == '_'))
    decreases |s|
  {
    hide Scan, Print;
    assert s != "" by { EmptyScan(); }
    FirstInPlace(s);
    var ps, after := Scan(s), Print(Scan(s)[1..]);
    if i == 0 {
      assert ps[..0] == [];
      PrintNothing();
    } else {
      PieceInPlace(after, i - 1);
      assert ps[1..][..i - 1] == ps[1..i] && ps[1..][i..] == ps[i + 1..];
      PrintCons(ps[0], ps[1..i]);
      assert ps[..i] == [ps[0]] + ps[1..i];
    }
  }

  lemma ValidReference(secrets: map<string, string>, name: string)
    requires ValidName(name)
    ensures ExpansionOf(secrets, "$" + name) == Get(secrets, name)
  {
    TokenRescans(name, "");
    assert "$" + name + "" == "$" + name;
    assert Scan("") == [] by { EmptyScan(); }
    var ps := [Token(name)];
    assert Scan("$" + name) == ps;
    assert ps[1..] == [];
    assert LastMissing(secrets, []) == None && Substituted(secrets, []) == "";
  }
}
