/** Path patterns: the meaning of `*`, `**` and `**` followed by a slash, the
    matcher with its loops and backtracking, and the path rules built on it. */
module Glob {
  import opened Wrappers

  // ---- meaning ----

  /** Star: any run without a slash. Deep: any run. DeepDir: any run, as long
      as some of the subject is left where it starts. */
  datatype Token = Literal(c: char) | Star | Deep | DeepDir

  function Tokens(pat: string): seq<Token> {
    if pat == "" then []
    else if |pat| >= 2 && pat[0] == '*' && pat[1] == '*' then
      if |pat| >= 3 && pat[2] == '/' then [DeepDir] + Tokens(pat[3..]) else [Deep] + Tokens(pat[2..])
    else if pat[0] == '*' then [Star] + Tokens(pat[1..])
    else [Literal(pat[0])] + Tokens(pat[1..])
  }

  predicate SlashFree(s: string) {
    forall i :: 0 <= i < |s| ==> s[i] != '/'
  }

  /** A token may stand for the first k characters of the subject. */
  predicate Stands(token: Token, str: string, k: nat)
    requires k <= |str|
  {
    match token
    case Literal(c) => k == 1 && str[0] == c
    case Star => SlashFree(str[..k])
    case Deep => true
    case DeepDir => str != ""
  }

  /** The declarative meaning: the subject can be cut into one piece per token
      so that every token may stand for its piece. `cuts` are the lengths. */
  ghost predicate Cut(tokens: seq<Token>, str: string, cuts: seq<nat>)
    decreases |tokens|
  {
    if tokens == [] then str == "" && cuts == []
    else
      && cuts != [] && cuts[0] <= |str|
      && Stands(tokens[0], str, cuts[0]) && Cut(tokens[1..], str[cuts[0]..], cuts[1..])
  }

  ghost predicate Means(pat: string, str: string) {
    exists cuts: seq<nat> :: Cut(Tokens(pat), str, cuts)
  }

  /** The same, one token at a time. */
  ghost predicate Matches(tokens: seq<Token>, str: string)
    decreases |tokens|
  {
    if tokens == [] then str == ""
    else exists k: nat :: k <= |str| && Stands(tokens[0], str, k) && Matches(tokens[1..], str[k..])
  }

  lemma {:induction false} CutMatches(tokens: seq<Token>, str: string, cuts: seq<nat>)
    requires Cut(tokens, str, cuts)
    ensures Matches(tokens, str)
    decreases |tokens|
  {
    if tokens != [] {
      CutMatches(tokens[1..], str[cuts[0]..], cuts[1..]);
    }
  }

  lemma {:induction false} MatchesCut(tokens: seq<Token>, str: string) returns (cuts: seq<nat>)
    requires Matches(tokens, str)
    ensures Cut(tokens, str, cuts)
    decreases |tokens|
  {
    if tokens == [] {
      cuts := [];
    } else {
      var k: nat :| k <= |str| && Stands(tokens[0], str, k) && Matches(tokens[1..], str[k..]);
      var rest := MatchesCut(tokens[1..], str[k..]);
      cuts := [k] + rest;
      assert cuts[1..] == rest;
    }
  }

  lemma MeansMatches(pat: string, str: string)
    ensures Means(pat, str) <==> Matches(Tokens(pat), str)
  {
    if Means(pat, str) {
      var cuts: seq<nat> :| Cut(Tokens(pat), str, cuts);
      CutMatches(Tokens(pat), str, cuts);
    }
    if Matches(Tokens(pat), str) {
      var cuts := MatchesCut(Tokens(pat), str);
    }
  }

  // ---- facts the matcher uses ----

  predicate AllStars(pat: string) {
    forall i :: 0 <= i < |pat| ==> pat[i] == '*'
  }

  /** When only one length is possible. */
  lemma Only(tokens: seq<Token>, str: string, k: nat)
    requires tokens != [] && k <= |str|
    requires forall j: nat :: j <= |str| && Stands(tokens[0], str, j) ==> j == k
    ensures Matches(tokens, str) <==> Stands(tokens[0], str, k) && Matches(tokens[1..], str[k..])
  {
  }

  lemma EmptyStep(token: Token, rest: seq<Token>)
    ensures Matches([token] + rest, "") <==> (token == Star || token == Deep) && Matches(rest, "")
  {
    assert ([token] + rest)[1..] == rest;
    Only([token] + rest, "", 0);
  }

  lemma StarsTail(pat: string, k: nat)
    requires k <= |pat| && forall i :: 0 <= i < k ==> pat[i] == '*'
    ensures AllStars(pat) <==> AllStars(pat[k..])
  {
    assert forall i :: k <= i < |pat| ==> pat[i] == pat[k..][i - k];
  }

  /** An empty subject is matched exactly by patterns of stars. */
  lemma {:induction false} EmptySubject(pat: string)
    ensures Matches(Tokens(pat), "") <==> AllStars(pat)
    decreases |pat|
  {
    if pat != "" {
      hide Matches;
      EmptyStep(Tokens(pat)[0], Tokens(pat)[1..]);
      assert Tokens(pat) == [Tokens(pat)[0]] + Tokens(pat)[1..];
      if |pat| >= 2 && pat[0] == '*' && pat[1] == '*' {
        if |pat| < 3 || pat[2] != '/' {
          EmptySubject(pat[2..]);
          StarsTail(pat, 2);
        }
      } else if pat[0] == '*' {
        EmptySubject(pat[1..]);
        StarsTail(pat, 1);
      }
    }
  }

  lemma EmptyPattern(str: string)
    ensures Matches(Tokens(""), str) <==> str == ""
  {
  }

  lemma LiteralStep(pat: string, str: string)
    requires pat != "" && pat[0] != '*' && str != ""
    ensures Matches(Tokens(pat), str) <==> pat[0] == str[0] && Matches(Tokens(pat[1..]), str[1..])
  {
    assert Tokens(pat)[1..] == Tokens(pat[1..]);
    Only(Tokens(pat), str, 1);
  }

  lemma StarStep(pat: string, str: string)
    requires pat != "" && pat[0] == '*' && (|pat| < 2 || pat[1] != '*')
    ensures Matches(Tokens(pat), str) <==>
            exists k: nat :: k <= |str| && SlashFree(str[..k]) && Matches(Tokens(pat[1..]), str[k..])
  {
    var tokens := Tokens(pat);
    assert tokens[0] == Star && tokens[1..] == Tokens(pat[1..]);
    if Matches(tokens, str) {
      var k: nat :| k <= |str| && Stands(tokens[0], str, k) && Matches(tokens[1..], str[k..]);
      assert SlashFree(str[..k]);
    }
    if k: nat :| k <= |str| && SlashFree(str[..k]) && Matches(Tokens(pat[1..]), str[k..]) {
      assert Stands(tokens[0], str, k);
    }
  }

  /** What follows `**`, with or without its slash. */
  function AfterDeep(pat: string): string
    requires |pat| >= 2
  {
    if |pat| >= 3 && pat[2] == '/' then pat[3..] else pat[2..]
  }

  lemma DeepStep(pat: string, str: string)
    requires |pat| >= 2 && pat[0] == '*' && pat[1] == '*' && str != ""
    ensures Matches(Tokens(pat), str) <==>
            exists k: nat :: k <= |str| && Matches(Tokens(AfterDeep(pat)), str[k..])
  {
    var tokens := Tokens(pat);
    assert tokens[1..] == Tokens(AfterDeep(pat));
    if Matches(tokens, str) {
      var k: nat :| k <= |str| && Stands(tokens[0], str, k) && Matches(tokens[1..], str[k..]);
      assert Matches(Tokens(AfterDeep(pat)), str[k..]);
    }
    if k: nat :| k <= |str| && Matches(Tokens(AfterDeep(pat)), str[k..]) {
      assert Stands(tokens[0], str, k);
    }
  }

  // ---- the matcher ----

  /** `**` tries every suffix of the subject, the empty one last. */
  method MatchDeep(pat: string, str: string) returns (r: bool)
    ensures r <==> exists k: nat :: k <= |str| && Matches(Tokens(pat), str[k..])
    decreases |pat|, 1
  {
    if pat == "" {
      assert Matches(Tokens(pat), str[|str|..]);
      return true;
    }
    var s := 0;
    while s < |str|
      invariant 0 <= s <= |str|
      invariant forall k: nat :: k < s ==> !Matches(Tokens(pat), str[k..])
    {
      var found := MatchHere(pat, str[s..]);
      if found {
        return true;
      }
      s := s + 1;
    }
    r := MatchHere(pat, str[|str|..]);
  }

  /** `*` tries every suffix up to the next slash or the end. */
  method MatchStar(pat: string, str: string) returns (r: bool)
    ensures r <==> exists k: nat :: k <= |str| && SlashFree(str[..k]) && Matches(Tokens(pat), str[k..])
    decreases |pat|, 1
  {
    var s := 0;
    while s < |str| && str[s] != '/'
      invariant 0 <= s <= |str|
      invariant SlashFree(str[..s])
      invariant forall k: nat :: k < s ==> !Matches(Tokens(pat), str[k..])
    {
      var found := MatchHere(pat, str[s..]);
      if found {
        return true;
      }
      s := s + 1;
    }
    r := MatchHere(pat, str[s..]);
    if s < |str| {
      forall k: nat | s < k <= |str|
        ensures !SlashFree(str[..k])
      {
        assert str[..k][s] == '/';
      }
    }
  }

  /** The loop over pattern and subject. */
  method MatchHere(pat: string, str: string) returns (r: bool)
    ensures r <==> Matches(Tokens(pat), str)
    decreases |pat|, 0
  {
    var p, s := 0, 0;
    hide Matches;
    hide Tokens;
    while p < |pat| && s < |str|
      invariant 0 <= p <= |pat| && 0 <= s <= |str|
      invariant Matches(Tokens(pat), str) <==> Matches(Tokens(pat[p..]), str[s..])
    {
      var here, rest := pat[p..], str[s..];
      if pat[p] == '*' && p + 1 < |pat| && pat[p + 1] == '*' {
        DeepStep(here, rest);
        assert AfterDeep(here) == if p + 2 < |pat| && pat[p + 2] == '/' then pat[p + 3..] else pat[p + 2..];
        p := p + 2;
        if p < |pat| && pat[p] == '/' {
          p := p + 1;
        }
        r := MatchDeep(pat[p..], rest);
        return;
      }
      if pat[p] == '*' {
        StarStep(here, rest);
        assert here[1..] == pat[p + 1..];
        r := MatchStar(pat[p + 1..], rest);
        return;
      }
      LiteralStep(here, rest);
      assert here[1..] == pat[p + 1..] && rest[1..] == str[s + 1..];
      if pat[p] != str[s] {
        return false;
      }
      p, s := p + 1, s + 1;
    }
    r := OnlyStars(pat[p..]);
    if p == |pat| {
      assert pat[p..] == "";
      EmptyPattern(str[s..]);
    } else {
      assert str[s..] == "";
      EmptySubject(pat[p..]);
    }
    r := r && s == |str|;
  }

  method OnlyStars(pat: string) returns (r: bool)
    ensures r <==> AllStars(pat)
  {
    var p := 0;
    while p < |pat| && pat[p] == '*'
      invariant 0 <= p <= |pat|
      invariant AllStars(pat[..p])
    {
      assert pat[..p + 1] == pat[..p] + [pat[p]];
      p := p + 1;
    }
    if p < |pat| {
      return false;
    }
    assert pat[..p] == pat;
    return true;
  }

  /** MAIN RESULT. For all patterns and subjects the matcher stops and answers
      yes exactly when the subject can be cut as the pattern says. */
  method GlobMatch(pat: Option<string>, str: Option<string>) returns (r: bool)
    ensures pat.None? || str.None? ==> (r <==> pat.None? && str.None?)
    ensures pat.Some? && str.Some? ==> (r <==> Means(pat.value, str.value))
  {
    if pat.None? || str.None? {
      return pat.None? && str.None?;
    }
    r := MatchHere(pat.value, str.value);
    MeansMatches(pat.value, str.value);
  }

  // ---- what users of patterns rely on ----

  /** A pattern without stars matches itself and nothing else. */
  lemma {:induction false} PlainPattern(pat: string, str: string)
    requires forall i :: 0 <= i < |pat| ==> pat[i] != '*'
    ensures Means(pat, str) <==> str == pat
    decreases |pat|
  {
    MeansMatches(pat, str);
    if pat != "" {
      if str == "" {
        EmptySubject(pat);
        assert pat[0] != '*';
      } else {
        LiteralStep(pat, str);
        PlainPattern(pat[1..], str[1..]);
        MeansMatches(pat[1..], str[1..]);
        assert str == [str[0]] + str[1..] && pat == [pat[0]] + pat[1..];
      }
    }
  }

  /** A directory followed by `**` covers everything below it, at any depth. */
  lemma {:induction false} DeepCoversTree(dir: string, below: string)
    requires forall i :: 0 <= i < |dir| ==> dir[i] != '*'
    ensures Means(dir + "**", dir + below)
    decreases |dir|
  {
    MeansMatches(dir + "**", dir + below);
    if dir == "" {
      assert dir + "**" == "**" && dir + below == below;
      if below == "" {
        EmptySubject("**");
      } else {
        DeepStep("**", below);
        assert AfterDeep("**") == "" && below[|below|..] == "";
        EmptyPattern(below[|below|..]);
      }
    } else {
      DeepCoversTree(dir[1..], below);
      MeansMatches(dir[1..] + "**", dir[1..] + below);
      assert (dir + "**")[1..] == dir[1..] + "**" && (dir + below)[1..] == dir[1..] + below;
      LiteralStep(dir + "**", dir + below);
    }
  }

  lemma SlashFreeIff(s: string)
    ensures SlashFree(s) <==> '/' !in s
  {
  }

  /** A final `*` stays within one path component. */
  lemma StarStaysInComponent(dir: string, name: string)
    requires forall i :: 0 <= i < |dir| ==> dir[i] != '*'
    ensures Means(dir + "*", dir + name) <==> '/' !in name
  {
    StarIsSlashFree(dir, name);
    SlashFreeIff(name);
  }

  lemma {:induction false} StarIsSlashFree(dir: string, name: string)
    requires forall i :: 0 <= i < |dir| ==> dir[i] != '*'
    ensures Means(dir + "*", dir + name) <==> SlashFree(name)
    decreases |dir|
  {
    MeansMatches(dir + "*", dir + name);
    if dir == "" {
      assert dir + "*" == "*" && dir + name == name;
      StarStep("*", name);
      assert "*"[1..] == "";
      if SlashFree(name) {
        assert name[..|name|] == name && name[|name|..] == "";
        EmptyPattern(name[|name|..]);
      }
      if k: nat :| k <= |name| && SlashFree(name[..k]) && Matches(Tokens(""), name[k..]) {
        EmptyPattern(name[k..]);
        assert name[..k] == name;
      }
    } else {
      StarIsSlashFree(dir[1..], name);
      MeansMatches(dir[1..] + "*", dir[1..] + name);
      assert (dir + "*")[1..] == dir[1..] + "*" && (dir + name)[1..] == dir[1..] + name;
      LiteralStep(dir + "*", dir + name);
    }
  }

  /** The slash of a `**` segment is swallowed, so a directory pattern does not
      match the directory itself: the subject has run out. */
  lemma DeepDirNeedsMore(rest: string)
    ensures !Means("**/" + rest, "")
  {
    MeansMatches("**/" + rest, "");
    EmptySubject("**/" + rest);
    assert ("**/" + rest)[2] == '/';
  }

  // ---- path rules ----

  datatype PathRule = PathRule(pattern: string, allow: bool, canRead: bool, canWrite: bool)

  datatype Policy = Policy(paths: Option<seq<PathRule>>, defaultDeny: bool)

  ghost predicate Hits(rules: seq<PathRule>, i: int, allow: bool, path: string) {
    0 <= i < |rules| && rules[i].allow == allow && Means(rules[i].pattern, path)
  }

  /** The decision: a matching deny rule refuses wherever it stands; otherwise
      the first matching allow rule decides; otherwise the default. */
  ghost predicate Allowed(rules: seq<PathRule>, defaultDeny: bool, path: string, isWrite: bool) {
    && (forall i :: !Hits(rules, i, false, path))
    && ((exists i :: Hits(rules, i, true, path) && (forall j :: j < i ==> !Hits(rules, j, true, path)) &&
           (if isWrite then rules[i].canWrite else rules[i].canRead))
        || ((forall i :: !Hits(rules, i, true, path)) && !defaultDeny))
  }

  lemma HitsShift(rule: PathRule, rest: seq<PathRule>, i: int, allow: bool, path: string)
    ensures Hits([rule] + rest, i, allow, path) <==>
            (i == 0 && rule.allow == allow && Means(rule.pattern, path)) || (i > 0 && Hits(rest, i - 1, allow, path))
  {
    hide Means;
  }

  lemma AllHitsShift(rule: PathRule, rest: seq<PathRule>, path: string)
    ensures forall i, allow :: Hits([rule] + rest, i, allow, path) <==>
            (i == 0 && rule.allow == allow && Means(rule.pattern, path)) || (i > 0 && Hits(rest, i - 1, allow, path))
    ensures forall i, allow :: Hits(rest, i, allow, path) <==> i >= 0 && Hits([rule] + rest, i + 1, allow, path)
  {
    hide Hits;
    hide Means;
    forall i, allow
      ensures Hits([rule] + rest, i, allow, path) <==>
              (i == 0 && rule.allow == allow && Means(rule.pattern, path)) || (i > 0 && Hits(rest, i - 1, allow, path))
    {
      HitsShift(rule, rest, i, allow, path);
    }
    forall i, allow
      ensures Hits(rest, i, allow, path) <==> i >= 0 && Hits([rule] + rest, i + 1, allow, path)
    {
      HitsShift(rule, rest, i + 1, allow, path);
      HitsInside(rest, i, allow, path);
    }
  }

  lemma HitsInside(rules: seq<PathRule>, i: int, allow: bool, path: string)
    ensures Hits(rules, i, allow, path) ==> i >= 0
  {
  }

  /** The decision, rule by rule: without rules the default; a rule that does not
      match changes nothing; a matching deny rule refuses; a matching allow rule
      gives its own permission unless a later deny rule matches. */
  lemma RuleByRule(rule: PathRule, rest: seq<PathRule>, defaultDeny: bool, path: string, isWrite: bool)
    ensures Allowed([], defaultDeny, path, isWrite) <==> !defaultDeny
    ensures !Means(rule.pattern, path) ==>
              (Allowed([rule] + rest, defaultDeny, path, isWrite) <==> Allowed(rest, defaultDeny, path, isWrite))
    ensures Means(rule.pattern, path) && !rule.allow ==> !Allowed([rule] + rest, defaultDeny, path, isWrite)
    ensures Means(rule.pattern, path) && rule.allow ==>
              (Allowed([rule] + rest, defaultDeny, path, isWrite) <==>
               (isWrite ==> rule.canWrite) && (!isWrite ==> rule.canRead) &&
               forall r <- rest :: Means(r.pattern, path) ==> r.allow)
  {
    NoRules(defaultDeny, path, isWrite);
    if !Means(rule.pattern, path) {
      SkipRule(rule, rest, defaultDeny, path, isWrite);
    } else {
      FirstRule(rule, rest, defaultDeny, path, isWrite);
    }
  }

  lemma NoRules(defaultDeny: bool, path: string, isWrite: bool)
    ensures Allowed([], defaultDeny, path, isWrite) <==> !defaultDeny
  {
    hide Means;
  }

  lemma FirstRule(rule: PathRule, rest: seq<PathRule>, defaultDeny: bool, path: string, isWrite: bool)
    requires Means(rule.pattern, path)
    ensures Allowed([rule] + rest, defaultDeny, path, isWrite) <==>
            && rule.allow && (isWrite ==> rule.canWrite) && (!isWrite ==> rule.canRead)
            && forall r <- rest :: Means(r.pattern, path) ==> r.allow
  {
    var rules := [rule] + rest;
    AllHitsShift(rule, rest, path);
    NoDenyIff(rest, path);
    hide Hits;
    hide Means;
    assert Hits(rules, 0, rule.allow, path);
    assert forall j, allow :: j < 0 ==> !Hits(rules, j, allow, path);
  }

  lemma NoDenyIff(rules: seq<PathRule>, path: string)
    ensures (forall r <- rules :: Means(r.pattern, path) ==> r.allow) <==> (forall i :: !Hits(rules, i, false, path))
  {
    hide Means;
    if forall i :: !Hits(rules, i, false, path) {
      forall r <- rules | Means(r.pattern, path)
        ensures r.allow
      {
        var i :| 0 <= i < |rules| && rules[i] == r;
        assert !Hits(rules, i, false, path);
      }
    }
  }

  lemma SkipRule(rule: PathRule, rest: seq<PathRule>, defaultDeny: bool, path: string, isWrite: bool)
    requires !Means(rule.pattern, path)
    ensures Allowed([rule] + rest, defaultDeny, path, isWrite) <==> Allowed(rest, defaultDeny, path, isWrite)
  {
    AllHitsShift(rule, rest, path);
    hide Means;
    hide Hits;
    hide Allowed;
    if Allowed([rule] + rest, defaultDeny, path, isWrite) {
      SkipDown(rule, rest, defaultDeny, path, isWrite);
    }
    if Allowed(rest, defaultDeny, path, isWrite) {
      SkipUp(rule, rest, defaultDeny, path, isWrite);
    }
  }

  lemma HitsWithin(rules: seq<PathRule>, i: int, allow: bool, path: string)
    requires Hits(rules, i, allow, path)
    ensures 0 <= i < |rules|
  {
  }

  lemma SkipDown(rule: PathRule, rest: seq<PathRule>, defaultDeny: bool, path: string, isWrite: bool)
    requires !Means(rule.pattern, path) && Allowed([rule] + rest, defaultDeny, path, isWrite)
    ensures Allowed(rest, defaultDeny, path, isWrite)
  {
    var rules := [rule] + rest;
    AllHitsShift(rule, rest, path);
    hide Means;
    hide Hits;
    if i :| Hits(rules, i, true, path) && (forall j :: j < i ==> !Hits(rules, j, true, path)) &&
            (0 <= i < |rules| && if isWrite then rules[i].canWrite else rules[i].canRead) {
      HitsWithin(rules, i, true, path);
      assert Hits(rest, i - 1, true, path) && rules[i] == rest[i - 1];
      assert forall j :: j < i - 1 ==> !Hits(rest, j, true, path);
    }
  }

  lemma SkipUp(rule: PathRule, rest: seq<PathRule>, defaultDeny: bool, path: string, isWrite: bool)
    requires !Means(rule.pattern, path) && Allowed(rest, defaultDeny, path, isWrite)
    ensures Allowed([rule] + rest, defaultDeny, path, isWrite)
  {
    var rules := [rule] + rest;
    AllHitsShift(rule, rest, path);
    hide Means;
    hide Hits;
    if i :| Hits(rest, i, true, path) && (forall j :: j < i ==> !Hits(rest, j, true, path)) &&
            (0 <= i < |rest| && if isWrite then rest[i].canWrite else rest[i].canRead) {
      HitsWithin(rest, i, true, path);
      assert Hits(rules, i + 1, true, path) && rules[i + 1] == rest[i];
      assert forall j :: j < i + 1 ==> !Hits(rules, j, true, path);
    }
  }

  method CheckPath(path: Option<string>, isWrite: bool, policy: Option<Policy>) returns (ok: bool)
    ensures path.None? ==> !ok
    ensures path.Some? && (policy.None? || policy.value.paths.None?) ==> ok
    ensures path.Some? && policy.Some? && policy.value.paths.Some? ==>
              (ok <==> Allowed(policy.value.paths.value, policy.value.defaultDeny, path.value, isWrite))
  {
    hide Means;
    if path.None? {
      return false;
    }
    if policy.None? || policy.value.paths.None? {
      return true;
    }
    var rules := policy.value.paths.value;
    var r := 0;
    while r < |rules|
      invariant 0 <= r <= |rules|
      invariant forall i :: i < r ==> !Hits(rules, i, false, path.value)
    {
      if !rules[r].allow {
        var hit := GlobMatch(Some(rules[r].pattern), path);
        if hit {
          assert Hits(rules, r, false, path.value);
          return false;
        }
      }
      r := r + 1;
    }
    r := 0;
    while r < |rules|
      invariant 0 <= r <= |rules|
      invariant forall i :: i < r ==> !Hits(rules, i, true, path.value)
    {
      if rules[r].allow {
        var hit := GlobMatch(Some(rules[r].pattern), path);
        if hit {
          assert Hits(rules, r, true, path.value);
          return if isWrite then rules[r].canWrite else rules[r].canRead;
        }
      }
      r := r + 1;
    }
    return !policy.value.defaultDeny;
  }
}
