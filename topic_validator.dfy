/**
 * Topic names and topic permissions (`TopicValidator`): the length, reserved
 * name, character, hyphen and per-type pattern rules; the cleaned name offered
 * as a suggestion; `suggest_topic_name`; and the permission table with its
 * upsert, revoke and check operations over the order read < write < admin < owner.
 *
 * The regular expressions of the source are written out as character and
 * prefix checks.
 */
module TopicValidation {
  import opened Common

  datatype TopicType = General | Team | Project | Private | System | Random

  function TopicTypeName(t: TopicType): string {
    match t
    case General => "general"
    case Team => "team"
    case Project => "project"
    case Private => "private"
    case System => "system"
    case Random => "random"
  }

  const MinTopicLength: nat := 3
  const MaxTopicLength: nat := 50
  const ReservedTopics: set<string> := {"system", "admin", "config", "logs", "metrics", "health"}

  // ---------------------------------------------------------------------------
  // Character classes
  // ---------------------------------------------------------------------------

  /** `[a-z0-9-]`. */
  predicate Allowed(c: char) {
    'a' <= c <= 'z' || '0' <= c <= '9' || c == '-'
  }

  predicate AllAllowed(s: string) {
    forall i :: 0 <= i < |s| ==> Allowed(s[i])
  }

  /**
   * The part of `s` a pattern ending in `$` has to cover: Python's `$` also
   * matches just before a final newline.
   */
  function Anchored(s: string): (r: string)
    ensures |s| - 1 <= |r| <= |s| && r == s[..|r|]
  {
    if |s| > 0 && s[|s| - 1] == '\n' then s[..|s| - 1] else s
  }

  /** A name of allowed characters has no final newline, so `$` must cover all of it. */
  lemma AllowedAnchored(s: string)
    requires AllAllowed(s)
    ensures Anchored(s) == s
  {
    if |s| > 0 {
      assert Allowed(s[|s| - 1]);
    }
  }

  /** `re.match(r"^[a-z0-9-]+$", s)`. */
  predicate MatchesCharset(s: string) {
    var body := Anchored(s);
    |body| > 0 && AllAllowed(body)
  }

  predicate NoDoubleHyphen(s: string) {
    forall i :: 0 <= i < |s| - 1 ==> !(s[i] == '-' && s[i + 1] == '-')
  }

  /** Neither `s.startswith("-")` nor `s.endswith("-")`. */
  predicate NoEdgeHyphen(s: string) {
    s == [] || (s[0] != '-' && s[|s| - 1] != '-')
  }

  /** A name the character, hyphen and edge rules all accept. */
  predicate Tidy(s: string) {
    AllAllowed(s) && NoDoubleHyphen(s) && NoEdgeHyphen(s)
  }

  predicate IsHyphen(c: char) {
    c == '-'
  }

  /** `"--" in s` is the index-wise rule. */
  lemma DoubleHyphenIff(s: string)
    ensures IsSubstring("--", s) <==> !NoDoubleHyphen(s)
  {
    if IsSubstring("--", s) {
      SubstringHasPosition("--", s);
      var i: nat :| OccursAt("--", s, i);
      assert s[i] == "--"[0] && s[i + 1] == "--"[1];
    }
    if !NoDoubleHyphen(s) {
      var i :| 0 <= i < |s| - 1 && s[i] == '-' && s[i + 1] == '-';
      assert s[i..i + 2] == "--";
      SubstringAt("--", s, i);
    }
  }

  // ---------------------------------------------------------------------------
  // Cleaning a name
  // ---------------------------------------------------------------------------

  /** `re.sub(r"[^a-z0-9-]", "-", s.lower())`. */
  function Replaced(s: string): (r: string)
    ensures |r| == |s| && AllAllowed(r)
    ensures forall i :: 0 <= i < |s| && Allowed(LowerChar(s[i])) ==> r[i] == LowerChar(s[i])
    ensures forall i :: 0 <= i < |s| && !Allowed(LowerChar(s[i])) ==> r[i] == '-'
  {
    seq(|s|, i requires 0 <= i < |s| => if Allowed(LowerChar(s[i])) then LowerChar(s[i]) else '-')
  }

  /** `re.sub(r"-+", "-", s)`: every run of hyphens becomes one. */
  function Collapsed(s: string): (r: string)
    ensures |r| <= |s|
    ensures AllAllowed(s) ==> AllAllowed(r)
    ensures NoDoubleHyphen(r)
    ensures s != [] ==> r != [] && r[|r| - 1] == s[|s| - 1]
  {
    if s == [] then []
    else
      var r := Collapsed(s[..|s| - 1]);
      var c := s[|s| - 1];
      assert AllAllowed(s) ==> AllAllowed(s[..|s| - 1]);
      if c == '-' && r != [] && r[|r| - 1] == '-' then r else r + [c]
  }

  /** `s` with its hyphens left out. */
  function WithoutHyphens(s: string): string {
    if s == [] then []
    else WithoutHyphens(s[..|s| - 1]) + (if s[|s| - 1] == '-' then [] else [s[|s| - 1]])
  }

  /** Collapsing loses nothing but hyphens. */
  lemma {:induction false} CollapsedKeepsLetters(s: string)
    ensures WithoutHyphens(Collapsed(s)) == WithoutHyphens(s)
  {
    if s != [] {
      var init := s[..|s| - 1];
      CollapsedKeepsLetters(init);
      var r := Collapsed(init);
      if !(s[|s| - 1] == '-' && r != [] && r[|r| - 1] == '-') {
        assert (r + [s[|s| - 1]])[..|r|] == r;
      }
    }
  }

  /** `strip` returns a contiguous piece of its argument. */
  lemma TrimIsSlice(s: string, drop: char -> bool)
    ensures var k := |s| - |TrimStart(s, drop)|;
      k + |Trim(s, drop)| <= |s| && Trim(s, drop) == s[k..k + |Trim(s, drop)|]
  {
  }

  /** The cleaned name of `validate_topic_name` and `suggest_topic_name`. */
  function Clean(s: string): (r: string)
    ensures Tidy(r) && |r| <= |s|
  {
    var collapsed := Collapsed(Replaced(s));
    TrimmedTidy(collapsed);
    Trim(collapsed, IsHyphen)
  }

  /** Stripping the hyphens off both ends of a name without double hyphens leaves a tidy name. */
  lemma TrimmedTidy(s: string)
    requires AllAllowed(s) && NoDoubleHyphen(s)
    ensures Tidy(Trim(s, IsHyphen))
  {
    TrimIsSlice(s, IsHyphen);
    var k := |s| - |TrimStart(s, IsHyphen)|;
    SliceKeepsCharacters(s, k, k + |Trim(s, IsHyphen)|);
  }

  lemma SliceKeepsCharacters(s: string, lo: nat, hi: nat)
    requires lo <= hi <= |s| && AllAllowed(s) && NoDoubleHyphen(s)
    ensures AllAllowed(s[lo..hi]) && NoDoubleHyphen(s[lo..hi])
  {
    assert forall i :: 0 <= i < hi - lo ==> s[lo..hi][i] == s[lo + i];
  }

  /** Cleaning an already tidy name changes nothing. */
  lemma {:induction false} CollapsedOfTidy(s: string)
    requires AllAllowed(s) && NoDoubleHyphen(s)
    ensures Collapsed(s) == s
  {
    if s != [] {
      var init := s[..|s| - 1];
      CollapsedOfTidy(init);
    }
  }

  lemma CleanOfTidy(s: string)
    requires Tidy(s)
    ensures Clean(s) == s
  {
    assert Replaced(s) == s;
    CollapsedOfTidy(s);
    assert TrimStart(s, IsHyphen) == s;
    assert TrimEnd(s, IsHyphen) == s;
  }

  // ---------------------------------------------------------------------------
  // validate_topic_name
  // ---------------------------------------------------------------------------

  /** `re.match(pattern, name)` for the type's pattern; a type without one accepts every name. */
  predicate MatchesPattern(t: TopicType, name: string) {
    match t
    case General => MatchesCharset(name)
    case Team => var body := Anchored(name); |body| > 5 && body[..5] == "team-" && AllAllowed(body[5..])
    case Project => var body := Anchored(name); |body| > 8 && body[..8] == "project-" && AllAllowed(body[8..])
    case Private => var body := Anchored(name); |body| > 8 && body[..8] == "private-" && AllAllowed(body[8..])
    case Random => Anchored(name) == "random"
    case System => true
  }

  /** The regular expression the source shows for each type that has one. */
  function PatternText(t: TopicType): string {
    match t
    case General => "^[a-z0-9-]+$"
    case Team => "^team-[a-z0-9-]+$"
    case Project => "^project-[a-z0-9-]+$"
    case Private => "^private-[a-z0-9-]+$"
    case Random => "^random$"
    case System => ""
  }

  datatype NameIssue = TooShort | TooLong | Reserved | BadCharacters | DoubleHyphen | EdgeHyphen
                     | PatternMismatch(kind: TopicType)

  function NameIssueText(i: NameIssue, name: string): string {
    match i
    case TooShort => "Topic name too short (minimum 3 characters)"
    case TooLong => "Topic name too long (maximum 50 characters)"
    case Reserved => "Topic name '" + name + "' is reserved"
    case BadCharacters => "Topic name can only contain lowercase letters, numbers, and hyphens"
    case DoubleHyphen => "Topic name cannot contain consecutive hyphens"
    case EdgeHyphen => "Topic name cannot start or end with a hyphen"
    case PatternMismatch(t) => "Topic name does not match " + TopicTypeName(t) + " pattern: " + PatternText(t)
  }

  /** Whether `name` breaks the rule whose error is `issue`. */
  predicate Breaks(name: string, kind: Option<TopicType>, issue: NameIssue) {
    match issue
    case TooShort => |name| < MinTopicLength
    case TooLong => |name| > MaxTopicLength
    case Reserved => Lower(name) in ReservedTopics
    case BadCharacters => !MatchesCharset(name)
    case DoubleHyphen => IsSubstring("--", name)
    case EdgeHyphen => !NoEdgeHyphen(name)
    case PatternMismatch(t) => kind == Some(t) && t != System && !MatchesPattern(t, name)
  }

  /** The rules in the order `validate_topic_name` checks them; the pattern rule only when a type is given. */
  function Rules(kind: Option<TopicType>): seq<NameIssue> {
    [TooShort, TooLong, Reserved, BadCharacters, DoubleHyphen, EdgeHyphen]
    + (if kind.Some? then [PatternMismatch(kind.value)] else [])
  }

  /** The rules of `rules` that `name` breaks, in order. */
  function Broken(name: string, kind: Option<TopicType>, rules: seq<NameIssue>): (r: seq<NameIssue>)
    ensures forall i :: i in r <==> i in rules && Breaks(name, kind, i)
  {
    if rules == [] then []
    else (if Breaks(name, kind, rules[0]) then [rules[0]] else []) + Broken(name, kind, rules[1..])
  }

  /** The errors of `validate_topic_name`, in the order the checks run. */
  function Issues(name: string, kind: Option<TopicType>): seq<NameIssue> {
    Broken(name, kind, Rules(kind))
  }

  /** Each rule contributes its error exactly when it is broken. */
  lemma IssuesFacts(name: string, kind: Option<TopicType>)
    ensures forall i :: i in Issues(name, kind) <==> Breaks(name, kind, i)
  {
    forall i | Breaks(name, kind, i)
      ensures i in Rules(kind)
    {
      match i
      case PatternMismatch(t) =>
        assert Rules(kind)[6] == i;
      case _ =>
    }
  }

  /** A name passes exactly when it breaks none of the rules. */
  lemma IssuesEmpty(name: string, kind: Option<TopicType>)
    ensures Issues(name, kind) == [] <==>
      MinTopicLength <= |name| <= MaxTopicLength && Lower(name) !in ReservedTopics
      && MatchesCharset(name) && NoDoubleHyphen(name) && NoEdgeHyphen(name)
      && (kind.Some? ==> MatchesPattern(kind.value, name))
  {
    IssuesFacts(name, kind);
    DoubleHyphenIff(name);
    if Issues(name, kind) == [] {
      assert !Breaks(name, kind, TooShort) && !Breaks(name, kind, TooLong) && !Breaks(name, kind, Reserved);
      assert !Breaks(name, kind, BadCharacters) && !Breaks(name, kind, DoubleHyphen) && !Breaks(name, kind, EdgeHyphen);
      if kind.Some? {
        assert !Breaks(name, kind, PatternMismatch(kind.value));
      }
    } else {
      assert Breaks(name, kind, Issues(name, kind)[0]);
    }
  }

  datatype ValidationResult = ValidationResult(isValid: bool, errors: seq<NameIssue>, warnings: seq<string>,
                                               suggestions: seq<string>)

  /** `validate_topic_name`; no similar topics are ever found, so there are no warnings. */
  function ValidateName(name: string, kind: Option<TopicType>): (r: ValidationResult)
    ensures r.isValid <==> r.errors == []
    ensures r.warnings == []
    ensures |r.suggestions| <= 1
  {
    var errors := Issues(name, kind);
    var cleaned := Clean(name);
    var suggestions := if errors != [] && |cleaned| >= MinTopicLength then ["Consider using: " + cleaned] else [];
    ValidationResult(errors == [], errors, [], suggestions)
  }

  /** A suggestion is offered only for a rejected name, and the name it offers passes the character and hyphen rules. */
  lemma SuggestionFacts(name: string, kind: Option<TopicType>)
    ensures var r := ValidateName(name, kind);
      (r.suggestions != [] <==> !r.isValid && |Clean(name)| >= MinTopicLength)
      && (r.suggestions != [] ==> r.suggestions[0] == "Consider using: " + Clean(name))
    ensures var c := Clean(name);
      c != [] ==> BadCharacters !in Issues(c, kind) && DoubleHyphen !in Issues(c, kind) && EdgeHyphen !in Issues(c, kind)
  {
    var c := Clean(name);
    if c != [] {
      TidyPassesCharacterRules(c, kind);
    }
  }

  /** A tidy non-empty name breaks none of the character and hyphen rules. */
  lemma TidyPassesCharacterRules(name: string, kind: Option<TopicType>)
    requires Tidy(name) && name != []
    ensures BadCharacters !in Issues(name, kind) && DoubleHyphen !in Issues(name, kind) && EdgeHyphen !in Issues(name, kind)
  {
    AllowedAnchored(name);
    IssuesFacts(name, kind);
    DoubleHyphenIff(name);
  }

  /** `"test-topic"` is valid; `"ab"` is rejected as too short. */
  lemma ValidateExamples()
    ensures ValidateName("test-topic", None).isValid
    ensures !ValidateName("ab", None).isValid
  {
    TestTopicTidy();
    AllowedAnchored("test-topic");
    IssuesEmpty("test-topic", None);
    IssuesFacts("ab", None);
    assert Breaks("ab", None, TooShort);
  }

  /**
   * Since `$` also matches just before a final newline, a valid name followed
   * by one newline is still valid when the longer name fits.
   */
  lemma NewlineKeepsValid(s: string, kind: Option<TopicType>)
    requires ValidateName(s, kind).isValid && |s| < MaxTopicLength && '\n' !in s
    ensures ValidateName(s + "\n", kind).isValid
  {
    var t := s + "\n";
    IssuesEmpty(s, kind);
    NewlineAnchored(s);
    NewlineNotReserved(s);
    NewlineHyphens(s);
    IssuesEmpty(t, kind);
    assert Issues(t, kind) == [];
  }

  /** With and without the final newline, the anchored pattern sees the same text. */
  lemma NewlineAnchored(s: string)
    requires '\n' !in s
    ensures Anchored(s + "\n") == s == Anchored(s)
    ensures MatchesCharset(s + "\n") == MatchesCharset(s)
    ensures forall k :: MatchesPattern(k, s + "\n") == MatchesPattern(k, s)
  {
    assert (s + "\n")[..|s|] == s;
    if |s| > 0 {
      assert s[|s| - 1] in s;
    }
  }

  /** No reserved name ends in a newline. */
  lemma NewlineNotReserved(s: string)
    ensures Lower(s + "\n") !in ReservedTopics
  {
    assert Lower(s + "\n")[|s|] == '\n';
    assert forall w | w in ReservedTopics :: w[|w| - 1] != '\n';
  }

  /** A final newline adds no hyphen, so the hyphen rules still hold. */
  lemma NewlineHyphens(s: string)
    requires NoDoubleHyphen(s) && NoEdgeHyphen(s) && s != []
    ensures NoDoubleHyphen(s + "\n") && NoEdgeHyphen(s + "\n")
  {
    var t := s + "\n";
    assert forall i :: 0 <= i < |s| ==> t[i] == s[i];
  }

  lemma TestTopicTidy()
    ensures Tidy("test-topic") && Lower("test-topic") !in ReservedTopics
  {
    var name := "test-topic";
    assert |Lower(name)| == 10;
  }

  // ---------------------------------------------------------------------------
  // suggest_topic_name
  // ---------------------------------------------------------------------------

  /** The prefix `suggest_topic_name` puts in front of a name of the type. */
  function TypePrefix(t: TopicType): string {
    match t
    case Team => "team-"
    case Project => "project-"
    case Private => "private-"
    case _ => ""
  }

  /** The cleaned name, lengthened with `"-topic"` when it is shorter than the minimum. */
  function Lengthened(cleaned: string): string {
    if |cleaned| < MinTopicLength then cleaned + "-topic" else cleaned
  }

  /** The name with its type's prefix put in front, unless it already starts with it. */
  function WithTypePrefix(name: string, kind: TopicType): string {
    var prefix := TypePrefix(kind);
    if prefix != "" && !(prefix <= name) then prefix + name else name
  }

  /** Cut to `MaxTopicLength`, dropping the hyphens the cut leaves at the end. */
  function Truncated(s: string): (r: string)
    ensures |r| <= MaxTopicLength
  {
    if |s| > MaxTopicLength then TrimEnd(s[..MaxTopicLength], IsHyphen) else s
  }

  /** `suggest_topic_name`. */
  function SuggestName(base: string, kind: TopicType): (r: string)
    ensures |r| <= MaxTopicLength
  {
    Truncated(WithTypePrefix(Lengthened(Clean(base)), kind))
  }

  lemma LengthenedTidy(s: string)
    requires Tidy(s) && s != []
    ensures Tidy(Lengthened(s)) && |Lengthened(s)| >= MinTopicLength
  {
    if |s| < MinTopicLength {
      var r := s + "-topic";
      assert forall i :: |s| <= i < |r| ==> r[i] == "-topic"[i - |s|];
    }
  }

  /** A tidy name keeps being tidy with its prefix in front, and then starts with that prefix. */
  lemma WithTypePrefixTidy(s: string, kind: TopicType)
    requires Tidy(s) && |s| >= MinTopicLength
    ensures var r := WithTypePrefix(s, kind);
      Tidy(r) && |r| >= MinTopicLength && |r| > |TypePrefix(kind)| && r[..|TypePrefix(kind)|] == TypePrefix(kind)
  {
    var p := TypePrefix(kind);
    if p != "" && !(p <= s) {
      PrependTidy(p, s);
    } else if p != "" {
      assert s[|s| - 1] != '-' && s[|p| - 1] == '-';
    }
  }

  lemma PrependTidy(p: string, s: string)
    requires Tidy(s) && s != [] && AllAllowed(p) && NoDoubleHyphen(p) && p != [] && p[0] != '-' && p[|p| - 1] == '-'
    ensures Tidy(p + s) && (p + s)[..|p|] == p
  {
    var r := p + s;
    assert forall i :: 0 <= i < |p| ==> r[i] == p[i];
    assert forall i :: |p| <= i < |r| ==> r[i] == s[i - |p|];
  }

  /** Truncating a tidy name leaves a tidy name that keeps its start and loses at most one more character. */
  lemma TruncatedTidy(s: string)
    requires Tidy(s)
    ensures var r := Truncated(s);
      Tidy(r) && r == s[..|r|] && |r| >= (if |s| > MaxTopicLength then MaxTopicLength - 1 else |s|)
  {
    if |s| > MaxTopicLength {
      var cut := s[..MaxTopicLength];
      var r := TrimEnd(cut, IsHyphen);
      assert cut[MaxTopicLength - 2] == s[MaxTopicLength - 2] && cut[MaxTopicLength - 1] == s[MaxTopicLength - 1];
      assert forall i :: 0 <= i < |r| ==> r[i] == s[i];
      assert r == s[..|r|];
    }
  }

  /**
   * When the cleaned base name is not empty, the suggestion is a tidy name of
   * 3 to 50 characters that carries its type's prefix.
   */
  lemma SuggestNameTidy(base: string, kind: TopicType)
    requires Clean(base) != []
    ensures var r := SuggestName(base, kind);
      Tidy(r) && MinTopicLength <= |r| <= MaxTopicLength
      && |r| > |TypePrefix(kind)| && r[..|TypePrefix(kind)|] == TypePrefix(kind)
  {
    var long := Lengthened(Clean(base));
    LengthenedTidy(Clean(base));
    var prefixed := WithTypePrefix(long, kind);
    WithTypePrefixTidy(long, kind);
    TruncatedTidy(prefixed);
    PrefixOfPrefix(Truncated(prefixed), prefixed, |TypePrefix(kind)|);
  }

  lemma PrefixOfPrefix(r: string, s: string, n: nat)
    requires |r| <= |s| && r == s[..|r|] && n <= |r|
    ensures r[..n] == s[..n]
  {
  }

  /** Apart from possibly being reserved, a suggestion for any type but `Random` passes validation against that type. */
  lemma SuggestionValid(base: string, kind: TopicType)
    requires Clean(base) != [] && kind != Random
    ensures var r := SuggestName(base, kind);
      forall i :: i in Issues(r, Some(kind)) <==> i == Reserved && Lower(r) in ReservedTopics
  {
    var r := SuggestName(base, kind);
    SuggestNameTidy(base, kind);
    PrefixedMatchesPattern(kind, r);
    TidyBreaksOnlyReserved(r, kind);
    IssuesFacts(r, Some(kind));
  }

  /** A tidy name of allowed length that matches its type's pattern can break only the reserved-name rule. */
  lemma TidyBreaksOnlyReserved(r: string, kind: TopicType)
    requires Tidy(r) && MinTopicLength <= |r| <= MaxTopicLength && MatchesPattern(kind, r)
    ensures forall i :: Breaks(r, Some(kind), i) <==> i == Reserved && Lower(r) in ReservedTopics
  {
    DoubleHyphenIff(r);
    AllowedAnchored(r);
  }

  lemma PrefixedMatchesPattern(kind: TopicType, r: string)
    requires kind != Random && Tidy(r) && |r| > |TypePrefix(kind)| && r[..|TypePrefix(kind)|] == TypePrefix(kind)
    ensures MatchesPattern(kind, r)
  {
    AllowedAnchored(r);
    var n := |TypePrefix(kind)|;
    assert forall i :: 0 <= i < |r| - n ==> r[n..][i] == r[n + i];
  }

  /** A base name with nothing to keep yields `"-topic"`, which itself starts with a hyphen. */
  lemma SuggestNameOfNothing()
    ensures SuggestName("", General) == "-topic"
    ensures EdgeHyphen in Issues(SuggestName("", General), Some(General))
  {
    SuggestEmpty();
    HyphenTopicRejected();
  }

  lemma SuggestEmpty()
    ensures SuggestName("", General) == "-topic"
  {
    var c := Clean("");
    assert c == "";
    var l := Lengthened(c);
    assert l == "-topic" by { assert "" + "-topic" == "-topic"; }
    assert TypePrefix(General) == "";
    assert WithTypePrefix(l, General) == l;
    assert Truncated(l) == l;
  }

  lemma HyphenTopicRejected()
    ensures EdgeHyphen in Issues("-topic", Some(General))
  {
    assert Breaks("-topic", Some(General), EdgeHyphen);
    IssuesFacts("-topic", Some(General));
  }

  // ---------------------------------------------------------------------------
  // Permissions
  // ---------------------------------------------------------------------------

  datatype PermissionLevel = Read | Write | Admin | Owner

  function LevelRank(l: PermissionLevel): nat {
    match l
    case Read => 1
    case Write => 2
    case Admin => 3
    case Owner => 4
  }

  /** `_permission_level_sufficient`. */
  predicate Sufficient(current: PermissionLevel, required: PermissionLevel) {
    LevelRank(current) >= LevelRank(required)
  }

  /** Sufficiency is a total order with `Read` at the bottom and `Owner` at the top. */
  lemma SufficientIsOrder(a: PermissionLevel, b: PermissionLevel, c: PermissionLevel)
    ensures Sufficient(a, a) && Sufficient(a, Read) && Sufficient(Owner, a)
    ensures Sufficient(a, b) || Sufficient(b, a)
    ensures Sufficient(a, b) && Sufficient(b, a) ==> a == b
    ensures Sufficient(a, b) && Sufficient(b, c) ==> Sufficient(a, c)
  {
  }

  datatype TopicPermission = TopicPermission(agentId: string, level: PermissionLevel, grantedBy: string,
                                             grantedAt: string)

  /** The position of the agent's first record. */
  function AgentIndex(perms: seq<TopicPermission>, agentId: string): (k: Option<nat>)
    ensures k.Some? ==> (k.value < |perms| && perms[k.value].agentId == agentId
                         && forall j :: 0 <= j < k.value ==> perms[j].agentId != agentId)
    ensures k.None? ==> forall j :: 0 <= j < |perms| ==> perms[j].agentId != agentId
  {
    if perms == [] then None
    else if perms[0].agentId == agentId then Some(0)
    else
      var k := AgentIndex(perms[1..], agentId);
      if k.Some? then Some(k.value + 1) else None
  }

  /** At most one record per agent. */
  predicate UniqueAgents(perms: seq<TopicPermission>) {
    forall i, j :: 0 <= i < j < |perms| ==> perms[i].agentId != perms[j].agentId
  }

  /** `grant_permission` on one topic's list: update the agent's first record, or append a new one. */
  function Granted(perms: seq<TopicPermission>, agentId: string, level: PermissionLevel, grantedBy: string)
    : seq<TopicPermission>
  {
    match AgentIndex(perms, agentId)
    case Some(k) => perms[k := perms[k].(level := level, grantedBy := grantedBy)]
    case None => perms + [TopicPermission(agentId, level, grantedBy, "now")]
  }

  /** `revoke_permission` on one topic's list: every record of the agent goes. */
  function Revoked(perms: seq<TopicPermission>, agentId: string): (r: seq<TopicPermission>)
    ensures |r| <= |perms|
    ensures forall i :: 0 <= i < |r| ==> r[i] in perms && r[i].agentId != agentId
    ensures forall i :: 0 <= i < |perms| && perms[i].agentId != agentId ==> perms[i] in r
    ensures |r| == |perms| <==> forall i :: 0 <= i < |perms| ==> perms[i].agentId != agentId
  {
    if perms == [] then []
    else
      var rest := Revoked(perms[1..], agentId);
      if perms[0].agentId == agentId then rest else [perms[0]] + rest
  }

  /** Revoking keeps at most one record per agent. */
  lemma {:induction false} RevokedUnique(perms: seq<TopicPermission>, agentId: string)
    requires UniqueAgents(perms)
    ensures UniqueAgents(Revoked(perms, agentId))
  {
    if perms != [] {
      RevokedUnique(perms[1..], agentId);
      var rest := Revoked(perms[1..], agentId);
      assert forall i :: 0 <= i < |rest| ==> rest[i] in perms[1..];
    }
  }

  /**
   * Granting leaves exactly one record for the agent, holding the new level and
   * grantor, and every other agent's record as it was.
   */
  lemma GrantUpserts(perms: seq<TopicPermission>, agentId: string, level: PermissionLevel, grantedBy: string)
    requires UniqueAgents(perms)
    ensures var g := Granted(perms, agentId, level, grantedBy);
      UniqueAgents(g)
      && AgentIndex(g, agentId).Some?
      && g[AgentIndex(g, agentId).value].level == level
      && g[AgentIndex(g, agentId).value].grantedBy == grantedBy
      && (forall b :: b != agentId ==> AgentIndex(g, b) == AgentIndex(perms, b))
      && (forall i :: 0 <= i < |perms| && perms[i].agentId != agentId ==> g[i] == perms[i])
      && |g| == |perms| + (if AgentIndex(perms, agentId).Some? then 0 else 1)
  {
    var g := Granted(perms, agentId, level, grantedBy);
    forall b | b != agentId
      ensures AgentIndex(g, b) == AgentIndex(perms, b)
    {
      AgentIndexSameIds(perms, g, b, agentId);
    }
    match AgentIndex(perms, agentId)
    case Some(k) =>
      AgentIndexUpdate(perms, k, perms[k].(level := level, grantedBy := grantedBy), agentId);
    case None =>
      AgentIndexAppend(perms, TopicPermission(agentId, level, grantedBy, "now"), agentId);
  }

  /** Two lists that agree on every agent id but `a`'s locate any other agent at the same place. */
  lemma {:induction false} AgentIndexSameIds(p: seq<TopicPermission>, q: seq<TopicPermission>, b: string, a: string)
    requires b != a && |p| <= |q|
    requires forall i :: 0 <= i < |p| ==> (p[i].agentId == b <==> q[i].agentId == b)
    requires forall i :: |p| <= i < |q| ==> q[i].agentId != b
    ensures AgentIndex(p, b) == AgentIndex(q, b)
  {
    if p != [] {
      AgentIndexSameIds(p[1..], q[1..], b, a);
    } else if q != [] {
      assert q[0].agentId != b;
      AgentIndexSameIds(p, q[1..], b, a);
    }
  }

  /** Granting the same level twice is the same as granting it once. */
  lemma GrantIdempotent(perms: seq<TopicPermission>, agentId: string, level: PermissionLevel, grantedBy: string)
    ensures Granted(Granted(perms, agentId, level, grantedBy), agentId, level, grantedBy)
         == Granted(perms, agentId, level, grantedBy)
  {
    var g := Granted(perms, agentId, level, grantedBy);
    match AgentIndex(perms, agentId)
    case Some(k) =>
      AgentIndexUpdate(perms, k, perms[k].(level := level, grantedBy := grantedBy), agentId);
    case None =>
      AgentIndexAppend(perms, TopicPermission(agentId, level, grantedBy, "now"), agentId);
  }

  lemma AgentIndexUpdate(perms: seq<TopicPermission>, k: nat, p: TopicPermission, agentId: string)
    requires AgentIndex(perms, agentId) == Some(k) && p.agentId == agentId
    ensures AgentIndex(perms[k := p], agentId) == Some(k)
  {
    AgentIndexFirst(perms[k := p], k, agentId);
  }

  lemma AgentIndexAppend(perms: seq<TopicPermission>, p: TopicPermission, agentId: string)
    requires AgentIndex(perms, agentId).None? && p.agentId == agentId
    ensures AgentIndex(perms + [p], agentId) == Some(|perms|)
  {
    AgentIndexFirst(perms + [p], |perms|, agentId);
  }

  /** The first matching position is the one `AgentIndex` finds. */
  lemma {:induction false} AgentIndexFirst(perms: seq<TopicPermission>, k: nat, agentId: string)
    requires k < |perms| && perms[k].agentId == agentId
    requires forall j :: 0 <= j < k ==> perms[j].agentId != agentId
    ensures AgentIndex(perms, agentId) == Some(k)
  {
    if k > 0 {
      AgentIndexFirst(perms[1..], k - 1, agentId);
    }
  }

  /** `check_permission` on the table. */
  predicate Check(table: map<string, seq<TopicPermission>>, topic: string, agentId: string, required: PermissionLevel) {
    topic in table && match AgentIndex(table[topic], agentId)
      case Some(k) => Sufficient(table[topic][k].level, required)
      case None => false
  }

  /** After a grant the check answers by the granted level; after a revoke it answers no. */
  lemma CheckAfterGrantAndRevoke(table: map<string, seq<TopicPermission>>, topic: string, agentId: string,
                                 level: PermissionLevel, grantedBy: string, required: PermissionLevel)
    requires topic in table ==> UniqueAgents(table[topic])
    ensures var granted := table[topic := Granted(Get(table, topic, []), agentId, level, grantedBy)];
      Check(granted, topic, agentId, required) == Sufficient(level, required)
      && !Check(granted[topic := Revoked(granted[topic], agentId)], topic, agentId, required)
  {
    GrantUpserts(Get(table, topic, []), agentId, level, grantedBy);
    var g := Granted(Get(table, topic, []), agentId, level, grantedBy);
    assert AgentIndex(Revoked(g, agentId), agentId).None?;
  }

  datatype CreationIssue = InvalidName(issue: NameIssue) | AlreadyExists | PrivateNeedsPrivateType

  function CreationIssueText(i: CreationIssue, name: string): string {
    match i
    case InvalidName(n) => NameIssueText(n, name)
    case AlreadyExists => "Topic '" + name + "' already exists"
    case PrivateNeedsPrivateType => "Private topics must be of type PRIVATE"
  }

  function AsCreationIssues(issues: seq<NameIssue>): (r: seq<CreationIssue>)
    ensures |r| == |issues| && forall i :: 0 <= i < |r| ==> r[i] == InvalidName(issues[i])
  {
    seq(|issues|, i requires 0 <= i < |issues| => InvalidName(issues[i]))
  }

  class TopicValidator {
    /** Topic name to its permission records, in the order granted. */
    var topicPermissions: map<string, seq<TopicPermission>>

    ghost predicate Valid()
      reads this
    {
      forall t :: t in topicPermissions ==> UniqueAgents(topicPermissions[t])
    }

    constructor ()
      ensures Valid() && topicPermissions == map[]
    {
      topicPermissions := map[];
    }

    /** The search loop of `grant_permission` and `check_permission`. */
    static method FindAgent(perms: seq<TopicPermission>, agentId: string) returns (k: Option<nat>)
      ensures k == AgentIndex(perms, agentId)
    {
      var i := 0;
      while i < |perms|
        invariant 0 <= i <= |perms|
        invariant forall j :: 0 <= j < i ==> perms[j].agentId != agentId
      {
        if perms[i].agentId == agentId {
          AgentIndexFirst(perms, i, agentId);
          return Some(i);
        }
        i := i + 1;
      }
      return None;
    }

    /** `grant_permission`: always succeeds. */
    method GrantPermission(topic: string, agentId: string, level: PermissionLevel, grantedBy: string)
      returns (ok: bool)
      requires Valid()
      modifies this
      ensures Valid() && ok
      ensures topicPermissions
           == old(topicPermissions)[topic := Granted(Get(old(topicPermissions), topic, []), agentId, level, grantedBy)]
    {
      if topic !in topicPermissions {
        topicPermissions := topicPermissions[topic := []];
      }
      var perms := topicPermissions[topic];
      GrantUpserts(perms, agentId, level, grantedBy);
      var k := FindAgent(perms, agentId);
      if k.Some? {
        var p := perms[k.value];
        topicPermissions := topicPermissions[topic := perms[k.value := p.(level := level, grantedBy := grantedBy)]];
        return true;
      }
      topicPermissions := topicPermissions[topic := perms + [TopicPermission(agentId, level, grantedBy, "now")]];
      return true;
    }

    /** `revoke_permission`: true iff the topic is known and the agent had a record on it. */
    method RevokePermission(topic: string, agentId: string, revokedBy: string) returns (ok: bool)
      requires Valid()
      modifies this
      ensures Valid()
      ensures ok <==> topic in old(topicPermissions) && AgentIndex(old(topicPermissions)[topic], agentId).Some?
      ensures topic in old(topicPermissions) ==>
        topicPermissions == old(topicPermissions)[topic := Revoked(old(topicPermissions)[topic], agentId)]
      ensures topic !in old(topicPermissions) ==> topicPermissions == old(topicPermissions)
    {
      if topic !in topicPermissions {
        return false;
      }
      var before := topicPermissions[topic];
      var after := Revoked(before, agentId);
      RevokedUnique(before, agentId);
      topicPermissions := topicPermissions[topic := after];
      ok := |after| < |before|;
    }

    /** `check_permission`. */
    method CheckPermission(topic: string, agentId: string, required: PermissionLevel) returns (ok: bool)
      ensures ok == Check(topicPermissions, topic, agentId, required)
    {
      if topic !in topicPermissions {
        return false;
      }
      var perms := topicPermissions[topic];
      var k := FindAgent(perms, agentId);
      if k.Some? {
        return Sufficient(perms[k.value].level, required);
      }
      return false;
    }

    /** `validate_topic_creation`. */
    function ValidateCreation(name: string, kind: TopicType, createdBy: string, isPrivate: bool)
      : (r: (bool, seq<CreationIssue>))
      reads this
      ensures r.0 <==> r.1 == []
      ensures r.0 <==> Issues(name, Some(kind)) == [] && name !in topicPermissions && !(isPrivate && kind != Private)
      ensures AlreadyExists in r.1 <==> name in topicPermissions
      ensures PrivateNeedsPrivateType in r.1 <==> isPrivate && kind != Private
    {
      var errors := AsCreationIssues(Issues(name, Some(kind)))
        + (if name in topicPermissions then [AlreadyExists] else [])
        + (if isPrivate && kind != Private then [PrivateNeedsPrivateType] else []);
      (|errors| == 0, errors)
    }
  }

  /** Revoking an agent without records keeps the list as it is. */
  lemma {:induction false} RevokedKeepsAll(perms: seq<TopicPermission>, agentId: string)
    requires AgentIndex(perms, agentId).None?
    ensures Revoked(perms, agentId) == perms
  {
    if perms != [] {
      assert AgentIndex(perms[1..], agentId).None?;
      RevokedKeepsAll(perms[1..], agentId);
    }
  }

  /** Grant read, check read, revoke, check read again: yes, then no. */
  method PermissionScenario() returns (before: bool, revoked: bool, after: bool)
    ensures before && revoked && !after
  {
    var v := new TopicValidator();
    var granted := v.GrantPermission("test-topic", "agent-1", Read, "admin");
    before := v.CheckPermission("test-topic", "agent-1", Read);
    revoked := v.RevokePermission("test-topic", "agent-1", "admin");
    after := v.CheckPermission("test-topic", "agent-1", Read);
    CheckAfterGrantAndRevoke(map[], "test-topic", "agent-1", Read, "admin", Read);
  }
}
