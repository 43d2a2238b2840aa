/**
 * Rule-based message routing (`MessageRouter`): rules kept in descending
 * priority order, each evaluated against a message to choose target topics,
 * a bounded history of routes, statistics, and export and import of rules.
 */
module Router {
  import opened Common
  import opened Message

  datatype RuleType = ContentKeyword | ContentRegex | SenderRole | MessageKind | MinPriority | Metadata | Custom

  /** The string value of each `RoutingRuleType` member. */
  function RuleTypeName(t: RuleType): string {
    match t
    case ContentKeyword => "content_keyword"
    case ContentRegex => "content_regex"
    case SenderRole => "sender_role"
    case MessageKind => "message_type"
    case MinPriority => "priority"
    case Metadata => "metadata"
    case Custom => "custom"
  }

  /** `RoutingRuleType(s)`, which raises `ValueError` on any other string. */
  function ParseRuleType(s: string): (r: Option<RuleType>)
    ensures r.Some? ==> RuleTypeName(r.value) == s
  {
    if s == "content_keyword" then Some(ContentKeyword)
    else if s == "content_regex" then Some(ContentRegex)
    else if s == "sender_role" then Some(SenderRole)
    else if s == "message_type" then Some(MessageKind)
    else if s == "priority" then Some(MinPriority)
    else if s == "metadata" then Some(Metadata)
    else if s == "custom" then Some(Custom)
    else None
  }

  /** Each rule type's name parses back to it. */
  lemma RuleTypeNameRoundTrip(t: RuleType)
    ensures ParseRuleType(RuleTypeName(t)) == Some(t)
  {
  }

  /**
   * A rule's condition. The source types it as a string, a dict or a callable,
   * and its callers also pass lists of strings.
   */
  datatype Condition =
    | Literal(text: string)
    | Listed(items: seq<string>)
    | Mapping(entries: map<string, Value>)
    | Callable(call: MessagePredicate)

  datatype RoutingRule = RoutingRule(
    ruleId: string,
    ruleType: RuleType,
    condition: Condition,
    targetTopics: seq<string>,
    priority: int,
    active: bool,
    description: Option<string>)

  /** The sort key: higher priority rules are evaluated first. */
  function PriorityOf(r: RoutingRule): int {
    r.priority
  }

  // ---------------------------------------------------------------------------
  // Evaluating one rule
  // ---------------------------------------------------------------------------

  /** `priority_order.get(name, 0)`: the rank of a priority name, 0 for any other string. */
  function RankOfName(name: string): (r: nat)
    ensures r <= 3
  {
    if name == "normal" then 1
    else if name == "high" then 2
    else if name == "urgent" then 3
    else 0
  }

  lemma RankOfPriorityName(p: Priority)
    ensures RankOfName(PriorityName(p)) == Rank(p)
  {
  }

  /**
   * `_evaluate_rule`. A single string stands for a one-element list; every
   * exception the source catches (calling `.lower()` on a dict, hashing a
   * list, a regular expression given a non-string) yields `false`.
   */
  function Evaluate(m: Message, rule: RoutingRule, search: RegexSearch): bool {
    match rule.ruleType
    case ContentKeyword =>
      (match rule.condition
       case Literal(s) => AnyKeyword([s], Lower(m.content))
       case Listed(items) => AnyKeyword(items, Lower(m.content))
       case _ => false)
    case ContentRegex =>
      rule.condition.Literal? && search(rule.condition.text, m.content)
    case SenderRole =>
      (match rule.condition
       case Literal(s) => m.senderRole == s
       case Listed(items) => m.senderRole in items
       case _ => false)
    case MessageKind =>
      (match rule.condition
       case Literal(s) => TypeName(m.kind) == s
       case Listed(items) => TypeName(m.kind) in items
       case _ => false)
    case MinPriority =>
      (match rule.condition
       case Literal(s) => Rank(m.priority) >= RankOfName(s)
       case Callable(_) => true
       case _ => false)
    case Metadata =>
      rule.condition.Mapping? && MetadataMatches(rule.condition.entries, m.metadata)
    case Custom =>
      rule.condition.Callable? && rule.condition.call(m) == Returned(true)
  }

  /** A keyword rule matches exactly when one of its keywords occurs in the content, ignoring case. */
  lemma KeywordRule(m: Message, rule: RoutingRule, search: RegexSearch)
    requires rule.ruleType == ContentKeyword && rule.condition.Listed?
    ensures Evaluate(m, rule, search) <==>
      exists i :: 0 <= i < |rule.condition.items| && IsSubstring(Lower(rule.condition.items[i]), Lower(m.content))
  {
  }

  /** A priority rule naming a priority admits exactly the messages of that priority or above. */
  lemma PriorityRuleThreshold(m: Message, rule: RoutingRule, p: Priority, search: RegexSearch)
    requires rule.ruleType == MinPriority && rule.condition == Literal(PriorityName(p))
    ensures Evaluate(m, rule, search) <==> Rank(m.priority) >= Rank(p)
  {
    RankOfPriorityName(p);
  }

  /** A priority rule whose condition names no priority compares against rank 0 and admits every message. */
  lemma UnknownPriorityAdmitsAll(m: Message, rule: RoutingRule, search: RegexSearch)
    requires rule.ruleType == MinPriority && rule.condition.Literal?
    requires forall p :: rule.condition.text != PriorityName(p)
    ensures Evaluate(m, rule, search)
  {
    assert rule.condition.text != PriorityName(Normal);
    assert rule.condition.text != PriorityName(High);
    assert rule.condition.text != PriorityName(Urgent);
  }

  /** A condition of a shape the rule type cannot use never matches. */
  lemma MistypedConditionNeverMatches(m: Message, rule: RoutingRule, search: RegexSearch)
    requires rule.condition.Mapping? ==> rule.ruleType != Metadata
    requires rule.condition.Callable? ==> rule.ruleType != Custom && rule.ruleType != MinPriority
    requires rule.condition.Literal? || rule.condition.Listed? ==> rule.ruleType == Metadata || rule.ruleType == Custom
    ensures !Evaluate(m, rule, search)
  {
  }

  // ---------------------------------------------------------------------------
  // Routing a message through all rules
  // ---------------------------------------------------------------------------

  /** A rule takes part in routing when it is active and matches. */
  predicate Fires(rule: RoutingRule, m: Message, search: RegexSearch) {
    rule.active && Evaluate(m, rule, search)
  }

  /** The rules that fire, in the order they are evaluated. */
  function Matched(rules: seq<RoutingRule>, m: Message, search: RegexSearch): (r: seq<RoutingRule>)
    ensures |r| <= |rules|
    ensures forall i :: 0 <= i < |r| ==> Fires(r[i], m, search)
    ensures forall x :: x in r ==> x in rules
    ensures forall i :: 0 <= i < |rules| && Fires(rules[i], m, search) ==> rules[i] in r
  {
    if rules == [] then []
    else
      var last := rules[|rules| - 1];
      Matched(rules[..|rules| - 1], m, search) + (if Fires(last, m, search) then [last] else [])
  }

  /** The union of the target topics of the rules that fire. */
  function RouteTargets(rules: seq<RoutingRule>, m: Message, search: RegexSearch): set<string> {
    if rules == [] then {}
    else
      var last := rules[|rules| - 1];
      RouteTargets(rules[..|rules| - 1], m, search)
        + (if Fires(last, m, search) then set t | t in last.targetTopics else {})
  }

  /** One more rule considered: its targets and itself are added exactly when it fires. */
  lemma RouteStep(rules: seq<RoutingRule>, i: int, m: Message, search: RegexSearch)
    requires 0 <= i < |rules|
    ensures RouteTargets(rules[..i + 1], m, search) == RouteTargets(rules[..i], m, search)
      + (if Fires(rules[i], m, search) then set t | t in rules[i].targetTopics else {})
    ensures Matched(rules[..i + 1], m, search) == Matched(rules[..i], m, search)
      + (if Fires(rules[i], m, search) then [rules[i]] else [])
  {
    assert rules[..i + 1][..i] == rules[..i];
  }

  /** A topic is a target exactly when some active, matching rule lists it. */
  lemma {:induction false} RouteTargetsMembers(rules: seq<RoutingRule>, m: Message, search: RegexSearch, t: string)
    ensures t in RouteTargets(rules, m, search) <==>
      exists i :: 0 <= i < |rules| && Fires(rules[i], m, search) && t in rules[i].targetTopics
    decreases |rules|
  {
    if rules != [] {
      var init := rules[..|rules| - 1];
      RouteTargetsMembers(init, m, search, t);
      assert forall i :: 0 <= i < |init| ==> init[i] == rules[i];
    }
  }

  /** Matched rules keep the priority order in which the rules are evaluated. */
  lemma {:induction false} MatchedInPriorityOrder(rules: seq<RoutingRule>, m: Message, search: RegexSearch)
    requires SortedDesc(rules, PriorityOf)
    ensures SortedDesc(Matched(rules, m, search), PriorityOf)
    ensures forall i :: 0 <= i < |Matched(rules, m, search)| ==>
      exists j :: 0 <= j < |rules| && Matched(rules, m, search)[i] == rules[j]
    decreases |rules|
  {
    if rules != [] {
      var init, last := rules[..|rules| - 1], rules[|rules| - 1];
      assert SortedDesc(init, PriorityOf);
      MatchedInPriorityOrder(init, m, search);
      var mi := Matched(init, m, search);
      var r := Matched(rules, m, search);
      forall i | 0 <= i < |r| ensures exists j :: 0 <= j < |rules| && r[i] == rules[j] {
        if i < |mi| {
          var j :| 0 <= j < |init| && mi[i] == init[j];
          assert r[i] == rules[j];
        } else {
          assert r[i] == rules[|rules| - 1];
        }
      }
      forall i, j | 0 <= i < j < |r| ensures PriorityOf(r[i]) >= PriorityOf(r[j]) {
        if j >= |mi| {
          var k :| 0 <= k < |init| && mi[i] == init[k];
          assert r[i] == rules[k] && r[j] == last;
        } else {
          assert r[i] == mi[i] && r[j] == mi[j];
        }
      }
    }
  }

  /** One entry of the route history. */
  datatype MessageRoute = MessageRoute(
    message: Message,
    targets: set<string>,
    matchedRules: seq<RoutingRule>,
    timestamp: Instant)

  // ---------------------------------------------------------------------------
  // Searching the rules
  // ---------------------------------------------------------------------------

  /** The position of the first rule with the given id. */
  function RuleIndex(rules: seq<RoutingRule>, id: string): (r: Option<nat>)
    ensures r.Some? ==> r.value < |rules| && rules[r.value].ruleId == id
    ensures r.Some? ==> forall j :: 0 <= j < r.value ==> rules[j].ruleId != id
    ensures r.None? ==> forall j :: 0 <= j < |rules| ==> rules[j].ruleId != id
  {
    if rules == [] then None
    else if rules[0].ruleId == id then Some(0)
    else
      match RuleIndex(rules[1..], id)
      case None => None
      case Some(k) => Some(k + 1)
  }

  /** Deleting one rule leaves the others in priority order. */
  lemma DeleteKeepsOrder(rules: seq<RoutingRule>, k: nat)
    requires SortedDesc(rules, PriorityOf) && k < |rules|
    ensures SortedDesc(rules[..k] + rules[k + 1..], PriorityOf)
  {
    var r := rules[..k] + rules[k + 1..];
    forall i, j | 0 <= i < j < |r| ensures PriorityOf(r[i]) >= PriorityOf(r[j]) {
      assert r[i] == rules[if i < k then i else i + 1];
      assert r[j] == rules[if j < k then j else j + 1];
    }
  }

  // ---------------------------------------------------------------------------
  // Updating a rule
  // ---------------------------------------------------------------------------

  /**
   * The keyword arguments of `update_rule`; `None` leaves a field as it is.
   * There is no `rule_id`: it is the method's own parameter, so passing it
   * again as a keyword raises before any rule is touched.
   */
  datatype RuleUpdate = RuleUpdate(
    ruleType: Option<RuleType>,
    condition: Option<Condition>,
    targetTopics: Option<seq<string>>,
    priority: Option<int>,
    active: Option<bool>,
    description: Option<Option<string>>)

  const NoChange: RuleUpdate := RuleUpdate(None, None, None, None, None, None)

  function Pick<T>(o: Option<T>, current: T): T {
    if o.Some? then o.value else current
  }

  /** `setattr(rule, key, value)` for every given key; the rule keeps its id. */
  function Apply(rule: RoutingRule, u: RuleUpdate): (r: RoutingRule)
    ensures r.ruleId == rule.ruleId
    ensures u == NoChange ==> r == rule
  {
    RoutingRule(
      rule.ruleId,
      Pick(u.ruleType, rule.ruleType),
      Pick(u.condition, rule.condition),
      Pick(u.targetTopics, rule.targetTopics),
      Pick(u.priority, rule.priority),
      Pick(u.active, rule.active),
      Pick(u.description, rule.description))
  }

  /** The ids the rule list holds. */
  function RuleIds(rules: seq<RoutingRule>): set<string> {
    set i | 0 <= i < |rules| :: rules[i].ruleId
  }

  /** Editing one rule in place, re-sorted or not, leaves the set of ids as it was. */
  lemma EditKeepsIds(rules: seq<RoutingRule>, k: nat, u: RuleUpdate)
    requires k < |rules|
    ensures var edited := rules[k := Apply(rules[k], u)];
      RuleIds(edited) == RuleIds(rules) && RuleIds(SortDesc(edited, PriorityOf)) == RuleIds(rules)
  {
    var edited := rules[k := Apply(rules[k], u)];
    assert forall j :: 0 <= j < |rules| ==> edited[j].ruleId == rules[j].ruleId;
    var sorted := SortDesc(edited, PriorityOf);
    SortDescFacts(edited, PriorityOf);
    forall id | id in RuleIds(sorted) ensures id in RuleIds(edited) {
      var j :| 0 <= j < |sorted| && sorted[j].ruleId == id;
      assert sorted[j] in multiset(edited);
      var i :| 0 <= i < |edited| && edited[i] == sorted[j];
    }
    forall id | id in RuleIds(edited) ensures id in RuleIds(sorted) {
      var i :| 0 <= i < |edited| && edited[i].ruleId == id;
      assert edited[i] in multiset(sorted);
      var j :| 0 <= j < |sorted| && sorted[j] == edited[i];
    }
  }

  /** An update that leaves the priority alone keeps the list in priority order without re-sorting. */
  lemma EditKeepsOrder(rules: seq<RoutingRule>, k: nat, u: RuleUpdate)
    requires SortedDesc(rules, PriorityOf) && k < |rules| && u.priority.None?
    ensures SortedDesc(rules[k := Apply(rules[k], u)], PriorityOf)
  {
    var r := rules[k := Apply(rules[k], u)];
    forall i, j | 0 <= i < j < |r| ensures PriorityOf(r[i]) >= PriorityOf(r[j]) {
      assert PriorityOf(r[i]) == PriorityOf(rules[i]);
      assert PriorityOf(r[j]) == PriorityOf(rules[j]);
    }
  }

  // ---------------------------------------------------------------------------
  // Statistics
  // ---------------------------------------------------------------------------

  /** The key `rule_types` counts by. */
  function TypeNameOf(r: RoutingRule): string {
    RuleTypeName(r.ruleType)
  }

  function IsActive(r: RoutingRule): bool {
    r.active
  }

  /** The number of target topics summed over the history. */
  function TargetTotal(h: seq<MessageRoute>): nat {
    if h == [] then 0 else TargetTotal(h[..|h| - 1]) + |h[|h| - 1].targets|
  }

  datatype RouterStats = RouterStats(
    totalRules: nat,
    activeRules: nat,
    inactiveRules: nat,
    ruleTypes: Dict<string, nat>,
    totalRoutes: nat,
    averageTargets: real)

  // ---------------------------------------------------------------------------
  // History queries
  // ---------------------------------------------------------------------------

  /** `[route for route in h if t in route.target_topics]`. */
  function WithTarget(h: seq<MessageRoute>, t: string): (r: seq<MessageRoute>)
    ensures |r| <= |h|
    ensures forall j :: 0 <= j < |r| ==> t in r[j].targets
  {
    if h == [] then []
    else WithTarget(h[..|h| - 1], t) + (if t in h[|h| - 1].targets then [h[|h| - 1]] else [])
  }

  /** The routes `get_route_history` draws from: those targeting the topic, or all of them for an absent or empty topic. */
  function Filtered(h: seq<MessageRoute>, topicFilter: Option<string>): seq<MessageRoute> {
    if topicFilter.Some? && topicFilter.value != "" then WithTarget(h, topicFilter.value) else h
  }

  /** Every route the filter keeps comes from the history. */
  lemma {:induction false} WithTargetFromHistory(h: seq<MessageRoute>, t: string, j: nat)
    requires j < |WithTarget(h, t)|
    ensures exists i :: 0 <= i < |h| && WithTarget(h, t)[j] == h[i]
    decreases |h|
  {
    var init, last := h[..|h| - 1], h[|h| - 1];
    var wi := WithTarget(init, t);
    var w := WithTarget(h, t);
    if j < |wi| {
      WithTargetFromHistory(init, t, j);
      var i :| 0 <= i < |init| && wi[j] == init[i];
      assert w[j] == wi[j] && init[i] == h[i];
    } else {
      assert w[j] == last;
    }
  }

  /** Every route of the history that has the topic is kept. */
  lemma {:induction false} WithTargetKeepsAll(h: seq<MessageRoute>, t: string, i: nat)
    requires i < |h| && t in h[i].targets
    ensures exists j :: 0 <= j < |WithTarget(h, t)| && WithTarget(h, t)[j] == h[i]
    decreases |h|
  {
    var init, last := h[..|h| - 1], h[|h| - 1];
    var wi := WithTarget(init, t);
    var w := WithTarget(h, t);
    if i < |init| {
      WithTargetKeepsAll(init, t, i);
      assert h[i] == init[i];
      var j :| 0 <= j < |wi| && wi[j] == init[i];
      assert w[j] == wi[j];
    } else {
      assert w[|w| - 1] == last;
    }
  }

  /** When every route has the topic, the filter returns the history unchanged. */
  lemma {:induction false} WithTargetOfAll(h: seq<MessageRoute>, t: string)
    requires forall i :: 0 <= i < |h| ==> t in h[i].targets
    ensures WithTarget(h, t) == h
    decreases |h|
  {
    if h != [] {
      var init := h[..|h| - 1];
      WithTargetOfAll(init, t);
      assert h == init + [h[|h| - 1]];
    }
  }

  // ---------------------------------------------------------------------------
  // Export and import
  // ---------------------------------------------------------------------------

  /**
   * A rule as a dictionary. Each key may be missing (`None`); a missing
   * `description` and a `description` of `None` read back the same.
   */
  datatype RuleRecord = RuleRecord(
    ruleId: Option<string>,
    ruleType: Option<string>,
    condition: Option<Condition>,
    targetTopics: Option<seq<string>>,
    priority: Option<int>,
    active: Option<bool>,
    description: Option<string>)

  /** The dictionary `export_rules` writes for one rule. */
  function ToRecord(rule: RoutingRule): RuleRecord {
    RuleRecord(Some(rule.ruleId), Some(RuleTypeName(rule.ruleType)), Some(rule.condition),
      Some(rule.targetTopics), Some(rule.priority), Some(rule.active), rule.description)
  }

  /**
   * The rule `import_rules` builds from one dictionary: a missing required key
   * or an unknown rule type raises and the dictionary is skipped; a missing
   * priority is 0 and a missing `active` is true.
   */
  function FromRecord(d: RuleRecord): (r: Option<RoutingRule>)
    ensures r.Some? <==> d.ruleId.Some? && d.ruleType.Some? && d.condition.Some? && d.targetTopics.Some?
                         && ParseRuleType(d.ruleType.value).Some?
    ensures r.Some? ==> r.value.priority == (if d.priority.Some? then d.priority.value else 0)
    ensures r.Some? ==> r.value.active == (d.active.None? || d.active.value)
  {
    if d.ruleId.None? || d.ruleType.None? || d.condition.None? || d.targetTopics.None? then None
    else
      match ParseRuleType(d.ruleType.value)
      case None => None
      case Some(t) =>
        Some(RoutingRule(d.ruleId.value, t, d.condition.value, d.targetTopics.value,
          Pick(d.priority, 0), Pick(d.active, true), d.description))
  }

  /** Reading back an exported rule gives the rule. */
  lemma RecordRoundTrip(rule: RoutingRule)
    ensures FromRecord(ToRecord(rule)) == Some(rule)
  {
    RuleTypeNameRoundTrip(rule.ruleType);
  }

  /** The rules built from the dictionaries that parse, in order. */
  function Parsed(records: seq<RuleRecord>): (r: seq<RoutingRule>)
    ensures |r| <= |records|
  {
    if records == [] then []
    else
      var rule := FromRecord(records[|records| - 1]);
      Parsed(records[..|records| - 1]) + (if rule.Some? then [rule.value] else [])
  }

  /** The dictionaries `export_rules` writes, one per rule. */
  function Exported(rules: seq<RoutingRule>): (r: seq<RuleRecord>)
    ensures |r| == |rules|
  {
    if rules == [] then [] else Exported(rules[..|rules| - 1]) + [ToRecord(rules[|rules| - 1])]
  }

  /** The export keeps the rules' order: the dictionary at each position is the rule at that position. */
  lemma {:induction false} ExportedAt(rules: seq<RoutingRule>)
    ensures forall i :: 0 <= i < |rules| ==> Exported(rules)[i] == ToRecord(rules[i])
    decreases |rules|
  {
    if rules != [] {
      var n := |rules| - 1;
      ExportedAt(rules[..n]);
      assert forall i :: 0 <= i < n ==> rules[..n][i] == rules[i];
    }
  }

  /** Every exported dictionary reads back, so the export parses to the rules themselves. */
  lemma {:induction false} ParsedExport(rules: seq<RoutingRule>)
    ensures Parsed(Exported(rules)) == rules
    decreases |rules|
  {
    if rules != [] {
      var n := |rules| - 1;
      calc {
        Parsed(Exported(rules));
        Parsed(Exported(rules[..n]) + [ToRecord(rules[n])]);
        { ParsedSnoc(Exported(rules[..n]), ToRecord(rules[n])); RecordRoundTrip(rules[n]); }
        Parsed(Exported(rules[..n])) + [rules[n]];
        { ParsedExport(rules[..n]); }
        rules[..n] + [rules[n]];
        rules;
      }
    }
  }

  lemma ParsedSnoc(records: seq<RuleRecord>, d: RuleRecord)
    ensures Parsed(records + [d]) == Parsed(records) + (if FromRecord(d).Some? then [FromRecord(d).value] else [])
  {
    assert (records + [d])[..|records|] == records;
  }

  // ---------------------------------------------------------------------------
  // The router
  // ---------------------------------------------------------------------------

  const MaxHistorySize: nat := 1000

  class MessageRouter {
    /** The rules, highest priority first. */
    var rules: seq<RoutingRule>
    /** The newest routes, oldest first, at most `MaxHistorySize` of them. */
    var history: seq<MessageRoute>

    ghost predicate Valid()
      reads this
    {
      SortedDesc(rules, PriorityOf) && |history| <= MaxHistorySize
    }

    constructor()
      ensures Valid() && rules == [] && history == []
    {
      rules := [];
      history := [];
    }

    /** `add_routing_rule`: the new rule is active and goes behind every rule of equal or higher priority. */
    method AddRule(ruleId: string, ruleType: RuleType, condition: Condition, targetTopics: seq<string>,
                   priority: int, description: Option<string>) returns (rule: RoutingRule)
      requires Valid()
      modifies this`rules
      ensures Valid()
      ensures rule == RoutingRule(ruleId, ruleType, condition, targetTopics, priority, true, description)
      ensures rules == SortDesc(old(rules) + [rule], PriorityOf)
      ensures var k := InsertPoint(old(rules), rule, PriorityOf);
        rules == old(rules)[..k] + [rule] + old(rules)[k..]
        && (forall j :: 0 <= j < k ==> old(rules)[j].priority >= priority)
        && (forall j :: k <= j < |old(rules)| ==> old(rules)[j].priority < priority)
    {
      rule := RoutingRule(ruleId, ruleType, condition, targetTopics, priority, true, description);
      AppendThenSort(rules, rule, PriorityOf);
      SortDescFacts(rules + [rule], PriorityOf);
      rules := SortDesc(rules + [rule], PriorityOf);
    }

    /** The source's search loop over the rules. */
    method FindRule(id: string) returns (k: Option<nat>)
      ensures k == RuleIndex(rules, id)
    {
      var i := 0;
      while i < |rules|
        invariant 0 <= i <= |rules|
        invariant forall j :: 0 <= j < i ==> rules[j].ruleId != id
      {
        if rules[i].ruleId == id {
          return Some(i);
        }
        i := i + 1;
      }
      return None;
    }

    /** `remove_routing_rule`: deletes the first rule with the id, if any. */
    method RemoveRule(id: string) returns (removed: bool)
      requires Valid()
      modifies this`rules
      ensures Valid()
      ensures removed == RuleIndex(old(rules), id).Some?
      ensures removed ==> var k := RuleIndex(old(rules), id).value; rules == old(rules)[..k] + old(rules)[k + 1..]
      ensures !removed ==> rules == old(rules)
    {
      var k := FindRule(id);
      if k.None? {
        return false;
      }
      DeleteKeepsOrder(rules, k.value);
      rules := rules[..k.value] + rules[k.value + 1..];
      return true;
    }

    /** `route_message`: the targets of every active matching rule; the route is recorded. */
    method RouteMessage(m: Message, search: RegexSearch) returns (targets: set<string>)
      requires Valid()
      modifies this`history
      ensures Valid()
      ensures targets == RouteTargets(rules, m, search)
      ensures history == AppendCapped(old(history), MessageRoute(m, targets, Matched(rules, m, search), m.timestamp), MaxHistorySize)
    {
      targets := {};
      var matched: seq<RoutingRule> := [];
      var i := 0;
      while i < |rules|
        invariant 0 <= i <= |rules|
        invariant targets == RouteTargets(rules[..i], m, search)
        invariant matched == Matched(rules[..i], m, search)
        invariant history == old(history)
      {
        var rule := rules[i];
        RouteStep(rules, i, m, search);
        if Fires(rule, m, search) {
          targets := targets + set t | t in rule.targetTopics;
          matched := matched + [rule];
        }
        i := i + 1;
      }
      assert rules[..|rules|] == rules;
      RecordRoute(MessageRoute(m, targets, matched, m.timestamp));
    }

    /** The history append of `route_message`. */
    method RecordRoute(route: MessageRoute)
      requires |history| <= MaxHistorySize
      modifies this`history
      ensures history == AppendCapped(old(history), route, MaxHistorySize) && |history| <= MaxHistorySize
    {
      AppendCappedBounded(history, route, MaxHistorySize);
      history := AppendCapped(history, route, MaxHistorySize);
    }

    /** `get_rule_by_id`: the first rule with the id. */
    method GetRuleById(id: string) returns (r: Option<RoutingRule>)
      ensures r.None? <==> forall j :: 0 <= j < |rules| ==> rules[j].ruleId != id
      ensures r.Some? ==> r.value.ruleId == id && r.value == rules[RuleIndex(rules, id).value]
    {
      var k := FindRule(id);
      if k.None? {
        return None;
      }
      return Some(rules[k.value]);
    }

    /** `update_rule`: edits the first rule with the id; the list is re-sorted only when the priority is given. */
    method UpdateRule(id: string, u: RuleUpdate) returns (updated: bool)
      requires Valid()
      modifies this`rules
      ensures Valid()
      ensures updated == RuleIndex(old(rules), id).Some?
      ensures !updated ==> rules == old(rules)
      ensures updated ==>
        var k := RuleIndex(old(rules), id).value;
        var edited := old(rules)[k := Apply(old(rules)[k], u)];
        rules == if u.priority.Some? then SortDesc(edited, PriorityOf) else edited
      ensures RuleIds(rules) == RuleIds(old(rules))
    {
      var k := FindRule(id);
      if k.None? {
        return false;
      }
      var edited := rules[k.value := Apply(rules[k.value], u)];
      EditKeepsIds(rules, k.value, u);
      if u.priority.Some? {
        SortDescFacts(edited, PriorityOf);
        rules := SortDesc(edited, PriorityOf);
      } else {
        EditKeepsOrder(rules, k.value, u);
        rules := edited;
      }
      return true;
    }

    /** `enable_rule`: activates the first rule with the id, which keeps its place. */
    method EnableRule(id: string) returns (found: bool)
      requires Valid()
      modifies this`rules
      ensures Valid()
      ensures found == RuleIndex(old(rules), id).Some?
      ensures !found ==> rules == old(rules)
      ensures found ==> var k := RuleIndex(old(rules), id).value; rules == old(rules)[k := old(rules)[k].(active := true)]
    {
      found := UpdateRule(id, NoChange.(active := Some(true)));
    }

    /** `disable_rule`: deactivates the first rule with the id, which keeps its place. */
    method DisableRule(id: string) returns (found: bool)
      requires Valid()
      modifies this`rules
      ensures Valid()
      ensures found == RuleIndex(old(rules), id).Some?
      ensures !found ==> rules == old(rules)
      ensures found ==> var k := RuleIndex(old(rules), id).value; rules == old(rules)[k := old(rules)[k].(active := false)]
    {
      found := UpdateRule(id, NoChange.(active := Some(false)));
    }

    /** `get_route_history`: an empty filter or a zero limit counts as absent; `history[-limit:]` otherwise. */
    function RouteHistory(limit: Option<int>, topicFilter: Option<string>): (r: seq<MessageRoute>)
      reads this
      ensures |r| <= |history|
      ensures topicFilter.Some? && topicFilter.value != "" ==>
        forall j :: 0 <= j < |r| ==> topicFilter.value in r[j].targets
      ensures limit.Some? && limit.value > 0 ==> |r| <= limit.value
      ensures var h := Filtered(history, topicFilter);
        && (limit.None? || limit.value == 0 ==> r == h)
        && (limit.Some? && limit.value > 0 ==> |r| == (if limit.value < |h| then limit.value else |h|) && r == h[|h| - |r|..])
        && (limit.Some? && limit.value < 0 ==> r == h[(if -limit.value < |h| then -limit.value else |h|)..])
    {
      var h := Filtered(history, topicFilter);
      if limit.Some? && limit.value != 0 then PyTail(h, limit.value) else h
    }

    /** `get_routing_stats`. */
    method Stats() returns (s: RouterStats)
      ensures s.totalRules == |rules| && s.activeRules == CountWhere(rules, IsActive)
      ensures s.inactiveRules == |rules| - s.activeRules
      ensures s.ruleTypes.Valid() && s.ruleTypes == Tally(rules, TypeNameOf)
      ensures s.totalRoutes == |history|
      ensures s.averageTargets == if history == [] then 0.0 else TargetTotal(history) as real / |history| as real
    {
      var types := TallyOf(rules, TypeNameOf);
      TallyFacts(rules, TypeNameOf);
      var average := if history == [] then 0.0 else TargetTotal(history) as real / |history| as real;
      var active := CountWhere(rules, IsActive);
      s := RouterStats(|rules|, active, |rules| - active, types, |history|, average);
    }

    /** `clear_history`. */
    method ClearHistory()
      requires Valid()
      modifies this`history
      ensures Valid() && history == []
    {
      history := [];
    }

    /** `export_rules`: one dictionary per rule, in priority order. */
    method ExportRules() returns (records: seq<RuleRecord>)
      ensures records == Exported(rules)
    {
      records := [];
      for i := 0 to |rules|
        invariant records == Exported(rules[..i])
      {
        assert rules[..i + 1][..i] == rules[..i];
        records := records + [ToRecord(rules[i])];
      }
      assert rules[..|rules|] == rules;
    }

    /** `import_rules`: appends every dictionary that parses, then re-sorts; returns how many were imported. */
    method ImportRules(records: seq<RuleRecord>) returns (imported: nat)
      requires Valid()
      modifies this`rules
      ensures Valid()
      ensures imported == |Parsed(records)|
      ensures rules == SortDesc(old(rules) + Parsed(records), PriorityOf)
    {
      imported := 0;
      var added: seq<RoutingRule> := [];
      var i := 0;
      while i < |records|
        invariant 0 <= i <= |records|
        invariant added == Parsed(records[..i]) && imported == |added|
        invariant rules == old(rules)
      {
        assert records[..i + 1] == records[..i] + [records[i]];
        ParsedSnoc(records[..i], records[i]);
        var rule := FromRecord(records[i]);
        if rule.Some? {
          added := added + [rule.value];
          imported := imported + 1;
        }
        i := i + 1;
      }
      assert records[..|records|] == records;
      var all := rules + added;
      SortDescFacts(all, PriorityOf);
      rules := SortDesc(all, PriorityOf);
    }
  }

  /** Exporting the rules of one router and importing them into a new one reproduces them exactly. */
  method CopyRules(src: MessageRouter) returns (dst: MessageRouter)
    requires src.Valid()
    ensures fresh(dst) && dst.Valid()
    ensures dst.rules == src.rules && dst.history == []
  {
    var records := src.ExportRules();
    ParsedExport(src.rules);
    ghost var parsed := Parsed(records);
    assert [] + parsed == parsed == src.rules;
    dst := new MessageRouter();
    var n := dst.ImportRules(records);
    SortDescOfSorted(src.rules, PriorityOf);
  }

  // ---------------------------------------------------------------------------
  // The keyword-routing scenario
  // ---------------------------------------------------------------------------

  const UrgentRule: RoutingRule :=
    RoutingRule("urgent-rule", ContentKeyword, Listed(["urgent"]), ["urgent-topic"], 100, true, None)

  const UrgentNote: Message :=
    NewMessage("1", 0, "test-agent", "Test Agent", "test", Text, "This is urgent!", "test-topic")

  const HelloNote: Message :=
    NewMessage("2", 0, "test-agent", "Test Agent", "test", Text, "Hello, world!", "test-topic")

  lemma UrgentNoteRouted(search: RegexSearch)
    ensures RouteTargets([UrgentRule], UrgentNote, search) == {"urgent-topic"}
  {
    UrgentInUrgentNote();
    assert Evaluate(UrgentNote, UrgentRule, search);
    assert [UrgentRule][..0] == [];
  }

  lemma HelloNoteUnrouted(search: RegexSearch)
    ensures RouteTargets([UrgentRule], HelloNote, search) == {}
  {
    UrgentNotInHelloNote();
    assert !Evaluate(HelloNote, UrgentRule, search);
    assert [UrgentRule][..0] == [];
  }

  lemma UrgentInUrgentNote()
    ensures IsSubstring(Lower("urgent"), Lower(UrgentNote.content))
  {
    var text := Lower(UrgentNote.content);
    assert text == "this is urgent!";
    assert Lower("urgent") == "urgent";
    SubstringAt("urgent", text, 8);
  }

  lemma UrgentNotInHelloNote()
    ensures !IsSubstring(Lower("urgent"), Lower(HelloNote.content))
  {
    var text := Lower(HelloNote.content);
    assert text == "hello, world!";
    assert Lower("urgent") == "urgent";
    SubstringNeedsChar("urgent", text, 'u');
  }

  /** A router holding only the urgent-keyword rule. */
  method UrgentRouter() returns (router: MessageRouter)
    ensures fresh(router) && router.Valid() && router.rules == [UrgentRule]
  {
    router := new MessageRouter();
    var rule := router.AddRule("urgent-rule", ContentKeyword, Listed(["urgent"]), ["urgent-topic"], 100, None);
    assert [] + [UrgentRule] == [UrgentRule];
  }

  /** The routing scenario, first half: an urgent message goes to the urgent topic. */
  method UrgentIsRouted(search: RegexSearch) returns (targets: set<string>)
    ensures targets == {"urgent-topic"}
  {
    var router := UrgentRouter();
    UrgentNoteRouted(search);
    targets := router.RouteMessage(UrgentNote, search);
  }

  /** The routing scenario, second half: an ordinary message goes nowhere. */
  method HelloIsNotRouted(search: RegexSearch) returns (targets: set<string>)
    ensures targets == {}
  {
    var router := UrgentRouter();
    HelloNoteUnrouted(search);
    targets := router.RouteMessage(HelloNote, search);
  }
}
