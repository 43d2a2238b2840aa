/**
 * Topic subscriptions with filters. A subscription object is shared between
 * the per-topic and the per-agent index and is updated in place when it is
 * paused, resumed, re-filtered or receives a message.
 */
module Subscriptions {
  import opened Common
  import opened Message

  datatype SubscriptionType = AllMessages | RoleBased | ContentFiltered | PriorityFiltered | Custom

  /**
   * Filter criteria. Every criterion is optional; an empty collection or an
   * empty string counts as absent, as Python's truthiness test does.
   */
  datatype SubscriptionFilter = SubscriptionFilter(
    messageTypes: Option<set<MessageType>>,
    minPriority: Option<Priority>,
    contentKeywords: Option<seq<string>>,
    contentRegex: Option<string>,
    allowedSenders: Option<set<string>>,
    blockedSenders: Option<set<string>>,
    allowedRoles: Option<set<string>>,
    blockedRoles: Option<set<string>>,
    metadataFilters: Option<map<string, Value>>,
    customFilter: Option<MessagePredicate>)

  /** `SubscriptionFilter()` with every criterion left at its default. */
  const NoCriteria: SubscriptionFilter :=
    SubscriptionFilter(None, None, None, None, None, None, None, None, None, None)

  // ---------------------------------------------------------------------------
  // Filtering
  // ---------------------------------------------------------------------------

  /** `_message_matches_filter`: the criteria in the order the source checks them, returning at the first failure. */
  function MatchesFilter(m: Message, criteria: Option<SubscriptionFilter>, search: RegexSearch): bool {
    if criteria.None? then true
    else
      var f := criteria.value;
      if f.messageTypes.Some? && f.messageTypes.value != {} && m.kind !in f.messageTypes.value then false
      else if f.minPriority.Some? && Rank(m.priority) < Rank(f.minPriority.value) then false
      else if f.contentKeywords.Some? && f.contentKeywords.value != []
              && !AnyKeyword(f.contentKeywords.value, Lower(m.content)) then false
      else if f.contentRegex.Some? && f.contentRegex.value != [] && !search(f.contentRegex.value, m.content) then false
      else if f.allowedSenders.Some? && f.allowedSenders.value != {} && m.senderId !in f.allowedSenders.value then false
      else if f.blockedSenders.Some? && f.blockedSenders.value != {} && m.senderId in f.blockedSenders.value then false
      else if f.allowedRoles.Some? && f.allowedRoles.value != {} && m.senderRole !in f.allowedRoles.value then false
      else if f.blockedRoles.Some? && f.blockedRoles.value != {} && m.senderRole in f.blockedRoles.value then false
      else if f.metadataFilters.Some? && f.metadataFilters.value != map[]
              && !MetadataMatches(f.metadataFilters.value, m.metadata) then false
      else if f.customFilter.Some? then
        match f.customFilter.value(m)
        case Returned(b) => b
        case Raised => false
      else true
  }

  // Each criterion on its own: absent, or satisfied.

  predicate TypeAdmits(f: SubscriptionFilter, m: Message) {
    f.messageTypes.None? || f.messageTypes.value == {} || m.kind in f.messageTypes.value
  }

  predicate PriorityAdmits(f: SubscriptionFilter, m: Message) {
    f.minPriority.None? || Rank(f.minPriority.value) <= Rank(m.priority)
  }

  predicate KeywordsAdmit(f: SubscriptionFilter, m: Message) {
    f.contentKeywords.None? || f.contentKeywords.value == []
    || exists i :: 0 <= i < |f.contentKeywords.value|
                   && IsSubstring(Lower(f.contentKeywords.value[i]), Lower(m.content))
  }

  predicate RegexAdmits(f: SubscriptionFilter, m: Message, search: RegexSearch) {
    f.contentRegex.None? || f.contentRegex.value == [] || search(f.contentRegex.value, m.content)
  }

  predicate SenderAdmits(f: SubscriptionFilter, m: Message) {
    (f.allowedSenders.None? || f.allowedSenders.value == {} || m.senderId in f.allowedSenders.value)
    && (f.blockedSenders.None? || m.senderId !in f.blockedSenders.value)
  }

  predicate RoleAdmits(f: SubscriptionFilter, m: Message) {
    (f.allowedRoles.None? || f.allowedRoles.value == {} || m.senderRole in f.allowedRoles.value)
    && (f.blockedRoles.None? || m.senderRole !in f.blockedRoles.value)
  }

  predicate MetadataAdmits(f: SubscriptionFilter, m: Message) {
    f.metadataFilters.None? || MetadataMatches(f.metadataFilters.value, m.metadata)
  }

  predicate CustomAdmits(f: SubscriptionFilter, m: Message) {
    f.customFilter.None? || f.customFilter.value(m) == Returned(true)
  }

  /** The early-return chain accepts exactly when every criterion admits the message; no criteria accept everything. */
  lemma MatchesFilterIsConjunction(m: Message, f: SubscriptionFilter, search: RegexSearch)
    ensures MatchesFilter(m, Some(f), search) <==>
      TypeAdmits(f, m) && PriorityAdmits(f, m) && KeywordsAdmit(f, m) && RegexAdmits(f, m, search)
      && SenderAdmits(f, m) && RoleAdmits(f, m) && MetadataAdmits(f, m) && CustomAdmits(f, m)
    ensures MatchesFilter(m, None, search) && MatchesFilter(m, Some(NoCriteria), search)
  {
  }

  /** A minimum priority alone admits exactly the messages ranked at least as high. */
  lemma PriorityThreshold(m: Message, min: Priority, search: RegexSearch)
    ensures MatchesFilter(m, Some(NoCriteria.(minPriority := Some(min))), search) <==> Rank(min) <= Rank(m.priority)
  {
  }

  /** A blocked sender or a blocked role is never admitted, whatever else the filter says. */
  lemma BlockedNeverAdmitted(m: Message, f: SubscriptionFilter, search: RegexSearch)
    requires (f.blockedSenders.Some? && m.senderId in f.blockedSenders.value)
          || (f.blockedRoles.Some? && m.senderRole in f.blockedRoles.value)
    ensures !MatchesFilter(m, Some(f), search)
  {
    MatchesFilterIsConjunction(m, f, search);
  }

  /** A custom filter that raises rejects the message. */
  lemma RaisingCustomFilterRejects(m: Message, f: SubscriptionFilter, search: RegexSearch)
    requires f.customFilter.Some? && f.customFilter.value(m) == Raised
    ensures !MatchesFilter(m, Some(f), search)
  {
  }

  /** The filter of the content-filtering scenario: keywords "urgent" and "important". */
  const KeywordFilter: SubscriptionFilter := NoCriteria.(contentKeywords := Some(["urgent", "important"]))

  const UrgentMessage: Message :=
    NewMessage("1", 0, "sender-1", "Sender", "user", Text, "This is an urgent message!", "test-topic")

  const NormalMessage: Message :=
    NewMessage("2", 0, "sender-1", "Sender", "user", Text, "This is a normal message", "test-topic")

  lemma UrgentMessageAdmitted(search: RegexSearch)
    ensures MatchesFilter(UrgentMessage, Some(KeywordFilter), search)
  {
    var kws := ["urgent", "important"];
    assert Lower(kws[0]) == "urgent";
    var text := Lower(UrgentMessage.content);
    assert forall i :: 11 <= i < 17 ==> text[i] == UrgentMessage.content[i];
    assert text[11..17] == "urgent";
    SubstringAt("urgent", text, 11);
    assert AnyKeyword(kws, text);
  }

  lemma NormalMessageRejected(search: RegexSearch)
    ensures !MatchesFilter(NormalMessage, Some(KeywordFilter), search)
  {
    NormalMessageLacksLetters();
    NoKeywordIn(Lower(NormalMessage.content));
  }

  /** The lower-cased normal message has neither a `u` nor a `p`. */
  lemma NormalMessageLacksLetters()
    ensures 'u' !in Lower(NormalMessage.content) && 'p' !in Lower(NormalMessage.content)
  {
    var a, b, c, d := "This ", "is a ", "norma", "l message";
    assert NormalMessage.content == a + b + c + d;
    LowerLacksBoth(a);
    LowerLacksBoth(b);
    LowerLacksBoth(c);
    LowerLacksBoth(d);
    LowerLacksConcat(a, b);
    LowerLacksConcat(a + b, c);
    LowerLacksConcat(a + b + c, d);
  }

  /** Neither a `u` nor a `p` in either case survives into the lower-cased text. */
  lemma LowerLacksBoth(s: string)
    requires 'u' !in s && 'U' !in s && 'p' !in s && 'P' !in s
    ensures 'u' !in Lower(s) && 'p' !in Lower(s)
  {
    LowerLacks(s, 'u');
    LowerLacks(s, 'p');
  }

  lemma LowerLacks(s: string, c: char)
    requires 'a' <= c <= 'z' && c !in s && (c as int - 32) as char !in s
    ensures c !in Lower(s)
  {
    forall i | 0 <= i < |s| ensures Lower(s)[i] != c {
      assert s[i] != c && s[i] != (c as int - 32) as char;
    }
  }

  lemma LowerLacksConcat(a: string, b: string)
    requires 'u' !in Lower(a) && 'p' !in Lower(a) && 'u' !in Lower(b) && 'p' !in Lower(b)
    ensures 'u' !in Lower(a + b) && 'p' !in Lower(a + b)
  {
    LowerConcat(a, b);
  }

  lemma NoKeywordIn(text: string)
    requires 'u' !in text && 'p' !in text
    ensures !AnyKeyword(["urgent", "important"], text)
  {
    var kws := ["urgent", "important"];
    assert Lower(kws[0]) == "urgent";
    assert Lower(kws[1]) == "important";
    SubstringNeedsChar("urgent", text, 'u');
    SubstringNeedsChar("important", text, 'p');
  }

  // ---------------------------------------------------------------------------
  // Subscriptions
  // ---------------------------------------------------------------------------

  /** A message handler callback, identified by a handle. */
  type Handler = nat

  class TopicSubscription {
    const topic: string
    const agentId: string
    const kind: SubscriptionType
    var filter: Option<SubscriptionFilter>
    const handler: Option<Handler>
    var active: bool
    var messageCount: int
    var lastMessageAt: Option<Instant>

    constructor (topic: string, agentId: string, kind: SubscriptionType,
                 filter: Option<SubscriptionFilter>, handler: Option<Handler>)
      ensures this.topic == topic && this.agentId == agentId && this.kind == kind
      ensures this.filter == filter && this.handler == handler
      ensures active && messageCount == 0 && lastMessageAt == None
    {
      this.topic := topic;
      this.agentId := agentId;
      this.kind := kind;
      this.filter := filter;
      this.handler := handler;
      active := true;
      messageCount := 0;
      lastMessageAt := None;
    }
  }

  /** A subscription receives a message: it is active, not the sender's own, and its filter admits the message. */
  predicate Eligible(s: TopicSubscription, m: Message, search: RegexSearch)
    reads s`active, s`filter
  {
    s.active && s.agentId != m.senderId && MatchesFilter(m, s.filter, search)
  }

  /** The eligible subscriptions of a list, in list order. */
  function Selected(subs: seq<TopicSubscription>, m: Message, search: RegexSearch): seq<TopicSubscription>
    reads (set i | 0 <= i < |subs| :: subs[i])`active, (set i | 0 <= i < |subs| :: subs[i])`filter
  {
    if subs == [] then []
    else
      var last := subs[|subs| - 1];
      Selected(subs[..|subs| - 1], m, search) + (if Eligible(last, m, search) then [last] else [])
  }

  /** A subscription is selected exactly when it is in the list and eligible; in particular a sender never receives its own message. */
  lemma {:induction false} SelectedMembers(subs: seq<TopicSubscription>, m: Message, search: RegexSearch)
    ensures forall s :: s in Selected(subs, m, search) <==> s in subs && Eligible(s, m, search)
    ensures forall s :: s in Selected(subs, m, search) ==> s.agentId != m.senderId && s.active
  {
    if subs != [] {
      var init := subs[..|subs| - 1];
      SelectedMembers(init, m, search);
      assert subs == init + [subs[|subs| - 1]];
    }
  }

  lemma SelectedSnoc(subs: seq<TopicSubscription>, i: nat, m: Message, search: RegexSearch)
    requires i < |subs|
    ensures Selected(subs[..i + 1], m, search)
         == Selected(subs[..i], m, search) + (if Eligible(subs[i], m, search) then [subs[i]] else [])
  {
    assert subs[..i + 1][..i] == subs[..i];
  }

  lemma SelectedSingleton(s: TopicSubscription, m: Message, search: RegexSearch)
    ensures Selected([s], m, search) == if Eligible(s, m, search) then [s] else []
  {
    assert [s][..0] == [];
  }

  /** The subscriptions of a list whose flag is set, in list order. */
  function Chosen(subs: seq<TopicSubscription>, flags: seq<bool>): seq<TopicSubscription>
    requires |flags| == |subs|
  {
    if subs == [] then []
    else
      var n := |subs| - 1;
      Chosen(subs[..n], flags[..n]) + (if flags[n] then [subs[n]] else [])
  }

  lemma ChosenSnoc(subs: seq<TopicSubscription>, flags: seq<bool>, i: nat)
    requires |flags| == |subs| && i < |subs|
    ensures Chosen(subs[..i + 1], flags[..i + 1]) == Chosen(subs[..i], flags[..i]) + (if flags[i] then [subs[i]] else [])
  {
    assert subs[..i + 1][..i] == subs[..i] && flags[..i + 1][..i] == flags[..i];
  }

  /** Whether each subscription of a list is eligible, in list order. */
  ghost function Flags(subs: seq<TopicSubscription>, m: Message, search: RegexSearch): (f: seq<bool>)
    reads (set i | 0 <= i < |subs| :: subs[i])`active, (set i | 0 <= i < |subs| :: subs[i])`filter
    ensures |f| == |subs| && forall j :: 0 <= j < |subs| ==> f[j] == Eligible(subs[j], m, search)
  {
    if subs == [] then []
    else
      var n := |subs| - 1;
      var init := Flags(subs[..n], m, search);
      assert forall j :: 0 <= j < n ==> subs[..n][j] == subs[j];
      init + [Eligible(subs[n], m, search)]
  }

  /** Flagging exactly the eligible subscriptions chooses the selected ones. */
  lemma {:induction false} ChosenIsSelected(subs: seq<TopicSubscription>, flags: seq<bool>, m: Message, search: RegexSearch)
    requires |flags| == |subs| && forall j :: 0 <= j < |subs| ==> flags[j] == Eligible(subs[j], m, search)
    ensures Chosen(subs, flags) == Selected(subs, m, search)
  {
    if subs != [] {
      var n := |subs| - 1;
      ChosenIsSelected(subs[..n], flags[..n], m, search);
    }
  }

  /** In a list without repeats, a subscription is chosen exactly when its own flag is set. */
  lemma {:induction false} ChosenMembers(subs: seq<TopicSubscription>, flags: seq<bool>)
    requires |flags| == |subs| && NoDup(subs)
    ensures forall j :: 0 <= j < |subs| ==> (subs[j] in Chosen(subs, flags) <==> flags[j])
  {
    if subs != [] {
      var n := |subs| - 1;
      ChosenMembers(subs[..n], flags[..n]);
      forall j | 0 <= j < |subs| ensures subs[j] in Chosen(subs, flags) <==> flags[j] {
        if j < n {
          assert subs[..n][j] == subs[j] && flags[..n][j] == flags[j] && subs[j] != subs[n];
        } else {
          assert subs[n] !in Chosen(subs[..n], flags[..n]) by {
            ChosenWithin(subs[..n], flags[..n]);
          }
        }
      }
    }
  }

  lemma {:induction false} ChosenWithin(subs: seq<TopicSubscription>, flags: seq<bool>)
    requires |flags| == |subs|
    ensures forall x :: x in Chosen(subs, flags) ==> x in subs
  {
    if subs != [] {
      var n := |subs| - 1;
      ChosenWithin(subs[..n], flags[..n]);
    }
  }

  /** The delivery loop of `route_message` over one topic's subscriptions. */
  method Deliver(subs: seq<TopicSubscription>, m: Message, search: RegexSearch) returns (matched: seq<TopicSubscription>)
    requires NoDup(subs)
    modifies (set i | 0 <= i < |subs| :: subs[i])`messageCount, (set i | 0 <= i < |subs| :: subs[i])`lastMessageAt
    ensures matched == old(Selected(subs, m, search))
    ensures forall j | 0 <= j < |subs| ::
      subs[j].messageCount == old(subs[j].messageCount) + (if subs[j] in matched then 1 else 0)
      && subs[j].lastMessageAt == if subs[j] in matched then Some(m.timestamp) else old(subs[j].lastMessageAt)
  {
    ghost var flags := Flags(subs, m, search);
    ChosenIsSelected(subs, flags, m, search);
    matched := [];
    var i := 0;
    while i < |subs|
      invariant 0 <= i <= |subs|
      invariant matched == Chosen(subs[..i], flags[..i])
      invariant forall j | 0 <= j < |subs| ::
        subs[j].messageCount == old(subs[j].messageCount) + (if j < i && flags[j] then 1 else 0)
        && subs[j].lastMessageAt == if j < i && flags[j] then Some(m.timestamp) else old(subs[j].lastMessageAt)
    {
      var s := subs[i];
      ChosenSnoc(subs, flags, i);
      assert Eligible(s, m, search) == flags[i];
      assert forall j | 0 <= j < |subs| && j != i :: subs[j] != s;
      if Eligible(s, m, search) {
        matched := matched + [s];
        s.messageCount := s.messageCount + 1;
        s.lastMessageAt := Some(m.timestamp);
      }
      i := i + 1;
    }
    assert subs[..i] == subs && flags[..i] == flags;
    ChosenMembers(subs, flags);
  }

  /** The subscriptions of `agent` to `topic` in a list, in list order. */
  function Pairs(l: seq<TopicSubscription>, agent: string, topic: string): seq<TopicSubscription> {
    if l == [] then []
    else
      var last := l[|l| - 1];
      Pairs(l[..|l| - 1], agent, topic) + (if last.agentId == agent && last.topic == topic then [last] else [])
  }

  lemma PairsSnoc(l: seq<TopicSubscription>, x: TopicSubscription, agent: string, topic: string)
    ensures Pairs(l + [x], agent, topic)
         == Pairs(l, agent, topic) + (if x.agentId == agent && x.topic == topic then [x] else [])
  {
    assert (l + [x])[..|l|] == l;
  }

  /** The list with the subscriptions of `agent` to `topic` taken out. */
  function Without(l: seq<TopicSubscription>, agent: string, topic: string): seq<TopicSubscription> {
    if l == [] then []
    else
      var last := l[|l| - 1];
      Without(l[..|l| - 1], agent, topic) + (if last.agentId == agent && last.topic == topic then [] else [last])
  }

  /** The list with every subscription to `topic` taken out. */
  function WithoutTopic(l: seq<TopicSubscription>, topic: string): seq<TopicSubscription> {
    if l == [] then []
    else
      var last := l[|l| - 1];
      WithoutTopic(l[..|l| - 1], topic) + (if last.topic == topic then [] else [last])
  }

  lemma {:induction false} WithoutPairs(l: seq<TopicSubscription>, agent: string, topic: string, a: string, t: string)
    ensures Pairs(Without(l, agent, topic), a, t) == if a == agent && t == topic then [] else Pairs(l, a, t)
  {
    if l != [] {
      var init := l[..|l| - 1];
      var last := l[|l| - 1];
      WithoutPairs(init, agent, topic, a, t);
      assert Pairs(l, a, t) == Pairs(init, a, t) + (if last.agentId == a && last.topic == t then [last] else []);
      if !(last.agentId == agent && last.topic == topic) {
        assert Without(l, agent, topic) == Without(init, agent, topic) + [last];
        PairsSnoc(Without(init, agent, topic), last, a, t);
      } else {
        assert Without(l, agent, topic) == Without(init, agent, topic);
      }
    }
  }

  lemma {:induction false} WithoutMembers(l: seq<TopicSubscription>, agent: string, topic: string)
    ensures forall s :: s in Without(l, agent, topic) <==> s in l && !(s.agentId == agent && s.topic == topic)
    ensures forall i :: 0 <= i < |Without(l, agent, topic)| ==>
      exists j :: 0 <= j < |l| && l[j] == Without(l, agent, topic)[i]
    ensures NoDup(l) ==> NoDup(Without(l, agent, topic))
  {
    if l != [] {
      var init := l[..|l| - 1];
      var last := l[|l| - 1];
      WithoutMembers(init, agent, topic);
      assert l == init + [last];
      if NoDup(l) {
        assert NoDup(init);
        assert last !in init;
      }
    }
  }

  /** On a list holding only `agent`'s subscriptions, dropping a topic drops exactly that pair. */
  lemma {:induction false} WithoutTopicOfAgent(l: seq<TopicSubscription>, agent: string, topic: string)
    requires forall i :: 0 <= i < |l| ==> l[i].agentId == agent
    ensures WithoutTopic(l, topic) == Without(l, agent, topic)
  {
    if l != [] {
      WithoutTopicOfAgent(l[..|l| - 1], agent, topic);
    }
  }

  /** The first subscription of `agent` to `topic` in a list of `agent`'s subscriptions is the first element of their pairs. */
  lemma {:induction false} FirstPair(l: seq<TopicSubscription>, agent: string, topic: string, k: nat)
    requires forall i :: 0 <= i < |l| ==> l[i].agentId == agent
    requires k < |l| && l[k].topic == topic && forall j :: 0 <= j < k ==> l[j].topic != topic
    ensures Pairs(l, agent, topic) != [] && Pairs(l, agent, topic)[0] == l[k]
  {
    var init := l[..|l| - 1];
    if k < |l| - 1 {
      FirstPair(init, agent, topic, k);
    } else {
      NoPairs(init, agent, topic);
    }
  }

  lemma {:induction false} NoPairs(l: seq<TopicSubscription>, agent: string, topic: string)
    requires forall j :: 0 <= j < |l| ==> l[j].agentId != agent || l[j].topic != topic
    ensures Pairs(l, agent, topic) == []
  {
    if l != [] {
      NoPairs(l[..|l| - 1], agent, topic);
    }
  }

  /** Python's `d[k] = v` followed by `del d[k]` when `v` is empty. */
  function StoreOrDrop(m: map<string, seq<TopicSubscription>>, k: string, v: seq<TopicSubscription>)
    : (r: map<string, seq<TopicSubscription>>)
    ensures v == [] ==> k !in r
    ensures v != [] ==> k in r && r[k] == v
    ensures forall j :: j != k ==> (j in r <==> j in m) && (j in r ==> r[j] == m[j])
  {
    if v == [] then m - {k} else m[k := v]
  }

  /** The key under which a handler is stored: `f"{agent_id}:{topic}"`. */
  function HandlerKey(agent: string, topic: string): string {
    agent + ":" + topic
  }

  datatype SubscriptionStats = SubscriptionStats(
    total: nat, active: nat, paused: int, topics: nat, agents: nat, byType: map<SubscriptionType, nat>)

  function CountActive(l: seq<TopicSubscription>): (r: nat)
    reads (set i | 0 <= i < |l| :: l[i])`active
    ensures r <= |l|
  {
    if l == [] then 0 else CountActive(l[..|l| - 1]) + (if l[|l| - 1].active then 1 else 0)
  }

  function CountKind(l: seq<TopicSubscription>, kind: SubscriptionType): nat {
    if l == [] then 0 else CountKind(l[..|l| - 1], kind) + (if l[|l| - 1].kind == kind then 1 else 0)
  }

  lemma ActiveAtMostTotal(total: nat, active: nat, actives: map<string, nat>, lengths: map<string, nat>)
    requires actives.Keys == lengths.Keys && forall t | t in actives :: actives[t] <= lengths[t]
    requires total == SumValues(lengths) && active == SumValues(actives)
    ensures active <= total
  {
    SumValuesMono(actives, lengths);
  }

  /** The totals of `get_subscription_stats` from the per-topic counts; the paused count is never negative. */
  method StatsOf(lengths: map<string, nat>, actives: map<string, nat>, kinds: map<SubscriptionType, map<string, nat>>,
                 topics: nat, agents: nat) returns (st: SubscriptionStats)
    requires actives.Keys == lengths.Keys && forall t | t in actives :: actives[t] <= lengths[t]
    ensures st.total == SumValues(lengths) && st.active == SumValues(actives)
    ensures st.paused == st.total - st.active && st.paused >= 0
    ensures st.topics == topics && st.agents == agents
    ensures st.byType.Keys == kinds.Keys && forall k | k in kinds :: st.byType[k] == SumValues(kinds[k])
  {
    var total := SumOf(lengths);
    var active := SumOf(actives);
    ActiveAtMostTotal(total, active, actives, lengths);
    var byType := SumEach(kinds);
    st := SubscriptionStats(total, active, total - active, topics, agents, byType);
  }

  const AllKinds: set<SubscriptionType> := {AllMessages, RoleBased, ContentFiltered, PriorityFiltered, Custom}

  /** The subscriptions of `agent` to `topic` as the topic index lists them. */
  function TopicPairs(byTopic: map<string, seq<TopicSubscription>>, agent: string, topic: string): seq<TopicSubscription> {
    Pairs(Get(byTopic, topic, []), agent, topic)
  }

  /** The same, as the agent index lists them. */
  function AgentPairs(byAgent: map<string, seq<TopicSubscription>>, agent: string, topic: string): seq<TopicSubscription> {
    Pairs(Get(byAgent, agent, []), agent, topic)
  }

  /** Every list of the topic index is non-empty, duplicate-free and filed under its subscriptions' topic. */
  ghost predicate TopicIndex(byTopic: map<string, seq<TopicSubscription>>) {
    forall t | t in byTopic ::
      byTopic[t] != [] && NoDup(byTopic[t]) && forall i | 0 <= i < |byTopic[t]| :: byTopic[t][i].topic == t
  }

  /** Every list of the agent index is non-empty, duplicate-free and filed under its subscriptions' agent. */
  ghost predicate AgentIndex(byAgent: map<string, seq<TopicSubscription>>) {
    forall a | a in byAgent ::
      byAgent[a] != [] && NoDup(byAgent[a]) && forall i | 0 <= i < |byAgent[a]| :: byAgent[a][i].agentId == a
  }

  /** The two indices list the same subscriptions of every agent to every topic, in the same order. */
  ghost predicate IndicesAgree(byTopic: map<string, seq<TopicSubscription>>, byAgent: map<string, seq<TopicSubscription>>) {
    forall a, t :: TopicPairs(byTopic, a, t) == AgentPairs(byAgent, a, t)
  }

  ghost predicate IndexValid(byTopic: map<string, seq<TopicSubscription>>, byAgent: map<string, seq<TopicSubscription>>) {
    TopicIndex(byTopic) && AgentIndex(byAgent) && IndicesAgree(byTopic, byAgent)
  }

  lemma SnocNoDup(l: seq<TopicSubscription>, s: TopicSubscription)
    requires NoDup(l) && s !in l
    ensures NoDup(l + [s])
  {
  }

  lemma SnocTopicIndex(byTopic: map<string, seq<TopicSubscription>>, s: TopicSubscription)
    requires TopicIndex(byTopic)
    requires forall t | t in byTopic :: s !in byTopic[t]
    ensures TopicIndex(byTopic[s.topic := Get(byTopic, s.topic, []) + [s]])
  {
    SnocNoDup(Get(byTopic, s.topic, []), s);
  }

  lemma SnocAgentIndex(byAgent: map<string, seq<TopicSubscription>>, s: TopicSubscription)
    requires AgentIndex(byAgent)
    requires forall a | a in byAgent :: s !in byAgent[a]
    ensures AgentIndex(byAgent[s.agentId := Get(byAgent, s.agentId, []) + [s]])
  {
    SnocNoDup(Get(byAgent, s.agentId, []), s);
  }

  lemma SnocPairs(byTopic: map<string, seq<TopicSubscription>>, byAgent: map<string, seq<TopicSubscription>>,
                  s: TopicSubscription, a: string, t: string)
    ensures TopicPairs(byTopic[s.topic := Get(byTopic, s.topic, []) + [s]], a, t)
         == TopicPairs(byTopic, a, t) + (if a == s.agentId && t == s.topic then [s] else [])
    ensures AgentPairs(byAgent[s.agentId := Get(byAgent, s.agentId, []) + [s]], a, t)
         == AgentPairs(byAgent, a, t) + (if a == s.agentId && t == s.topic then [s] else [])
  {
    PairsSnoc(Get(byTopic, s.topic, []), s, a, t);
    PairsSnoc(Get(byAgent, s.agentId, []), s, a, t);
  }

  /** Filing a new subscription at the end of both indices keeps them valid and adds it to its own pair only. */
  lemma SubscribeKeepsIndex(byTopic: map<string, seq<TopicSubscription>>, byAgent: map<string, seq<TopicSubscription>>,
                            s: TopicSubscription)
    requires IndexValid(byTopic, byAgent)
    requires forall t | t in byTopic :: s !in byTopic[t]
    requires forall a | a in byAgent :: s !in byAgent[a]
    ensures var byTopic' := byTopic[s.topic := Get(byTopic, s.topic, []) + [s]];
            var byAgent' := byAgent[s.agentId := Get(byAgent, s.agentId, []) + [s]];
      && IndexValid(byTopic', byAgent')
      && TopicPairs(byTopic', s.agentId, s.topic) == TopicPairs(byTopic, s.agentId, s.topic) + [s]
      && forall a, t :: a != s.agentId || t != s.topic ==> TopicPairs(byTopic', a, t) == TopicPairs(byTopic, a, t)
  {
    var byTopic' := byTopic[s.topic := Get(byTopic, s.topic, []) + [s]];
    var byAgent' := byAgent[s.agentId := Get(byAgent, s.agentId, []) + [s]];
    SnocTopicIndex(byTopic, s);
    SnocAgentIndex(byAgent, s);
    forall a, t ensures TopicPairs(byTopic', a, t) == AgentPairs(byAgent', a, t)
      && (a != s.agentId || t != s.topic ==> TopicPairs(byTopic', a, t) == TopicPairs(byTopic, a, t))
    {
      SnocPairs(byTopic, byAgent, s, a, t);
      assert TopicPairs(byTopic, a, t) == AgentPairs(byAgent, a, t);
    }
    SnocPairs(byTopic, byAgent, s, s.agentId, s.topic);
  }

  /** The topic index after `unsubscribe_agent_from_topic`. */
  function DropFromTopics(byTopic: map<string, seq<TopicSubscription>>, agent: string, topic: string)
    : map<string, seq<TopicSubscription>>
  {
    if topic in byTopic then StoreOrDrop(byTopic, topic, Without(byTopic[topic], agent, topic)) else byTopic
  }

  /** The agent index after `unsubscribe_agent_from_topic`. */
  function DropFromAgents(byAgent: map<string, seq<TopicSubscription>>, agent: string, topic: string)
    : map<string, seq<TopicSubscription>>
  {
    if agent in byAgent then StoreOrDrop(byAgent, agent, WithoutTopic(byAgent[agent], topic)) else byAgent
  }

  lemma DropTopicIndex(byTopic: map<string, seq<TopicSubscription>>, agent: string, topic: string)
    requires TopicIndex(byTopic)
    ensures TopicIndex(DropFromTopics(byTopic, agent, topic))
    ensures forall a, t :: TopicPairs(DropFromTopics(byTopic, agent, topic), a, t)
                        == if a == agent && t == topic then [] else TopicPairs(byTopic, a, t)
  {
    if topic in byTopic {
      var l := byTopic[topic];
      var w := Without(l, agent, topic);
      WithoutMembers(l, agent, topic);
      forall i | 0 <= i < |w| ensures w[i].topic == topic {
        var j :| 0 <= j < |l| && l[j] == w[i];
      }
    }
    forall a, t ensures TopicPairs(DropFromTopics(byTopic, agent, topic), a, t)
                     == if a == agent && t == topic then [] else TopicPairs(byTopic, a, t)
    {
      WithoutPairs(Get(byTopic, t, []), agent, topic, a, t);
      if t == topic && topic in byTopic {
        assert Get(DropFromTopics(byTopic, agent, topic), t, []) == Without(byTopic[topic], agent, topic);
      }
    }
  }

  lemma DropAgentIndex(byAgent: map<string, seq<TopicSubscription>>, agent: string, topic: string)
    requires AgentIndex(byAgent)
    ensures AgentIndex(DropFromAgents(byAgent, agent, topic))
    ensures forall a, t :: AgentPairs(DropFromAgents(byAgent, agent, topic), a, t)
                        == if a == agent && t == topic then [] else AgentPairs(byAgent, a, t)
  {
    if agent in byAgent {
      var l := byAgent[agent];
      var w := Without(l, agent, topic);
      WithoutTopicOfAgent(l, agent, topic);
      WithoutMembers(l, agent, topic);
      forall i | 0 <= i < |w| ensures w[i].agentId == agent {
        var j :| 0 <= j < |l| && l[j] == w[i];
      }
    }
    forall a, t ensures AgentPairs(DropFromAgents(byAgent, agent, topic), a, t)
                     == if a == agent && t == topic then [] else AgentPairs(byAgent, a, t)
    {
      WithoutPairs(Get(byAgent, a, []), agent, topic, a, t);
      if a == agent && agent in byAgent {
        assert Get(DropFromAgents(byAgent, agent, topic), a, []) == Without(byAgent[agent], agent, topic);
      }
    }
  }

  /** Dropping every subscription of `agent` to `topic` from both indices keeps them valid and empties that pair only. */
  lemma UnsubscribeKeepsIndex(byTopic: map<string, seq<TopicSubscription>>, byAgent: map<string, seq<TopicSubscription>>,
                              agent: string, topic: string)
    requires IndexValid(byTopic, byAgent)
    ensures IndexValid(DropFromTopics(byTopic, agent, topic), DropFromAgents(byAgent, agent, topic))
    ensures TopicPairs(DropFromTopics(byTopic, agent, topic), agent, topic) == []
    ensures forall a, t :: a != agent || t != topic ==>
      TopicPairs(DropFromTopics(byTopic, agent, topic), a, t) == TopicPairs(byTopic, a, t)
  {
    DropTopicIndex(byTopic, agent, topic);
    DropAgentIndex(byAgent, agent, topic);
    forall a, t ensures TopicPairs(DropFromTopics(byTopic, agent, topic), a, t)
                     == AgentPairs(DropFromAgents(byAgent, agent, topic), a, t)
    {
      assert TopicPairs(byTopic, a, t) == AgentPairs(byAgent, a, t);
    }
  }

  class SubscriptionManager {
    /** topic -> its subscriptions, in subscription order */
    var subscriptions: map<string, seq<TopicSubscription>>
    /** agent -> its subscriptions, in subscription order */
    var agentSubscriptions: map<string, seq<TopicSubscription>>
    /** `"agent:topic"` -> handler */
    var handlers: map<string, Handler>

    /** The subscriptions of `agent` to `topic`, in subscription order. */
    function Subscribed(agent: string, topic: string): seq<TopicSubscription>
      reads this
    {
      TopicPairs(subscriptions, agent, topic)
    }

    ghost predicate Valid()
      reads this
    {
      IndexValid(subscriptions, agentSubscriptions)
    }

    constructor ()
      ensures Valid()
      ensures subscriptions == map[] && agentSubscriptions == map[] && handlers == map[]
    {
      subscriptions := map[];
      agentSubscriptions := map[];
      handlers := map[];
    }

    /** `subscribe_agent_to_topic`: a new active subscription at the end of both indices. */
    method Subscribe(agentId: string, topic: string, kind: SubscriptionType,
                     filter: Option<SubscriptionFilter>, handler: Option<Handler>)
      returns (s: TopicSubscription)
      requires Valid()
      modifies this
      ensures Valid() && fresh(s)
      ensures s.topic == topic && s.agentId == agentId && s.kind == kind && s.filter == filter
      ensures s.active && s.messageCount == 0 && s.lastMessageAt == None
      ensures subscriptions == old(subscriptions)[topic := Get(old(subscriptions), topic, []) + [s]]
      ensures agentSubscriptions == old(agentSubscriptions)[agentId := Get(old(agentSubscriptions), agentId, []) + [s]]
      ensures handlers == if handler.Some? then old(handlers)[HandlerKey(agentId, topic) := handler.value] else old(handlers)
      ensures Subscribed(agentId, topic) == old(Subscribed(agentId, topic)) + [s]
      ensures forall a, t :: a != agentId || t != topic ==> Subscribed(a, t) == old(Subscribed(a, t))
    {
      s := new TopicSubscription(topic, agentId, kind, filter, handler);
      assert forall t | t in subscriptions :: s !in subscriptions[t];
      assert forall a | a in agentSubscriptions :: s !in agentSubscriptions[a];
      SubscribeKeepsIndex(subscriptions, agentSubscriptions, s);
      subscriptions := subscriptions[topic := Get(subscriptions, topic, []) + [s]];
      agentSubscriptions := agentSubscriptions[agentId := Get(agentSubscriptions, agentId, []) + [s]];
      if handler.Some? {
        handlers := handlers[HandlerKey(agentId, topic) := handler.value];
      }
    }

    /**
     * `unsubscribe_agent_from_topic`: every subscription of the agent to the
     * topic leaves both indices, and so does the handler. The result is true
     * whenever the topic had subscriptions, even if none was the agent's.
     */
    method Unsubscribe(agentId: string, topic: string) returns (removed: bool)
      requires Valid()
      modifies this
      ensures Valid()
      ensures removed == (topic in old(subscriptions))
      ensures subscriptions == DropFromTopics(old(subscriptions), agentId, topic)
      ensures agentSubscriptions == DropFromAgents(old(agentSubscriptions), agentId, topic)
      ensures handlers == old(handlers) - {HandlerKey(agentId, topic)}
      ensures Subscribed(agentId, topic) == []
      ensures forall a, t :: a != agentId || t != topic ==> Subscribed(a, t) == old(Subscribed(a, t))
    {
      UnsubscribeKeepsIndex(subscriptions, agentSubscriptions, agentId, topic);
      removed := false;
      if topic in subscriptions {
        subscriptions := StoreOrDrop(subscriptions, topic, Without(subscriptions[topic], agentId, topic));
        removed := true;
      }
      if agentId in agentSubscriptions {
        agentSubscriptions := StoreOrDrop(agentSubscriptions, agentId, WithoutTopic(agentSubscriptions[agentId], topic));
      }
      handlers := handlers - {HandlerKey(agentId, topic)};
    }

    /** `route_message`: the eligible subscriptions of the message's topic, each of which counts the delivery. */
    method RouteMessage(m: Message, search: RegexSearch) returns (matched: seq<TopicSubscription>)
      requires Valid()
      modifies (set i | 0 <= i < |Get(subscriptions, m.topic, [])| :: Get(subscriptions, m.topic, [])[i])`messageCount
      modifies (set i | 0 <= i < |Get(subscriptions, m.topic, [])| :: Get(subscriptions, m.topic, [])[i])`lastMessageAt
      ensures matched == old(Selected(Get(subscriptions, m.topic, []), m, search))
      ensures forall j | 0 <= j < |Get(subscriptions, m.topic, [])| ::
        var s := Get(subscriptions, m.topic, [])[j];
        s.messageCount == old(s.messageCount) + (if s in matched then 1 else 0)
        && s.lastMessageAt == if s in matched then Some(m.timestamp) else old(s.lastMessageAt)
    {
      matched := Deliver(Get(subscriptions, m.topic, []), m, search);
    }

    /** The first subscription of `agentId` to `topic` in the agent index, or none. */
    method FindFirst(agentId: string, topic: string) returns (k: Option<nat>)
      requires Valid()
      ensures k.None? <==> Subscribed(agentId, topic) == []
      ensures k.Some? ==> (k.value < |Get(agentSubscriptions, agentId, [])|
        && Get(agentSubscriptions, agentId, [])[k.value] == Subscribed(agentId, topic)[0])
    {
      var l := Get(agentSubscriptions, agentId, []);
      var i := 0;
      while i < |l|
        invariant 0 <= i <= |l|
        invariant forall j :: 0 <= j < i ==> l[j].topic != topic
      {
        if l[i].topic == topic {
          FirstPair(l, agentId, topic, i);
          return Some(i);
        }
        i := i + 1;
      }
      NoPairs(l, agentId, topic);
      return None;
    }

    /** `pause_subscription`: the agent's earliest subscription to the topic stops receiving. */
    method Pause(agentId: string, topic: string) returns (found: bool)
      requires Valid()
      modifies (set i | 0 <= i < |Get(agentSubscriptions, agentId, [])| :: Get(agentSubscriptions, agentId, [])[i])`active
      ensures found <==> Subscribed(agentId, topic) != []
      ensures found ==> !Subscribed(agentId, topic)[0].active
      ensures forall s | s in Get(agentSubscriptions, agentId, []) ::
        s.active == if found && s == Subscribed(agentId, topic)[0] then false else old(s.active)
    {
      var k := FindFirst(agentId, topic);
      found := k.Some?;
      if found {
        agentSubscriptions[agentId][k.value].active := false;
      }
    }

    /** `resume_subscription`: the agent's earliest subscription to the topic receives again. */
    method Resume(agentId: string, topic: string) returns (found: bool)
      requires Valid()
      modifies (set i | 0 <= i < |Get(agentSubscriptions, agentId, [])| :: Get(agentSubscriptions, agentId, [])[i])`active
      ensures found <==> Subscribed(agentId, topic) != []
      ensures found ==> Subscribed(agentId, topic)[0].active
      ensures forall s | s in Get(agentSubscriptions, agentId, []) ::
        s.active == if found && s == Subscribed(agentId, topic)[0] then true else old(s.active)
    {
      var k := FindFirst(agentId, topic);
      found := k.Some?;
      if found {
        agentSubscriptions[agentId][k.value].active := true;
      }
    }

    /** `update_subscription_filter`: the agent's earliest subscription to the topic takes the new filter. */
    method UpdateFilter(agentId: string, topic: string, newFilter: SubscriptionFilter) returns (found: bool)
      requires Valid()
      modifies (set i | 0 <= i < |Get(agentSubscriptions, agentId, [])| :: Get(agentSubscriptions, agentId, [])[i])`filter
      ensures found <==> Subscribed(agentId, topic) != []
      ensures found ==> Subscribed(agentId, topic)[0].filter == Some(newFilter)
      ensures forall s | s in Get(agentSubscriptions, agentId, []) ::
        s.filter == if found && s == Subscribed(agentId, topic)[0] then Some(newFilter) else old(s.filter)
    {
      var k := FindFirst(agentId, topic);
      found := k.Some?;
      if found {
        agentSubscriptions[agentId][k.value].filter := Some(newFilter);
      }
    }

    /** `get_agent_subscriptions`. */
    function AgentSubscriptions(agentId: string): (r: seq<TopicSubscription>)
      requires Valid()
      reads this
      ensures forall i :: 0 <= i < |r| ==> r[i].agentId == agentId
      ensures forall t :: Pairs(r, agentId, t) == Subscribed(agentId, t)
    {
      Get(agentSubscriptions, agentId, [])
    }

    /** `get_topic_subscribers`. */
    function TopicSubscribers(topic: string): (r: seq<TopicSubscription>)
      requires Valid()
      reads this
      ensures r == Get(subscriptions, topic, [])
      ensures forall i :: 0 <= i < |r| ==> r[i].topic == topic
      ensures NoDup(r)
      ensures r == [] <==> topic !in subscriptions
      ensures forall a :: Pairs(r, a, topic) == AgentPairs(agentSubscriptions, a, topic)
    {
      Get(subscriptions, topic, [])
    }

    function Lengths(): map<string, nat>
      reads this
    {
      map t | t in subscriptions :: |subscriptions[t]|
    }

    function ActiveCounts(): map<string, nat>
      reads this, (set t, i | t in subscriptions && 0 <= i < |subscriptions[t]| :: subscriptions[t][i])`active
    {
      map t | t in subscriptions :: CountActive(subscriptions[t])
    }

    function KindCounts(kind: SubscriptionType): map<string, nat>
      reads this
    {
      map t | t in subscriptions :: CountKind(subscriptions[t], kind)
    }

    /**
     * `get_subscription_stats`: totals over all topics; the paused count is never negative.
     * The active count is stated in the state at the call, which the method leaves as it is.
     */
    method Stats() returns (st: SubscriptionStats)
      ensures st.total == SumValues(Lengths())
      ensures st.active == SumValues(old(ActiveCounts()))
      ensures st.paused == st.total - st.active && st.paused >= 0
      ensures st.topics == |subscriptions.Keys| && st.agents == |agentSubscriptions.Keys|
      ensures st.byType.Keys == AllKinds && forall k | k in AllKinds :: st.byType[k] == SumValues(KindCounts(k))
    {
      var actives := ActiveCounts();
      st := StatsOf(Lengths(), actives, map k | k in AllKinds :: KindCounts(k),
                    |subscriptions.Keys|, |agentSubscriptions.Keys|);
    }
  }

  /** A fresh manager with the scenario's one keyword subscription. */
  method KeywordSubscriber() returns (mgr: SubscriptionManager, s: TopicSubscription)
    ensures fresh(mgr) && fresh(s) && mgr.Valid()
    ensures mgr.subscriptions == map["test-topic" := [s]]
    ensures s.active && s.filter == Some(KeywordFilter) && s.agentId == "agent-1"
  {
    mgr := new SubscriptionManager();
    s := mgr.Subscribe("agent-1", "test-topic", AllMessages, Some(KeywordFilter), None);
  }

  /** Routing one message to the fresh keyword subscriber reaches it exactly when the filter admits the message and the subscriber did not send it. */
  method RouteToKeywordSubscriber(m: Message, search: RegexSearch) returns (delivered: nat)
    requires m.topic == "test-topic"
    ensures delivered == if m.senderId != "agent-1" && MatchesFilter(m, Some(KeywordFilter), search) then 1 else 0
  {
    var mgr, s := KeywordSubscriber();
    SelectedSingleton(s, m, search);
    assert Get(mgr.subscriptions, m.topic, []) == [s];
    var r := mgr.RouteMessage(m, search);
    delivered := |r|;
  }

  /** The content-filter scenario, first half: an urgent message reaches the keyword subscriber. */
  method UrgentReachesSubscriber(search: RegexSearch) returns (delivered: nat)
    ensures delivered == 1
  {
    UrgentMessageAdmitted(search);
    delivered := RouteToKeywordSubscriber(UrgentMessage, search);
  }

  /** The content-filter scenario, second half: a normal message reaches nobody. */
  method NormalMissesSubscriber(search: RegexSearch) returns (delivered: nat)
    ensures delivered == 0
  {
    NormalMessageRejected(search);
    delivered := RouteToKeywordSubscriber(NormalMessage, search);
  }
}
