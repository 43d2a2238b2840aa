/**
 * The topic registry (`TopicManager`): topic records by name, in creation
 * order, and for each agent the set of topic names it subscribes to. The two
 * directions of a subscription, the agent's set and the topic's subscriber
 * list, are kept in step by subscribe, unsubscribe and delete.
 */
module Topics {
  import opened Common
  import opened Message

  // ---------------------------------------------------------------------------
  // The subscription invariant, on values
  // ---------------------------------------------------------------------------

  /**
   * Subscriber lists by topic name agree with topic sets by agent: every
   * list is free of duplicates, every topic an agent holds is registered, and
   * an agent is on a topic's list exactly when the topic is in the agent's set.
   */
  predicate Consistent(lists: map<string, seq<string>>, agents: map<string, set<string>>) {
    (forall n :: n in lists ==> NoDup(lists[n]))
    && (forall a, n :: a in agents && n in agents[a] ==> n in lists && a in lists[n])
    && (forall n, a :: n in lists && a in lists[n] ==> a in agents && n in agents[a])
  }

  /** A new topic starts with no subscribers. */
  lemma CreateKeepsConsistent(lists: map<string, seq<string>>, agents: map<string, set<string>>, name: string)
    requires Consistent(lists, agents) && name !in lists
    ensures Consistent(lists[name := []], agents)
  {
  }

  /** Subscribing adds the topic to the agent's set and the agent to the topic's list. */
  lemma SubscribeKeepsConsistent(lists: map<string, seq<string>>, agents: map<string, set<string>>,
                                 agentId: string, name: string)
    requires Consistent(lists, agents) && name in lists
    ensures Consistent(lists[name := WithSubscriber(lists[name], agentId)],
                       agents[agentId := Get(agents, agentId, {}) + {name}])
  {
    WithSubscriberFacts(lists[name], agentId);
  }

  /** Unsubscribing takes the topic out of the agent's set and the agent off the topic's list. */
  lemma UnsubscribeKeepsConsistent(lists: map<string, seq<string>>, agents: map<string, set<string>>,
                                   agentId: string, name: string)
    requires Consistent(lists, agents) && agentId in agents && name in agents[agentId]
    ensures name in lists
    ensures Consistent(lists[name := WithoutSubscriber(lists[name], agentId)],
                       agents[agentId := agents[agentId] - {name}])
  {
    WithoutSubscriberFacts(lists[name], agentId);
  }

  /** `agents` with `name` taken out of every agent's set. */
  function Discarded(agents: map<string, set<string>>, name: string): (r: map<string, set<string>>)
    ensures r.Keys == agents.Keys
    ensures forall a :: a in r ==> name !in r[a] && r[a] == agents[a] - {name}
  {
    map a | a in agents :: agents[a] - {name}
  }

  /** Deleting a topic drops its list and takes it out of every agent's set. */
  lemma DeleteKeepsConsistent(lists: map<string, seq<string>>, agents: map<string, set<string>>, name: string)
    requires Consistent(lists, agents)
    ensures Consistent(lists - {name}, Discarded(agents, name))
  {
  }

  // ---------------------------------------------------------------------------
  // Listing and searching
  // ---------------------------------------------------------------------------

  /** `[t for t in topics if t.name in names]`. */
  function InNames(ts: seq<TopicInfo>, names: set<string>): (r: seq<TopicInfo>)
    ensures |r| <= |ts|
    ensures forall i :: 0 <= i < |r| ==> r[i] in ts && r[i].name in names
    ensures forall i :: 0 <= i < |ts| && ts[i].name in names ==> ts[i] in r
  {
    if ts == [] then []
    else (if ts[0].name in names then [ts[0]] else []) + InNames(ts[1..], names)
  }

  /** Whether one of `tags` is among the topic's tags. */
  predicate Tagged(t: TopicInfo, tags: seq<string>) {
    exists i :: 0 <= i < |tags| && tags[i] in t.tags
  }

  /** `[t for t in topics if any(tag in t.tags for tag in tags)]`. */
  function WithAnyTag(ts: seq<TopicInfo>, tags: seq<string>): (r: seq<TopicInfo>)
    ensures |r| <= |ts|
    ensures forall i :: 0 <= i < |r| ==> r[i] in ts && Tagged(r[i], tags)
    ensures forall i :: 0 <= i < |ts| && Tagged(ts[i], tags) ==> ts[i] in r
  {
    if ts == [] then []
    else (if Tagged(ts[0], tags) then [ts[0]] else []) + WithAnyTag(ts[1..], tags)
  }

  /** `[t for t in topics if not t.is_private]`. */
  function PublicOnly(ts: seq<TopicInfo>): (r: seq<TopicInfo>)
    ensures |r| <= |ts|
    ensures forall i :: 0 <= i < |r| ==> r[i] in ts && !r[i].isPrivate
    ensures forall i :: 0 <= i < |ts| && !ts[i].isPrivate ==> ts[i] in r
  {
    if ts == [] then []
    else (if ts[0].isPrivate then [] else [ts[0]]) + PublicOnly(ts[1..])
  }

  /** Whether the three filters of `list_topics` keep the topic; `names` is the agent's set when an agent is given. */
  predicate Kept(t: TopicInfo, names: Option<set<string>>, tags: seq<string>, includePrivate: bool) {
    (names.Some? ==> t.name in names.value) && (tags != [] ==> Tagged(t, tags)) && (includePrivate || !t.isPrivate)
  }

  /** The filter chain of `list_topics`, applied in the source's order. */
  function Filtered(ts: seq<TopicInfo>, names: Option<set<string>>, tags: seq<string>, includePrivate: bool)
    : (r: seq<TopicInfo>)
    ensures |r| <= |ts|
    ensures forall i :: 0 <= i < |r| ==> r[i] in ts && Kept(r[i], names, tags, includePrivate)
    ensures forall i :: 0 <= i < |ts| && Kept(ts[i], names, tags, includePrivate) ==> ts[i] in r
  {
    var bySubscription := if names.Some? then InNames(ts, names.value) else ts;
    var byTag := if tags != [] then WithAnyTag(bySubscription, tags) else bySubscription;
    if includePrivate then byTag else PublicOnly(byTag)
  }

  /** The search test of `search_topics`: the lower-cased query in the lower-cased name or non-empty description. */
  predicate MatchesQuery(t: TopicInfo, query: string) {
    IsSubstring(Lower(query), Lower(t.name))
    || (t.description.Some? && t.description.value != "" && IsSubstring(Lower(query), Lower(t.description.value)))
  }

  function Matching(ts: seq<TopicInfo>, query: string): (r: seq<TopicInfo>)
    ensures |r| <= |ts|
    ensures forall i :: 0 <= i < |r| ==> r[i] in ts && MatchesQuery(r[i], query)
    ensures forall i :: 0 <= i < |ts| && MatchesQuery(ts[i], query) ==> ts[i] in r
  {
    if ts == [] then []
    else (if MatchesQuery(ts[0], query) then [ts[0]] else []) + Matching(ts[1..], query)
  }

  // ---------------------------------------------------------------------------
  // Statistics
  // ---------------------------------------------------------------------------

  datatype TopicStats = TopicStats(totalTopics: nat, publicTopics: nat, privateTopics: nat,
                                   totalSubscribers: nat, averageSubscribers: real)

  function CountPrivate(ts: seq<TopicInfo>): (r: nat)
    ensures r <= |ts|
  {
    if ts == [] then 0 else (if ts[0].isPrivate then 1 else 0) + CountPrivate(ts[1..])
  }

  /** The public topics the stats count are the ones the privacy filter of `list_topics` keeps. */
  lemma {:induction false} PublicCount(ts: seq<TopicInfo>)
    ensures |PublicOnly(ts)| + CountPrivate(ts) == |ts|
  {
    if ts != [] {
      PublicCount(ts[1..]);
    }
  }

  function SubscriberTotal(ts: seq<TopicInfo>): nat
    reads set i | 0 <= i < |ts| :: ts[i]
  {
    if ts == [] then 0 else |ts[0].subscribers| + SubscriberTotal(ts[1..])
  }

  // ---------------------------------------------------------------------------
  // The registry
  // ---------------------------------------------------------------------------

  /** The subscriber list of each record, by name. */
  ghost function ListsOf(entries: map<string, TopicInfo>): (r: map<string, seq<string>>)
    reads set n | n in entries :: entries[n]
  {
    map n | n in entries :: entries[n].subscribers
  }

  lemma ListsOfRemove(entries: map<string, TopicInfo>, name: string)
    ensures ListsOf(entries - {name}) == ListsOf(entries) - {name}
  {
  }

  class TopicManager {
    /** Topic records by name, in creation order. */
    var topics: Dict<string, TopicInfo>
    /** Agent id to the names of the topics it subscribes to. */
    var agentSubscriptions: map<string, set<string>>

    /** The records the registry holds. */
    function Records(): set<TopicInfo>
      reads this`topics
    {
      set n | n in topics.entries :: topics.entries[n]
    }

    /** Each record's subscriber list, by topic name. */
    ghost function Lists(): map<string, seq<string>>
      reads this`topics, Records()
    {
      ListsOf(topics.entries)
    }

    /** Each record is filed under its own name. */
    predicate Named()
      reads this
    {
      forall n :: n in topics.entries ==> topics.entries[n].name == n
    }

    ghost predicate Valid()
      reads this, Records()
    {
      topics.Valid() && Named() && Consistent(Lists(), agentSubscriptions)
    }

    constructor ()
      ensures Valid() && topics == EmptyDict() && agentSubscriptions == map[]
    {
      topics := EmptyDict();
      agentSubscriptions := map[];
    }

    /** `create_topic`: an existing name returns its record and changes nothing. */
    method CreateTopic(name: string, createdBy: string, description: Option<string>, isPrivate: bool,
                       tags: seq<string>, now: Instant) returns (info: TopicInfo)
      requires Valid()
      modifies this
      ensures Valid()
      ensures agentSubscriptions == old(agentSubscriptions)
      ensures name in old(topics.entries) ==> info == old(topics.entries[name]) && topics == old(topics)
      ensures name !in old(topics.entries) ==>
        fresh(info) && topics == old(topics).Put(name, info) && Lists() == old(Lists())[name := []]
        && info.name == name && info.description == description && info.createdBy == createdBy
        && info.createdAt == now && info.isPrivate == isPrivate && info.tags == tags
    {
      if name in topics.entries {
        return topics.entries[name];
      }
      ghost var before := Lists();
      info := new TopicInfo(name, description, createdBy, now, isPrivate, tags);
      topics := topics.Put(name, info);
      assert Lists() == before[name := []];
      CreateKeepsConsistent(before, agentSubscriptions, name);
    }

    /** `get_topic`. */
    function GetTopic(name: string): (r: Option<TopicInfo>)
      reads this
      ensures r.Some? <==> name in topics.entries
      ensures r.Some? ==> r.value in Records()
      ensures r.Some? && Named() ==> r.value.name == name
    {
      if name in topics.entries then Some(topics.entries[name]) else None
    }

    /** `subscribe_agent_to_topic`: false for an unknown topic, otherwise both directions gain the pair. */
    method Subscribe(agentId: string, topicName: string) returns (ok: bool)
      requires Valid()
      modifies this, Records()
      ensures Valid()
      ensures topics == old(topics)
      ensures ok <==> topicName in old(topics.entries)
      ensures ok ==> agentSubscriptions == old(agentSubscriptions)[agentId := Get(old(agentSubscriptions), agentId, {}) + {topicName}]
      ensures ok ==> Lists() == old(Lists())[topicName := WithSubscriber(old(Lists())[topicName], agentId)]
      ensures !ok ==> agentSubscriptions == old(agentSubscriptions) && Lists() == old(Lists())
    {
      if topicName !in topics.entries {
        return false;
      }
      ghost var before := Lists();
      var info := topics.entries[topicName];
      agentSubscriptions := agentSubscriptions[agentId := Get(agentSubscriptions, agentId, {}) + {topicName}];
      info.AddSubscriber(agentId);
      assert forall n :: n in topics.entries && n != topicName ==> topics.entries[n] != info;
      assert Lists() == before[topicName := WithSubscriber(before[topicName], agentId)];
      SubscribeKeepsConsistent(before, old(agentSubscriptions), agentId, topicName);
      return true;
    }

    /** `unsubscribe_agent_from_topic`: false unless the agent holds the topic, otherwise both directions lose the pair. */
    method Unsubscribe(agentId: string, topicName: string) returns (ok: bool)
      requires Valid()
      modifies this, Records()
      ensures Valid()
      ensures topics == old(topics)
      ensures ok <==> agentId in old(agentSubscriptions) && topicName in old(agentSubscriptions)[agentId]
      ensures ok ==> agentSubscriptions == old(agentSubscriptions)[agentId := old(agentSubscriptions)[agentId] - {topicName}]
      ensures ok ==> Lists() == old(Lists())[topicName := WithoutSubscriber(old(Lists())[topicName], agentId)]
      ensures !ok ==> agentSubscriptions == old(agentSubscriptions) && Lists() == old(Lists())
    {
      if agentId !in agentSubscriptions || topicName !in agentSubscriptions[agentId] {
        return false;
      }
      ghost var before := Lists();
      UnsubscribeKeepsConsistent(before, agentSubscriptions, agentId, topicName);
      var info := topics.entries[topicName];
      agentSubscriptions := agentSubscriptions[agentId := agentSubscriptions[agentId] - {topicName}];
      info.RemoveSubscriber(agentId);
      assert forall n :: n in topics.entries && n != topicName ==> topics.entries[n] != info;
      assert Lists() == before[topicName := WithoutSubscriber(before[topicName], agentId)];
      return true;
    }

    /** `get_agent_topics`: the records of the topics in the agent's set. */
    function AgentTopics(agentId: string): (r: set<TopicInfo>)
      reads this
      ensures r <= Records()
      ensures agentId !in agentSubscriptions ==> r == {}
    {
      set n | n in Get(agentSubscriptions, agentId, {}) && n in topics.entries :: topics.entries[n]
    }

    /** The agent's topics are exactly the registered topics whose subscriber list holds the agent. */
    lemma AgentTopicsAreSubscribed(agentId: string)
      requires Valid()
      ensures forall n :: n in topics.entries ==>
        (topics.entries[n] in AgentTopics(agentId) <==> agentId in topics.entries[n].subscribers)
    {
      forall n | n in topics.entries
        ensures topics.entries[n] in AgentTopics(agentId) <==> agentId in topics.entries[n].subscribers
      {
        assert Lists()[n] == topics.entries[n].subscribers;
        if topics.entries[n] in AgentTopics(agentId) {
          var m :| m in Get(agentSubscriptions, agentId, {}) && m in topics.entries && topics.entries[m] == topics.entries[n];
          assert m == n;
        }
      }
    }

    /** Whether `list_topics` keeps the topic, given its filters. */
    predicate Listed(t: TopicInfo, agentId: Option<string>, tags: seq<string>, includePrivate: bool)
      reads this
    {
      (agentId.Some? && agentId.value != "" ==> t.name in Get(agentSubscriptions, agentId.value, {}))
      && (tags != [] ==> Tagged(t, tags))
      && (includePrivate || !t.isPrivate)
    }

    /** `list_topics`: the registered topics, in creation order, filtered by the agent's set, the tags and privacy. */
    function ListTopics(agentId: Option<string>, tags: seq<string>, includePrivate: bool): (r: seq<TopicInfo>)
      requires topics.Valid()
      reads this
      ensures |r| <= |topics.keys|
      ensures forall i :: 0 <= i < |r| ==> r[i] in Records() && Listed(r[i], agentId, tags, includePrivate)
      ensures forall i :: 0 <= i < |topics.keys| && Listed(topics.entries[topics.keys[i]], agentId, tags, includePrivate)
                ==> topics.entries[topics.keys[i]] in r
    {
      var names := if agentId.Some? && agentId.value != "" then Some(Get(agentSubscriptions, agentId.value, {})) else None;
      ValuesAreListable(agentId, names, tags, includePrivate);
      Filtered(Values(topics), names, tags, includePrivate)
    }

    /** Every value of the registry is a record, and the filters of `list_topics` keep it exactly when `Listed` does. */
    lemma ValuesAreListable(agentId: Option<string>, names: Option<set<string>>, tags: seq<string>, includePrivate: bool)
      requires topics.Valid()
      requires names == if agentId.Some? && agentId.value != "" then Some(Get(agentSubscriptions, agentId.value, {})) else None
      ensures forall i :: 0 <= i < |topics.keys| ==>
                Values(topics)[i] in Records()
                && (Kept(Values(topics)[i], names, tags, includePrivate) <==> Listed(Values(topics)[i], agentId, tags, includePrivate))
    {
    }

    /** `search_topics`: listed public topics (of the agent, when one is given) that match the query. */
    function SearchTopics(query: string, agentId: Option<string>): (r: seq<TopicInfo>)
      requires topics.Valid()
      reads this
      ensures forall i :: 0 <= i < |r| ==>
        r[i] in Records() && !r[i].isPrivate && MatchesQuery(r[i], query) && Listed(r[i], agentId, [], false)
      ensures forall i :: 0 <= i < |topics.keys| ==>
        var t := topics.entries[topics.keys[i]];
        Listed(t, agentId, [], false) && MatchesQuery(t, query) ==> t in r
    {
      Matching(ListTopics(agentId, [], false), query)
    }

    /** `ensure_topic_exists`: an existing topic is returned as it is; a missing one is created public and untagged. */
    method EnsureTopicExists(topicName: string, createdBy: string, createdByName: string, now: Instant)
      returns (info: TopicInfo)
      requires Valid()
      modifies this
      ensures Valid()
      ensures agentSubscriptions == old(agentSubscriptions)
      ensures topicName in old(topics.entries) ==> info == old(topics.entries[topicName]) && topics == old(topics)
      ensures topicName !in old(topics.entries) ==>
        fresh(info) && topics == old(topics).Put(topicName, info)
        && info.name == topicName && info.createdBy == createdBy && !info.isPrivate && info.tags == []
        && info.description == Some("Auto-created by " + createdByName)
    {
      if topicName in topics.entries {
        return topics.entries[topicName];
      }
      info := CreateTopic(topicName, createdBy, Some("Auto-created by " + createdByName), false, [], now);
    }

    /** The loop of `delete_topic` that discards the topic from every agent's set. */
    static method DiscardEverywhere(agents: map<string, set<string>>, name: string) returns (r: map<string, set<string>>)
      ensures r == Discarded(agents, name)
    {
      r := agents;
      var todo := agents.Keys;
      while todo != {}
        invariant todo <= agents.Keys && r.Keys == agents.Keys
        invariant forall a :: a in agents && a !in todo ==> r[a] == agents[a] - {name}
        invariant forall a :: a in todo ==> r[a] == agents[a]
        decreases todo
      {
        var a :| a in todo;
        r := r[a := r[a] - {name}];
        todo := todo - {a};
      }
    }

    /** Whether `deletedBy` may delete the registered topic: its creator always, anyone when it is private. */
    predicate MayDelete(t: TopicInfo, deletedBy: string) {
      t.createdBy == deletedBy || t.isPrivate
    }

    /** `delete_topic`: false for an unknown topic or a refused deleter; otherwise the topic leaves the registry and every agent's set. */
    method DeleteTopic(topicName: string, deletedBy: string) returns (ok: bool)
      requires Valid()
      modifies this
      ensures Valid()
      ensures ok <==> topicName in old(topics.entries) && MayDelete(old(topics.entries[topicName]), deletedBy)
      ensures ok ==> (topics == old(topics).Remove(topicName)
                      && agentSubscriptions == Discarded(old(agentSubscriptions), topicName)
                      && Lists() == old(Lists()) - {topicName})
      ensures !ok ==> topics == old(topics) && agentSubscriptions == old(agentSubscriptions)
    {
      if topicName !in topics.entries {
        return false;
      }
      var topic := topics.entries[topicName];
      if topic.createdBy != deletedBy && !topic.isPrivate {
        return false;
      }
      ghost var before := Lists();
      DeleteKeepsConsistent(before, agentSubscriptions, topicName);
      DropTopic(topicName);
      assert Named();
      return true;
    }

    /** The stores of a successful `delete_topic`. */
    method DropTopic(topicName: string)
      requires topics.Valid()
      modifies this
      ensures topics == old(topics).Remove(topicName)
      ensures agentSubscriptions == Discarded(old(agentSubscriptions), topicName)
      ensures Lists() == old(Lists()) - {topicName}
    {
      RemoveRecord(topicName);
      DiscardSubscriptions(topicName);
    }

    method DiscardSubscriptions(topicName: string)
      modifies this`agentSubscriptions
      ensures agentSubscriptions == Discarded(old(agentSubscriptions), topicName)
    {
      agentSubscriptions := DiscardEverywhere(agentSubscriptions, topicName);
    }

    method RemoveRecord(topicName: string)
      modifies this`topics
      ensures topics == old(topics).Remove(topicName)
      ensures Lists() == old(Lists()) - {topicName}
    {
      ghost var entries := topics.entries;
      ghost var before := Lists();
      topics := topics.Remove(topicName);
      assert ListsOf(entries) == before;
      ListsOfRemove(entries, topicName);
    }

    /** `get_topic_stats`: public and private topics add up to all of them. */
    method Stats() returns (s: TopicStats)
      requires topics.Valid()
      ensures s.totalTopics == |topics.keys|
      ensures s.privateTopics == CountPrivate(Values(topics))
      ensures s.publicTopics + s.privateTopics == s.totalTopics
      ensures s.publicTopics == |PublicOnly(Values(topics))|
      ensures s.totalSubscribers == SubscriberTotal(Values(topics))
      ensures s.averageSubscribers
           == if s.totalTopics > 0 then s.totalSubscribers as real / s.totalTopics as real else 0.0
    {
      var all := Values(topics);
      var total := |all|;
      var privateCount := CountPrivate(all);
      PublicCount(all);
      var subscribers := SubscriberTotal(all);
      var average := if total > 0 then subscribers as real / total as real else 0.0;
      s := TopicStats(total, total - privateCount, privateCount, subscribers, average);
    }
  }

  /** A topic created, subscribed to twice by one agent and once by another, then left by the first. */
  method RegistryScenario() returns (m: TopicManager, t: TopicInfo)
    ensures m.Valid() && t.subscribers == ["agent-2"]
    ensures "agent-1" in m.agentSubscriptions && "general" !in m.agentSubscriptions["agent-1"]
    ensures "agent-2" in m.agentSubscriptions && "general" in m.agentSubscriptions["agent-2"]
  {
    m := new TopicManager();
    t := m.CreateTopic("general", "agent-1", None, false, [], 0);
    var ok := m.Subscribe("agent-1", "general");
    ok := m.Subscribe("agent-2", "general");
    ok := m.Subscribe("agent-1", "general");
    ok := m.Unsubscribe("agent-1", "general");
  }
}
