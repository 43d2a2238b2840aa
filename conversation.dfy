/**
 * Conversation threading (`ConversationManager`): threads per topic and per
 * agent, the messages of each thread, a rolling context window of the newest
 * messages, reuse of recently active threads, archiving, search, statistics
 * and cleanup.
 *
 * The manager's six dictionaries are fields of a class. Each method is
 * specified by a transition function on a `Registry`, the value of those six
 * dictionaries taken together, and the lemmas about the transitions show that
 * the indexes stay consistent with the threads.
 */
module Conversation {
  import opened Common
  import opened Message

  /** A thread identifier. The source draws a fresh `uuid4()`; here the caller supplies an unused one. */
  type ThreadId = nat

  datatype Thread = Thread(
    id: ThreadId,
    topic: string,
    title: string,
    createdAt: Instant,
    lastActivity: Instant,
    participants: set<string>,
    messageCount: int,
    isActive: bool,
    metadata: map<string, Value>)

  datatype Context = Context(
    threadId: ThreadId,
    topic: string,
    recentMessages: seq<Message>,
    participants: set<string>,
    threadTitle: string,
    createdAt: Instant,
    lastActivity: Instant)

  // ---------------------------------------------------------------------------
  // Threads and contexts
  // ---------------------------------------------------------------------------

  /** `_generate_thread_title`: the stripped content, cut to 47 characters plus "..." when longer than 50. */
  function GenerateTitle(m: Message): string {
    var content := Strip(m.content);
    if |content| <= 50 then content else content[..47] + "..."
  }

  /** A generated title has at most 50 characters; it is the content itself exactly when that fits, else a prefix and an ellipsis. */
  lemma GenerateTitleFacts(m: Message)
    ensures |GenerateTitle(m)| <= 50
    ensures GenerateTitle(m) == Strip(m.content) <==> |Strip(m.content)| <= 50
    ensures |Strip(m.content)| > 50 ==>
      GenerateTitle(m)[..47] == Strip(m.content)[..47] && GenerateTitle(m)[47..] == "..."
  {
  }

  /** `title or self._generate_thread_title(initial_message)`: an empty title counts as absent. */
  function TitleFor(title: Option<string>, initial: Message): string {
    if title.Some? && title.value != "" then title.value else GenerateTitle(initial)
  }

  /** The thread `create_thread` builds: its only participant is the sender of the initial message. */
  function NewThread(id: ThreadId, topic: string, title: Option<string>, initial: Message, now: Instant): Thread {
    Thread(id, topic, TitleFor(title, initial), now, now, {initial.senderId}, 0, true, map[])
  }

  /** The context of a thread holding the given recent messages: everything else mirrors the thread. */
  function ContextOf(th: Thread, recent: seq<Message>): Context {
    Context(th.id, th.topic, recent, th.participants, th.title, th.createdAt, th.lastActivity)
  }

  /** The thread after `add_message_to_thread` records a message in it. */
  function Joined(th: Thread, m: Message): Thread {
    th.(participants := th.participants + {m.senderId},
        messageCount := th.messageCount + 1,
        lastActivity := m.timestamp)
  }

  /** `_update_conversation_context` on an existing context. */
  function Updated(c: Context, m: Message, max: int): Context {
    c.(recentMessages := AppendCapped(c.recentMessages, m, max),
       participants := c.participants + {m.senderId},
       lastActivity := m.timestamp)
  }

  /** Appending to the newest `max` messages keeps them the newest `max` of the longer list. */
  lemma ContextWindow(s: seq<Message>, m: Message, max: int)
    requires max >= 1
    ensures AppendCapped(PyTail(s, max), m, max) == PyTail(s + [m], max)
    ensures |PyTail(s + [m], max)| <= max
  {
    if |s| >= max {
      var w := s[|s| - max..];
      assert (w + [m])[1..] == s[|s| + 1 - max..] + [m];
      assert (s + [m])[|s| + 1 - max..] == s[|s| + 1 - max..] + [m];
    }
  }

  // ---------------------------------------------------------------------------
  // The registry and its consistency
  // ---------------------------------------------------------------------------

  /** The manager's dictionaries, taken together as one value. */
  datatype Registry = Registry(
    threads: Dict<ThreadId, Thread>,
    topicThreads: map<string, seq<ThreadId>>,
    agentThreads: map<string, set<ThreadId>>,
    messageThreads: map<string, ThreadId>,
    threadMessages: map<ThreadId, seq<Message>>,
    contexts: map<ThreadId, Context>)

  ghost predicate ThreadsKeyed(ts: map<ThreadId, Thread>) {
    forall id :: id in ts ==> ts[id].id == id
  }

  /** Every id in a topic's list is a thread of that topic, no id is listed twice, and every thread is listed under its topic. */
  ghost predicate TopicIndex(ts: map<ThreadId, Thread>, byTopic: map<string, seq<ThreadId>>) {
    (forall t, i :: t in byTopic && 0 <= i < |byTopic[t]| ==> byTopic[t][i] in ts && ts[byTopic[t][i]].topic == t)
    && (forall t :: t in byTopic ==> NoDup(byTopic[t]))
    && (forall id :: id in ts ==> ts[id].topic in byTopic && id in byTopic[ts[id].topic])
  }

  /** Every agent taking part in some thread. */
  ghost function Participants(ts: map<ThreadId, Thread>): set<string> {
    set id, a | id in ts && a in ts[id].participants :: a
  }

  /** The agent index the manager keeps: each agent to the set of threads it takes part in. */
  ghost function AgentMap(ts: map<ThreadId, Thread>): map<string, set<ThreadId>> {
    map a | a in Participants(ts) :: set id | id in ts && a in ts[id].participants
  }

  /**
   * Each context belongs to a thread with a message list, mirrors that thread
   * and, when the window is at least one message, holds the newest messages of the list.
   */
  ghost predicate ContextsTrack(ts: map<ThreadId, Thread>, msgs: map<ThreadId, seq<Message>>,
                                ctx: map<ThreadId, Context>, max: int) {
    forall id :: id in ctx ==>
      id in ts && id in msgs && ctx[id] == ContextOf(ts[id], ctx[id].recentMessages)
      && (max >= 1 ==> ctx[id].recentMessages == PyTail(msgs[id], max))
  }

  /** The invariant the manager keeps between calls. */
  ghost predicate Consistent(r: Registry, max: int) {
    r.threads.Valid() && ThreadsKeyed(r.threads.entries)
    && TopicIndex(r.threads.entries, r.topicThreads)
    && r.agentThreads == AgentMap(r.threads.entries)
    && ContextsTrack(r.threads.entries, r.threadMessages, r.contexts, max)
    && r.threads.entries.Keys <= r.threadMessages.Keys
    && r.messageThreads.Values <= r.threadMessages.Keys
  }

  lemma EmptyConsistent(max: int)
    ensures Consistent(Registry(EmptyDict(), map[], map[], map[], map[], map[]), max)
  {
    assert Participants(map[]) == {};
  }

  /** An agent's set holds exactly the threads it takes part in, and only participants have a set. */
  lemma AgentMapMeaning(ts: map<ThreadId, Thread>)
    ensures forall a, id :: a in AgentMap(ts) && id in AgentMap(ts)[a] <==> id in ts && a in ts[id].participants
    ensures forall a :: a in AgentMap(ts) ==> AgentMap(ts)[a] != {}
  {
    forall a | a in AgentMap(ts) ensures AgentMap(ts)[a] != {} {
      var id, b :| id in ts && b in ts[id].participants && a == b;
      assert id in AgentMap(ts)[a];
    }
  }

  /** Adding an agent to a thread, new or existing, adds that agent to the participants and no other. */
  lemma ParticipantsAdd(ts: map<ThreadId, Thread>, th: Thread, a: string)
    requires th.participants == (if th.id in ts then ts[th.id].participants else {}) + {a}
    ensures Participants(ts[th.id := th]) == Participants(ts) + {a}
  {
    var ts' := ts[th.id := th];
    assert a in ts'[th.id].participants;
    forall b | b in Participants(ts) ensures b in Participants(ts') {
      var id, c :| id in ts && c in ts[id].participants && b == c;
      assert b in ts'[id].participants;
    }
    forall b | b in Participants(ts') ensures b in Participants(ts) + {a} {
      var id, c :| id in ts' && c in ts'[id].participants && b == c;
      if b != a {
        assert b in ts[id].participants;
      }
    }
  }

  /** Adding an agent to a thread, new or existing, adds the thread to that agent's set and to no other. */
  lemma AgentMapAdd(ts: map<ThreadId, Thread>, th: Thread, a: string)
    requires th.participants == (if th.id in ts then ts[th.id].participants else {}) + {a}
    ensures AgentMap(ts[th.id := th]) == AgentMap(ts)[a := Get(AgentMap(ts), a, {}) + {th.id}]
  {
    var lhs, rhs := AgentMap(ts[th.id := th]), AgentMap(ts)[a := Get(AgentMap(ts), a, {}) + {th.id}];
    ParticipantsAdd(ts, th, a);
    assert lhs.Keys == rhs.Keys;
    forall b | b in lhs ensures lhs[b] == rhs[b] {
      assert forall id :: id in lhs[b] <==> id in rhs[b];
    }
  }

  /** Replacing threads by ones with the same participants keeps the agent index. */
  lemma SameParticipants(ts: map<ThreadId, Thread>, ts': map<ThreadId, Thread>)
    requires ts'.Keys == ts.Keys && forall id :: id in ts ==> ts'[id].participants == ts[id].participants
    ensures AgentMap(ts') == AgentMap(ts)
  {
    forall a | a in Participants(ts) ensures a in Participants(ts') {
      var id, b :| id in ts && b in ts[id].participants && a == b;
      assert a in ts'[id].participants;
    }
    forall a | a in Participants(ts') ensures a in Participants(ts) {
      var id, b :| id in ts' && b in ts'[id].participants && a == b;
      assert a in ts[id].participants;
    }
    assert AgentMap(ts').Keys == AgentMap(ts).Keys;
    forall a | a in AgentMap(ts) ensures AgentMap(ts')[a] == AgentMap(ts)[a] {
      assert forall id :: id in AgentMap(ts')[a] <==> id in AgentMap(ts)[a];
    }
  }

  /** Replacing threads by ones with the same topics keeps the topic index. */
  lemma SameTopics(ts: map<ThreadId, Thread>, ts': map<ThreadId, Thread>, byTopic: map<string, seq<ThreadId>>)
    requires TopicIndex(ts, byTopic)
    requires ts'.Keys == ts.Keys && forall id :: id in ts ==> ts'[id].topic == ts[id].topic
    ensures TopicIndex(ts', byTopic)
  {
  }

  // ---------------------------------------------------------------------------
  // Transitions
  // ---------------------------------------------------------------------------

  /** `create_thread`: the thread, its topic and agent entries, its one-message list and a fresh context. */
  function Create(r: Registry, th: Thread, initial: Message): Registry {
    Registry(
      r.threads.Put(th.id, th),
      r.topicThreads[th.topic := Get(r.topicThreads, th.topic, []) + [th.id]],
      r.agentThreads[initial.senderId := Get(r.agentThreads, initial.senderId, {}) + {th.id}],
      r.messageThreads[initial.id := th.id],
      r.threadMessages[th.id := [initial]],
      r.contexts[th.id := ContextOf(th, [initial])])
  }

  /** The part of `add_message_to_thread` after the thread id is known; the id need not name a thread. */
  function Append(r: Registry, tid: ThreadId, m: Message, max: int): Registry {
    var known := tid in r.threads.entries;
    Registry(
      if known then r.threads.Put(tid, Joined(r.threads.entries[tid], m)) else r.threads,
      r.topicThreads,
      if known then r.agentThreads[m.senderId := Get(r.agentThreads, m.senderId, {}) + {tid}] else r.agentThreads,
      r.messageThreads[m.id := tid],
      r.threadMessages[tid := Get(r.threadMessages, tid, []) + [m]],
      if tid in r.contexts then r.contexts[tid := Updated(r.contexts[tid], m, max)] else r.contexts)
  }

  /** Appending lists the message last in its thread's list and records which thread holds it. */
  lemma AppendLists(r: Registry, tid: ThreadId, m: Message, max: int)
    ensures Append(r, tid, m, max).threadMessages == r.threadMessages[tid := Get(r.threadMessages, tid, []) + [m]]
    ensures Append(r, tid, m, max).messageThreads == r.messageThreads[m.id := tid]
  {
  }

  /** `close_thread`: only the thread's `is_active` flag changes. */
  function Close(r: Registry, tid: ThreadId): Registry {
    if tid in r.threads.entries then r.(threads := r.threads.Put(tid, r.threads.entries[tid].(isActive := false)))
    else r
  }

  /** An active thread whose last activity is before the cutoff. */
  predicate Stale(th: Thread, cutoff: Instant) {
    th.isActive && th.lastActivity < cutoff
  }

  function Archived(th: Thread, cutoff: Instant): Thread {
    if Stale(th, cutoff) then th.(isActive := false) else th
  }

  /** `archive_old_threads`: every stale thread is deactivated, nothing else changes. */
  function ArchiveAll(r: Registry, cutoff: Instant): Registry {
    r.(threads := Dict(r.threads.keys, ArchivedMap(r.threads.entries, cutoff)))
  }

  function ArchivedMap(ts: map<ThreadId, Thread>, cutoff: Instant): (a: map<ThreadId, Thread>)
    ensures a.Keys == ts.Keys
    ensures forall id :: id in ts ==> a[id] == Archived(ts[id], cutoff)
  {
    map id | id in ts :: Archived(ts[id], cutoff)
  }

  /** The second loop of `cleanup_old_data`: the contexts of inactive threads are dropped. */
  function DropInactive(r: Registry): Registry {
    r.(contexts := map id | id in r.contexts && !(id in r.threads.entries && !r.threads.entries[id].isActive) :: r.contexts[id])
  }

  /** `messages[-max:]` for a list longer than twice the window. */
  function Pruned(msgs: seq<Message>, max: int): (r: seq<Message>)
    ensures |r| <= |msgs|
  {
    if |msgs| > max * 2 then PyTail(msgs, max) else msgs
  }

  /** The third loop of `cleanup_old_data`: every long message list is cut to the newest messages. */
  function PruneAll(r: Registry, max: int): Registry {
    r.(threadMessages := map id | id in r.threadMessages :: Pruned(r.threadMessages[id], max))
  }

  /** Listing a new thread at the end of its topic's list keeps the topic index. */
  lemma CreateKeepsTopicIndex(ts: map<ThreadId, Thread>, byTopic: map<string, seq<ThreadId>>, th: Thread)
    requires TopicIndex(ts, byTopic) && th.id !in ts
    ensures TopicIndex(ts[th.id := th], byTopic[th.topic := Get(byTopic, th.topic, []) + [th.id]])
  {
    var ts', bt' := ts[th.id := th], byTopic[th.topic := Get(byTopic, th.topic, []) + [th.id]];
    var l := Get(byTopic, th.topic, []);
    assert forall i :: 0 <= i < |l| ==> l[i] != th.id;
    forall t, i | t in bt' && 0 <= i < |bt'[t]| ensures bt'[t][i] in ts' && ts'[bt'[t][i]].topic == t {
      if t == th.topic && i == |l| {
        assert bt'[t][i] == th.id;
      } else if t == th.topic {
        assert bt'[t][i] == l[i];
      }
    }
    forall id | id in ts' ensures ts'[id].topic in bt' && id in bt'[ts'[id].topic] {
      if id != th.id && ts[id].topic == th.topic {
        assert id in l;
      }
    }
  }

  lemma CreateKeepsContexts(ts: map<ThreadId, Thread>, msgs: map<ThreadId, seq<Message>>, ctx: map<ThreadId, Context>,
                            th: Thread, initial: Message, max: int)
    requires ContextsTrack(ts, msgs, ctx, max) && th.id !in ts
    ensures ContextsTrack(ts[th.id := th], msgs[th.id := [initial]], ctx[th.id := ContextOf(th, [initial])], max)
  {
    var ts', msgs', ctx' := ts[th.id := th], msgs[th.id := [initial]], ctx[th.id := ContextOf(th, [initial])];
    forall id | id in ctx'
      ensures id in ts' && id in msgs' && ctx'[id] == ContextOf(ts'[id], ctx'[id].recentMessages)
      ensures max >= 1 ==> ctx'[id].recentMessages == PyTail(msgs'[id], max)
    {
      if id == th.id {
        assert [initial][1 - 1..] == [initial];
      } else {
        assert id in ctx && ctx'[id] == ctx[id] && ts'[id] == ts[id] && msgs'[id] == msgs[id];
      }
    }
  }

  lemma CreateConsistent(r: Registry, th: Thread, initial: Message, max: int)
    requires Consistent(r, max)
    requires th.id !in r.threads.entries && th.id !in r.threadMessages && th.participants == {initial.senderId}
    ensures Consistent(Create(r, th, initial), max)
  {
    AgentMapAdd(r.threads.entries, th, initial.senderId);
    CreateKeepsTopicIndex(r.threads.entries, r.topicThreads, th);
    CreateKeepsContexts(r.threads.entries, r.threadMessages, r.contexts, th, initial, max);
    MapValuesUpdate(r.messageThreads, initial.id, th.id);
  }

  lemma MapValuesUpdate<K, V>(m: map<K, V>, k: K, v: V)
    ensures m[k := v].Values <= m.Values + {v}
  {
    forall x | x in m[k := v].Values ensures x in m.Values + {v} {
      var j :| j in m[k := v] && m[k := v][j] == x;
      if j != k {
        assert m[j] in m.Values;
      }
    }
  }

  lemma AppendKeepsContexts(r: Registry, tid: ThreadId, m: Message, max: int)
    requires ThreadsKeyed(r.threads.entries)
    requires ContextsTrack(r.threads.entries, r.threadMessages, r.contexts, max)
    ensures var r' := Append(r, tid, m, max);
      ContextsTrack(r'.threads.entries, r'.threadMessages, r'.contexts, max)
  {
    if tid in r.contexts && max >= 1 {
      ContextWindow(r.threadMessages[tid], m, max);
    }
  }

  lemma AppendKeepsIndexes(r: Registry, tid: ThreadId, m: Message, max: int)
    requires ThreadsKeyed(r.threads.entries)
    requires TopicIndex(r.threads.entries, r.topicThreads)
    requires r.agentThreads == AgentMap(r.threads.entries)
    ensures var r' := Append(r, tid, m, max);
      TopicIndex(r'.threads.entries, r'.topicThreads) && r'.agentThreads == AgentMap(r'.threads.entries)
  {
    if tid in r.threads.entries {
      var ts := r.threads.entries;
      AgentMapAdd(ts, Joined(ts[tid], m), m.senderId);
      SameTopics(ts, ts[tid := Joined(ts[tid], m)], r.topicThreads);
    }
  }

  lemma AppendKeepsKeys(r: Registry, tid: ThreadId, m: Message, max: int)
    requires r.threads.Valid() && ThreadsKeyed(r.threads.entries)
    requires r.threads.entries.Keys <= r.threadMessages.Keys && r.messageThreads.Values <= r.threadMessages.Keys
    ensures var r' := Append(r, tid, m, max);
      && r'.threads.Valid() && ThreadsKeyed(r'.threads.entries)
      && r'.threads.entries.Keys <= r'.threadMessages.Keys && r'.messageThreads.Values <= r'.threadMessages.Keys
  {
    AppendLists(r, tid, m, max);
    MapValuesUpdate(r.messageThreads, m.id, tid);
  }

  lemma AppendConsistent(r: Registry, tid: ThreadId, m: Message, max: int)
    requires Consistent(r, max)
    ensures Consistent(Append(r, tid, m, max), max)
  {
    AppendKeepsContexts(r, tid, m, max);
    AppendKeepsIndexes(r, tid, m, max);
    AppendKeepsKeys(r, tid, m, max);
  }

  lemma CloseConsistent(r: Registry, tid: ThreadId, max: int)
    requires Consistent(r, max)
    ensures Consistent(Close(r, tid), max)
  {
    if tid in r.threads.entries {
      var ts, ts' := r.threads.entries, Close(r, tid).threads.entries;
      SameTopics(ts, ts', r.topicThreads);
      SameParticipants(ts, ts');
    }
  }

  lemma ArchiveConsistent(r: Registry, cutoff: Instant, max: int)
    requires Consistent(r, max)
    ensures Consistent(ArchiveAll(r, cutoff), max)
  {
    var ts, ts' := r.threads.entries, ArchiveAll(r, cutoff).threads.entries;
    SameTopics(ts, ts', r.topicThreads);
    SameParticipants(ts, ts');
  }

  lemma DropConsistent(r: Registry, max: int)
    requires Consistent(r, max)
    ensures Consistent(DropInactive(r), max)
    ensures forall id :: id in DropInactive(r).contexts ==> r.threads.entries[id].isActive
  {
  }

  /** The whole of `cleanup_old_data` keeps the registry consistent. */
  lemma CleanupConsistent(r: Registry, cutoff: Instant, max: int)
    requires Consistent(r, max)
    ensures Consistent(PruneAll(DropInactive(ArchiveAll(r, cutoff)), max), max)
  {
    ArchiveConsistent(r, cutoff, max);
    DropConsistent(ArchiveAll(r, cutoff), max);
    PruneConsistent(DropInactive(ArchiveAll(r, cutoff)), max);
  }

  /** Pruning never drops a message of the context window. */
  lemma PruneKeepsWindow(msgs: seq<Message>, max: int)
    requires max >= 1
    ensures PyTail(Pruned(msgs, max), max) == PyTail(msgs, max)
    ensures |msgs| > max * 2 ==> |Pruned(msgs, max)| == max
  {
  }

  lemma PruneConsistent(r: Registry, max: int)
    requires Consistent(r, max)
    ensures Consistent(PruneAll(r, max), max)
  {
    forall id | id in r.contexts && max >= 1 {
      PruneKeepsWindow(r.threadMessages[id], max);
    }
  }

  // ---------------------------------------------------------------------------
  // Thread reuse
  // ---------------------------------------------------------------------------

  /** A thread that is active and had activity less than `timeout` before `now`. */
  predicate Reusable(id: ThreadId, ts: map<ThreadId, Thread>, now: Instant, timeout: int) {
    id in ts && ts[id].isActive && now - ts[id].lastActivity < timeout
  }

  /** The position of the first reusable thread of a topic's list (in creation order), or the list's length when there is none. */
  function FirstReusable(ids: seq<ThreadId>, ts: map<ThreadId, Thread>, now: Instant, timeout: int): (k: nat)
    ensures k <= |ids|
    ensures k < |ids| ==> Reusable(ids[k], ts, now, timeout)
    ensures forall j :: 0 <= j < k ==> !Reusable(ids[j], ts, now, timeout)
  {
    if ids == [] then 0
    else if Reusable(ids[0], ts, now, timeout) then 0
    else 1 + FirstReusable(ids[1..], ts, now, timeout)
  }

  /** A reusable thread at position `i` with none before it is the one `FirstReusable` picks. */
  lemma FirstReusableIsFirst(ids: seq<ThreadId>, ts: map<ThreadId, Thread>, now: Instant, timeout: int, i: nat)
    requires i <= |ids| && forall j :: 0 <= j < i ==> !Reusable(ids[j], ts, now, timeout)
    requires i < |ids| ==> Reusable(ids[i], ts, now, timeout)
    ensures FirstReusable(ids, ts, now, timeout) == i
  {
  }

  /** Whether `add_message_to_thread` has to open a new thread: no id was given and no thread of the topic is reusable. */
  predicate OpensThread(r: Registry, m: Message, given: Option<ThreadId>, now: Instant, timeout: int) {
    var ids := Get(r.topicThreads, m.topic, []);
    given.None? && FirstReusable(ids, r.threads.entries, now, timeout) == |ids|
  }

  /** The thread `add_message_to_thread` puts the message in. */
  function Target(r: Registry, m: Message, given: Option<ThreadId>, freshId: ThreadId, now: Instant, timeout: int): ThreadId {
    var ids := Get(r.topicThreads, m.topic, []);
    var k := FirstReusable(ids, r.threads.entries, now, timeout);
    if given.Some? then given.value else if k < |ids| then ids[k] else freshId
  }

  /** The registry once the message's thread exists. */
  function Placed(r: Registry, m: Message, given: Option<ThreadId>, freshId: ThreadId, now: Instant, timeout: int): Registry {
    if OpensThread(r, m, given, now, timeout) then Create(r, NewThread(freshId, m.topic, None, m, now), m) else r
  }

  /**
   * A message without a thread id goes to the first reusable thread of its
   * topic, which takes the sender in and lists the message last.
   */
  lemma AddMessageReuses(r: Registry, m: Message, freshId: ThreadId, now: Instant, timeout: int, max: int)
    requires TopicIndex(r.threads.entries, r.topicThreads) && r.threads.entries.Keys <= r.threadMessages.Keys
    requires !OpensThread(r, m, None, now, timeout)
    ensures var tid := Target(r, m, None, freshId, now, timeout);
      var r' := Append(Placed(r, m, None, freshId, now, timeout), tid, m, max);
      && Reusable(tid, r.threads.entries, now, timeout) && tid in r'.threads.entries
      && r'.threads.entries[tid].topic == m.topic && m.senderId in r'.threads.entries[tid].participants
      && r'.threadMessages[tid] == r.threadMessages[tid] + [m]
  {
    var ids := Get(r.topicThreads, m.topic, []);
    var k := FirstReusable(ids, r.threads.entries, now, timeout);
    assert ids[k] in r.threads.entries && r.threads.entries[ids[k]].topic == m.topic;
    AppendLists(r, ids[k], m, max);
  }

  /**
   * When no thread of the topic is reusable, a new thread is opened with the
   * message as its initial message and then the message is appended, so the
   * new thread lists it twice while counting one message.
   */
  lemma AddMessageOpens(r: Registry, m: Message, freshId: ThreadId, now: Instant, timeout: int, max: int)
    requires freshId !in r.threads.entries
    requires OpensThread(r, m, None, now, timeout)
    ensures var tid := Target(r, m, None, freshId, now, timeout);
      var r' := Append(Placed(r, m, None, freshId, now, timeout), tid, m, max);
      && tid == freshId && tid in r'.threads.entries
      && r'.threads.entries[tid].topic == m.topic && m.senderId in r'.threads.entries[tid].participants
      && r'.threadMessages[tid] == [m, m] && r'.threads.entries[tid].messageCount == 1
  {
    var placed := Create(r, NewThread(freshId, m.topic, None, m, now), m);
    assert placed.threadMessages[freshId] == [m];
    AppendLists(placed, freshId, m, max);
  }

  // ---------------------------------------------------------------------------
  // Archiving and cleanup
  // ---------------------------------------------------------------------------

  /** How many of the listed threads are stale. */
  function StaleCount(ids: seq<ThreadId>, ts: map<ThreadId, Thread>, cutoff: Instant): (n: nat)
    ensures n <= |ids|
  {
    if ids == [] then 0
    else StaleCount(ids[..|ids| - 1], ts, cutoff) + (if ids[|ids| - 1] in ts && Stale(ts[ids[|ids| - 1]], cutoff) then 1 else 0)
  }

  /** Archiving the listed threads one after the other, as the loop of `archive_old_threads` does. */
  function ArchiveEach(ts: map<ThreadId, Thread>, ids: seq<ThreadId>, cutoff: Instant): map<ThreadId, Thread> {
    if ids == [] then ts
    else
      var done := ArchiveEach(ts, ids[..|ids| - 1], cutoff);
      var id := ids[|ids| - 1];
      if id in done && Stale(done[id], cutoff) then done[id := done[id].(isActive := false)] else done
  }

  /** Archiving distinct threads one by one archives each listed thread once and leaves the others alone. */
  lemma {:induction false} ArchiveEachPointwise(ts: map<ThreadId, Thread>, ids: seq<ThreadId>, cutoff: Instant)
    requires NoDup(ids)
    ensures ArchiveEach(ts, ids, cutoff).Keys == ts.Keys
    ensures forall id :: id in ts ==> ArchiveEach(ts, ids, cutoff)[id] == if id in ids then Archived(ts[id], cutoff) else ts[id]
    decreases |ids|
  {
    if ids != [] {
      var init := ids[..|ids| - 1];
      assert NoDup(init);
      ArchiveEachPointwise(ts, init, cutoff);
      assert forall id :: id in ids <==> id in init || id == ids[|ids| - 1];
    }
  }

  /** Archiving every thread one by one is archiving them all at once. */
  lemma ArchiveEachAll(ts: map<ThreadId, Thread>, keys: seq<ThreadId>, cutoff: Instant)
    requires NoDup(keys) && forall id :: id in ts <==> id in keys
    ensures ArchiveEach(ts, keys, cutoff) == ArchivedMap(ts, cutoff)
  {
    ArchiveEachPointwise(ts, keys, cutoff);
  }

  /** Once archived at a cutoff, nothing is stale at that cutoff any more, so archiving again changes nothing. */
  lemma {:induction false} ArchiveIsIdempotent(ids: seq<ThreadId>, ts: map<ThreadId, Thread>, cutoff: Instant)
    ensures StaleCount(ids, map id | id in ts :: Archived(ts[id], cutoff), cutoff) == 0
    decreases |ids|
  {
    if ids != [] {
      ArchiveIsIdempotent(ids[..|ids| - 1], ts, cutoff);
    }
  }

  /** The number of messages pruning drops from one list. */
  function Excess(msgs: seq<Message>, max: int): nat {
    |msgs| - |Pruned(msgs, max)|
  }

  ghost function ExcessMap(msgs: map<ThreadId, seq<Message>>, max: int): map<ThreadId, nat> {
    map id | id in msgs :: Excess(msgs[id], max)
  }

  // ---------------------------------------------------------------------------
  // Queries and search
  // ---------------------------------------------------------------------------

  /** The listed threads that exist, in list order (`[self.threads[tid] for tid in ids if tid in self.threads]`). */
  function Existing(ids: seq<ThreadId>, ts: map<ThreadId, Thread>): (r: seq<Thread>)
    ensures |r| <= |ids|
  {
    if ids == [] then []
    else Existing(ids[..|ids| - 1], ts) + (if ids[|ids| - 1] in ts then [ts[ids[|ids| - 1]]] else [])
  }

  /** When every listed thread exists, nothing is skipped. */
  lemma {:induction false} ExistingAll(ids: seq<ThreadId>, ts: map<ThreadId, Thread>)
    requires forall i :: 0 <= i < |ids| ==> ids[i] in ts
    ensures |Existing(ids, ts)| == |ids|
    ensures forall i :: 0 <= i < |ids| ==> Existing(ids, ts)[i] == ts[ids[i]]
    decreases |ids|
  {
    if ids != [] {
      ExistingAll(ids[..|ids| - 1], ts);
    }
  }

  /** Some message body contains the (lowercased) query, ignoring case. */
  predicate Mentioned(q: string, msgs: seq<Message>) {
    exists i :: 0 <= i < |msgs| && IsSubstring(q, Lower(msgs[i].content))
  }

  /** A thread matches on a non-empty title containing the query, or on one of its messages. */
  predicate ThreadMatches(th: Thread, q: string, msgs: map<ThreadId, seq<Message>>) {
    (th.title != "" && IsSubstring(q, Lower(th.title))) || Mentioned(q, Get(msgs, th.id, []))
  }

  /** The matching candidates, in candidate order. */
  function Hits(cands: seq<Thread>, q: string, msgs: map<ThreadId, seq<Message>>): (r: seq<Thread>)
    ensures |r| <= |cands|
    ensures forall j :: 0 <= j < |r| ==> ThreadMatches(r[j], q, msgs)
  {
    if cands == [] then []
    else
      var last := cands[|cands| - 1];
      Hits(cands[..|cands| - 1], q, msgs) + (if ThreadMatches(last, q, msgs) then [last] else [])
  }

  /** Every matching candidate is found, and everything found is a candidate. */
  lemma {:induction false} HitsExact(cands: seq<Thread>, q: string, msgs: map<ThreadId, seq<Message>>)
    ensures forall th :: th in Hits(cands, q, msgs) <==> th in cands && ThreadMatches(th, q, msgs)
    decreases |cands|
  {
    if cands != [] {
      var init := cands[..|cands| - 1];
      HitsExact(init, q, msgs);
      assert cands == init + [cands[|cands| - 1]];
    }
  }

  /** Distinct candidates give distinct results. */
  lemma {:induction false} HitsDistinct(cands: seq<Thread>, q: string, msgs: map<ThreadId, seq<Message>>)
    requires NoDup(cands)
    ensures NoDup(Hits(cands, q, msgs))
    decreases |cands|
  {
    if cands != [] {
      var init, last := cands[..|cands| - 1], cands[|cands| - 1];
      assert NoDup(init);
      HitsDistinct(init, q, msgs);
      HitsExact(init, q, msgs);
      assert last !in init;
    }
  }

  /** The inner loop of `search_threads`: stop at the first message that mentions the query. */
  method MentionsQuery(q: string, msgs: seq<Message>) returns (found: bool)
    ensures found == Mentioned(q, msgs)
  {
    for i := 0 to |msgs|
      invariant forall j :: 0 <= j < i ==> !IsSubstring(q, Lower(msgs[j].content))
    {
      if IsSubstring(q, Lower(msgs[i].content)) {
        return true;
      }
    }
    return false;
  }

  /** The outer loop of `search_threads`: keep each candidate whose title or messages mention the query. */
  method SearchLoop(cands: seq<Thread>, q: string, msgs: map<ThreadId, seq<Message>>) returns (found: seq<Thread>)
    ensures found == Hits(cands, q, msgs)
  {
    found := [];
    for i := 0 to |cands|
      invariant found == Hits(cands[..i], q, msgs)
    {
      assert cands[..i + 1][..i] == cands[..i];
      var th := cands[i];
      if th.title != "" && IsSubstring(q, Lower(th.title)) {
        found := found + [th];
      } else {
        var mentioned := MentionsQuery(q, Get(msgs, th.id, []));
        if mentioned {
          found := found + [th];
        }
      }
    }
    assert cands[..|cands|] == cands;
  }

  /** Iterating over a set, in an order the caller does not choose. */
  method Enumerate<T>(s: set<T>) returns (xs: seq<T>)
    ensures NoDup(xs) && forall x :: x in xs <==> x in s
  {
    xs := [];
    var rest := s;
    while rest != {}
      invariant rest <= s && NoDup(xs)
      invariant forall x :: x in xs <==> x in s && x !in rest
      decreases |rest|
    {
      var x :| x in rest;
      xs := xs + [x];
      rest := rest - {x};
    }
  }

  // ---------------------------------------------------------------------------
  // Loops of the manager, on values
  // ---------------------------------------------------------------------------

  /** The loop of `archive_old_threads` over the threads in insertion order. */
  method ArchiveLoop(keys: seq<ThreadId>, ts: map<ThreadId, Thread>, cutoff: Instant)
    returns (archived: map<ThreadId, Thread>, count: nat)
    requires NoDup(keys)
    ensures archived == ArchiveEach(ts, keys, cutoff)
    ensures count == StaleCount(keys, ts, cutoff)
  {
    archived := ts;
    count := 0;
    for i := 0 to |keys|
      invariant archived == ArchiveEach(ts, keys[..i], cutoff)
      invariant count == StaleCount(keys[..i], ts, cutoff)
    {
      assert keys[..i + 1][..i] == keys[..i];
      assert NoDup(keys[..i]) && keys[i] !in keys[..i];
      ArchiveEachPointwise(ts, keys[..i], cutoff);
      var id := keys[i];
      if id in archived {
        var th := archived[id];
        if th.isActive && th.lastActivity < cutoff {
          archived := archived[id := th.(isActive := false)];
          count := count + 1;
        }
      }
    }
    assert keys[..|keys|] == keys;
  }

  /** The second loop of `cleanup_old_data`: the contexts of inactive threads go, and are counted. */
  method DropLoop(keys: seq<ThreadId>, ts: map<ThreadId, Thread>, ctx: map<ThreadId, Context>)
    returns (kept: map<ThreadId, Context>, removed: nat)
    requires forall id :: id in ts <==> id in keys
    ensures kept == map id | id in ctx && !(id in ts && !ts[id].isActive) :: ctx[id]
    ensures removed == |ctx| - |kept|
  {
    kept := ctx;
    removed := 0;
    for i := 0 to |keys|
      invariant forall id :: id in kept <==> id in ctx && !(id in keys[..i] && !ts[id].isActive)
      invariant forall id :: id in kept ==> kept[id] == ctx[id]
      invariant removed == |ctx| - |kept|
    {
      var id := keys[i];
      assert forall x :: x in keys[..i + 1] <==> x in keys[..i] || x == id;
      if !ts[id].isActive && id in kept {
        assert (kept - {id}).Keys == kept.Keys - {id};
        kept := kept - {id};
        removed := removed + 1;
      }
    }
    assert forall x :: x in keys[..|keys|] <==> x in keys;
  }

  /** One step of the third loop of `cleanup_old_data`: a long list is cut and the messages dropped are counted. */
  method PruneOne(pruned: map<ThreadId, seq<Message>>, removed: nat, id: ThreadId, list: seq<Message>, max: int)
    returns (pruned': map<ThreadId, seq<Message>>, removed': nat)
    requires id in pruned && pruned[id] == list
    ensures pruned' == pruned[id := Pruned(list, max)]
    ensures removed' == removed + Excess(list, max)
  {
    pruned', removed' := pruned, removed;
    if |list| > max * 2 {
      var oldCount := |list|;
      pruned' := pruned'[id := PyTail(list, max)];
      removed' := removed' + (oldCount - |pruned'[id]|);
    } else {
      assert pruned == pruned[id := list];
    }
  }

  method PruneLoop(msgs: map<ThreadId, seq<Message>>, max: int) returns (pruned: map<ThreadId, seq<Message>>, removed: nat)
    ensures pruned == map id | id in msgs :: Pruned(msgs[id], max)
    ensures removed == SumValues(ExcessMap(msgs, max))
  {
    ghost var rest := ExcessMap(msgs, max);
    var todo := msgs.Keys;
    pruned := msgs;
    removed := 0;
    while todo != {}
      invariant todo <= msgs.Keys && rest.Keys == todo
      invariant forall id :: id in rest ==> rest[id] == Excess(msgs[id], max)
      invariant pruned.Keys == msgs.Keys
      invariant forall id :: id in msgs ==> pruned[id] == if id in todo then msgs[id] else Pruned(msgs[id], max)
      invariant removed + SumValues(rest) == SumValues(ExcessMap(msgs, max))
      decreases todo
    {
      var id :| id in todo;
      SumValuesRemove(rest, id);
      pruned, removed := PruneOne(pruned, removed, id, msgs[id], max);
      rest := rest - {id};
      todo := todo - {id};
    }
  }

  // ---------------------------------------------------------------------------
  // Statistics
  // ---------------------------------------------------------------------------

  function TopicOf(th: Thread): string {
    th.topic
  }

  function ThreadIsActive(th: Thread): bool {
    th.isActive
  }

  function ListLengths(msgs: map<ThreadId, seq<Message>>): map<ThreadId, nat> {
    map id | id in msgs :: |msgs[id]|
  }

  datatype ThreadStats = ThreadStats(
    totalThreads: nat,
    activeThreads: nat,
    archivedThreads: nat,
    totalMessages: nat,
    averageMessages: real,
    threadsByTopic: Dict<string, nat>,
    totalParticipants: nat)

  datatype CleanupStats = CleanupStats(archivedThreads: nat, removedContexts: nat, removedMessages: nat)

  // ---------------------------------------------------------------------------
  // The manager
  // ---------------------------------------------------------------------------

  class ConversationManager {
    const maxContextMessages: int
    /** In microseconds. */
    const threadTimeout: int

    var threads: Dict<ThreadId, Thread>
    var topicThreads: map<string, seq<ThreadId>>
    var agentThreads: map<string, set<ThreadId>>
    var messageThreads: map<string, ThreadId>
    var threadMessages: map<ThreadId, seq<Message>>
    var contexts: map<ThreadId, Context>

    ghost function State(): Registry
      reads this
    {
      Registry(threads, topicThreads, agentThreads, messageThreads, threadMessages, contexts)
    }

    ghost predicate Valid()
      reads this
    {
      Consistent(State(), maxContextMessages)
    }

    /** The source's defaults are a window of 10 messages and a timeout of 24 hours. */
    constructor(maxContextMessages: int, threadTimeout: int)
      ensures Valid()
      ensures this.maxContextMessages == maxContextMessages && this.threadTimeout == threadTimeout
      ensures State() == Registry(EmptyDict(), map[], map[], map[], map[], map[])
    {
      this.maxContextMessages := maxContextMessages;
      this.threadTimeout := threadTimeout;
      threads := EmptyDict();
      topicThreads := map[];
      agentThreads := map[];
      messageThreads := map[];
      threadMessages := map[];
      contexts := map[];
      EmptyConsistent(maxContextMessages);
    }

    /** `create_thread`. */
    method CreateThread(id: ThreadId, topic: string, initial: Message, title: Option<string>, now: Instant)
      returns (thread: Thread)
      requires Valid() && id !in threads.entries && id !in threadMessages
      modifies this`threads, this`topicThreads, this`agentThreads, this`threadMessages, this`messageThreads, this`contexts
      ensures Valid()
      ensures thread == NewThread(id, topic, title, initial, now)
      ensures State() == Create(old(State()), thread, initial)
    {
      thread := Thread(id, topic, TitleFor(title, initial), now, now, {initial.senderId}, 0, true, map[]);
      ghost var before := State();
      Register(thread, initial);
      CreateConsistent(before, thread, initial, maxContextMessages);
    }

    /** The stores of `create_thread`, in the source's order. */
    method Register(thread: Thread, initial: Message)
      modifies this`threads, this`topicThreads, this`agentThreads, this`threadMessages, this`messageThreads, this`contexts
      ensures State() == Create(old(State()), thread, initial)
    {
      var id := thread.id;
      threads := threads.Put(id, thread);
      topicThreads := topicThreads[thread.topic := Get(topicThreads, thread.topic, []) + [id]];
      agentThreads := agentThreads[initial.senderId := Get(agentThreads, initial.senderId, {}) + {id}];
      threadMessages := threadMessages[id := [initial]];
      messageThreads := messageThreads[initial.id := id];
      contexts := contexts[id := ContextOf(thread, [initial])];
    }

    /** `_update_conversation_context`: nothing happens when the thread has no context. */
    method UpdateContext(tid: ThreadId, m: Message)
      modifies this`contexts
      ensures contexts == if tid in old(contexts) then old(contexts)[tid := Updated(old(contexts)[tid], m, maxContextMessages)] else old(contexts)
    {
      if tid !in contexts {
        return;
      }
      contexts := contexts[tid := Updated(contexts[tid], m, maxContextMessages)];
    }

    /** The stores of `add_message_to_thread` once the thread id is known; the id need not name a thread. */
    method Record(m: Message, tid: ThreadId)
      modifies this`threads, this`agentThreads, this`threadMessages, this`messageThreads, this`contexts
      ensures State() == Append(old(State()), tid, m, maxContextMessages)
    {
      threadMessages := threadMessages[tid := Get(threadMessages, tid, []) + [m]];
      messageThreads := messageThreads[m.id := tid];
      if tid in threads.entries {
        var th := threads.entries[tid];
        threads := threads.Put(tid, Joined(th, m));
        agentThreads := agentThreads[m.senderId := Get(agentThreads, m.senderId, {}) + {tid}];
      }
      UpdateContext(tid, m);
    }

    /** `_find_or_create_thread`: the first reusable thread of the message's topic, else a new thread. */
    method FindOrCreate(m: Message, freshId: ThreadId, now: Instant) returns (tid: ThreadId)
      requires Valid() && freshId !in threads.entries && freshId !in threadMessages
      modifies this`threads, this`topicThreads, this`agentThreads, this`threadMessages, this`messageThreads, this`contexts
      ensures Valid()
      ensures tid == Target(old(State()), m, None, freshId, now, threadTimeout)
      ensures State() == Placed(old(State()), m, None, freshId, now, threadTimeout)
    {
      var ids := Get(topicThreads, m.topic, []);
      for i := 0 to |ids|
        invariant forall j :: 0 <= j < i ==> !Reusable(ids[j], threads.entries, now, threadTimeout)
      {
        if ids[i] in threads.entries && threads.entries[ids[i]].isActive
           && now - threads.entries[ids[i]].lastActivity < threadTimeout {
          FirstReusableIsFirst(ids, threads.entries, now, threadTimeout, i);
          return ids[i];
        }
      }
      FirstReusableIsFirst(ids, threads.entries, now, threadTimeout, |ids|);
      var thread := CreateThread(freshId, m.topic, m, None, now);
      tid := thread.id;
    }

    /** `add_message_to_thread`: the message goes to the given thread, or to the one `_find_or_create_thread` picks. */
    method AddMessage(m: Message, given: Option<ThreadId>, freshId: ThreadId, now: Instant) returns (tid: ThreadId)
      requires Valid() && freshId !in threads.entries && freshId !in threadMessages
      modifies this`threads, this`topicThreads, this`agentThreads, this`threadMessages, this`messageThreads, this`contexts
      ensures Valid()
      ensures tid == Target(old(State()), m, given, freshId, now, threadTimeout)
      ensures State() == Append(Placed(old(State()), m, given, freshId, now, threadTimeout), tid, m, maxContextMessages)
    {
      if given.Some? {
        tid := given.value;
      } else {
        tid := FindOrCreate(m, freshId, now);
      }
      ghost var placed := State();
      Record(m, tid);
      AppendConsistent(placed, tid, m, maxContextMessages);
    }

    /** `get_conversation_context`. */
    function GetContext(tid: ThreadId): (r: Option<Context>)
      reads this
      requires Valid()
      ensures r.Some? <==> tid in contexts
      ensures r.Some? ==>
        && r.value.threadId == tid && tid in threads.entries
        && r.value.participants == threads.entries[tid].participants
        && (maxContextMessages >= 1 ==>
              r.value.recentMessages == PyTail(threadMessages[tid], maxContextMessages)
              && |r.value.recentMessages| <= maxContextMessages)
    {
      if tid in contexts then Some(contexts[tid]) else None
    }

    /** `get_thread_messages`: the newest `limit` messages when a non-zero limit is given. */
    function GetThreadMessages(tid: ThreadId, limit: Option<int>): (r: seq<Message>)
      reads this
      ensures tid !in threadMessages ==> r == []
      ensures (limit.None? || limit.value == 0) && tid in threadMessages ==> r == threadMessages[tid]
      ensures limit.Some? && limit.value > 0 && tid in threadMessages ==>
        |r| == (if limit.value < |threadMessages[tid]| then limit.value else |threadMessages[tid]|)
        && r == threadMessages[tid][|threadMessages[tid]| - |r|..]
      ensures limit.Some? && limit.value < 0 && tid in threadMessages ==>
        r == threadMessages[tid][(if -limit.value < |threadMessages[tid]| then -limit.value else |threadMessages[tid]|)..]
    {
      var msgs := Get(threadMessages, tid, []);
      if limit.Some? && limit.value != 0 then PyTail(msgs, limit.value) else msgs
    }

    /** `get_agent_threads`: the threads an agent takes part in (the source lists them in set order). */
    function GetAgentThreads(agent: string): (r: set<Thread>)
      reads this
      requires Valid()
      ensures forall th :: th in r <==> th.id in threads.entries && threads.entries[th.id] == th && agent in th.participants
    {
      AgentMapMeaning(threads.entries);
      set id | id in Get(agentThreads, agent, {}) && id in threads.entries :: threads.entries[id]
    }

    /** `get_topic_threads`: the threads of a topic in creation order. */
    function GetTopicThreads(topic: string): (r: seq<Thread>)
      reads this
      requires Valid()
      ensures |r| == |Get(topicThreads, topic, [])|
      ensures forall i :: 0 <= i < |r| ==> r[i].topic == topic && r[i] == threads.entries[Get(topicThreads, topic, [])[i]]
    {
      var ids := Get(topicThreads, topic, []);
      ExistingAll(ids, threads.entries);
      Existing(ids, threads.entries)
    }

    /** `close_thread`: `closedBy` is only logged. */
    method CloseThread(tid: ThreadId, closedBy: string) returns (ok: bool)
      requires Valid()
      modifies this`threads
      ensures Valid()
      ensures ok == (tid in old(threads.entries))
      ensures State() == Close(old(State()), tid)
    {
      CloseConsistent(State(), tid, maxContextMessages);
      if tid !in threads.entries {
        return false;
      }
      threads := threads.Put(tid, threads.entries[tid].(isActive := false));
      return true;
    }

    /** `archive_old_threads`; `ArchiveConsistent` shows that it keeps `Valid()`. */
    method ArchiveOldThreads(now: Instant) returns (count: nat)
      requires threads.Valid()
      modifies this`threads
      ensures threads.Valid()
      ensures State() == ArchiveAll(old(State()), now - threadTimeout)
      ensures count == StaleCount(old(threads.keys), old(threads.entries), now - threadTimeout)
    {
      var cutoff := now - threadTimeout;
      var archived;
      archived, count := ArchiveLoop(threads.keys, threads.entries, cutoff);
      ArchiveEachAll(threads.entries, threads.keys, cutoff);
      threads := Dict(threads.keys, archived);
    }

    /** `search_threads`: candidates by topic, else by agent, else all threads; then title or message matches. */
    method SearchThreads(query: string, topic: Option<string>, agent: Option<string>) returns (found: seq<Thread>)
      requires Valid()
      ensures topic.Some? && topic.value != "" ==> found == Hits(GetTopicThreads(topic.value), Lower(query), threadMessages)
      ensures (topic.None? || topic.value == "") && (agent.None? || agent.value == "") ==>
        found == Hits(Values(threads), Lower(query), threadMessages)
      ensures (topic.None? || topic.value == "") && agent.Some? && agent.value != "" ==>
        forall th :: th in found <==> th in GetAgentThreads(agent.value) && ThreadMatches(th, Lower(query), threadMessages)
    {
      var q := Lower(query);
      var cands: seq<Thread>;
      if topic.Some? && topic.value != "" {
        cands := GetTopicThreads(topic.value);
      } else if agent.Some? && agent.value != "" {
        var agentSet := GetAgentThreads(agent.value);
        cands := Enumerate(agentSet);
      } else {
        cands := Values(threads);
      }
      found := SearchLoop(cands, q, threadMessages);
      HitsExact(cands, q, threadMessages);
    }

    /** `get_thread_stats`. */
    method Stats() returns (s: ThreadStats)
      requires Valid()
      ensures s.totalThreads == |threads.keys| && s.activeThreads <= s.totalThreads
      ensures s.activeThreads == CountWhere(Values(threads), ThreadIsActive)
      ensures s.archivedThreads == s.totalThreads - s.activeThreads
      ensures s.totalMessages == SumValues(ListLengths(threadMessages))
      ensures s.averageMessages == if s.totalThreads > 0 then s.totalMessages as real / s.totalThreads as real else 0.0
      ensures s.threadsByTopic == Tally(Values(threads), TopicOf)
      ensures forall t :: t in s.threadsByTopic.entries <==> CountKey(Values(threads), TopicOf, t) > 0
      ensures forall t :: t in s.threadsByTopic.entries ==> s.threadsByTopic.entries[t] == CountKey(Values(threads), TopicOf, t)
      ensures SumValues(s.threadsByTopic.entries) == s.totalThreads
      ensures s.totalParticipants == |Participants(threads.entries)|
    {
      var all := Values(threads);
      var total := |all|;
      var active := CountWhere(all, ThreadIsActive);
      var messages := SumOf(ListLengths(threadMessages));
      var average := if total > 0 then messages as real / total as real else 0.0;
      var byTopic := TallyOf(all, TopicOf);
      TallyFacts(all, TopicOf);
      TallyTotal(all, TopicOf);
      assert agentThreads.Keys == Participants(threads.entries);
      s := ThreadStats(total, active, total - active, messages, average, byTopic, |agentThreads|);
    }

    /** `cleanup_old_data`: archive, drop the contexts of inactive threads, prune long message lists. */
    method CleanupOldData(now: Instant) returns (r: CleanupStats)
      requires threads.Valid()
      modifies this`threads, this`contexts, this`threadMessages
      ensures State() == PruneAll(DropInactive(ArchiveAll(old(State()), now - threadTimeout)), maxContextMessages)
      ensures r.archivedThreads == StaleCount(old(threads.keys), old(threads.entries), now - threadTimeout)
      ensures r.removedContexts == |old(contexts)| - |contexts|
      ensures r.removedMessages == SumValues(ExcessMap(old(threadMessages), maxContextMessages))
    {
      var archived := ArchiveOldThreads(now);
      var contextsRemoved := RemoveInactiveContexts();
      var messagesRemoved := PruneMessages();
      r := CleanupStats(archived, contextsRemoved, messagesRemoved);
    }

    /** The second loop of `cleanup_old_data`. */
    method RemoveInactiveContexts() returns (removed: nat)
      requires threads.Valid()
      modifies this`contexts
      ensures State() == DropInactive(old(State()))
      ensures removed == |old(contexts)| - |contexts|
    {
      var kept;
      kept, removed := DropLoop(threads.keys, threads.entries, contexts);
      contexts := kept;
    }

    /** The third loop of `cleanup_old_data`. */
    method PruneMessages() returns (removed: nat)
      modifies this`threadMessages
      ensures State() == PruneAll(old(State()), maxContextMessages)
      ensures removed == SumValues(ExcessMap(old(threadMessages), maxContextMessages))
    {
      var pruned;
      pruned, removed := PruneLoop(threadMessages, maxContextMessages);
      threadMessages := pruned;
    }
  }

  // ---------------------------------------------------------------------------
  // Scenarios
  // ---------------------------------------------------------------------------

  /** A titled thread keeps its topic and title, and the sender of its first message takes part. */
  method CreateThreadScenario(hello: Message) returns (th: Thread)
    ensures th.topic == "test-topic" && th.title == "Test Thread" && hello.senderId in th.participants
  {
    var manager := new ConversationManager(10, 24 * 3600 * MicrosPerSecond);
    th := manager.CreateThread(1, "test-topic", hello, Some("Test Thread"), 0);
  }

  /** A reply sent to a new thread by its id is listed after the thread's first message, and the thread now counts it. */
  lemma ReplyScenario(hello: Message, reply: Message, max: int)
    ensures var r := Append(Create(Registry(EmptyDict(), map[], map[], map[], map[], map[]), NewThread(1, hello.topic, None, hello, 0), hello), 1, reply, max);
            && r.threadMessages[1] == [hello, reply]
            && r.messageThreads[reply.id] == 1
            && r.threads.entries[1].messageCount == 1
  {
  }

  /** A new thread's context holds the initial message and its sender. */
  method ContextScenario(hello: Message) returns (c: Option<Context>)
    ensures c.Some? && c.value.topic == hello.topic && c.value.recentMessages == [hello]
    ensures c.Some? && hello.senderId in c.value.participants
  {
    var manager := new ConversationManager(10, 24 * 3600 * MicrosPerSecond);
    var th := manager.CreateThread(1, hello.topic, hello, None, 0);
    c := manager.GetContext(th.id);
  }
}
