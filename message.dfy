/**
 * The message agents exchange (`AgentMessage`): its fields and defaults, the
 * validators that strip and reject blank identity fields, the lifecycle
 * helpers `is_expired`, `should_retry` and `increment_retry`, and the topic
 * record `TopicInfo` whose subscriber list is updated in place.
 */
module Message {
  import opened Common

  /** A point in time in microseconds, the resolution of Python's `datetime`. */
  type Instant = int

  const MicrosPerSecond: int := 1_000_000

  datatype MessageType = Text | Task | Result | Query | Response | Notification | Error | Heartbeat

  /** The string value of each `MessageType` member (it is a `str` enum). */
  function TypeName(t: MessageType): string {
    match t
    case Text => "text"
    case Task => "task"
    case Result => "result"
    case Query => "query"
    case Response => "response"
    case Notification => "notification"
    case Error => "error"
    case Heartbeat => "heartbeat"
  }

  datatype Priority = Low | Normal | High | Urgent

  /** The ordinal both the subscription filter and the router use: LOW < NORMAL < HIGH < URGENT. */
  function Rank(p: Priority): nat {
    match p
    case Low => 0
    case Normal => 1
    case High => 2
    case Urgent => 3
  }

  function PriorityName(p: Priority): string {
    match p
    case Low => "low"
    case Normal => "normal"
    case High => "high"
    case Urgent => "urgent"
  }

  /** A metadata value; the source allows any value compared with `==`. */
  type Value = string

  /** `re.search(pattern, text, re.IGNORECASE)` succeeds: the regular-expression engine is a parameter. */
  type RegexSearch = (string, string) -> bool

  datatype Message = Message(
    id: string,
    timestamp: Instant,
    senderId: string,
    senderName: string,
    senderRole: string,
    kind: MessageType,
    priority: Priority,
    content: string,
    topic: string,
    replyTo: Option<string>,
    metadata: map<string, Value>,
    tags: seq<string>,
    correlationId: Option<string>,
    requiresResponse: bool,
    responseTimeout: Option<int>,
    ttl: Option<int>,
    retryCount: int,
    maxRetries: int)

  /** Every expected metadata entry is present with an equal value. */
  predicate MetadataMatches(expected: map<string, Value>, actual: map<string, Value>) {
    forall k :: k in expected ==> k in actual && actual[k] == expected[k]
  }

  /** A caller-supplied predicate on messages, which may raise. */
  type MessagePredicate = Message -> CallOutcome<bool>

  /** A message built from the required fields only; everything else takes the declared default. */
  function NewMessage(id: string, timestamp: Instant, senderId: string, senderName: string,
                      senderRole: string, kind: MessageType, content: string, topic: string): Message
  {
    Message(id, timestamp, senderId, senderName, senderRole, kind, Normal, content, topic,
            None, map[], [], None, false, None, None, 0, 3)
  }

  // ---------------------------------------------------------------------------
  // Validators
  // ---------------------------------------------------------------------------

  /** A field a validator rejects because it is empty or only whitespace. */
  datatype Issue = BlankSenderId | BlankSenderName | BlankSenderRole | BlankContent | BlankTopic

  /** The text of the `ValueError` each validator raises. */
  function IssueText(i: Issue): string {
    if i == BlankContent then "Message content cannot be empty" else "Required fields cannot be empty"
  }

  datatype Validated = Accepted(msg: Message) | Rejected(issues: seq<Issue>)

  /** The issues the validators report, in field declaration order, given which fields are blank. */
  function IssueList(id: bool, name: bool, role: bool, content: bool, topic: bool): seq<Issue> {
    (if id then [BlankSenderId] else [])
    + (if name then [BlankSenderName] else [])
    + (if role then [BlankSenderRole] else [])
    + (if content then [BlankContent] else [])
    + (if topic then [BlankTopic] else [])
  }

  function Issues(m: Message): seq<Issue> {
    IssueList(Strip(m.senderId) == [], Strip(m.senderName) == [], Strip(m.senderRole) == [],
              Strip(m.content) == [], Strip(m.topic) == [])
  }

  lemma IssueListFacts(id: bool, name: bool, role: bool, content: bool, topic: bool)
    ensures var l := IssueList(id, name, role, content, topic);
      (BlankSenderId in l <==> id) && (BlankSenderName in l <==> name) && (BlankSenderRole in l <==> role)
      && (BlankContent in l <==> content) && (BlankTopic in l <==> topic)
      && (l == [] <==> !id && !name && !role && !content && !topic)
  {
    var a := if id then [BlankSenderId] else [];
    var b := if name then [BlankSenderName] else [];
    var c := if role then [BlankSenderRole] else [];
    var d := if content then [BlankContent] else [];
    var e := if topic then [BlankTopic] else [];
    assert forall x :: x in a + b + c + d + e <==> x in a || x in b || x in c || x in d || x in e;
  }

  /** Construction of an `AgentMessage`: blank fields are rejected, the others are stored stripped. */
  function Validate(m: Message): (r: Validated)
    ensures r.Accepted? <==>
      Strip(m.senderId) != [] && Strip(m.senderName) != [] && Strip(m.senderRole) != []
      && Strip(m.content) != [] && Strip(m.topic) != []
    ensures r.Accepted? ==>
      r.msg.senderId == Strip(m.senderId) && r.msg.senderName == Strip(m.senderName)
      && r.msg.senderRole == Strip(m.senderRole) && r.msg.content == Strip(m.content) && r.msg.topic == Strip(m.topic)
  {
    IssueListFacts(Strip(m.senderId) == [], Strip(m.senderName) == [], Strip(m.senderRole) == [],
                   Strip(m.content) == [], Strip(m.topic) == []);
    var issues := Issues(m);
    if issues == [] then
      Accepted(m.(senderId := Strip(m.senderId), senderName := Strip(m.senderName),
                  senderRole := Strip(m.senderRole), content := Strip(m.content),
                  topic := Strip(m.topic)))
    else
      Rejected(issues)
  }

  /** A rejection names exactly the blank fields, each once. */
  lemma ValidateIssues(m: Message)
    requires Validate(m).Rejected?
    ensures BlankSenderId in Validate(m).issues <==> Strip(m.senderId) == []
    ensures BlankSenderName in Validate(m).issues <==> Strip(m.senderName) == []
    ensures BlankSenderRole in Validate(m).issues <==> Strip(m.senderRole) == []
    ensures BlankContent in Validate(m).issues <==> Strip(m.content) == []
    ensures BlankTopic in Validate(m).issues <==> Strip(m.topic) == []
  {
    IssueListFacts(Strip(m.senderId) == [], Strip(m.senderName) == [], Strip(m.senderRole) == [],
                   Strip(m.content) == [], Strip(m.topic) == []);
  }

  /** What every accepted message satisfies: identity fields and content are non-empty and stripped. */
  predicate WellFormed(m: Message) {
    && m.senderId != [] && Strip(m.senderId) == m.senderId
    && m.senderName != [] && Strip(m.senderName) == m.senderName
    && m.senderRole != [] && Strip(m.senderRole) == m.senderRole
    && m.content != [] && Strip(m.content) == m.content
    && m.topic != [] && Strip(m.topic) == m.topic
  }

  lemma StripNonEmpty(s: string)
    requires Strip(s) != []
    ensures Strip(Strip(s)) == Strip(s) && Strip(s) != []
  {
    StripIdempotent(s);
  }

  /** Validation produces well-formed messages and changes nothing else. */
  lemma ValidateWellFormed(m: Message)
    requires Validate(m).Accepted?
    ensures WellFormed(Validate(m).msg)
    ensures Validate(m).msg.(senderId := m.senderId, senderName := m.senderName, senderRole := m.senderRole,
                             content := m.content, topic := m.topic) == m
  {
    StripNonEmpty(m.senderId);
    StripNonEmpty(m.senderName);
    StripNonEmpty(m.senderRole);
    StripNonEmpty(m.content);
    StripNonEmpty(m.topic);
  }

  /** Validating a well-formed message again accepts it unchanged. */
  lemma ValidateIdempotent(m: Message)
    requires WellFormed(m)
    ensures Validate(m) == Accepted(m)
  {
  }

  /** An accepted message built from the required fields carries the declared defaults and may be retried at once. */
  lemma NewMessageDefaults(id: string, timestamp: Instant, senderId: string, senderName: string,
                           senderRole: string, kind: MessageType, content: string, topic: string)
    requires Validate(NewMessage(id, timestamp, senderId, senderName, senderRole, kind, content, topic)).Accepted?
    ensures var m := Validate(NewMessage(id, timestamp, senderId, senderName, senderRole, kind, content, topic)).msg;
      m.priority == Normal && m.retryCount == 0 && m.maxRetries == 3 && m.ttl == None
      && m.metadata == map[] && m.tags == [] && ShouldRetry(m, timestamp)
  {
    ValidateWellFormed(NewMessage(id, timestamp, senderId, senderName, senderRole, kind, content, topic));
  }

  // ---------------------------------------------------------------------------
  // Lifecycle
  // ---------------------------------------------------------------------------

  /** `is_expired`: without a TTL never; otherwise when the age in seconds exceeds the TTL. */
  predicate IsExpired(m: Message, now: Instant) {
    match m.ttl
    case None => false
    case Some(ttl) => now - m.timestamp > ttl * MicrosPerSecond
  }

  /** `should_retry`: retries remain and the message has not expired. */
  predicate ShouldRetry(m: Message, now: Instant) {
    m.retryCount < m.maxRetries && !IsExpired(m, now)
  }

  /** `increment_retry`: a copy with one more retry recorded. */
  function IncrementRetry(m: Message): Message {
    m.(retryCount := m.retryCount + 1)
  }

  /** The message after `k` calls of `increment_retry`. */
  function Retried(m: Message, k: nat): Message {
    if k == 0 then m else IncrementRetry(Retried(m, k - 1))
  }

  lemma {:induction false} RetriedOnlyCounts(m: Message, k: nat)
    ensures Retried(m, k) == m.(retryCount := m.retryCount + k)
  {
    if k > 0 {
      RetriedOnlyCounts(m, k - 1);
    }
  }

  /** A message may be retried exactly while fewer than `maxRetries` retries are recorded and it has not expired. */
  lemma RetriesRunOut(m: Message, k: nat, now: Instant)
    ensures ShouldRetry(Retried(m, k), now) <==> m.retryCount + k < m.maxRetries && !IsExpired(m, now)
  {
    RetriedOnlyCounts(m, k);
  }

  /** Once expired, a message stays expired. */
  lemma ExpiryIsPermanent(m: Message, t1: Instant, t2: Instant)
    requires IsExpired(m, t1) && t1 <= t2
    ensures IsExpired(m, t2) && !ShouldRetry(m, t2)
  {
  }

  // ---------------------------------------------------------------------------
  // TopicInfo
  // ---------------------------------------------------------------------------

  /** `add_subscriber`: append unless already present. */
  function WithSubscriber(subscribers: seq<string>, agentId: string): seq<string> {
    if agentId in subscribers then subscribers else subscribers + [agentId]
  }

  /** Python's `list.remove`: the first occurrence goes. */
  function RemoveFirst<T(==)>(s: seq<T>, x: T): seq<T> {
    if s == [] then [] else if s[0] == x then s[1..] else [s[0]] + RemoveFirst(s[1..], x)
  }

  /** `remove_subscriber`: remove the agent if present. */
  function WithoutSubscriber(subscribers: seq<string>, agentId: string): seq<string> {
    if agentId in subscribers then RemoveFirst(subscribers, agentId) else subscribers
  }

  lemma WithSubscriberFacts(s: seq<string>, a: string)
    ensures a in WithSubscriber(s, a)
    ensures WithSubscriber(WithSubscriber(s, a), a) == WithSubscriber(s, a)
    ensures forall b :: b in WithSubscriber(s, a) <==> b in s || b == a
    ensures NoDup(s) ==> NoDup(WithSubscriber(s, a))
  {
  }

  lemma {:induction false} RemoveFirstOfUnique<T>(s: seq<T>, x: T)
    requires NoDup(s)
    ensures RemoveFirst(s, x) == RemoveAll(s, x)
    ensures NoDup(RemoveFirst(s, x))
  {
    if s != [] {
      assert NoDup(s[1..]);
      RemoveFirstOfUnique(s[1..], x);
      if s[0] == x {
        assert x !in s[1..];
      } else {
        assert s[0] !in s[1..];
      }
    }
  }

  /** On a duplicate-free list, removal leaves the agent absent and every other subscriber present. */
  lemma WithoutSubscriberFacts(s: seq<string>, a: string)
    requires NoDup(s)
    ensures a !in WithoutSubscriber(s, a)
    ensures forall b :: b != a ==> (b in WithoutSubscriber(s, a) <==> b in s)
    ensures NoDup(WithoutSubscriber(s, a))
    ensures a !in s ==> WithoutSubscriber(s, a) == s
  {
    if a in s {
      RemoveFirstOfUnique(s, a);
    }
  }

  /** The record of a topic; only its subscriber list changes after creation. */
  class TopicInfo {
    const name: string
    const description: Option<string>
    const createdBy: string
    const createdAt: Instant
    const messageCount: int
    var subscribers: seq<string>
    const isPrivate: bool
    const tags: seq<string>

    constructor (name: string, description: Option<string>, createdBy: string, createdAt: Instant,
                 isPrivate: bool, tags: seq<string>)
      ensures this.name == name && this.description == description && this.createdBy == createdBy
      ensures this.createdAt == createdAt && this.isPrivate == isPrivate && this.tags == tags
      ensures messageCount == 0 && subscribers == []
    {
      this.name := name;
      this.description := description;
      this.createdBy := createdBy;
      this.createdAt := createdAt;
      this.isPrivate := isPrivate;
      this.tags := tags;
      messageCount := 0;
      subscribers := [];
    }

    method AddSubscriber(agentId: string)
      modifies this
      ensures subscribers == WithSubscriber(old(subscribers), agentId)
    {
      if agentId !in subscribers {
        subscribers := subscribers + [agentId];
      }
    }

    method RemoveSubscriber(agentId: string)
      modifies this
      ensures subscribers == WithoutSubscriber(old(subscribers), agentId)
    {
      if agentId in subscribers {
        subscribers := RemoveFirst(subscribers, agentId);
      }
    }
  }

  /** The subscriber scenario: two adds, a repeated add, then a removal. */
  method SubscriberScenario() returns (t: TopicInfo)
    ensures t.subscribers == ["agent-2"]
  {
    t := new TopicInfo("test-topic", None, "test-agent", 0, false, []);
    t.AddSubscriber("agent-1");
    t.AddSubscriber("agent-2");
    assert |t.subscribers| == 2;
    t.AddSubscriber("agent-1");
    assert |t.subscribers| == 2;
    t.RemoveSubscriber("agent-1");
  }
}
