# Agentic Redpanda core, modelled in Dafny

This project models the in-memory decision logic of the agentic-redpanda
agent-messaging framework and proves properties of it. Seven components are
covered, one Dafny module each, plus a module of shared helpers:

| file | module | models |
|---|---|---|
| `common.dfy` | `Common` | `Option`, an insertion-ordered dictionary (`Dict`), ASCII lower-casing, substring search, Python's `strip`, Python's negative slices, a stable descending sort, capped appends |
| `message.dfy` | `Message` | `AgentMessage` and its field validators, `is_expired`, `should_retry`, `increment_retry`, and the `TopicInfo` record with its duplicate-free subscriber list (a class, since the topic registry updates it in place) |
| `subscription.dfy` | `Subscriptions` | the subscription filter predicate and `SubscriptionManager`, whose topic index and agent index share the same mutable `TopicSubscription` objects |
| `router.dfy` | `Router` | the routing rules, kept stably sorted by descending priority, rule evaluation, `route_message` with its history capped at 1000 entries, and rule export/import |
| `conversation.dfy` | `Conversation` | `ConversationManager`: threads, contexts with a rolling window, title generation, reuse of a recent thread, closing, archiving, search, statistics and cleanup |
| `errors.dfy` | `Errors` | the ordered error classifier, the per-strategy delay with jitter and cap, the bounded retry loop, the error history capped at 1000 entries, and `handle_message_error` |
| `topic_validator.dfy` | `TopicValidation` | topic name validation, name suggestion, the permission table with grant/revoke/check, and `validate_topic_creation` |
| `topic_manager.dfy` | `Topics` | `TopicManager`: idempotent creation, subscriptions kept in both directions, listing, search, deletion and statistics |

State that the source mutates is a Dafny `class` whose methods carry
`modifies` clauses: `TopicInfo`, `TopicSubscription`, `SubscriptionManager`,
`MessageRouter`, `ConversationManager`, `ErrorContext`, `ErrorHandler`,
`TopicValidator` and `TopicManager`. Messages, rules, threads, contexts and
filters are values (datatypes). Each manager has a validity predicate that
its methods preserve. For example, the two subscription indexes agree, each
topic's subscriber list has no duplicates, and every thread is filed under
its topic. Each method states its new state as a function of the old one,
and lemmas prove what those functions promise.

Time is an integer number of microseconds (`Instant`), passed in as `now`
wherever the source reads the clock. Delays are real numbers of seconds.
Callers supply regular-expression search and custom predicates as function
parameters.

Several behaviours below follow the code as written rather than the obvious
reading of its documentation:

- `MessageRouter.route_message` does not drop the message's own topic from
  its targets.
- Without an explicit thread, a message joins the FIRST thread in the
  topic's list that is active and recently used, not the most recent one.
- When `add_message_to_thread` has to create a thread, the message is
  stored twice, in the thread's messages and in its context.
- `SubscriptionManager.unsubscribe` returns true whenever the topic has an
  entry, even if the agent had no subscription there.
- `_retry_operation` calls the operation at most `max_retries` times. It
  sleeps only between calls and returns nothing when every call fails.
- The fixed-delay strategy returns `base_delay` with no jitter and no cap.
  Linear backoff uses `base_delay * (attempt + 1)`. The jitter is within
  5% either way.
- `handle_message_error` calls `is_error_retryable` without awaiting it.
  The coroutine object is always truthy, so only `should_retry()` decides
  (`Errors.ValidationErrorStillRetried`).
- The name pattern `^[a-z0-9-]+$` is checked with Python's `re.match`.
  There, `$` also matches just before a final newline, so a valid name
  with one newline appended is still valid
  (`TopicValidation.NewlineKeepsValid`). The type prefix patterns behave
  the same way.
- `delete_topic` lets only the creator delete a public topic, but lets
  any agent delete a private one.
- An empty string and an empty list count as absent wherever the source
  tests truthiness. For example, an empty description never matches a
  search, and an empty agent id does not filter `list_topics`.

## Model

| member | source | states |
|---|---|---|
| Message.Validate | agentic_redpanda/schemas/message.py:66-78 | a message is accepted exactly when sender id, sender name, sender role, content and topic are each non-blank after stripping; an accepted message stores each of these five fields as the stripped input (`ValidateWellFormed` adds that nothing else changes) |
| Message.ValidateIssues | agentic_redpanda/schemas/message.py:66-78 | a rejection lists exactly the blank fields |
| Message.ValidateWellFormed | agentic_redpanda/schemas/message.py:66-78 | an accepted message has the five checked fields non-empty and already stripped, and every other field as given |
| Message.ValidateIdempotent | agentic_redpanda/schemas/message.py:66-78 | validating a well-formed message again accepts it unchanged |
| Message.NewMessageDefaults | agentic_redpanda/schemas/message.py:35-64 | a message built from the required fields has priority normal, retry count 0, at most 3 retries, no TTL, no metadata or tags, and may be retried at once |
| Message.RetriedOnlyCounts | agentic_redpanda/schemas/message.py:110-112 | k calls of `increment_retry` change only the retry count, which grows by k |
| Message.RetriesRunOut | agentic_redpanda/schemas/message.py:98-112 | after k increments `should_retry` holds exactly when retryCount + k < maxRetries and the message has not expired |
| Message.ExpiryIsPermanent | agentic_redpanda/schemas/message.py:98-108 | a message expired at one instant is expired, and not retried, at every later instant |
| Message.WithSubscriberFacts | agentic_redpanda/schemas/message.py:127-130 | adding puts the agent in the list, adds nothing else, is idempotent, and keeps the list duplicate-free |
| Message.WithoutSubscriberFacts | agentic_redpanda/schemas/message.py:132-135 | on a duplicate-free list removal leaves the agent absent, keeps every other subscriber, keeps the list duplicate-free, and changes nothing when the agent was absent |
| Message.TopicInfo.constructor | agentic_redpanda/schemas/message.py:115-125 | a topic record holds the given fields, a message count of 0 and no subscribers |
| Message.TopicInfo.AddSubscriber | agentic_redpanda/schemas/message.py:127-130 | the subscriber list becomes the old list with the agent appended unless already present |
| Message.TopicInfo.RemoveSubscriber | agentic_redpanda/schemas/message.py:132-135 | the subscriber list loses the first occurrence of the agent, if any |
| Message.SubscriberScenario | agentic_redpanda/schemas/message.py:127-135 | adding agent-1, agent-2, agent-1 again, then removing agent-1 leaves exactly ["agent-2"] |
| Subscriptions.MatchesFilterIsConjunction | agentic_redpanda/core/subscription_manager.py:192-264 | the early-return filter accepts a message exactly when every criterion (types, minimum priority, keywords, pattern, allowed/blocked senders, allowed/blocked roles, metadata, custom predicate) admits it; no criteria and an all-default filter accept everything |
| Subscriptions.PriorityThreshold | agentic_redpanda/core/subscription_manager.py:213-222 | a minimum priority alone admits exactly the messages whose rank is at least the minimum's |
| Subscriptions.BlockedNeverAdmitted | agentic_redpanda/core/subscription_manager.py:240-248 | a message from a blocked sender or a blocked role is rejected whatever the other criteria say |
| Subscriptions.RaisingCustomFilterRejects | agentic_redpanda/core/subscription_manager.py:256-262 | a custom predicate that raises rejects the message |
| Subscriptions.UrgentMessageAdmitted | tests/test_enhanced_features.py:59-84 | the keyword filter ["urgent", "important"] admits "This is an urgent message!" |
| Subscriptions.NormalMessageRejected | tests/test_enhanced_features.py:86-97 | the same filter rejects "This is a normal message" |
| Subscriptions.SelectedMembers | agentic_redpanda/core/subscription_manager.py:175-186 | a subscription is selected exactly when it is listed under the topic, active, not the sender's own and admitted by its filter; so a sender never receives its own message |
| Subscriptions.ChosenIsSelected | agentic_redpanda/core/subscription_manager.py:175-186 | flagging each subscription by eligibility and keeping the flagged ones gives the selected subscriptions in list order |
| Subscriptions.Deliver | agentic_redpanda/core/subscription_manager.py:175-186 | the delivery loop returns the subscriptions eligible before the call, in topic order, and each returned one has its message count raised by one and its last-message time set; the others are untouched |
| Subscriptions.SubscribeKeepsIndex | agentic_redpanda/core/subscription_manager.py:104-113 | appending a new subscription to both the topic index and the agent index keeps both well-formed and in agreement, and changes only the agent's pairing with that topic |
| Subscriptions.UnsubscribeKeepsIndex | agentic_redpanda/core/subscription_manager.py:131-154 | removing every subscription of an agent to a topic from both indices keeps them well-formed and in agreement, empties that pairing and leaves every other pairing as it was |
| Subscriptions.ActiveAtMostTotal | agentic_redpanda/core/subscription_manager.py:354-363 | summed over topics, the active subscriptions never outnumber all subscriptions |
| Subscriptions.StatsOf | agentic_redpanda/core/subscription_manager.py:348-373 | the totals are the sums of the per-topic counts, and the paused count is total minus active and never negative |
| Subscriptions.SubscriptionManager.constructor | agentic_redpanda/core/subscription_manager.py:70-74 | a new manager has empty indices and no handlers |
| Subscriptions.SubscriptionManager.Subscribe | agentic_redpanda/core/subscription_manager.py:76-119 | a fresh active subscription with no deliveries is appended under its topic and under its agent, the handler is stored under "agent:topic" when given, and only that agent's pairing with that topic grows |
| Subscriptions.SubscriptionManager.Unsubscribe | agentic_redpanda/core/subscription_manager.py:121-160 | the result is whether the topic had subscriptions; afterwards the agent has none to the topic, emptied lists are dropped, the handler key is gone and every other pairing is unchanged |
| Subscriptions.SubscriptionManager.RouteMessage | agentic_redpanda/core/subscription_manager.py:162-190 | routing returns the eligible subscriptions of the message's topic, in subscription order, and counts the delivery on each of them |
| Subscriptions.SubscriptionManager.FindFirst | agentic_redpanda/core/subscription_manager.py:322-328 | the search through the agent's subscriptions finds nothing exactly when the agent has no subscription to the topic, and otherwise the earliest one |
| Subscriptions.SubscriptionManager.Pause | agentic_redpanda/core/subscription_manager.py:312-328 | the result is whether the agent subscribes to the topic; the earliest such subscription becomes inactive and the agent's other subscriptions keep their state |
| Subscriptions.SubscriptionManager.Resume | agentic_redpanda/core/subscription_manager.py:330-346 | the result is whether the agent subscribes to the topic; the earliest such subscription becomes active and the agent's other subscriptions keep their state |
| Subscriptions.SubscriptionManager.UpdateFilter | agentic_redpanda/core/subscription_manager.py:288-310 | the result is whether the agent subscribes to the topic; the earliest such subscription takes the new filter and the others keep theirs |
| Subscriptions.SubscriptionManager.AgentSubscriptions | agentic_redpanda/core/subscription_manager.py:266-275 | every returned subscription is the agent's, and for every topic it lists the agent's subscriptions to that topic in order |
| Subscriptions.SubscriptionManager.TopicSubscribers | agentic_redpanda/core/subscription_manager.py:277-286 | the topic's whole subscription list, or empty when the topic has no entry; every element is to the topic, none is listed twice, and for every agent its subscriptions in the list are exactly those the agent index holds for the topic |
| Subscriptions.SubscriptionManager.Stats | agentic_redpanda/core/subscription_manager.py:348-373 | the totals are sums over the topic index, paused is total minus active and never negative, and the per-type counts cover every subscription type |
| Subscriptions.RouteToKeywordSubscriber | tests/test_enhanced_features.py:59-97 | with one keyword subscriber, a message reaches it exactly when the sender is someone else and the filter admits the message |
| Subscriptions.UrgentReachesSubscriber | tests/test_enhanced_features.py:59-84 | the urgent message reaches exactly one subscriber |
| Subscriptions.NormalMissesSubscriber | tests/test_enhanced_features.py:86-97 | the normal message reaches nobody |
| Router.ParseRuleType | agentic_redpanda/core/message_router.py:15-24 | a parsed rule type names back to the string it was parsed from; every other string fails |
| Router.RuleTypeNameRoundTrip | agentic_redpanda/core/message_router.py:15-24 | each rule type's string value parses back to that rule type |
| Router.RankOfName | agentic_redpanda/core/message_router.py:176-184 | the rank looked up for any string is between 0 and 3 |
| Router.RankOfPriorityName | agentic_redpanda/core/message_router.py:178-184 | the rank looked up for a priority's name is that priority's rank |
| Router.KeywordRule | agentic_redpanda/core/message_router.py:161-163 | a keyword rule matches exactly when one of its keywords occurs in the content, ignoring case |
| Router.PriorityRuleThreshold | agentic_redpanda/core/message_router.py:176-184 | a priority rule naming a priority admits exactly the messages of that priority or higher |
| Router.UnknownPriorityAdmitsAll | agentic_redpanda/core/message_router.py:176-184 | a priority rule whose condition names no priority admits every message, since both ranks default to 0 |
| Router.MistypedConditionNeverMatches | agentic_redpanda/core/message_router.py:160-203 | a condition of a shape the rule type cannot use (a dictionary for a keyword rule, a string for a metadata rule, a non-callable for a custom rule, ...) never matches, because the error is caught or the type test fails |
| Router.Matched | agentic_redpanda/core/message_router.py:122-131 | the matched rules are drawn from the rule list, and a rule is among them exactly when it is active and matches the message; at most as many as the rules |
| Router.RouteTargetsMembers | agentic_redpanda/core/message_router.py:121-131 | a topic is a target exactly when some active rule that matches the message lists it |
| Router.MatchedInPriorityOrder | agentic_redpanda/core/message_router.py:124-131 | when the rules are in priority order, the matched rules are too, and each comes from the rule list |
| Router.RuleIndex | agentic_redpanda/core/message_router.py:105-110 | the found position holds the first rule with the id; no position means no rule has it |
| Router.DeleteKeepsOrder | agentic_redpanda/core/message_router.py:105-109 | deleting one rule leaves the rest in priority order |
| Router.Apply | agentic_redpanda/core/message_router.py:241-244 | applying the keyword updates keeps the rule's id, and an empty update leaves the rule as it is |
| Router.EditKeepsIds | agentic_redpanda/core/message_router.py:241-249 | editing one rule, with or without the re-sort, leaves the set of rule ids as it was |
| Router.EditKeepsOrder | agentic_redpanda/core/message_router.py:241-249 | editing a rule without giving a priority keeps the list in priority order without re-sorting |
| Router.WithTarget | agentic_redpanda/core/message_router.py:293-294 | the filtered history is no longer than the history and every kept route has the topic |
| Router.WithTargetFromHistory | agentic_redpanda/core/message_router.py:293-294 | every route the topic filter keeps comes from the history |
| Router.WithTargetKeepsAll | agentic_redpanda/core/message_router.py:293-294 | every route of the history that has the topic is kept |
| Router.WithTargetOfAll | agentic_redpanda/core/message_router.py:293-294 | when every route has the topic, the filter returns the history unchanged |
| Router.FromRecord | agentic_redpanda/core/message_router.py:362-376 | a dictionary parses exactly when it has the four required keys and its rule_type names a rule type, and a missing priority reads as 0 and a missing active flag as true |
| Router.RecordRoundTrip | agentic_redpanda/core/message_router.py:338-372 | reading back the dictionary exported for a rule gives the rule |
| Router.ExportedAt | agentic_redpanda/core/message_router.py:338-350 | the export has one dictionary per rule, at the rule's position |
| Router.ParsedExport | agentic_redpanda/core/message_router.py:338-376 | parsing the export of a rule list gives back the rule list |
| Router.MessageRouter.constructor | agentic_redpanda/core/message_router.py:52-56 | a new router has no rules and no history |
| Router.MessageRouter.AddRule | agentic_redpanda/core/message_router.py:58-94 | the new rule is active, the rules are the stable descending sort of the old rules plus it, and it lands behind every rule of equal or higher priority and before every lower one |
| Router.MessageRouter.FindRule | agentic_redpanda/core/message_router.py:105-110 | the search loop finds the first rule with the id, or none |
| Router.MessageRouter.RemoveRule | agentic_redpanda/core/message_router.py:96-110 | the result is whether some rule had the id; only the first such rule is removed and the others keep their order |
| Router.MessageRouter.RouteMessage | agentic_redpanda/core/message_router.py:112-148 | the targets are those of the active matching rules, and the route is appended to the history, which keeps only the newest 1000 entries |
| Router.MessageRouter.GetRuleById | agentic_redpanda/core/message_router.py:213-225 | the result is the first rule with the id, and none exactly when no rule has it |
| Router.MessageRouter.UpdateRule | agentic_redpanda/core/message_router.py:227-253 | the result is whether some rule had the id; the first such rule takes the given fields, the list is re-sorted only when a priority was given, and the set of rule ids is unchanged |
| Router.MessageRouter.EnableRule | agentic_redpanda/core/message_router.py:255-264 | the first rule with the id becomes active in place; nothing else changes |
| Router.MessageRouter.DisableRule | agentic_redpanda/core/message_router.py:266-275 | the first rule with the id becomes inactive in place; nothing else changes |
| Router.MessageRouter.RouteHistory | agentic_redpanda/core/message_router.py:277-299 | drawn from the routes targeting the filtered topic (all routes for no or an empty filter): all of them for no or a zero limit, the newest min(limit, count) in history order for a positive limit, and all but the oldest -limit for a negative one |
| Router.MessageRouter.Stats | agentic_redpanda/core/message_router.py:301-325 | active plus inactive is the rule count, the per-type tally counts every rule, and the average is the target total over the route count, or 0 with no routes |
| Router.MessageRouter.ClearHistory | agentic_redpanda/core/message_router.py:327-330 | the history is empty afterwards and the rules are kept |
| Router.MessageRouter.ExportRules | agentic_redpanda/core/message_router.py:332-350 | the export is one dictionary per rule, in priority order |
| Router.MessageRouter.ImportRules | agentic_redpanda/core/message_router.py:352-382 | the count is the number of dictionaries that parse, and the rules are the stable descending sort of the old rules followed by the parsed ones |
| Router.CopyRules | agentic_redpanda/core/message_router.py:332-382 | exporting one router's rules and importing them into a new router reproduces the rules exactly |
| Router.UrgentNoteRouted | tests/test_enhanced_features.py:132-154 | the rule with keyword "urgent" sends "This is urgent!" to exactly the topic "urgent-topic" |
| Router.HelloNoteUnrouted | tests/test_enhanced_features.py:156-158 | the same rule sends the sample message nowhere |
| Router.UrgentIsRouted | tests/test_enhanced_features.py:132-154 | a router holding only that rule routes the urgent message to "urgent-topic" |
| Router.HelloIsNotRouted | tests/test_enhanced_features.py:156-158 | the same router routes the sample message nowhere |
| Conversation.GenerateTitleFacts | agentic_redpanda/core/conversation_manager.py:213-227 | a generated title has at most 50 characters; it is the stripped content exactly when that fits, and otherwise its first 47 characters followed by "..." |
| Conversation.ContextWindow | agentic_redpanda/core/conversation_manager.py:200-205 | appending to the newest `max` messages and cutting back to `max` gives the newest `max` messages of the longer list, never more than `max` |
| Conversation.AgentMapMeaning | agentic_redpanda/core/conversation_manager.py:59 | an agent's thread set holds exactly the threads it takes part in, and only participants have a set |
| Conversation.AgentMapAdd | agentic_redpanda/core/conversation_manager.py:101-104 | adding an agent to a thread adds the thread to that agent's set and to no other |
| Conversation.AppendLists | agentic_redpanda/core/conversation_manager.py:141-146 | appending lists the message last in its thread's list and records which thread holds it, whether or not the thread exists |
| Conversation.EmptyConsistent | agentic_redpanda/core/conversation_manager.py:46-66 | the empty manager satisfies the registry invariant |
| Conversation.CreateKeepsTopicIndex | agentic_redpanda/core/conversation_manager.py:96-99 | listing a new thread at the end of its topic's list keeps every listed id a thread of that topic, without repeats, and every thread listed |
| Conversation.CreateConsistent | agentic_redpanda/core/conversation_manager.py:68-121 | creating a thread under an unused id keeps the registry invariant: thread keys, topic index, agent index, message lists and contexts agree |
| Conversation.AppendConsistent | agentic_redpanda/core/conversation_manager.py:141-161 | recording a message, in an existing thread or not, keeps the registry invariant |
| Conversation.CloseConsistent | agentic_redpanda/core/conversation_manager.py:295-299 | closing a thread keeps the registry invariant |
| Conversation.ArchiveConsistent | agentic_redpanda/core/conversation_manager.py:310-316 | archiving stale threads keeps the registry invariant |
| Conversation.DropConsistent | agentic_redpanda/core/conversation_manager.py:411-415 | dropping the contexts of inactive threads keeps the invariant, and every context left belongs to an active thread |
| Conversation.PruneKeepsWindow | agentic_redpanda/core/conversation_manager.py:417-422 | cutting a long message list never changes its newest `max` messages, and a list longer than twice the window is cut to exactly `max` |
| Conversation.PruneConsistent | agentic_redpanda/core/conversation_manager.py:417-422 | pruning message lists keeps the registry invariant |
| Conversation.CleanupConsistent | agentic_redpanda/core/conversation_manager.py:396-424 | the whole cleanup (archive, drop contexts, prune) keeps the registry invariant |
| Conversation.FirstReusable | agentic_redpanda/core/conversation_manager.py:176-182 | the chosen position holds a reusable thread and no earlier listed thread is reusable; the list's length means none is |
| Conversation.FirstReusableIsFirst | agentic_redpanda/core/conversation_manager.py:176-182 | a reusable thread with no reusable thread before it is the one chosen |
| Conversation.AddMessageReuses | agentic_redpanda/core/conversation_manager.py:137-182 | a message without a thread id goes to the first reusable thread of its topic, which takes the sender in and lists the message last |
| Conversation.AddMessageOpens | agentic_redpanda/core/conversation_manager.py:137-186 | when no thread of the topic is reusable, a new thread opens with the message and then lists it a second time, counting one message |
| Conversation.StaleCount | agentic_redpanda/core/conversation_manager.py:313-316 | the number of stale listed threads is at most the number listed |
| Conversation.ArchiveEachPointwise | agentic_redpanda/core/conversation_manager.py:313-316 | archiving distinct threads one by one archives each listed thread once and leaves the others alone |
| Conversation.ArchiveEachAll | agentic_redpanda/core/conversation_manager.py:313-316 | archiving every thread one by one equals archiving all of them at once |
| Conversation.ArchiveIsIdempotent | agentic_redpanda/core/conversation_manager.py:313-316 | after archiving at a cutoff no thread is stale at that cutoff, so archiving again archives nothing |
| Conversation.ExistingAll | agentic_redpanda/core/conversation_manager.py:282-283 | when every listed id names a thread, the lookup skips nothing and keeps the list's order |
| Conversation.HitsExact | agentic_redpanda/core/conversation_manager.py:352-363 | a candidate is found exactly when its non-empty title or one of its messages contains the query, ignoring case |
| Conversation.HitsDistinct | agentic_redpanda/core/conversation_manager.py:352-363 | distinct candidates give distinct results |
| Conversation.MentionsQuery | agentic_redpanda/core/conversation_manager.py:359-363 | the inner loop reports whether some message of the thread contains the query |
| Conversation.SearchLoop | agentic_redpanda/core/conversation_manager.py:352-365 | the outer loop returns the matching candidates in candidate order |
| Conversation.ArchiveLoop | agentic_redpanda/core/conversation_manager.py:310-321 | the loop over the threads in insertion order archives them one by one and counts the stale ones |
| Conversation.DropLoop | agentic_redpanda/core/conversation_manager.py:412-415 | the loop keeps exactly the contexts of threads that are not inactive and counts the ones it removes |
| Conversation.PruneLoop | agentic_redpanda/core/conversation_manager.py:418-422 | the loop cuts every long list to its newest messages and adds up what it cut |
| Conversation.ConversationManager.constructor | agentic_redpanda/core/conversation_manager.py:46-66 | a new manager holds the window and timeout it was given and no threads |
| Conversation.ConversationManager.CreateThread | agentic_redpanda/core/conversation_manager.py:68-121 | the thread takes the given or generated title and its sender as only participant, and is filed under its topic, its sender, its one-message list and a fresh context; the invariant holds |
| Conversation.ConversationManager.UpdateContext | agentic_redpanda/core/conversation_manager.py:188-211 | a context that exists takes the message, cut to the window, and its sender; with no context nothing changes |
| Conversation.ConversationManager.FindOrCreate | agentic_redpanda/core/conversation_manager.py:166-186 | the result is the first reusable thread of the message's topic, or a new thread opened with the message |
| Conversation.ConversationManager.AddMessage | agentic_redpanda/core/conversation_manager.py:123-164 | the message goes to the given thread or the one found or created, is listed last there, and the invariant holds |
| Conversation.ConversationManager.GetContext | agentic_redpanda/core/conversation_manager.py:229-238 | a context exists exactly for threads that have one; it mirrors the thread's participants and holds the newest messages of the thread, at most the window |
| Conversation.ConversationManager.GetThreadMessages | agentic_redpanda/core/conversation_manager.py:240-259 | an unknown thread has no messages, no limit or a zero limit gives the whole list, a positive limit gives the newest messages, and a negative limit drops the oldest -limit messages (Python's `messages[-limit:]`) |
| Conversation.ConversationManager.GetAgentThreads | agentic_redpanda/core/conversation_manager.py:261-271 | the result holds exactly the stored threads in which the agent takes part |
| Conversation.ConversationManager.GetTopicThreads | agentic_redpanda/core/conversation_manager.py:273-283 | the result lists the topic's threads in creation order, each of that topic |
| Conversation.ConversationManager.CloseThread | agentic_redpanda/core/conversation_manager.py:285-302 | the result is whether the thread exists; only its active flag changes |
| Conversation.ConversationManager.ArchiveOldThreads | agentic_redpanda/core/conversation_manager.py:304-321 | every active thread idle since before now minus the timeout is deactivated, nothing else changes, and the count is the number of such threads |
| Conversation.ConversationManager.SearchThreads | agentic_redpanda/core/conversation_manager.py:323-365 | the candidates are the topic's threads, else the agent's, else all threads, and exactly the matching candidates are returned |
| Conversation.ConversationManager.Stats | agentic_redpanda/core/conversation_manager.py:367-394 | active plus archived is the total, the message total sums the lists, the per-topic counts add up to the total, and the participant count is the number of agents taking part |
| Conversation.ConversationManager.CleanupOldData | agentic_redpanda/core/conversation_manager.py:396-424 | the new state is archive, then drop inactive contexts, then prune; the three counts are what each step archived or removed |
| Conversation.CreateThreadScenario | tests/test_enhanced_features.py:275-285 | a titled thread keeps its topic and title, and the sender of its first message takes part |
| Conversation.ReplyScenario | tests/test_enhanced_features.py:287-310 | a reply sent to a new thread by its id is listed after the first message, is recorded as that thread's, and the thread counts one added message |
| Conversation.ContextScenario | tests/test_enhanced_features.py:312-324 | a new thread's context has the topic, holds the initial message only and includes its sender |
| Errors.ClassifyFirstMatch | agentic_redpanda/core/error_handler.py:125-150 | the class is the first in the order timeout, network, broker, LLM provider, validation, permission whose clause holds on the lowered class name or message, and unknown exactly when none holds |
| Errors.ConnectionFailedIsNetwork | tests/test_enhanced_features.py:232-237 | `ConnectionError("Connection failed")` is a network error |
| Errors.TimeoutClassIsTimeout | tests/test_enhanced_features.py:239-242 | any `TimeoutError`, whatever its message, is a timeout error |
| Errors.InvalidInputIsValidation | agentic_redpanda/core/error_handler.py:145-146 | `ValueError("Invalid input")` is a validation error |
| Errors.DefaultRetryable | agentic_redpanda/core/error_handler.py:35-48 | with the default configuration an error is retryable exactly when it is a network, timeout or broker error |
| Errors.InvalidInputNotRetried | tests/test_enhanced_features.py:251-254 | `ValueError("Invalid input")` is not retryable under the default configuration |
| Errors.JitterBounds | agentic_redpanda/core/error_handler.py:227-229 | the jitter on a non-negative delay lies between minus and plus 5% of it |
| Errors.DelayBounds | agentic_redpanda/core/error_handler.py:207-232 | immediate retries wait 0, fixed delays wait the base delay, and backoff delays never exceed the maximum, are at most 5% above the raw delay, and are either the cap or at least 95% of the raw delay |
| Errors.BackoffGrows | agentic_redpanda/core/error_handler.py:220-223 | with a non-negative base and a multiplier of at least one, the raw backoff delay never shrinks from one attempt to the next |
| Errors.DefaultDelays | agentic_redpanda/core/error_handler.py:39-43 | with the default configuration the raw delays of the first three attempts are 1, 2 and 4 seconds |
| Errors.CallsFrom | agentic_redpanda/core/error_handler.py:166-205 | from call `i` the loop makes calls up to the first success, never past `maxRetries`, and every call before the last failed |
| Errors.RetryOutcome | agentic_redpanda/core/error_handler.py:166-205 | at most `maxRetries` calls numbered from 1; all but the last failed; there is a result exactly when the last call succeeded, and without one all permitted calls were made; one sleep per call after the first |
| Errors.FirstCallSucceeds | agentic_redpanda/core/error_handler.py:184-190 | when the first call succeeds the loop makes one call, returns its value and does not sleep |
| Errors.RecordedBounded | agentic_redpanda/core/error_handler.py:234-244 | recording a context any number of times keeps the history at 1000 entries or fewer, with the context newest |
| Errors.OfKind | agentic_redpanda/core/error_handler.py:307-309 | the filtered contexts are exactly the history's contexts of the given type |
| Errors.Since | agentic_redpanda/core/error_handler.py:266-269 | the windowed contexts are exactly the history's contexts stamped at or after the cutoff |
| Errors.OfKindCounts | agentic_redpanda/core/error_handler.py:307-309 | the type filter keeps each context of the kind as many times as the history holds it, and no other |
| Errors.SinceCounts | agentic_redpanda/core/error_handler.py:266-269 | the window filter keeps each context at or after the cutoff as many times as the history holds it, and no other |
| Errors.NewestFirst | agentic_redpanda/core/error_handler.py:311-314 | the sorted cut is in descending timestamp order, a sub-multiset of the contexts, and of length min(limit, count) (Python slice semantics for a negative limit) |
| Errors.NewestKept | agentic_redpanda/core/error_handler.py:311-314 | no context the cut leaves out is newer than one it keeps |
| Errors.RetryLoop | agentic_redpanda/core/error_handler.py:166-205 | the loop's result, sleeps and attempt log are those `RetryOutcome` describes; every failure but the last permitted one re-records the context, and its message and retry count end as the last failure left them |
| Errors.Percentage | agentic_redpanda/core/error_handler.py:280 | a part of a whole as a percentage lies between 0 and 100 |
| Errors.ErrorContext.constructor | agentic_redpanda/core/error_handler.py:51-62 | a new context holds the given fields and a retry count of 0 |
| Errors.ErrorHandler.constructor | agentic_redpanda/core/error_handler.py:79-88 | the handler takes the given configuration or the default one, with empty histories |
| Errors.ErrorHandler.RecordError | agentic_redpanda/core/error_handler.py:234-244 | the context is appended and only the newest 1000 entries are kept |
| Errors.ErrorHandler.RetryOperation | agentic_redpanda/core/error_handler.py:152-205 | the retry log grows by the attempts made, the error history by the re-recorded context, and the context's message and count take their final values |
| Errors.ErrorHandler.HandleError | agentic_redpanda/core/error_handler.py:90-123 | a new context of the error's class is recorded; without a retryable class or a callable nothing else happens and there is no result; otherwise the retry loop runs on that context, and the context ends with the message of the last failure followed by another call and the number of the last failed call as its retry count |
| Errors.ErrorHandler.RecentErrors | agentic_redpanda/core/error_handler.py:291-314 | min(limit, count) contexts of the given type for a non-negative limit, newest first, drawn from them as a sub-multiset; no context left out is newer than one returned; with a large enough limit, all of them |
| Errors.ErrorHandler.Stats | agentic_redpanda/core/error_handler.py:252-289 | total_errors is the number of contexts in the window (all of them for no or a zero window), each type's count is the number of those contexts of that type, successful_retries counts the successful attempts, and the rate is their percentage of all attempts (0 without attempts); the reported window is absent ("all_time") exactly for no or a zero window |
| Errors.ErrorHandler.ClearHistory | agentic_redpanda/core/error_handler.py:316-320 | both histories are empty afterwards |
| Errors.ErrorHandler.UpdateRetryConfig | agentic_redpanda/core/error_handler.py:322-329 | the handler takes the new configuration |
| Errors.ErrorHandler.HandleMessageError | agentic_redpanda/core/error_handler.py:347-389 | a context naming the message, its topic, its sender and the operation is recorded, and the answer is whether the message may still be retried |
| Errors.ValidationErrorStillRetried | agentic_redpanda/core/error_handler.py:382-385 | a validation error on a message that may still be retried is answered with a retry, although the error class is not retryable |
| TopicValidation.DoubleHyphenIff | agentic_redpanda/core/topic_validator.py:106-107 | a name contains "--" exactly when some character and the next are both hyphens |
| TopicValidation.AllowedAnchored | agentic_redpanda/core/topic_validator.py:102 | a name of allowed characters has no final newline, so the anchored pattern has to cover all of it |
| TopicValidation.Replaced | agentic_redpanda/core/topic_validator.py:122 | lowering and replacing keeps the length, keeps every lowered allowed character and turns every other character into a hyphen |
| TopicValidation.Collapsed | agentic_redpanda/core/topic_validator.py:123 | collapsing hyphen runs never lengthens the name, keeps it within the allowed characters, leaves no double hyphen and keeps the last character |
| TopicValidation.CollapsedKeepsLetters | agentic_redpanda/core/topic_validator.py:123 | collapsing loses nothing but hyphens |
| TopicValidation.Clean | agentic_redpanda/core/topic_validator.py:122-124 | the cleaned name is no longer than the input and passes the character, double-hyphen and edge-hyphen rules |
| TopicValidation.CleanOfTidy | agentic_redpanda/core/topic_validator.py:122-124 | cleaning a name that already passes those rules leaves it unchanged |
| TopicValidation.IssuesFacts | agentic_redpanda/core/topic_validator.py:91-117 | each rule (length, reserved, characters, double hyphen, edge hyphen, type pattern) contributes its error exactly when the name breaks it |
| TopicValidation.IssuesEmpty | agentic_redpanda/core/topic_validator.py:91-117 | a name has no errors exactly when it has 3 to 50 characters, is not reserved ignoring case, matches the character pattern, has no double hyphen and no edge hyphen, and matches its type's pattern when a type is given |
| TopicValidation.ValidateName | agentic_redpanda/core/topic_validator.py:71-141 | a name is valid exactly when there are no errors; there are never warnings and at most one suggestion |
| TopicValidation.SuggestionFacts | agentic_redpanda/core/topic_validator.py:119-127 | a suggestion is offered exactly when the name is rejected and its cleaned form has at least 3 characters; it is "Consider using: " and the cleaned name, which passes the character and hyphen rules |
| TopicValidation.TidyPassesCharacterRules | agentic_redpanda/core/topic_validator.py:101-111 | a non-empty name of allowed characters without double or edge hyphens breaks none of those rules |
| TopicValidation.ValidateExamples | tests/test_enhanced_features.py:168-178 | "test-topic" is valid and "ab" is not |
| TopicValidation.NewlineKeepsValid | agentic_redpanda/core/topic_validator.py:102-117 | because `$` also matches before a final newline, a valid name followed by one newline is still valid when it fits |
| TopicValidation.Truncated | agentic_redpanda/core/topic_validator.py:341-343 | the cut name has at most 50 characters |
| TopicValidation.SuggestName | agentic_redpanda/core/topic_validator.py:310-345 | a suggested name has at most 50 characters |
| TopicValidation.LengthenedTidy | agentic_redpanda/core/topic_validator.py:329-331 | adding "-topic" to a short tidy name keeps it tidy and makes it at least 3 characters long |
| TopicValidation.WithTypePrefixTidy | agentic_redpanda/core/topic_validator.py:333-339 | a tidy name stays tidy with its type's prefix in front, and then starts with that prefix |
| TopicValidation.TruncatedTidy | agentic_redpanda/core/topic_validator.py:341-343 | cutting a tidy name leaves a tidy prefix of it that loses at most one character beyond the cut |
| TopicValidation.SuggestNameTidy | agentic_redpanda/core/topic_validator.py:310-345 | when the cleaned base is non-empty, the suggestion is tidy, has 3 to 50 characters and starts with its type's prefix |
| TopicValidation.SuggestionValid | agentic_redpanda/core/topic_validator.py:310-345 | for every type but random, the suggestion's only possible error against that type is being reserved |
| TopicValidation.PrefixedMatchesPattern | agentic_redpanda/core/topic_validator.py:61-66 | a tidy name that starts with its type's prefix and has more after it matches the type's pattern |
| TopicValidation.SuggestNameOfNothing | agentic_redpanda/core/topic_validator.py:324-331 | a base with nothing to keep yields "-topic", which the validator rejects for its leading hyphen |
| TopicValidation.SufficientIsOrder | agentic_redpanda/core/topic_validator.py:258-279 | sufficiency is a total order with read at the bottom and owner at the top |
| TopicValidation.AgentIndex | agentic_redpanda/core/topic_validator.py:178-179 | the found position holds the agent's first record; none means the agent has no record |
| TopicValidation.Revoked | agentic_redpanda/core/topic_validator.py:218-224 | revoking keeps exactly the records of other agents, and the length shrinks exactly when the agent had a record |
| TopicValidation.RevokedUnique | agentic_redpanda/core/topic_validator.py:218-222 | revoking keeps at most one record per agent |
| TopicValidation.RevokedKeepsAll | agentic_redpanda/core/topic_validator.py:218-228 | revoking an agent without records changes nothing |
| TopicValidation.GrantUpserts | agentic_redpanda/core/topic_validator.py:174-196 | after a grant the agent has exactly one record, with the new level and grantor; other agents' records and positions are unchanged; the list grows only for a new agent |
| TopicValidation.GrantIdempotent | agentic_redpanda/core/topic_validator.py:174-196 | granting the same level twice is the same as granting it once |
| TopicValidation.AgentIndexFirst | agentic_redpanda/core/topic_validator.py:178-179 | the agent's first matching position is the one the lookup finds |
| TopicValidation.CheckAfterGrantAndRevoke | agentic_redpanda/core/topic_validator.py:174-256 | after a grant the check answers whether the granted level suffices; after a revoke it answers no |
| TopicValidation.AsCreationIssues | agentic_redpanda/core/topic_validator.py:369-370 | each name error becomes one creation error wrapping it, in the same order |
| TopicValidation.TopicValidator.constructor | agentic_redpanda/core/topic_validator.py:55-69 | a new validator has no permissions |
| TopicValidation.TopicValidator.FindAgent | agentic_redpanda/core/topic_validator.py:178-179 | the search loop finds the agent's first record |
| TopicValidation.TopicValidator.GrantPermission | agentic_redpanda/core/topic_validator.py:156-196 | a grant always succeeds, keeps one record per agent and updates only the topic's list, as `Granted` |
| TopicValidation.TopicValidator.RevokePermission | agentic_redpanda/core/topic_validator.py:198-228 | the result is whether the topic is known and the agent had a record on it; the topic's list loses the agent's records and nothing else changes |
| TopicValidation.TopicValidator.CheckPermission | agentic_redpanda/core/topic_validator.py:230-256 | the answer is no for an unknown topic or agent, and otherwise whether the agent's first record's level suffices |
| TopicValidation.TopicValidator.ValidateCreation | agentic_redpanda/core/topic_validator.py:347-380 | creation is allowed exactly when there are no errors, which is when the name passes for its type, the topic has no permission list, and a private topic has the private type |
| TopicValidation.PermissionScenario | agentic_redpanda/core/topic_validator.py:156-256 | granting read passes a read check, revoking succeeds, and the read check then fails |
| Topics.CreateKeepsConsistent | agentic_redpanda/core/topic_manager.py:44-52 | a newly filed topic with an empty subscriber list keeps the two subscription indexes in agreement |
| Topics.SubscribeKeepsConsistent | agentic_redpanda/core/topic_manager.py:115-119 | adding the topic to the agent's set and the agent to the topic's list keeps the indexes in agreement and the lists free of duplicates |
| Topics.UnsubscribeKeepsConsistent | agentic_redpanda/core/topic_manager.py:137-139 | a topic in an agent's set is registered, and removing the pair from both indexes keeps them in agreement |
| Topics.Discarded | agentic_redpanda/core/topic_manager.py:230-231 | every agent keeps its entry, and each agent's set loses the deleted name and nothing else |
| Topics.DeleteKeepsConsistent | agentic_redpanda/core/topic_manager.py:229-234 | dropping a topic's list and discarding it from every agent's set keeps the indexes in agreement |
| Topics.InNames | agentic_redpanda/core/topic_manager.py:87-89 | the agent filter keeps exactly the topics whose names are in the agent's set, never adding any |
| Topics.WithAnyTag | agentic_redpanda/core/topic_manager.py:92-93 | the tag filter keeps exactly the topics carrying at least one of the requested tags |
| Topics.PublicOnly | agentic_redpanda/core/topic_manager.py:96-97 | the privacy filter keeps exactly the public topics |
| Topics.Matching | agentic_redpanda/core/topic_manager.py:175-181 | the search keeps exactly the topics whose lower-cased name, or non-empty lower-cased description, contains the lower-cased query |
| Topics.CountPrivate | agentic_redpanda/core/topic_manager.py:246 | the number of private topics never exceeds the number of topics |
| Topics.PublicCount | agentic_redpanda/core/topic_manager.py:245-247 | the public count, total minus private, is the number of topics the privacy filter keeps |
| Topics.ListsOfRemove | agentic_redpanda/core/topic_manager.py:234 | deleting a record removes exactly that name's subscriber list |
| Topics.TopicManager.constructor | agentic_redpanda/core/topic_manager.py:15-18 | a new manager has no topics and no agent subscriptions, and its indexes agree |
| Topics.TopicManager.CreateTopic | agentic_redpanda/core/topic_manager.py:20-55 | an existing name returns the stored record and changes nothing; a new name files a fresh record with the given fields and no subscribers, at the end of the creation order |
| Topics.TopicManager.GetTopic | agentic_redpanda/core/topic_manager.py:57-66 | a record comes back exactly when the name is registered, and it is the record filed under that name |
| Topics.TopicManager.Subscribe | agentic_redpanda/core/topic_manager.py:101-122 | false and no change for an unknown topic; otherwise the agent's set gains the topic, the topic's list gains the agent once, and the indexes stay in agreement |
| Topics.TopicManager.Unsubscribe | agentic_redpanda/core/topic_manager.py:124-143 | succeeds exactly when the agent's set holds the topic; then both indexes lose the pair and nothing else changes |
| Topics.TopicManager.AgentTopics | agentic_redpanda/core/topic_manager.py:145-158 | the agent's topics are registered records, and an unknown agent has none |
| Topics.TopicManager.AgentTopicsAreSubscribed | agentic_redpanda/core/topic_manager.py:154-158 | a registered topic is among the agent's topics exactly when the agent is on its subscriber list |
| Topics.TopicManager.ListTopics | agentic_redpanda/core/topic_manager.py:68-99 | every listed topic is registered and passes the agent, tag and privacy filters, and every registered topic that passes them is listed |
| Topics.TopicManager.SearchTopics | agentic_redpanda/core/topic_manager.py:160-183 | the results are exactly the public topics listed for the agent that match the query |
| Topics.TopicManager.EnsureTopicExists | agentic_redpanda/core/topic_manager.py:185-208 | an existing topic is returned unchanged; otherwise a public, untagged topic is created whose description names its creator |
| Topics.TopicManager.DiscardEverywhere | agentic_redpanda/core/topic_manager.py:230-231 | the loop over agents leaves each agent's set without the deleted name and otherwise as it was |
| Topics.TopicManager.DeleteTopic | agentic_redpanda/core/topic_manager.py:210-237 | succeeds exactly when the topic is registered and the deleter created it or it is private; then the record, its list and every agent's hold on it are gone and the indexes still agree; otherwise nothing changes |
| Topics.TopicManager.DropTopic | agentic_redpanda/core/topic_manager.py:229-234 | the stores of a deletion: the record leaves the registry and its name leaves every agent's set |
| Topics.TopicManager.Stats | agentic_redpanda/core/topic_manager.py:239-256 | total topics is the registry's size, public plus private equals the total, public counts the topics the privacy filter keeps, and the average is zero for an empty registry |
| Topics.RegistryScenario | agentic_redpanda/core/topic_manager.py:101-143 | subscribing an agent twice lists it once, and unsubscribing it leaves only the other subscriber and removes the topic from its set |

## Left out

- Kafka I/O, the message broker, the agents, the language-model providers, the CLI and configuration loading are not part of this model.
- Logging is left out everywhere. Where the only effect of a branch is a log line (`close_thread`'s `closed_by`, a refused delete), the model keeps the branch and drops the line.
- Concurrency and `asyncio` are left out. Every operation runs to completion, one at a time.
- The clock, `asyncio.sleep` and the event-loop time used for jitter are parameters. The model records each requested sleep and does not perform it.
- Floating-point arithmetic is modelled with Dafny's exact `real`s.
- Python's `str.lower()` is modelled as ASCII-only lower-casing. Non-ASCII letters keep their case.
- Regular-expression search is a caller-supplied function on pattern and text. The `re.IGNORECASE` flag is therefore not modelled separately.
- Metadata values are modelled as strings. Python compares arbitrary JSON-like values.
- Random thread ids from `uuid4()` are supplied by the caller, and a new thread's id must be unused. Message ids are plain values of the message.
- `handle_error` also returns the `ErrorContext` it records, and the retry loop returns the delays it would sleep, so that contracts can name them. The source returns only the operation's result.
- The order of an agent's threads in `get_agent_threads` is not modelled: the agent index is a set of thread ids.
- `route_message` returns the target topics as a set, and `MessageRoute.target_topics` holds that set. The source returns `list(target_topics)`, whose order is the set's iteration order. That order is not modelled.
- `get_agent_topics` returns a set of records. The source returns a list in the set's iteration order.
- Permission records are values. `grant_permission` updates a `TopicPermission` object in place, and a caller holding a list from `get_topic_permissions` would see that update. Such aliasing is not modelled.
- `update_rule` raises `TypeError` when `rule_id` is passed again as a keyword update, because `rule_id` is its own parameter. The model's `RuleUpdate` has no `rule_id` field, so that call cannot be written and its exception is not modelled; an update never changes a rule's id.
- Routing rules are values. `add_routing_rule` and `get_rule_by_id` hand the caller the rule object that stays in the router's list. `update_rule`, `enable_rule` and `disable_rule` later change that object in place, so a caller holding it sees the change; the model returns a copy of the rule. Such aliasing is not modelled.
- Conversation contexts are values. `get_conversation_context` returns the live `ConversationContext`, and `_update_conversation_context` later changes its message window, participants and activity time in place, so a caller holding it sees those updates; the model returns a copy. Such aliasing is not modelled.
- `get_agent_subscriptions` and `get_topic_subscribers` return the manager's own lists, not copies. A caller that appends to or removes from such a list changes the index itself. The model returns the list as a sequence value, so only the `TopicSubscription` objects in it are shared. Aliasing of the lists themselves is not modelled.
- `get_routing_rules` (a copy of the rule list), `get_topic_permissions`, `get_agent_permissions` and `get_validation_stats` are plain accessors over state the model already exposes. They are left out.
- Conversation.ConversationManager.ArchiveOldThreads: states its new state as `ArchiveAll` of the old one and promises only that the thread table stays well formed. That the manager's indexes stay consistent is proved about `ArchiveAll` separately (`Conversation.ArchiveConsistent`).
- Conversation.ConversationManager.CleanupOldData: states its new state as archive, drop, then prune of the old one and promises only that the thread table stays well formed. That the manager's indexes stay consistent is proved about that composition separately (`Conversation.CleanupConsistent`).
- The check in `tests/test_enhanced_features.py:183` for the phrase "invalid characters" is not encoded, because the validator never produces that phrase.
