# noljanolja conversation core, in Dafny

A model of the conversation core of the noljanolja app, with proofs of what it
does:

- `LocalCache` (`database.dfy`) is the process-wide `Database` cache: a
  cached token and a list of conversations. It supports lookup by id, the
  single-conversation search, upsert-or-append, message upsert and clear.
  Conversations are merged with `combineConversation`: title fallback,
  participants deduplicated by id, messages deduplicated by id and sorted
  newest first, the later `updatedAt`.
- `Repository` (`repository.dfy`) is `ConversationRepositoryImpl`. It covers
  the optimistic send of a message (SENDING, then SENT or FAILED), the paged
  fetch, the storing of a conversation from the server, and the two read
  projections the screens collect: one conversation and the conversation
  list, sorted by latest message. The API, the current user and the local
  stores are collaborators whose code is not shown. API answers are
  function parameters, what the repository does is an ordered log of
  requests and writes, and the projections read a snapshot of the stores.
- `Messages` (`message.dfy`) holds users, messages, attachments and
  conversations. It has the two message enums, the defaults of a new
  message, and the attachment URL and photo URI. The enums are modelled
  with their serialised names, because messages cross the API serialised by
  kotlinx.serialization, which writes each status and type by name.
- `Gifts` (`gift.dfy`) holds `Gift.giftId()`. `PhoneMask` (`settings.dfy`)
  holds the settings screen's `hidePhoneNumber`. `Navigation`
  (`navigation.dfy`) holds the navigation commands' registered routes and
  concrete routes.
- `Strings` and `Lists` hold the Kotlin library behaviour the core relies
  on: `isBlank`, `Long.toString`, `find`, `filter`, `take`,
  `distinctBy` (first occurrence kept) and the stable `sortedByDescending`
  with a nullable key (`null` last).

`seenUsers` and `isSeenByMe` are properties in the body of `Message`, not
constructor fields. They are therefore not part of `Message` here but of the
`SeenMessage` wrapper the views return. This way they take no part in
message equality, and a copy never carries them.

Three behaviours of the code are modelled as written:

- **Dedup key.** The `Database` merge (Database.kt:77-90) deduplicates
  messages by `id` only, never by `localId`. So in that cache:
  - a confirmed copy of a message sits beside its optimistic copy
    (`LocalCache.ConfirmedCopyKeepsOptimistic`);
  - two unsent id-0 messages collapse into one
    (`LocalCache.OptimisticMessagesCollapse`).

  The repository writes to `LocalConversationDataSource` instead. Its merge
  rule is not part of this model, so these consequences are proved for the
  `Database` cache only.
- **Conversation type.** The single-chat lookup
  `findSingleConversationWithUser` never checks the conversation type
  (`LocalCache.FindSingleReturnsGroups`).
- **Failed sends.** A failed send propagates the exception:
  - When the send request throws, the SENDING copy stays the only write and
    nothing marks it FAILED (`Repository.SendThrowLeavesSending`).
  - With no current user, `getOrNull()!!` (ConversationRepositoryImpl.kt:70)
    throws before the first write, so no SENDING copy is ever written
    (`Repository.SendTouchesOnlyItsMessage`).

## Model

| member | source | states |
|---|---|---|
| Strings.IsWhitespace | core/src/commonMain/kotlin/com/noljanolja/core/shop/domain/model/Gift.kt:20 | the characters `isBlank` treats as whitespace (the JVM's `Character.isWhitespace` set) |
| Strings.IsBlank | core/src/commonMain/kotlin/com/noljanolja/core/shop/domain/model/Gift.kt:20 | `isBlank`: every character is whitespace, so the empty string is blank (`isNotBlank` is its negation) |
| Strings.NatToDecimal | core/src/commonMain/kotlin/com/noljanolja/core/conversation/domain/model/Message.kt:43 | the decimal digits of a natural number: at least one, all digits, no leading zero |
| Strings.DecimalRoundTrip | core/src/commonMain/kotlin/com/noljanolja/core/conversation/domain/model/Message.kt:43 | reading the printed digits back gives the number |
| Strings.LongToString | core/src/commonMain/kotlin/com/noljanolja/core/conversation/domain/model/Message.kt:43 | a `Long` printed in a string template: non-empty, digits and `-` only, starting with `-` exactly when negative |
| Strings.LongToStringInjective | core/src/commonMain/kotlin/com/noljanolja/core/conversation/domain/model/Message.kt:43 | two `Long`s print the same only when they are equal |
| Lists.FirstIndex | core/src/commonMain/kotlin/com/noljanolja/core/utils/Database.kt:13 | `find`: the index of the first element satisfying the predicate, none before it satisfies it, and `None` only when no element does |
| Lists.Find | core/src/commonMain/kotlin/com/noljanolja/core/utils/Database.kt:25-26 | `find`: a value exactly when some element satisfies the predicate, and then the first such element |
| Lists.Take | core/src/commonMain/kotlin/com/noljanolja/core/conversation/data/repository/ConversationRepositoryImpl.kt:221-224 | a query `limit`: the first `min(n, size)` elements, a prefix of the input |
| Lists.Filter | core/src/commonMain/kotlin/com/noljanolja/core/conversation/data/repository/ConversationRepositoryImpl.kt:206 | `filter`: every element kept satisfies the predicate and comes from the input, and every input element that satisfies it is kept |
| Lists.FilterAppend | core/src/commonMain/kotlin/com/noljanolja/core/conversation/data/repository/ConversationRepositoryImpl.kt:206 | filtering a concatenation filters each part, in order: `filter` keeps the order and multiplicity of what it keeps |
| Lists.FilterSingleton | core/src/commonMain/kotlin/com/noljanolja/core/conversation/data/repository/ConversationRepositoryImpl.kt:206 | one element is kept exactly when it satisfies the predicate |
| Lists.DistinctBy | core/src/commonMain/kotlin/com/noljanolja/core/utils/Database.kt:83 | `distinctBy`: unique by key, the same set of keys as the input, only input elements, never longer |
| Lists.DistinctByKeepsFirst | core/src/commonMain/kotlin/com/noljanolja/core/utils/Database.kt:83 | `distinctBy` keeps the first element of each key |
| Lists.DistinctByOnlyFirst | core/src/commonMain/kotlin/com/noljanolja/core/utils/Database.kt:83 | `distinctBy` keeps nothing but first elements of their keys |
| Lists.DistinctByPrefix | core/src/commonMain/kotlin/com/noljanolja/core/utils/Database.kt:83 | deduplicating a prefix gives a prefix of deduplicating the whole list |
| Lists.DistinctByUnique | core/src/commonMain/kotlin/com/noljanolja/core/utils/Database.kt:83 | a list already unique by key is left as it is |
| Lists.DistinctByIgnoresKnownKeys | core/src/commonMain/kotlin/com/noljanolja/core/utils/Database.kt:83 | appended elements whose keys are already present are dropped |
| Lists.DistinctByAbsorbs | core/src/commonMain/kotlin/com/noljanolja/core/utils/Database.kt:83 | a unique list followed by elements of known keys deduplicates to the unique list |
| Lists.SortedByDescending | core/src/commonMain/kotlin/com/noljanolja/core/utils/Database.kt:86 | `sortedByDescending` with a nullable key: a permutation of its input |
| Lists.SortIsSorted | core/src/commonMain/kotlin/com/noljanolja/core/utils/Database.kt:86 | the sorted list runs from the greatest key to the least, `null` keys last |
| Lists.SortIsStable | core/src/commonMain/kotlin/com/noljanolja/core/utils/Database.kt:86 | elements with equal keys keep their relative order (the sort is stable) |
| Lists.SortSorted | core/src/commonMain/kotlin/com/noljanolja/core/utils/Database.kt:86 | a list already in descending order is left as it is |
| Lists.SortKeepsUnique | core/src/commonMain/kotlin/com/noljanolja/core/utils/Database.kt:86 | sorting keeps a list unique by key |
| Messages.NewMessage | core/src/commonMain/kotlin/com/noljanolja/core/conversation/domain/model/Message.kt:13-24 | `Message(message = text)`: id 0, SENDING, UNDEFINED type, no sticker, attachments or readers, a default sender; the random local id and clock readings are inputs |
| Messages.ParseStatus | core/src/commonMain/kotlin/com/noljanolja/core/conversation/domain/model/Message.kt:73-78 | a status read from its serialised name is the status of that name |
| Messages.ParseType | core/src/commonMain/kotlin/com/noljanolja/core/conversation/domain/model/Message.kt:81-88 | a type read from its serialised name is the type of that name |
| Messages.EnumsAreClosed | core/src/commonMain/kotlin/com/noljanolja/core/conversation/domain/model/Message.kt:73-88 | exactly four statuses and six types, each listed once, each read back from its serialised name |
| Messages.AttachmentUrlInjective | core/src/commonMain/kotlin/com/noljanolja/core/conversation/domain/model/Message.kt:42-43 | under one base URL the attachment URL determines the conversation id and the attachment id |
| Messages.AttachmentUrl | core/src/commonMain/kotlin/com/noljanolja/core/conversation/domain/model/Message.kt:42-43 | `getAttachmentUrl`: `<base>/conversations/<conversation id>/attachments/<attachment id>`, which names both ids (`AttachmentUrlInjective`) |
| Messages.PhotoUri | core/src/commonMain/kotlin/com/noljanolja/core/conversation/domain/model/Message.kt:45-48 | the local path when it is not blank, else the attachment URL; never blank |
| LocalCache.MergedParticipants | core/src/commonMain/kotlin/com/noljanolja/core/utils/Database.kt:83 | merged participants are unique by id and hold exactly the ids of both lists |
| LocalCache.MergedMessages | core/src/commonMain/kotlin/com/noljanolja/core/utils/Database.kt:84-86 | merged messages are unique by id, newest first, hold exactly the ids of both lists, and are a permutation of the deduplicated concatenation |
| LocalCache.Combine | core/src/commonMain/kotlin/com/noljanolja/core/utils/Database.kt:77-90 | id, type, creator and createdAt from the cached conversation; its title unless blank, else the incoming one; updatedAt the larger of the two; participants and messages merged |
| LocalCache.CombineKeepsExistingParticipants | core/src/commonMain/kotlin/com/noljanolja/core/utils/Database.kt:83 | cached participants (unique by id) survive the merge as a prefix, in order |
| LocalCache.CombineMessagesAreFirstById | core/src/commonMain/kotlin/com/noljanolja/core/utils/Database.kt:84-85 | a merged message is exactly a first occurrence of its id in cached ++ incoming |
| LocalCache.CombineCachedIdWins | core/src/commonMain/kotlin/com/noljanolja/core/utils/Database.kt:84-85 | an incoming message whose id is cached never enters the merge: the kept one is the cached copy |
| LocalCache.CombineKeepsCachedMessages | core/src/commonMain/kotlin/com/noljanolja/core/utils/Database.kt:84-85 | every cached message survives the merge when the cached ones are unique by id |
| LocalCache.CombineSortIsStable | core/src/commonMain/kotlin/com/noljanolja/core/utils/Database.kt:86 | messages sharing a creation instant keep their deduplicated order |
| LocalCache.CombineSelf | core/src/commonMain/kotlin/com/noljanolja/core/utils/Database.kt:77-90 | a normalised conversation merged with itself is unchanged |
| LocalCache.CombineAbsorbsRepeat | core/src/commonMain/kotlin/com/noljanolja/core/utils/Database.kt:77-90 | merging the same incoming conversation twice equals merging it once |
| LocalCache.OptimisticMessagesCollapse | core/src/commonMain/kotlin/com/noljanolja/core/utils/Database.kt:84-85 | a second id-0 message with another local id is lost in the merge |
| LocalCache.ConfirmedCopyKeepsOptimistic | core/src/commonMain/kotlin/com/noljanolja/core/utils/Database.kt:84-85 | the server copy of a message (new id, same local id) is added beside its optimistic copy, not in its place |
| LocalCache.CombineExample | core/src/commonMain/kotlin/com/noljanolja/core/utils/Database.kt:77-90 | a blank-titled cached conversation takes the incoming title, the participants `[a, b] + [b, c]` merge to `[a, b, c]`, updatedAt becomes the larger |
| LocalCache.IndexOfConversation | core/src/commonMain/kotlin/com/noljanolja/core/utils/Database.kt:13 | the index of the first conversation with the id; `None` exactly when the id is not cached |
| LocalCache.ConversationWithId | core/src/commonMain/kotlin/com/noljanolja/core/utils/Database.kt:12-14 | `find`: the FIRST cached conversation with the id, present exactly when the id is cached |
| LocalCache.ReplaceMatching | core/src/commonMain/kotlin/com/noljanolja/core/utils/Database.kt:47-56 | same length; each entry with the incoming id is merged with it, every other entry unchanged |
| LocalCache.Upsert | core/src/commonMain/kotlin/com/noljanolja/core/utils/Database.kt:44-64 | `updateLocalConversation`: merge into the entries with the id, or append when there is none (`UpsertAbsentAppends`, `UpsertPresentReplaces`, `UpsertKeepsIdsUnique`) |
| LocalCache.UpsertAbsentAppends | core/src/commonMain/kotlin/com/noljanolja/core/utils/Database.kt:44-63 | an absent id is appended at the end and every existing entry keeps its value and position |
| LocalCache.UpsertPresentReplaces | core/src/commonMain/kotlin/com/noljanolja/core/utils/Database.kt:47-56 | a present id is merged in place: same length, every other entry unchanged |
| LocalCache.UpsertKeepsIdsUnique | core/src/commonMain/kotlin/com/noljanolja/core/utils/Database.kt:44-63 | after an upsert the ids stay unique and are the old ids plus the upserted one |
| LocalCache.UpsertMessagesAbsentIsNoop | core/src/commonMain/kotlin/com/noljanolja/core/utils/Database.kt:34-41 | upserting messages for an uncached id changes nothing |
| LocalCache.UpsertMessages | core/src/commonMain/kotlin/com/noljanolja/core/utils/Database.kt:30-42 | `upsertConversationMessages`: merge a copy carrying the messages into the first entry with the id, nothing when absent (`UpsertMessagesAbsentIsNoop`, `UpsertMessagesMerges`) |
| LocalCache.UpsertMessagesAt | core/src/commonMain/kotlin/com/noljanolja/core/utils/Database.kt:34-41 | upserting messages for a cached id merges a copy carrying those messages into that entry |
| LocalCache.CombineWithOwnCopy | core/src/commonMain/kotlin/com/noljanolja/core/utils/Database.kt:35-40 | merging a conversation with its own copy carrying other messages keeps title, participants and updatedAt, unites the message ids and keeps the cached messages |
| LocalCache.UpsertMessagesMerges | core/src/commonMain/kotlin/com/noljanolja/core/utils/Database.kt:30-42 | upserting messages touches only that entry, keeps every cached message id (and message, when unique) and adds the new ones: a merge, not a replacement |
| LocalCache.FindSingleWithUser | core/src/commonMain/kotlin/com/noljanolja/core/utils/Database.kt:24-27 | the first conversation with a non-me participant of that id; else the first whose participants all have that id; else none |
| LocalCache.FindSingleReturnsGroups | core/src/commonMain/kotlin/com/noljanolja/core/utils/Database.kt:24-27 | the lookup does not check the type: a GROUP conversation with the user is returned |
| LocalCache.FindSingleMatchesEmptyConversation | core/src/commonMain/kotlin/com/noljanolja/core/utils/Database.kt:26 | a conversation with no participants matches any user in the fallback |
| LocalCache.FindSinglePrefersFirst | core/src/commonMain/kotlin/com/noljanolja/core/utils/Database.kt:25 | a SINGLE conversation with the user listed before a GROUP one with the user is returned |
| LocalCache.Database.constructor | core/src/commonMain/kotlin/com/noljanolja/core/utils/Database.kt:8-9 | no token, no cached conversation |
| LocalCache.Database.GetLocalConversation | core/src/commonMain/kotlin/com/noljanolja/core/utils/Database.kt:11-15 | one snapshot: the first cached conversation with the id (the lookup `ConversationWithId`), present exactly when the id is cached |
| LocalCache.Database.FindSingleConversationWithUser | core/src/commonMain/kotlin/com/noljanolja/core/utils/Database.kt:21-28 | the lookup over the current cache |
| LocalCache.Database.UpdateLocalConversation | core/src/commonMain/kotlin/com/noljanolja/core/utils/Database.kt:44-64 | the loop rebuilds the list as the upsert of the conversation, keeps ids unique and leaves the token alone |
| LocalCache.Database.UpsertConversationMessages | core/src/commonMain/kotlin/com/noljanolja/core/utils/Database.kt:30-42 | the cache becomes the message upsert of the old cache; ids stay unique; the token is unchanged |
| LocalCache.Database.GetToken | core/src/commonMain/kotlin/com/noljanolja/core/utils/Database.kt:66 | returns the cached token |
| LocalCache.Database.SaveToken | core/src/commonMain/kotlin/com/noljanolja/core/utils/Database.kt:67-69 | the token becomes the given one; the conversations are unchanged |
| LocalCache.Database.Clear | core/src/commonMain/kotlin/com/noljanolja/core/utils/Database.kt:71-74 | no token and no cached conversation |
| Repository.SendCreatesConversationForIdZero | core/src/commonMain/kotlin/com/noljanolja/core/conversation/data/repository/ConversationRepositoryImpl.kt:65-110 | exactly for id 0 the first step is the request for an untitled SINGLE conversation with the user; when its answer names none the call returns 0 and writes nothing |
| Repository.SendWritesSendingCopyFirst | core/src/commonMain/kotlin/com/noljanolja/core/conversation/data/repository/ConversationRepositoryImpl.kt:69-83 | once the target is known, the first write is the message as the current user's SENDING copy, every other field as given, and the send request carries that copy |
| Repository.SendSettlesOnAnswer | core/src/commonMain/kotlin/com/noljanolja/core/conversation/data/repository/ConversationRepositoryImpl.kt:84-98 | an answer leads to a last write of the server message under the local id and SENT on success with a payload, else the sending copy FAILED; the target id is returned; the trace has exactly three events, four when the conversation is first created |
| Repository.SendThrowLeavesSending | core/src/commonMain/kotlin/com/noljanolja/core/conversation/data/repository/ConversationRepositoryImpl.kt:78-83 | an exception from the send request propagates and the SENDING copy stays the only write |
| Repository.SendTouchesOnlyItsMessage | core/src/commonMain/kotlin/com/noljanolja/core/conversation/data/repository/ConversationRepositoryImpl.kt:60-101 | every write is one message with the caller's local id into a non-zero conversation; a result of 0 or a missing current user writes nothing |
| Repository.SendSteps | core/src/commonMain/kotlin/com/noljanolja/core/conversation/data/repository/ConversationRepositoryImpl.kt:68-98 | the steps once the target is known: nothing and an exception without a current user; else the SENDING write, the request, and the settle write unless the request throws |
| Repository.Send | core/src/commonMain/kotlin/com/noljanolja/core/conversation/data/repository/ConversationRepositoryImpl.kt:60-101 | `sendConversationMessage`: the create request when the id is 0, 0 when no conversation results, else the send steps (the five `Send*` lemmas) |
| Repository.MarkSent | core/src/commonMain/kotlin/com/noljanolja/core/conversation/data/repository/ConversationRepositoryImpl.kt:142 | every message SENT, nothing else changed |
| Repository.FetchMessages | core/src/commonMain/kotlin/com/noljanolja/core/conversation/data/repository/ConversationRepositoryImpl.kt:131-154 | `getConversationMessages`: the request; on success the page marked SENT is stored and returned; otherwise the empty list (`FetchMessagesStoresWhatItReturns`) |
| Repository.FetchMessagesStoresWhatItReturns | core/src/commonMain/kotlin/com/noljanolja/core/conversation/data/repository/ConversationRepositoryImpl.kt:131-154 | never throws; stores exactly what it returns, all SENT, field for field the server page, exactly on success; otherwise the empty list |
| Repository.StoredMessages | core/src/commonMain/kotlin/com/noljanolja/core/conversation/data/repository/ConversationRepositoryImpl.kt:203-209 | the stored messages are all SENT, and none of mine unless `saveMyMessage` |
| Repository.StoredMessagesAreTheFilteredOnes | core/src/commonMain/kotlin/com/noljanolja/core/conversation/data/repository/ConversationRepositoryImpl.kt:206-207 | the stored messages are exactly the SENT copies of the messages passing the filter |
| Repository.SendersOf | core/src/commonMain/kotlin/com/noljanolja/core/conversation/data/repository/ConversationRepositoryImpl.kt:211 | the sender of each message, in order |
| Repository.Senders | core/src/commonMain/kotlin/com/noljanolja/core/conversation/data/repository/ConversationRepositoryImpl.kt:211 | one user per sender id, every sender id present, each a sender of some message |
| Repository.UserWrites | core/src/commonMain/kotlin/com/noljanolja/core/conversation/data/repository/ConversationRepositoryImpl.kt:212 | one user write per user, in order |
| Repository.UpdateEvents | core/src/commonMain/kotlin/com/noljanolja/core/conversation/data/repository/ConversationRepositoryImpl.kt:186-214 | `updateLocalConversation`: nothing without a current user; else the conversation, then creator, participants, messages and senders as the options ask (`UpdateWritesWhatIsAsked`) |
| Repository.UpdateWritesWhatIsAsked | core/src/commonMain/kotlin/com/noljanolja/core/conversation/data/repository/ConversationRepositoryImpl.kt:186-214 | nothing without a current user; otherwise the conversation first, participants and messages exactly when asked, the creator and every sender when asked, and no other user |
| Repository.StreamedGroupKeepsParticipants | core/src/commonMain/kotlin/com/noljanolja/core/conversation/data/repository/ConversationRepositoryImpl.kt:122-126 | a streamed GROUP conversation never writes participants |
| Repository.RefreshEvents | core/src/commonMain/kotlin/com/noljanolja/core/conversation/data/repository/ConversationRepositoryImpl.kt:47-51 | `forEach { updateLocalConversation(it) }`: the writes of each conversation of the list, in order (`RefreshStoresEveryConversation`) |
| Repository.RefreshStoresEveryConversation | core/src/commonMain/kotlin/com/noljanolja/core/conversation/data/repository/ConversationRepositoryImpl.kt:47-51 | storing a list writes every conversation of it, only writes, and nothing without a current user |
| Repository.ParticipantWithId | core/src/commonMain/kotlin/com/noljanolja/core/conversation/data/repository/ConversationRepositoryImpl.kt:175 | `find`: the FIRST participant with that id, present exactly when one exists |
| Repository.SeenUsers | core/src/commonMain/kotlin/com/noljanolja/core/conversation/data/repository/ConversationRepositoryImpl.kt:175 | at most one user per reader id, each a participant |
| Repository.SeenUsersAreSeenParticipants | core/src/commonMain/kotlin/com/noljanolja/core/conversation/data/repository/ConversationRepositoryImpl.kt:173-176 | the ids of the seen users are exactly the reader ids that belong to a participant |
| Repository.Annotate | core/src/commonMain/kotlin/com/noljanolja/core/conversation/data/repository/ConversationRepositoryImpl.kt:169-177 | one shown message: its sender looked up, seen users only when some reader id is not blank, seen by me when I sent it or my id is a reader (`ConversationDetailSeenBy`) |
| Repository.ShownMessages | core/src/commonMain/kotlin/com/noljanolja/core/conversation/data/repository/ConversationRepositoryImpl.kt:165-168 | the stored messages with text or an attachment, in stored order |
| Repository.ConversationDetail | core/src/commonMain/kotlin/com/noljanolja/core/conversation/data/repository/ConversationRepositoryImpl.kt:156-184 | `getLocalConversation`: the stored conversation with its creator looked up, the stored participants and the shown messages annotated (`ConversationDetailExistsWhenStored`, `ConversationDetailShowsContent`, `ConversationDetailSeenBy`) |
| Repository.ConversationDetailExistsWhenStored | core/src/commonMain/kotlin/com/noljanolja/core/conversation/data/repository/ConversationRepositoryImpl.kt:156-183 | the detail view exists exactly for a stored conversation; its conversation is the first stored one with that id, copied with its creator looked up, the stored participants and the shown messages, every other field unchanged |
| Repository.ConversationDetailShowsContent | core/src/commonMain/kotlin/com/noljanolja/core/conversation/data/repository/ConversationRepositoryImpl.kt:165-171 | the view shows exactly the stored messages with text or an attachment, in stored order, each with its sender looked up |
| Repository.ConversationDetailSeenBy | core/src/commonMain/kotlin/com/noljanolja/core/conversation/data/repository/ConversationRepositoryImpl.kt:170-177 | seen by me exactly when I sent it or my id is a reader; seen users are participants; none when every reader id is blank; otherwise their ids are exactly the reader ids that belong to a participant |
| Repository.ListEntry | core/src/commonMain/kotlin/com/noljanolja/core/conversation/data/repository/ConversationRepositoryImpl.kt:218-249 | one list entry: none exactly when the conversation has no stored message; otherwise its id, title, type and timestamps, its creator looked up, the first four stored participants, and the first stored message with its sender looked up and no seen users |
| Repository.ConversationList | core/src/commonMain/kotlin/com/noljanolja/core/conversation/data/repository/ConversationRepositoryImpl.kt:216-252 | `mapNotNull` of the entries over the stored conversations (`ConversationListIsTheNonEmpty`) |
| Repository.ConversationListIsTheNonEmpty | core/src/commonMain/kotlin/com/noljanolja/core/conversation/data/repository/ConversationRepositoryImpl.kt:216-252 | an entry exactly for each stored conversation with a stored message; each shows the first stored message and at most four participants |
| Repository.ConversationListFollowsStoredOrder | core/src/commonMain/kotlin/com/noljanolja/core/conversation/data/repository/ConversationRepositoryImpl.kt:216-252 | `mapNotNull` keeps the stored order: the list is, one for one and in order, the entries of the stored conversations that have a stored message |
| Repository.LatestCreatedAt | core/src/commonMain/kotlin/com/noljanolja/core/conversation/data/repository/ConversationRepositoryImpl.kt:53 | the latest creation instant of the messages, `null` exactly when there are none |
| Repository.ConversationsScreen | core/src/commonMain/kotlin/com/noljanolja/core/conversation/data/repository/ConversationRepositoryImpl.kt:52-54 | `getConversations`: the list sorted by latest message, newest first (`ConversationsScreenIsNewestFirst`) |
| Repository.ConversationsScreenIsNewestFirst | core/src/commonMain/kotlin/com/noljanolja/core/conversation/data/repository/ConversationRepositoryImpl.kt:53 | the screen is a permutation of the list, newest latest message first, ties in stored order, every entry with a latest message |
| Repository.ConversationRepositoryImpl.CreateConversation | core/src/commonMain/kotlin/com/noljanolja/core/conversation/data/repository/ConversationRepositoryImpl.kt:103-111 | logs the create request and returns the answer's conversation id, or 0 without one |
| Repository.ConversationRepositoryImpl.SendConversationMessage | core/src/commonMain/kotlin/com/noljanolja/core/conversation/data/repository/ConversationRepositoryImpl.kt:60-101 | the log grows by the requests and writes of the send and the result is its outcome |
| Repository.ConversationRepositoryImpl.GetConversationMessages | core/src/commonMain/kotlin/com/noljanolja/core/conversation/data/repository/ConversationRepositoryImpl.kt:131-154 | the loop marks the page SENT; the log grows by the fetch steps and the result is the fetched page |
| Repository.ConversationRepositoryImpl.UpdateLocalConversation | core/src/commonMain/kotlin/com/noljanolja/core/conversation/data/repository/ConversationRepositoryImpl.kt:186-214 | the log grows by exactly the writes of storing the conversation |
| Repository.ConversationRepositoryImpl.UpsertUsers | core/src/commonMain/kotlin/com/noljanolja/core/conversation/data/repository/ConversationRepositoryImpl.kt:211-212 | the loop writes each user once, in order |
| Repository.ConversationRepositoryImpl.OnConversationStreamed | core/src/commonMain/kotlin/com/noljanolja/core/conversation/data/repository/ConversationRepositoryImpl.kt:122-126 | a streamed conversation is stored with participants only when SINGLE |
| Repository.ConversationRepositoryImpl.RefreshConversation | core/src/commonMain/kotlin/com/noljanolja/core/conversation/data/repository/ConversationRepositoryImpl.kt:32-36 | the request, then the answer's conversation stored when there is one |
| Repository.ConversationRepositoryImpl.RefreshConversations | core/src/commonMain/kotlin/com/noljanolja/core/conversation/data/repository/ConversationRepositoryImpl.kt:47-51 | the request, then every conversation of the answer stored in order |
| Repository.ConversationRepositoryImpl.UpdateLocalConversations | core/src/commonMain/kotlin/com/noljanolja/core/conversation/data/repository/ConversationRepositoryImpl.kt:48-50 | the loop stores every conversation in order |
| Repository.ConversationRepositoryImpl.UpsertConversationMessages | core/src/commonMain/kotlin/com/noljanolja/core/conversation/data/repository/ConversationRepositoryImpl.kt:254-259 | one message write, passed through unchanged |
| Repository.ConversationRepositoryImpl.UpdateMessageStatus | core/src/commonMain/kotlin/com/noljanolja/core/conversation/data/repository/ConversationRepositoryImpl.kt:261-265 | one status request for that message |
| Gifts.GiftId | core/src/commonMain/kotlin/com/noljanolja/core/shop/domain/model/Gift.kt:20 | the gift id when not blank, else the record id; blank exactly when both are |
| Gifts.DefaultGiftIdIsEmpty | core/src/commonMain/kotlin/com/noljanolja/core/shop/domain/model/Gift.kt:7-20 | a default gift has the empty id |
| Gifts.GiftIdReadsOnlyIds | core/src/commonMain/kotlin/com/noljanolja/core/shop/domain/model/Gift.kt:20 | only the two id fields decide the result; writing it back as the gift id changes nothing |
| PhoneMask.Stars | app/src/main/java/com/noljanolja/android/features/setting/SettingScreen.kt:219 | `count` stars |
| PhoneMask.TakeLast | app/src/main/java/com/noljanolja/android/features/setting/SettingScreen.kt:219 | `takeLast(n)`: the last `min(n, length)` characters |
| PhoneMask.HidePhoneNumber | app/src/main/java/com/noljanolja/android/features/setting/SettingScreen.kt:218-220 | `hidePhoneNumber` as written: one star per element of `0..length - 3`, then the last three characters (`HidePhoneNumberShape`) |
| PhoneMask.HidePhoneNumberShape | app/src/main/java/com/noljanolja/android/features/setting/SettingScreen.kt:218-220 | ends with the last `min(3, length)` characters, stars before them; from three characters on `length - 2` stars, one more character than the input; up to two characters unchanged |
| PhoneMask.HidePhoneNumberAddsAStar | app/src/main/java/com/noljanolja/android/features/setting/SettingScreen.kt:219 | "0123" becomes "**123" |
| PhoneMask.MaskPhoneNumber | app/src/main/java/com/noljanolja/android/features/setting/SettingScreen.kt:218-220 | corrected mask: same length, every character but the last three a star |
| PhoneMask.HidePhoneNumberIsMaskPlusOneStar | app/src/main/java/com/noljanolja/android/features/setting/SettingScreen.kt:219 | from three characters on, the code as written is one star followed by the intended mask |
| Navigation.RoutesFollowTheirTemplates | app/src/main/java/com/noljanolja/android/common/navigation/NavigationDirections.kt:185-189 | the chat template and route have the same path and arguments in the same order, values where the template has placeholders; likewise the AuthOTP phone |
| Navigation.ChatTemplateIsChatRoute | app/src/main/java/com/noljanolja/android/common/navigation/NavigationDirections.kt:185-186 | the chat template is the route shape with `{name}` placeholders |
| Navigation.DefaultChatRoute | app/src/main/java/com/noljanolja/android/common/navigation/NavigationDirections.kt:164-189 | `Chat()` navigates to `chat?conversationId=0&userId=&userName=` |
| Navigation.ChatRouteNamesItsChat | app/src/main/java/com/noljanolja/android/common/navigation/NavigationDirections.kt:188-190 | when the user id holds no `&`, the route determines the conversation id, the user id and the user name |
| Navigation.ChatArgumentsAreRecoverable | app/src/main/java/com/noljanolja/android/common/navigation/NavigationDirections.kt:189 | with `&`-free id and user id the three values are read back from the route |
| Navigation.ChatRouteCollides | app/src/main/java/com/noljanolja/android/common/navigation/NavigationDirections.kt:188-190 | two different chats, one route: user id and name are inserted unescaped |
| Navigation.EncodedChatRouteNamesItsChat | app/src/main/java/com/noljanolja/android/common/navigation/NavigationDirections.kt:188-190 | with an injective `&`-free encoder the encoded route determines all three values |
| Navigation.AuthOTPRouteNamesItsPhone | app/src/main/java/com/noljanolja/android/common/navigation/NavigationDirections.kt:86-88 | with an injective encoder the OTP route determines the phone number |
| Navigation.OnlyBackCommandsShareBack | app/src/main/java/com/noljanolja/android/common/navigation/NavigationDirections.kt:156-208 | `Back` and `FinishWithResults` share the route "back" and no other command has it |
| Navigation.Destination | app/src/main/java/com/noljanolja/android/common/navigation/NavigationDirections.kt:10-213 | the route each command is registered under (`OnlyBackCommandsShareBack`, `RoutesFollowTheirTemplates`) |
| Navigation.CreateDestination | app/src/main/java/com/noljanolja/android/common/navigation/NavigationDirections.kt:86-190 | the route navigated to: the encoded phone for `AuthOTP`, the chat route for `Chat`, the registered route otherwise (`RoutesFollowTheirTemplates`, `ChatRouteNamesItsChat`) |
| Navigation.ChatRoute | app/src/main/java/com/noljanolja/android/common/navigation/NavigationDirections.kt:189 | the chat route with its three values filled in (`ChatArgumentsAreRecoverable`) |
| Navigation.EncodedChatRoute | app/src/main/java/com/noljanolja/android/common/navigation/NavigationDirections.kt:188-190 | corrected chat route with user id and name encoded (`EncodedChatRouteNamesItsChat`) |

## Left out

- Coroutines and flows are not modelled, because the model has no concurrency:
  - `scope.launch`, `Flow`, `combine`, `collect`, `MutableStateFlow` emission and `delay(50)`;
  - the `streamConversations` job cancel and replace, and `onDestroy`.

  A flow is modelled as one snapshot (`GetLocalConversation`, `ConversationDetail`, `ConversationsScreen`). A background refresh is a method that takes the API answer as input.
- `getConversation` and `getConversations` catch exceptions, and `getConversations` then emits an empty list. These paths are not modelled, because the snapshot projections cannot fail.
- `ConversationApi`, `LocalConversationDataSource`, `LocalUserDataSource` and `UserRepository` are not part of this model, and their merge rules are unknown:
  - API answers are function parameters;
  - the current user is an `Option` input;
  - writes to the stores are log entries;
  - reads from the stores are a `LocalState` snapshot.
- Two operations have no member of their own:
  - `getLocalConversations` on the cache (Database.kt:17-19) only returns the stored list;
  - the repository's `findConversationWithUser` (ConversationRepositoryImpl.kt:26-28) only delegates to the local conversation store.
- The `Logger.e` calls on the repository's error paths are left out: stream errors, and a failed message fetch. Logging has no effect the model observes.
- `findConversationMessages(id, limit = 1)` is read as the first stored message. The store's order is unknown.
- `randomUUID()`, `Clock.System.now()` and `BASE_URL` are inputs. An `Instant` is an unbounded count of milliseconds.
- `URLEncoder.encode` is a parameter `encode`. Its injectivity and its never emitting `&` are preconditions, not facts proved here.
- A command without arguments is assumed to navigate to its registered route. The default `createDestination` of the `NavigationCommand` interface is not part of this model.
- The `arguments` and `NavOptions` of the navigation commands are not modelled, because the routes do not depend on them.
- `FinishWithResults` result values may be of any type in the code. Here they are strings.
- `Gift` leaves out `brand`, `category` and `price`, which `giftId()` does not read.
- The fields of `Message` that the code declares `var` (`stickerUrl`, the attachment `url` and `localPath`) are plain values here. No code in this core mutates them.
- `LocalCache.CombineKeepsExistingParticipants` requires the cached participants to be unique by id. With duplicates, `distinctBy` drops the later copies and the cached list is no longer a prefix of the result. Every cached id still survives (`LocalCache.MergedParticipants`).
- `Messages.DefaultUser` assumes that a `User()` built with no arguments has an empty id, an empty name and `isMe` false. The `User` class is not part of this model.
- Strings are sequences of Unicode code points. Kotlin's `length` and `takeLast` count UTF-16 units. The two agree on ids, ASCII phone numbers and every string without characters outside the Basic Multilingual Plane.
- `Repository.SeenUsers` does not state the order of the seen users. `Repository.SeenUsersAreSeenParticipants` states which ids they have.

## Findings

| source | as written | input that shows it | evidently intended | confidence | as-written member | corrected member |
|---|---|---|---|---|---|---|
| app/src/main/java/com/noljanolja/android/features/setting/SettingScreen.kt:219 | `(0..length - 3)` is an inclusive range, so it emits `length - 2` stars and the masked number is one character longer than the number | "0123" gives "**123" | a star for every character but the last three ("*123") | high; not executed | `PhoneMask.HidePhoneNumberAddsAStar`, `PhoneMask.HidePhoneNumberIsMaskPlusOneStar` | `PhoneMask.MaskPhoneNumber` |
| app/src/main/java/com/noljanolja/android/common/navigation/NavigationDirections.kt:189 | `userId` and `userName` are inserted into the route unescaped | `Chat(1, "a&userName=b", "")` and `Chat(1, "a", "b&userName=")` give the same route | encode both as `AuthOTP` encodes its phone number, so the route names one chat | medium; not executed | `Navigation.ChatRouteCollides` | `Navigation.EncodedChatRoute`, `Navigation.EncodedChatRouteNamesItsChat` |
