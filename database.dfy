/** The process-wide in-memory conversation cache (`Database`) and its merge
    rule (`combineConversation`). */
module LocalCache {
  import opened Strings
  import opened Lists
  import opened Messages

  function ConversationId(c: Conversation): Long { c.id }
  function UserId(u: User): string { u.id }
  function MessageId(m: Message): Long { m.id }
  function CreatedAt(m: Message): Option<Instant> { Some(m.createdAt) }

  function Max(a: Instant, b: Instant): Instant { if a >= b then a else b }

  /** The participants of a merge: existing ones first, then incoming ones,
      one per user id, the first occurrence kept. */
  function MergedParticipants(existing: seq<User>, incoming: seq<User>): (r: seq<User>)
    ensures UniqueBy(r, UserId)
    ensures Keys(r, UserId) == Keys(existing, UserId) + Keys(incoming, UserId)
  {
    KeysAppend(existing, incoming, UserId);
    DistinctBy(existing + incoming, UserId)
  }

  /** The messages of a merge: existing ones first, then incoming ones, one
      per message id (never per `localId`), the first occurrence kept, then
      ordered newest first with ties in their previous order. */
  function MergedMessages(existing: seq<Message>, incoming: seq<Message>): (r: seq<Message>)
    ensures UniqueBy(r, MessageId)
    ensures SortedDescending(r, CreatedAt)
    ensures Keys(r, MessageId) == Keys(existing, MessageId) + Keys(incoming, MessageId)
    ensures multiset(r) == multiset(DistinctBy(existing + incoming, MessageId))
  {
    var distinct := DistinctBy(existing + incoming, MessageId);
    var sorted := SortedByDescending(distinct, CreatedAt);
    SortIsSorted(distinct, CreatedAt);
    SortKeepsUnique(distinct, CreatedAt, MessageId);
    KeysOfPermutation(distinct, sorted, MessageId);
    KeysAppend(existing, incoming, MessageId);
    sorted
  }

  /** `existing.combineConversation(incoming)`. */
  function Combine(existing: Conversation, incoming: Conversation): (r: Conversation)
    ensures r.id == existing.id && r.conversationType == existing.conversationType
    ensures r.creator == existing.creator && r.createdAt == existing.createdAt
    ensures !IsBlank(existing.title) ==> r.title == existing.title
    ensures IsBlank(existing.title) ==> r.title == incoming.title
    ensures r.updatedAt >= existing.updatedAt && r.updatedAt >= incoming.updatedAt
    ensures r.updatedAt == existing.updatedAt || r.updatedAt == incoming.updatedAt
    ensures r.participants == MergedParticipants(existing.participants, incoming.participants)
    ensures r.messages == MergedMessages(existing.messages, incoming.messages)
  {
    Conversation(
      existing.id,
      if !IsBlank(existing.title) then existing.title else incoming.title,
      existing.conversationType,
      existing.creator,
      MergedParticipants(existing.participants, incoming.participants),
      MergedMessages(existing.messages, incoming.messages),
      existing.createdAt,
      Max(existing.updatedAt, incoming.updatedAt))
  }

  lemma KeysAppend<T, K>(a: seq<T>, b: seq<T>, key: T -> K)
    ensures Keys(a + b, key) == Keys(a, key) + Keys(b, key)
  {
    var s := a + b;
    forall k | k in Keys(s, key) ensures k in Keys(a, key) + Keys(b, key) {
      var i :| 0 <= i < |s| && key(s[i]) == k;
      if i < |a| { assert s[i] == a[i]; } else { assert s[i] == b[i - |a|]; }
    }
    forall k | k in Keys(a, key) + Keys(b, key) ensures k in Keys(s, key) {
      if k in Keys(a, key) {
        var i :| 0 <= i < |a| && key(a[i]) == k;
        assert s[i] == a[i];
      } else {
        var i :| 0 <= i < |b| && key(b[i]) == k;
        assert s[|a| + i] == b[i];
      }
    }
  }

  /** Every existing participant survives the merge, in its place, when the
      existing list is unique by id. */
  lemma CombineKeepsExistingParticipants(existing: Conversation, incoming: Conversation)
    requires UniqueBy(existing.participants, UserId)
    ensures existing.participants <= Combine(existing, incoming).participants
  {
    DistinctByPrefix(existing.participants, incoming.participants, UserId);
    DistinctByUnique(existing.participants, UserId);
  }

  /** A merged message is the first message with its id in existing ++
      incoming, and every such first message is in the merge. */
  lemma CombineMessagesAreFirstById(existing: Conversation, incoming: Conversation)
    ensures var s := existing.messages + incoming.messages;
            var r := Combine(existing, incoming).messages;
            && (forall i :: 0 <= i < |s| && FirstOfItsKey(s, MessageId, i) ==> s[i] in r)
            && (forall x :: x in r ==> exists i :: 0 <= i < |s| && s[i] == x && FirstOfItsKey(s, MessageId, i))
  {
    var s := existing.messages + incoming.messages;
    var d := DistinctBy(s, MessageId);
    var r := Combine(existing, incoming).messages;
    forall i | 0 <= i < |s| && FirstOfItsKey(s, MessageId, i) ensures s[i] in r {
      DistinctByKeepsFirst(s, MessageId, i);
      assert s[i] in multiset(d);
    }
    forall x | x in r ensures exists i :: 0 <= i < |s| && s[i] == x && FirstOfItsKey(s, MessageId, i) {
      assert x in multiset(r);
      DistinctByOnlyFirst(s, MessageId, x);
    }
  }

  /** An incoming message whose id is already cached never enters the merge:
      the merged message with that id is a cached one. */
  lemma CombineCachedIdWins(existing: Conversation, incoming: Conversation, m: Message)
    requires m in incoming.messages && m.id in Keys(existing.messages, MessageId)
    ensures forall x :: x in Combine(existing, incoming).messages && x.id == m.id ==> x in existing.messages
  {
    var s := existing.messages + incoming.messages;
    CombineMessagesAreFirstById(existing, incoming);
    forall x | x in Combine(existing, incoming).messages && x.id == m.id ensures x in existing.messages {
      var i :| 0 <= i < |s| && s[i] == x && FirstOfItsKey(s, MessageId, i);
      var k :| 0 <= k < |existing.messages| && existing.messages[k].id == m.id;
      assert s[k] == existing.messages[k];
      assert i <= k;
      assert s[i] == existing.messages[i];
    }
  }

  /** Every cached message survives the merge when the cached messages are
      unique by id. */
  lemma CombineKeepsCachedMessages(existing: Conversation, incoming: Conversation)
    requires UniqueBy(existing.messages, MessageId)
    ensures forall x :: x in existing.messages ==> x in Combine(existing, incoming).messages
  {
    var s := existing.messages + incoming.messages;
    CombineMessagesAreFirstById(existing, incoming);
    forall x | x in existing.messages ensures x in Combine(existing, incoming).messages {
      var i :| 0 <= i < |existing.messages| && existing.messages[i] == x;
      assert s[i] == x;
      assert FirstOfItsKey(s, MessageId, i) by {
        forall j | 0 <= j < i ensures MessageId(s[j]) != MessageId(s[i]) {
          assert s[j] == existing.messages[j];
        }
      }
    }
  }

  /** The sort after the dedup is stable: the messages sharing a creation
      instant keep their order from existing ++ incoming. */
  lemma CombineSortIsStable(existing: Conversation, incoming: Conversation, t: Option<Instant>)
    ensures WithKey(Combine(existing, incoming).messages, CreatedAt, t)
         == WithKey(DistinctBy(existing.messages + incoming.messages, MessageId), CreatedAt, t)
  {
    SortIsStable(DistinctBy(existing.messages + incoming.messages, MessageId), CreatedAt, t);
  }

  /** The shape a merge result always has. */
  ghost predicate Normalized(c: Conversation) {
    && UniqueBy(c.participants, UserId)
    && UniqueBy(c.messages, MessageId)
    && SortedDescending(c.messages, CreatedAt)
  }

  /** Merging a normalized conversation with itself gives it back. */
  lemma {:induction false} CombineSelf(c: Conversation)
    requires Normalized(c)
    ensures Combine(c, c) == c
  {
    KeysAppend(c.participants, c.participants, UserId);
    DistinctByAbsorbs(c.participants, c.participants, UserId);
    DistinctByAbsorbs(c.messages, c.messages, MessageId);
    SortSorted(c.messages, CreatedAt);
  }

  /** Merging the same incoming conversation a second time changes nothing,
      so a repeated stream event or refresh is harmless. */
  lemma {:induction false} CombineAbsorbsRepeat(existing: Conversation, incoming: Conversation)
    ensures Combine(Combine(existing, incoming), incoming) == Combine(existing, incoming)
  {
    var r := Combine(existing, incoming);
    DistinctByAbsorbs(r.participants, incoming.participants, UserId);
    DistinctByAbsorbs(r.messages, incoming.messages, MessageId);
    SortSorted(r.messages, CreatedAt);
  }

  /** Two optimistic messages (both id 0) collapse into the cached one: the
      incoming copy is lost even when its `localId` differs. */
  lemma OptimisticMessagesCollapse(existing: Conversation, incoming: Conversation, cached: Message, sent: Message)
    requires cached in existing.messages && sent in incoming.messages
    requires cached.id == 0 && sent.id == 0 && cached.localId != sent.localId
    requires sent !in existing.messages
    ensures sent !in Combine(existing, incoming).messages
  {
    assert cached.id in Keys(existing.messages, MessageId) by {
      var k :| 0 <= k < |existing.messages| && existing.messages[k] == cached;
    }
    CombineCachedIdWins(existing, incoming, sent);
  }

  /** The server-confirmed copy of a message (new id, same `localId`) does not
      replace its optimistic copy: both stay, so the conversation holds two
      messages with one `localId`. */
  lemma ConfirmedCopyKeepsOptimistic(existing: Conversation, optimistic: Message, confirmed: Message)
    requires UniqueBy(existing.messages, MessageId) && optimistic in existing.messages
    requires confirmed.id !in Keys(existing.messages, MessageId)
    requires confirmed.localId == optimistic.localId
    ensures var r := Combine(existing, existing.(messages := [confirmed])).messages;
            optimistic in r && confirmed in r && optimistic != confirmed
  {
    var incoming := existing.(messages := [confirmed]);
    var s := existing.messages + incoming.messages;
    CombineKeepsCachedMessages(existing, incoming);
    CombineMessagesAreFirstById(existing, incoming);
    assert s[|existing.messages|] == confirmed;
    assert FirstOfItsKey(s, MessageId, |existing.messages|) by {
      forall j | 0 <= j < |existing.messages| ensures MessageId(s[j]) != confirmed.id {
        assert s[j] == existing.messages[j];
      }
    }
    assert optimistic.id in Keys(existing.messages, MessageId) by {
      var k :| 0 <= k < |existing.messages| && existing.messages[k] == optimistic;
    }
  }

  /** `combineConversation` on a cached conversation with a blank title and
      an incoming one that has a title, overlapping participants and one
      message. */
  lemma CombineExample(a: User, b: User, c: User, m: Message, creator: User)
    requires a.id == "A" && b.id == "B" && c.id == "C"
    ensures var existing := Conversation(1, "", SINGLE, creator, [a, b], [], 0, 10);
            var incoming := Conversation(1, "Trip", SINGLE, creator, [b, c], [m], 0, 20);
            var r := Combine(existing, incoming);
            r.title == "Trip" && r.participants == [a, b, c] && r.messages == [m] && r.updatedAt == 20
  {
    var existing := Conversation(1, "", SINGLE, creator, [a, b], [], 0, 10);
    var incoming := Conversation(1, "Trip", SINGLE, creator, [b, c], [m], 0, 20);
    var ps := [a, b, b, c];
    assert existing.participants + incoming.participants == ps;
    assert ps[..3][..2] == [a, b] && ps[..3] == [a, b, b];
    assert ps[..2][..1] == [a];
    assert [a, b][..1] == [a];
    assert DistinctBy([a], UserId) == [a];
    assert DistinctBy([a, b], UserId) == [a, b];
    assert DistinctBy([a, b, b], UserId) == [a, b];
    assert DistinctBy(ps, UserId) == [a, b, c];
    assert existing.messages + incoming.messages == [m];
    assert DistinctBy([m], MessageId) == [m];
  }

  /** The index of the first conversation with id `id`. */
  function IndexOfConversation(cs: seq<Conversation>, id: Long): (r: Option<nat>)
    ensures r.Some? ==> r.value < |cs| && cs[r.value].id == id
    ensures r.Some? ==> forall j :: 0 <= j < r.value ==> cs[j].id != id
    ensures r.None? <==> id !in Keys(cs, ConversationId)
  {
    FirstIndex(cs, (c: Conversation) => c.id == id)
  }

  /** `find { it.id == id }` over the cached list. */
  function ConversationWithId(cs: seq<Conversation>, id: Long): (r: Option<Conversation>)
    ensures r.Some? <==> id in Keys(cs, ConversationId)
    ensures r.Some? ==> r.value in cs && r.value.id == id
    ensures r.Some? ==> exists i :: 0 <= i < |cs| && cs[i] == r.value && forall j :: 0 <= j < i ==> cs[j].id != id
  {
    match IndexOfConversation(cs, id)
    case None => None
    case Some(i) => Some(cs[i])
  }

  /** Each cached conversation, merged with `c` when it has `c`'s id. */
  function ReplaceMatching(cs: seq<Conversation>, c: Conversation): (r: seq<Conversation>)
    ensures |r| == |cs|
    ensures forall k :: 0 <= k < |cs| ==> r[k] == if cs[k].id == c.id then Combine(cs[k], c) else cs[k]
  {
    if cs == [] then []
    else
      var last := cs[|cs| - 1];
      ReplaceMatching(cs[..|cs| - 1], c) + [if last.id == c.id then Combine(last, c) else last]
  }

  /** `updateLocalConversation`: merge into every entry with the same id, or
      append when there is none. */
  function Upsert(cs: seq<Conversation>, c: Conversation): seq<Conversation> {
    ReplaceMatching(cs, c) + (if c.id in Keys(cs, ConversationId) then [] else [c])
  }

  /** An absent id is appended at the end; every other entry is unchanged. */
  lemma UpsertAbsentAppends(cs: seq<Conversation>, c: Conversation)
    requires c.id !in Keys(cs, ConversationId)
    ensures Upsert(cs, c) == cs + [c]
  {
    forall k | 0 <= k < |cs| ensures cs[k].id != c.id {
      assert ConversationId(cs[k]) in Keys(cs, ConversationId);
    }
    assert ReplaceMatching(cs, c) == cs;
  }

  /** A present id is merged in place: same length, every other entry
      unchanged. */
  lemma UpsertPresentReplaces(cs: seq<Conversation>, c: Conversation, k: nat)
    requires UniqueBy(cs, ConversationId)
    requires k < |cs| && cs[k].id == c.id
    ensures Upsert(cs, c) == cs[k := Combine(cs[k], c)]
  {
    assert ConversationId(cs[k]) in Keys(cs, ConversationId);
    assert ReplaceMatching(cs, c) == cs[k := Combine(cs[k], c)];
  }

  /** The cache never holds two conversations with one id. */
  lemma UpsertKeepsIdsUnique(cs: seq<Conversation>, c: Conversation)
    requires UniqueBy(cs, ConversationId)
    ensures UniqueBy(Upsert(cs, c), ConversationId)
    ensures Keys(Upsert(cs, c), ConversationId) == Keys(cs, ConversationId) + {c.id}
  {
    var r := ReplaceMatching(cs, c);
    assert forall k :: 0 <= k < |cs| ==> r[k].id == cs[k].id;
    assert UniqueBy(r, ConversationId);
    assert Keys(r, ConversationId) == Keys(cs, ConversationId) by {
      forall x | x in Keys(r, ConversationId) ensures x in Keys(cs, ConversationId) {
        var i :| 0 <= i < |r| && r[i].id == x;
        assert cs[i].id == x;
      }
      forall x | x in Keys(cs, ConversationId) ensures x in Keys(r, ConversationId) {
        var i :| 0 <= i < |cs| && cs[i].id == x;
        assert r[i].id == x;
      }
    }
    if c.id in Keys(cs, ConversationId) {
      assert Upsert(cs, c) == r;
    } else {
      KeysSnoc(r, c, ConversationId);
      forall k | 0 <= k < |r| ensures r[k].id != c.id {
        assert ConversationId(r[k]) in Keys(r, ConversationId);
      }
    }
  }

  /** `upsertConversationMessages`: merge `messages` into the first
      conversation with that id, as a copy of it carrying only those messages;
      nothing when the id is not cached. */
  function UpsertMessages(cs: seq<Conversation>, id: Long, messages: seq<Message>): seq<Conversation> {
    match ConversationWithId(cs, id)
    case None => cs
    case Some(found) => Upsert(cs, found.(messages := messages))
  }

  lemma UpsertMessagesAbsentIsNoop(cs: seq<Conversation>, id: Long, messages: seq<Message>)
    requires id !in Keys(cs, ConversationId)
    ensures UpsertMessages(cs, id, messages) == cs
  {
  }

  /** Upserting messages for a cached id merges them into that entry in place. */
  lemma UpsertMessagesAt(cs: seq<Conversation>, k: nat, messages: seq<Message>)
    requires UniqueBy(cs, ConversationId) && k < |cs|
    ensures UpsertMessages(cs, cs[k].id, messages) == cs[k := Combine(cs[k], cs[k].(messages := messages))]
  {
    assert ConversationId(cs[k]) in Keys(cs, ConversationId);
    assert IndexOfConversation(cs, cs[k].id) == Some(k);
    UpsertPresentReplaces(cs, cs[k].(messages := messages), k);
  }

  /** Merging a conversation with a copy of itself that carries other
      messages keeps everything but the messages, which are merged: the title,
      participants (once per id) and `updatedAt` stay, every cached message id
      stays, the new ids join, and when the cached messages are unique by id
      every one of them is kept. */
  lemma CombineWithOwnCopy(c: Conversation, messages: seq<Message>)
    ensures var r := Combine(c, c.(messages := messages));
            && r.id == c.id && r.title == c.title && r.updatedAt == c.updatedAt
            && r.participants == DistinctBy(c.participants, UserId)
            && Keys(r.messages, MessageId) == Keys(c.messages, MessageId) + Keys(messages, MessageId)
            && (UniqueBy(c.messages, MessageId) ==> forall x :: x in c.messages ==> x in r.messages)
  {
    DistinctByIgnoresKnownKeys(c.participants, c.participants, UserId);
    if UniqueBy(c.messages, MessageId) {
      CombineKeepsCachedMessages(c, c.(messages := messages));
    }
  }

  /** `upsertConversationMessages` on a cached id: only that entry changes,
      and it changes by a merge, not a replacement. */
  lemma UpsertMessagesMerges(cs: seq<Conversation>, k: nat, messages: seq<Message>)
    requires UniqueBy(cs, ConversationId) && k < |cs|
    ensures var r := UpsertMessages(cs, cs[k].id, messages);
            && |r| == |cs|
            && (forall j :: 0 <= j < |cs| && j != k ==> r[j] == cs[j])
            && r[k].title == cs[k].title && r[k].updatedAt == cs[k].updatedAt
            && Keys(r[k].messages, MessageId) == Keys(cs[k].messages, MessageId) + Keys(messages, MessageId)
            && (UniqueBy(cs[k].messages, MessageId) ==> forall x :: x in cs[k].messages ==> x in r[k].messages)
  {
    UpsertMessagesAt(cs, k, messages);
    CombineWithOwnCopy(cs[k], messages);
  }

  /** Some participant other than me has this id. */
  predicate HasOtherParticipant(c: Conversation, userId: string) {
    exists i :: 0 <= i < |c.participants| && !c.participants[i].isMe && c.participants[i].id == userId
  }

  /** Every participant has this id (true of an empty participant list). */
  predicate AllParticipantsAre(c: Conversation, userId: string) {
    forall i :: 0 <= i < |c.participants| ==> c.participants[i].id == userId
  }

  /** `findSingleConversationWithUser`: the first conversation where the user
      is a participant other than me, else the first whose participants are
      all that user, else none. The conversation type is not looked at. */
  function FindSingleWithUser(cs: seq<Conversation>, userId: string): (r: Option<Conversation>)
    ensures (exists i :: 0 <= i < |cs| && HasOtherParticipant(cs[i], userId)) ==>
              exists i :: 0 <= i < |cs| && r == Some(cs[i]) && HasOtherParticipant(cs[i], userId) &&
                          forall j :: 0 <= j < i ==> !HasOtherParticipant(cs[j], userId)
    ensures (forall i :: 0 <= i < |cs| ==> !HasOtherParticipant(cs[i], userId)) ==>
              && (r.Some? <==> exists i :: 0 <= i < |cs| && AllParticipantsAre(cs[i], userId))
              && (r.Some? ==> exists i :: 0 <= i < |cs| && r == Some(cs[i]) && AllParticipantsAre(cs[i], userId) &&
                                          forall j :: 0 <= j < i ==> !AllParticipantsAre(cs[j], userId))
  {
    match Find(cs, (c: Conversation) => HasOtherParticipant(c, userId))
    case Some(c) => Some(c)
    case None => Find(cs, (c: Conversation) => AllParticipantsAre(c, userId))
  }

  /** The lookup does not check the conversation type: a group conversation
      is returned when it is the first with the user in it. */
  lemma FindSingleReturnsGroups(me: User, u2: User, u3: User, group: Conversation)
    requires me.isMe && !u2.isMe && u2.id == "u2"
    requires group.conversationType == GROUP && group.participants == [me, u2, u3]
    ensures FindSingleWithUser([group], "u2") == Some(group)
  {
    assert HasOtherParticipant(group, "u2") by {
      assert group.participants[1] == u2;
    }
  }

  /** A conversation with no participants matches any user in the fallback. */
  lemma FindSingleMatchesEmptyConversation(c: Conversation, userId: string)
    requires c.participants == []
    ensures FindSingleWithUser([c], userId) == Some(c)
  {
  }

  /** A single conversation that contains the user comes before a later group
      that contains them too. */
  lemma FindSinglePrefersFirst(me: User, u2: User, u3: User, single: Conversation, group: Conversation)
    requires me.isMe && !u2.isMe && u2.id == "u2"
    requires single.participants == [me, u2] && group.participants == [me, u2, u3]
    ensures FindSingleWithUser([single, group], "u2") == Some(single)
  {
    assert HasOtherParticipant(single, "u2") by {
      assert single.participants[1] == u2;
    }
  }

  /** The `Database` object: the cached token and the list of cached
      conversations, which every update replaces with a new list. */
  class Database {
    var token: Option<string>
    var conversations: seq<Conversation>

    /** No two cached conversations share an id. */
    ghost predicate Valid()
      reads this
    {
      UniqueBy(conversations, ConversationId)
    }

    constructor ()
      ensures Valid() && token == None && conversations == []
    {
      token := None;
      conversations := [];
    }

    /** One snapshot of `getLocalConversation(id)`: nothing is emitted while
        the id is absent. */
    method GetLocalConversation(id: Long) returns (r: Option<Conversation>)
      ensures r.Some? <==> id in Keys(conversations, ConversationId)
      ensures r.Some? ==> r.value.id == id
      ensures r.Some? ==> exists i :: 0 <= i < |conversations| && conversations[i] == r.value &&
                                      forall j :: 0 <= j < i ==> conversations[j].id != id
      ensures r == ConversationWithId(conversations, id)
    {
      r := ConversationWithId(conversations, id);
    }

    method FindSingleConversationWithUser(userId: string) returns (r: Option<Conversation>)
      ensures r == FindSingleWithUser(conversations, userId)
    {
      r := FindSingleWithUser(conversations, userId);
    }

    /** Rebuilds the list entry by entry, merging into entries with the same
        id, and appends the conversation when none matched. */
    method UpdateLocalConversation(c: Conversation)
      requires Valid()
      modifies this
      ensures Valid()
      ensures conversations == Upsert(old(conversations), c)
      ensures token == old(token)
    {
      var value := conversations;
      var added := false;
      var result: seq<Conversation> := [];
      for i := 0 to |value|
        invariant result == ReplaceMatching(value[..i], c)
        invariant added <==> c.id in Keys(value[..i], ConversationId)
        invariant token == old(token)
      {
        assert value[..i + 1] == value[..i] + [value[i]];
        KeysSnoc(value[..i], value[i], ConversationId);
        if value[i].id == c.id {
          added := true;
          result := result + [Combine(value[i], c)];
        } else {
          result := result + [value[i]];
        }
      }
      assert value[..|value|] == value;
      if !added {
        result := result + [c];
      }
      UpsertKeepsIdsUnique(value, c);
      conversations := result;
    }

    method UpsertConversationMessages(id: Long, messages: seq<Message>)
      requires Valid()
      modifies this
      ensures Valid()
      ensures conversations == UpsertMessages(old(conversations), id, messages)
      ensures token == old(token)
    {
      var found := ConversationWithId(conversations, id);
      if found.Some? {
        UpdateLocalConversation(found.value.(messages := messages));
      }
    }

    method GetToken() returns (t: Option<string>)
      ensures t == token
    {
      t := token;
    }

    method SaveToken(t: string)
      modifies this
      ensures token == Some(t) && conversations == old(conversations)
    {
      token := Some(t);
    }

    /** Logout: no token and no cached conversation. */
    method Clear()
      modifies this
      ensures Valid() && token == None && conversations == []
    {
      token := None;
      conversations := [];
    }
  }
}
