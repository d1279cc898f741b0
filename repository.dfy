/** `ConversationRepositoryImpl`: how sending a message, fetching a page of
    messages and storing a conversation from the server become API requests
    and local store writes, and how the local stores are assembled into the
    conversation views the screens collect.

    The API, the current-user lookup and the local stores are collaborators
    whose code is not part of this model: every API answer is an input (a
    function from the request to its answer), and what the repository does
    is recorded as an ordered log of requests and writes. */
module Repository {
  import opened Strings
  import opened Lists
  import opened Messages
  import opened LocalCache

  /** The requests the repository sends to the conversation API. */
  datatype ApiRequest =
    | CreateConversationRequest(title: string, conversationType: ConversationType, participantIds: seq<string>)
    | SendConversationMessageRequest(conversationId: Long, message: Message)
    | GetConversationRequest(conversationId: Long)
    | GetConversationsRequest
    | GetConversationMessagesRequest(conversationId: Long, messageBefore: Option<Long>, messageAfter: Option<Long>)
    | UpdateMessageStatusRequest(conversationId: Long, messageId: Long)

  /** One API call: it throws, or it answers with a success flag and perhaps
      a payload. */
  datatype ApiCall<T> = Threw | Responded(successful: bool, data: Option<T>)

  /** The writes the repository makes to the local conversation and user stores. */
  datatype LocalWrite =
    | UpsertConversation(conversation: Conversation)
    | UpsertConversationMessages(conversationId: Long, messages: seq<Message>)
    | UpsertUser(user: User)
    | UpsertConversationParticipants(conversationId: Long, participants: seq<User>)

  /** One observable step, in the order the repository takes them. */
  datatype Event = Request(request: ApiRequest) | Write(write: LocalWrite)

  /** How a suspend call ends: with a value, or with an exception that
      propagates to the caller. */
  datatype Outcome<T> = Returned(value: T) | Thrown

  /** The steps one call takes and how it ends. */
  datatype Trace<T> = Trace(events: seq<Event>, result: Outcome<T>)

  // ---------------------------------------------------------------------
  // Sending a message

  /** The request `createConversation(userId)` sends: an untitled SINGLE
      conversation with the other user. */
  function NewSingleRequest(userId: string): ApiRequest {
    CreateConversationRequest("", SINGLE, [userId])
  }

  /** `createConversation`: the id of the conversation in the answer, or 0
      when the answer carries none. The success flag is not consulted. */
  function CreatedId(answer: ApiCall<Conversation>): Outcome<Long> {
    match answer
    case Threw => Thrown
    case Responded(_, data) => Returned(if data.Some? then data.value.id else 0)
  }

  /** The conversation a message is sent to: the given one, or a new one when
      the given id is 0. */
  function TargetId(conversationId: Long, userId: string, createApi: ApiRequest -> ApiCall<Conversation>): Outcome<Long> {
    if conversationId == 0 then CreatedId(createApi(NewSingleRequest(userId))) else Returned(conversationId)
  }

  /** The copy written before the API call: sent by the current user, SENDING. */
  function Sending(message: Message, me: User): Message {
    message.(sender := me, status := SENDING)
  }

  /** The copy written after the API call: the server's message under the
      local id, SENT, when the call succeeded with a payload; otherwise the
      sending copy, FAILED. */
  function Settled(sending: Message, successful: bool, data: Option<Message>): Message {
    if successful && data.Some? then data.value.(localId := sending.localId, status := SENT)
    else sending.(status := FAILED)
  }

  /** The steps once the target conversation is known and not 0. With no
      current user, `getOrNull()!!` throws before anything is written. */
  function SendSteps(conversationId: Long, message: Message, me: Option<User>,
                     sendApi: ApiRequest -> ApiCall<Message>): Trace<Long>
  {
    match me
    case None => Trace([], Thrown)
    case Some(user) =>
      var sending := Sending(message, user);
      var request := SendConversationMessageRequest(conversationId, sending);
      var optimistic := Write(UpsertConversationMessages(conversationId, [sending]));
      match sendApi(request)
      case Threw => Trace([optimistic, Request(request)], Thrown)
      case Responded(ok, data) =>
        Trace([optimistic, Request(request),
               Write(UpsertConversationMessages(conversationId, [Settled(sending, ok, data)]))],
              Returned(conversationId))
  }

  /** `sendConversationMessage(conversationId, userId, message)`. */
  function Send(conversationId: Long, userId: string, message: Message, me: Option<User>,
                createApi: ApiRequest -> ApiCall<Conversation>,
                sendApi: ApiRequest -> ApiCall<Message>): Trace<Long>
  {
    var create := if conversationId == 0 then [Request(NewSingleRequest(userId))] else [];
    match TargetId(conversationId, userId, createApi)
    case Thrown => Trace(create, Thrown)
    case Returned(id) =>
      if id == 0 then Trace(create, Returned(0))
      else
        var rest := SendSteps(id, message, me, sendApi);
        Trace(create + rest.events, rest.result)
  }

  /** Id 0 means "no conversation yet": exactly then one SINGLE conversation
      with the other user is created first, and when its answer names no
      conversation the call returns 0 having written nothing. */
  lemma SendCreatesConversationForIdZero(conversationId: Long, userId: string, message: Message, me: Option<User>,
                                         createApi: ApiRequest -> ApiCall<Conversation>,
                                         sendApi: ApiRequest -> ApiCall<Message>)
    ensures var t := Send(conversationId, userId, message, me, createApi, sendApi);
      (conversationId == 0 <==> |t.events| > 0 && t.events[0] == Request(CreateConversationRequest("", SINGLE, [userId])))
      && (conversationId != 0 ==> forall e :: e in t.events ==> !(e.Request? && e.request.CreateConversationRequest?))
      && (TargetId(conversationId, userId, createApi) == Returned(0) ==>
            t == Trace([Request(NewSingleRequest(userId))], Returned(0)))
  {
    var t := Send(conversationId, userId, message, me, createApi, sendApi);
    if conversationId != 0 {
      var rest := SendSteps(conversationId, message, me, sendApi);
      assert t.events == rest.events;
    }
  }

  /** Once the target is known, the message is first written as the current
      user's SENDING copy, every other field as given, and only then sent. */
  lemma SendWritesSendingCopyFirst(conversationId: Long, userId: string, message: Message, user: User,
                                   createApi: ApiRequest -> ApiCall<Conversation>,
                                   sendApi: ApiRequest -> ApiCall<Message>, target: Long)
    requires TargetId(conversationId, userId, createApi) == Returned(target) && target != 0
    ensures var t := Send(conversationId, userId, message, Some(user), createApi, sendApi);
      var k := if conversationId == 0 then 1 else 0;
      exists s: Message ::
        |t.events| >= k + 2
        && t.events[k] == Write(UpsertConversationMessages(target, [s]))
        && t.events[k + 1] == Request(SendConversationMessageRequest(target, s))
        && s.sender == user && s.status == SENDING
        && s.(sender := message.sender, status := message.status) == message
  {
    var s := Sending(message, user);
    assert s.(sender := message.sender, status := message.status) == message;
  }

  /** An answer settles the message: the server's copy under the local id and
      SENT on success with a payload, the sending copy FAILED otherwise; the
      call returns the target id. */
  lemma SendSettlesOnAnswer(conversationId: Long, userId: string, message: Message, user: User,
                            createApi: ApiRequest -> ApiCall<Conversation>,
                            sendApi: ApiRequest -> ApiCall<Message>, target: Long)
    requires TargetId(conversationId, userId, createApi) == Returned(target) && target != 0
    requires sendApi(SendConversationMessageRequest(target, Sending(message, user))).Responded?
    ensures var t := Send(conversationId, userId, message, Some(user), createApi, sendApi);
      var answer := sendApi(SendConversationMessageRequest(target, Sending(message, user)));
      t.result == Returned(target) && |t.events| == (if conversationId == 0 then 1 else 0) + 3
      && exists m: Message ::
        t.events[|t.events| - 1] == Write(UpsertConversationMessages(target, [m]))
        && m.localId == message.localId
        && (answer.successful && answer.data.Some? ==> m == answer.data.value.(localId := message.localId, status := SENT))
        && (!(answer.successful && answer.data.Some?) ==> m == message.(sender := user, status := FAILED))
  {
    var answer := sendApi(SendConversationMessageRequest(target, Sending(message, user)));
    var m := Settled(Sending(message, user), answer.successful, answer.data);
    assert m.localId == message.localId;
  }

  /** An exception from the send call propagates: the SENDING copy stays the
      only write, and nothing marks it FAILED. */
  lemma SendThrowLeavesSending(conversationId: Long, userId: string, message: Message, user: User,
                               createApi: ApiRequest -> ApiCall<Conversation>,
                               sendApi: ApiRequest -> ApiCall<Message>, target: Long)
    requires TargetId(conversationId, userId, createApi) == Returned(target) && target != 0
    requires sendApi(SendConversationMessageRequest(target, Sending(message, user))).Threw?
    ensures var t := Send(conversationId, userId, message, Some(user), createApi, sendApi);
      t.result.Thrown?
      && forall i :: 0 <= i < |t.events| && t.events[i].Write? ==>
           t.events[i] == Write(UpsertConversationMessages(target, [Sending(message, user)]))
  {
  }

  /** Whatever the answers: every write is one message carrying the caller's
      local id, into a conversation other than 0; a result of 0 comes with no
      write at all, and without a current user nothing is written. */
  lemma SendTouchesOnlyItsMessage(conversationId: Long, userId: string, message: Message, me: Option<User>,
                                  createApi: ApiRequest -> ApiCall<Conversation>,
                                  sendApi: ApiRequest -> ApiCall<Message>)
    ensures var t := Send(conversationId, userId, message, me, createApi, sendApi);
      (forall i :: 0 <= i < |t.events| && t.events[i].Write? ==>
         t.events[i].write.UpsertConversationMessages?
         && t.events[i].write.conversationId != 0
         && |t.events[i].write.messages| == 1
         && t.events[i].write.messages[0].localId == message.localId)
      && (t.result == Returned(0) ==> forall i :: 0 <= i < |t.events| ==> !t.events[i].Write?)
      && (me.None? ==> t.result.Thrown? || t.result == Returned(0))
      && (me.None? ==> forall i :: 0 <= i < |t.events| ==> !t.events[i].Write?)
  {
    var t := Send(conversationId, userId, message, me, createApi, sendApi);
    match TargetId(conversationId, userId, createApi)
    case Thrown =>
    case Returned(id) =>
      if id != 0 && me.Some? {
        var s := Sending(message, me.value);
        var answer := sendApi(SendConversationMessageRequest(id, s));
        if answer.Responded? {
          assert Settled(s, answer.successful, answer.data).localId == message.localId;
        }
      }
  }

  // ---------------------------------------------------------------------
  // Fetching a page of messages

  /** `map { it.copy(status = SENT) }`: every message SENT, nothing else changed. */
  function MarkSent(ms: seq<Message>): (r: seq<Message>)
    ensures |r| == |ms|
    ensures forall i :: 0 <= i < |r| ==> r[i].status == SENT && r[i].(status := ms[i].status) == ms[i]
  {
    seq(|ms|, i requires 0 <= i < |ms| => ms[i].(status := SENT))
  }

  /** `getConversationMessages`: on success the page, all SENT, is stored and
      returned; a failed answer or an exception yields the empty list. */
  function FetchMessages(conversationId: Long, before: Option<Long>, after: Option<Long>,
                         messagesApi: ApiRequest -> ApiCall<seq<Message>>): Trace<seq<Message>>
  {
    var request := GetConversationMessagesRequest(conversationId, before, after);
    match messagesApi(request)
    case Threw => Trace([Request(request)], Returned([]))
    case Responded(ok, data) =>
      if ok then
        var ms := MarkSent(if data.Some? then data.value else []);
        Trace([Request(request), Write(UpsertConversationMessages(conversationId, ms))], Returned(ms))
      else Trace([Request(request)], Returned([]))
  }

  /** The call never throws; what it returns is what it stored, all SENT and
      field for field the server's page; it stores something exactly when the
      answer is a success. */
  lemma FetchMessagesStoresWhatItReturns(conversationId: Long, before: Option<Long>, after: Option<Long>,
                                         messagesApi: ApiRequest -> ApiCall<seq<Message>>)
    ensures var t := FetchMessages(conversationId, before, after, messagesApi);
      var answer := messagesApi(GetConversationMessagesRequest(conversationId, before, after));
      t.result.Returned?
      && t.events[0] == Request(GetConversationMessagesRequest(conversationId, before, after))
      && (forall m :: m in t.result.value ==> m.status == SENT)
      && ((answer.Responded? && answer.successful) <==> |t.events| == 2)
      && (|t.events| == 2 ==> t.events[1] == Write(UpsertConversationMessages(conversationId, t.result.value)))
      && (|t.events| != 2 ==> |t.events| == 1 && t.result.value == [])
      && (answer.Responded? && answer.successful && answer.data.Some? ==>
            |t.result.value| == |answer.data.value|
            && forall i :: 0 <= i < |answer.data.value| ==>
                 t.result.value[i].(status := answer.data.value[i].status) == answer.data.value[i])
  {
  }

  // ---------------------------------------------------------------------
  // Storing a conversation from the server

  /** The flags of `updateLocalConversation`, each `true` by default. */
  datatype SaveOptions = SaveOptions(
    saveCreator: bool,
    saveParticipants: bool,
    saveMessage: bool,
    saveMyMessage: bool,
    saveSender: bool)

  const SaveAll: SaveOptions := SaveOptions(true, true, true, true, true)

  /** The options a streamed conversation is stored with: participants only
      for a SINGLE conversation. */
  function StreamOptions(c: Conversation): SaveOptions {
    SaveAll.(saveParticipants := c.conversationType == SINGLE)
  }

  /** The messages stored for `c`: without my own messages unless
      `saveMyMessage`, and all SENT. */
  function StoredMessages(c: Conversation, me: User, saveMyMessage: bool): (r: seq<Message>)
    ensures forall i :: 0 <= i < |r| ==> r[i].status == SENT
    ensures !saveMyMessage ==> forall i :: 0 <= i < |r| ==> r[i].sender.id != me.id
  {
    var kept := Filter(c.messages, (m: Message) => saveMyMessage || m.sender.id != me.id);
    var r := MarkSent(kept);
    assert forall i :: 0 <= i < |r| ==> r[i].sender == kept[i].sender;
    r
  }

  /** The stored messages are exactly the SENT copies of the conversation's
      messages that pass the filter: every other user's message is kept, and
      mine too when `saveMyMessage`. */
  lemma StoredMessagesAreTheFilteredOnes(c: Conversation, me: User, saveMyMessage: bool)
    ensures var r := StoredMessages(c, me, saveMyMessage);
      (forall i :: 0 <= i < |c.messages| && (saveMyMessage || c.messages[i].sender.id != me.id) ==>
         c.messages[i].(status := SENT) in r)
      && (forall i :: 0 <= i < |r| ==>
            exists j :: 0 <= j < |c.messages| && r[i] == c.messages[j].(status := SENT))
  {
    var kept := Filter(c.messages, (m: Message) => saveMyMessage || m.sender.id != me.id);
    var r := MarkSent(kept);
    forall i | 0 <= i < |c.messages| && (saveMyMessage || c.messages[i].sender.id != me.id)
      ensures c.messages[i].(status := SENT) in r
    {
      var j :| 0 <= j < |kept| && kept[j] == c.messages[i];
      assert r[j] == kept[j].(status := SENT);
    }
    forall i | 0 <= i < |r|
      ensures exists j :: 0 <= j < |c.messages| && r[i] == c.messages[j].(status := SENT)
    {
      assert kept[i] in c.messages;
      var j :| 0 <= j < |c.messages| && c.messages[j] == kept[i];
      assert r[i] == c.messages[j].(status := SENT);
    }
  }

  /** The senders of the messages, in order. */
  function SendersOf(ms: seq<Message>): (r: seq<User>)
    ensures |r| == |ms| && forall i :: 0 <= i < |ms| ==> r[i] == ms[i].sender
  {
    seq(|ms|, i requires 0 <= i < |ms| => ms[i].sender)
  }

  /** `messages.map { it.sender }.distinctBy { it.id }`: one user per sender
      id, each a sender of some message. */
  function Senders(c: Conversation): (r: seq<User>)
    ensures UniqueBy(r, UserId)
    ensures Keys(r, UserId) == set i | 0 <= i < |c.messages| :: c.messages[i].sender.id
    ensures forall u :: u in r ==> u in SendersOf(c.messages)
  {
    var all := SendersOf(c.messages);
    assert Keys(all, UserId) == set i | 0 <= i < |c.messages| :: c.messages[i].sender.id;
    DistinctBy(all, UserId)
  }

  /** One user write per user, in order. */
  function UserWrites(users: seq<User>): (r: seq<Event>)
    ensures |r| == |users| && forall i :: 0 <= i < |users| ==> r[i] == Write(UpsertUser(users[i]))
  {
    seq(|users|, i requires 0 <= i < |users| => Write(UpsertUser(users[i])))
  }

  /** A write made only when `asked`. */
  function WriteIf(asked: bool, w: LocalWrite): seq<Event> {
    if asked then [Write(w)] else []
  }

  /** The writes `updateLocalConversation(c, ...)` makes, given the current
      user as the local user store reports it. */
  function UpdateEvents(c: Conversation, me: Option<User>, o: SaveOptions): seq<Event> {
    match me
    case None => []
    case Some(user) =>
      [Write(UpsertConversation(c))]
      + WriteIf(o.saveCreator, UpsertUser(c.creator))
      + WriteIf(o.saveParticipants, UpsertConversationParticipants(c.id, c.participants))
      + WriteIf(o.saveMessage, UpsertConversationMessages(c.id, StoredMessages(c, user, o.saveMyMessage)))
      + (if o.saveSender then UserWrites(Senders(c)) else [])
  }

  lemma InJoin<T>(x: T, a: seq<T>, b: seq<T>)
    ensures x in a + b <==> x in a || x in b
  {
  }

  lemma InWriteIf(x: Event, asked: bool, w: LocalWrite)
    ensures x in WriteIf(asked, w) <==> asked && x == Write(w)
  {
  }

  lemma InUserWrites(x: Event, users: seq<User>)
    ensures x in UserWrites(users) <==> x.Write? && x.write.UpsertUser? && x.write.user in users
  {
    if x in UserWrites(users) {
      var i :| 0 <= i < |users| && UserWrites(users)[i] == x;
    }
    if x.Write? && x.write.UpsertUser? && x.write.user in users {
      var i :| 0 <= i < |users| && users[i] == x.write.user;
      assert UserWrites(users)[i] == x;
    }
  }

  /** Where an event of `updateLocalConversation` comes from. */
  lemma InUpdateEvents(x: Event, c: Conversation, user: User, o: SaveOptions)
    ensures x in UpdateEvents(c, Some(user), o) <==>
      x == Write(UpsertConversation(c))
      || (o.saveCreator && x == Write(UpsertUser(c.creator)))
      || (o.saveParticipants && x == Write(UpsertConversationParticipants(c.id, c.participants)))
      || (o.saveMessage && x == Write(UpsertConversationMessages(c.id, StoredMessages(c, user, o.saveMyMessage))))
      || (o.saveSender && x.Write? && x.write.UpsertUser? && x.write.user in Senders(c))
  {
    var a := [Write(UpsertConversation(c))];
    var b := WriteIf(o.saveCreator, UpsertUser(c.creator));
    var p := WriteIf(o.saveParticipants, UpsertConversationParticipants(c.id, c.participants));
    var m := WriteIf(o.saveMessage, UpsertConversationMessages(c.id, StoredMessages(c, user, o.saveMyMessage)));
    var s := if o.saveSender then UserWrites(Senders(c)) else [];
    InJoin(x, a + b + p + m, s);
    InJoin(x, a + b + p, m);
    InJoin(x, a + b, p);
    InJoin(x, a, b);
    InWriteIf(x, o.saveCreator, UpsertUser(c.creator));
    InWriteIf(x, o.saveParticipants, UpsertConversationParticipants(c.id, c.participants));
    InWriteIf(x, o.saveMessage, UpsertConversationMessages(c.id, StoredMessages(c, user, o.saveMyMessage)));
    InUserWrites(x, Senders(c));
  }

  /** Without a current user nothing is written. Otherwise: only writes, the
      conversation first; the participants and the messages exactly when
      asked; and the users written are the creator (when asked) and the
      senders (when asked), every sender. */
  lemma UpdateWritesWhatIsAsked(c: Conversation, me: Option<User>, o: SaveOptions)
    ensures me.None? ==> UpdateEvents(c, me, o) == []
    ensures me.Some? ==> var e := UpdateEvents(c, me, o);
      |e| >= 1 && e[0] == Write(UpsertConversation(c))
      && (forall i :: 0 <= i < |e| ==> e[i].Write?)
      && (Write(UpsertConversationParticipants(c.id, c.participants)) in e <==> o.saveParticipants)
      && (Write(UpsertConversationMessages(c.id, StoredMessages(c, me.value, o.saveMyMessage))) in e <==> o.saveMessage)
      && (o.saveCreator ==> Write(UpsertUser(c.creator)) in e)
      && (o.saveSender ==> forall u :: u in Senders(c) ==> Write(UpsertUser(u)) in e)
      && (forall u :: Write(UpsertUser(u)) in e ==>
            (o.saveCreator && u == c.creator) || (o.saveSender && u in Senders(c)))
  {
    if me.Some? {
      var e := UpdateEvents(c, me, o);
      forall i | 0 <= i < |e| ensures e[i].Write? {
        InUpdateEvents(e[i], c, me.value, o);
      }
      InUpdateEvents(Write(UpsertConversationParticipants(c.id, c.participants)), c, me.value, o);
      InUpdateEvents(Write(UpsertConversationMessages(c.id, StoredMessages(c, me.value, o.saveMyMessage))), c, me.value, o);
      InUpdateEvents(Write(UpsertUser(c.creator)), c, me.value, o);
      forall u ensures Write(UpsertUser(u)) in e <==>
                       (o.saveCreator && u == c.creator) || (o.saveSender && u in Senders(c)) {
        InUpdateEvents(Write(UpsertUser(u)), c, me.value, o);
      }
    }
  }

  /** A streamed GROUP conversation never overwrites the stored participants. */
  lemma StreamedGroupKeepsParticipants(c: Conversation, me: Option<User>)
    requires c.conversationType == GROUP
    ensures forall x :: x in UpdateEvents(c, me, StreamOptions(c)) ==> !x.write.UpsertConversationParticipants?
  {
    if me.Some? {
      forall x | x in UpdateEvents(c, me, StreamOptions(c)) ensures !x.write.UpsertConversationParticipants? {
        InUpdateEvents(x, c, me.value, StreamOptions(c));
      }
    }
  }

  /** The writes of storing every conversation of a list, in order. */
  function RefreshEvents(cs: seq<Conversation>, me: Option<User>): seq<Event> {
    if cs == [] then []
    else RefreshEvents(cs[..|cs| - 1], me) + UpdateEvents(cs[|cs| - 1], me, SaveAll)
  }

  /** Storing a list writes every one of its conversations, and nothing at all
      without a current user. */
  lemma {:induction false} RefreshStoresEveryConversation(cs: seq<Conversation>, me: Option<User>)
    ensures me.None? ==> RefreshEvents(cs, me) == []
    ensures me.Some? ==> forall i :: 0 <= i < |cs| ==> Write(UpsertConversation(cs[i])) in RefreshEvents(cs, me)
    ensures forall e :: e in RefreshEvents(cs, me) ==> e.Write?
  {
    if cs != [] {
      var init := cs[..|cs| - 1];
      RefreshStoresEveryConversation(init, me);
      UpdateWritesWhatIsAsked(cs[|cs| - 1], me, SaveAll);
      var r := RefreshEvents(cs, me);
      assert r == RefreshEvents(init, me) + UpdateEvents(cs[|cs| - 1], me, SaveAll);
      if me.Some? {
        forall i | 0 <= i < |cs| ensures Write(UpsertConversation(cs[i])) in r {
          if i < |cs| - 1 {
            assert cs[i] == init[i];
          }
        }
      }
    }
  }

  // ---------------------------------------------------------------------
  // Assembling the views from the local stores

  /** What the local stores hold when a view is assembled: the stored
      conversations, each conversation's stored messages, the users by id,
      the current user, and each conversation's stored participants. */
  datatype LocalState = LocalState(
    conversations: seq<Conversation>,
    messages: map<Long, seq<Message>>,
    users: map<string, User>,
    me: Option<User>,
    participants: map<Long, seq<User>>)

  /** `findConversationMessages(id)`: nothing stored reads as no message. */
  function MessagesOf(s: LocalState, id: Long): seq<Message> {
    if id in s.messages then s.messages[id] else []
  }

  /** `findConversationParticipants(id)`. */
  function ParticipantsOf(s: LocalState, id: Long): seq<User> {
    if id in s.participants then s.participants[id] else []
  }

  /** `findById(u.id) ?: u`: the stored user, or the embedded copy. */
  function Resolve(s: LocalState, u: User): User {
    if u.id in s.users then s.users[u.id] else u
  }

  /** `sender.isMe || seenBy.contains(myId)`, where `myId` is a `Long` 0 when
      there is no current user, which no id string equals. */
  function SeenByMe(s: LocalState, sender: User, m: Message): bool {
    sender.isMe || (s.me.Some? && s.me.value.id in m.seenBy)
  }

  /** A message is shown when it has text or an attachment. */
  predicate HasContent(m: Message) {
    m.message != "" || m.attachments != []
  }

  /** `participants.find { it.id == id }`. */
  function ParticipantWithId(ps: seq<User>, id: string): (r: Option<User>)
    ensures r.Some? <==> id in Keys(ps, UserId)
    ensures r.Some? ==> r.value in ps && r.value.id == id
    ensures r.Some? ==> exists i :: 0 <= i < |ps| && ps[i] == r.value && forall j :: 0 <= j < i ==> ps[j].id != id
  {
    Find(ps, (p: User) => p.id == id)
  }

  /** `seenBy.mapNotNull { id -> participants.find { it.id == id } }`. */
  function SeenUsers(ids: seq<string>, ps: seq<User>): (r: seq<User>)
    ensures |r| <= |ids|
    ensures forall i :: 0 <= i < |r| ==> r[i] in ps
  {
    if ids == [] then []
    else
      var first := match ParticipantWithId(ps, ids[0]) case None => [] case Some(u) => [u];
      first + SeenUsers(ids[1..], ps)
  }

  /** The ids of the seen users are the seen ids that belong to a participant. */
  lemma {:induction false} SeenUsersAreSeenParticipants(ids: seq<string>, ps: seq<User>)
    ensures Keys(SeenUsers(ids, ps), UserId) == (set x | x in ids) * Keys(ps, UserId)
  {
    if ids != [] {
      SeenUsersAreSeenParticipants(ids[1..], ps);
      var f := ParticipantWithId(ps, ids[0]);
      var first := match f case None => [] case Some(u) => [u];
      KeysAppend(first, SeenUsers(ids[1..], ps), UserId);
      assert forall x :: x in ids <==> x == ids[0] || x in ids[1..];
      assert (set x | x in ids) == {ids[0]} + (set x | x in ids[1..]);
      if f.Some? {
        assert Keys(first, UserId) == {ids[0]};
      } else {
        assert Keys(first, UserId) == {};
      }
    }
  }

  /** One message of the conversation view, with its sender looked up and
      its two view properties set. */
  function Annotate(s: LocalState, ps: seq<User>, m: Message): SeenMessage {
    var sender := Resolve(s, m.sender);
    var anyId := exists i :: 0 <= i < |m.seenBy| && !IsBlank(m.seenBy[i]);
    SeenMessage(m.(sender := sender), if anyId then SeenUsers(m.seenBy, ps) else [], SeenByMe(s, sender, m))
  }

  /** A conversation as a screen receives it: the messages carry their view
      properties in `seen`, and `conversation.messages` lists the same
      messages. */
  datatype ConversationView = ConversationView(conversation: Conversation, seen: seq<SeenMessage>)

  function Plain(seen: seq<SeenMessage>): (r: seq<Message>)
    ensures |r| == |seen| && forall i :: 0 <= i < |seen| ==> r[i] == seen[i].message
  {
    seq(|seen|, i requires 0 <= i < |seen| => seen[i].message)
  }

  /** The stored messages of a conversation that have text or an attachment,
      in their stored order. */
  function ShownMessages(s: LocalState, id: Long): seq<Message> {
    Filter(MessagesOf(s, id), HasContent)
  }

  /** One emission of `getLocalConversation(id)`, or `None` while the
      conversation is not stored. */
  function ConversationDetail(s: LocalState, id: Long): Option<ConversationView> {
    match ConversationWithId(s.conversations, id)
    case None => None
    case Some(c) =>
      var ps := ParticipantsOf(s, c.id);
      var shown := ShownMessages(s, id);
      var seen := seq(|shown|, i requires 0 <= i < |shown| => Annotate(s, ps, shown[i]));
      Some(ConversationView(c.(creator := Resolve(s, c.creator), participants := ps, messages := Plain(seen)), seen))
  }

  /** The detail view exists exactly for a stored conversation, under its
      id, with the stored participants and its creator looked up. */
  lemma ConversationDetailExistsWhenStored(s: LocalState, id: Long)
    ensures ConversationDetail(s, id).Some? <==> id in Keys(s.conversations, ConversationId)
    ensures ConversationDetail(s, id).Some? ==> var v := ConversationDetail(s, id).value;
      v.conversation.id == id
      && v.conversation.participants == ParticipantsOf(s, id)
      && v.conversation.messages == Plain(v.seen)
      && exists c :: c in s.conversations && c.id == id && v.conversation.creator == Resolve(s, c.creator)
    ensures ConversationDetail(s, id).Some? ==>
      var v := ConversationDetail(s, id).value;
      var c := ConversationWithId(s.conversations, id).value;
      v.conversation == c.(creator := Resolve(s, c.creator), participants := ParticipantsOf(s, id), messages := Plain(v.seen))
  {
  }

  /** It shows the stored messages that have text or an attachment, and no
      other (see `Filter`), in their stored order, each with its sender
      looked up. */
  lemma ConversationDetailShowsContent(s: LocalState, id: Long, v: ConversationView)
    requires ConversationDetail(s, id) == Some(v)
    ensures var shown := ShownMessages(s, id);
      |v.seen| == |shown|
      && (forall i :: 0 <= i < |shown| ==> v.seen[i].message == shown[i].(sender := Resolve(s, shown[i].sender)))
      && (forall m :: m in MessagesOf(s, id) && HasContent(m) ==>
            exists i :: 0 <= i < |v.seen| && v.seen[i].message == m.(sender := Resolve(s, m.sender)))
  {
    var shown := ShownMessages(s, id);
    forall m | m in MessagesOf(s, id) && HasContent(m)
      ensures exists i :: 0 <= i < |v.seen| && v.seen[i].message == m.(sender := Resolve(s, m.sender))
    {
      var k :| 0 <= k < |MessagesOf(s, id)| && MessagesOf(s, id)[k] == m;
      var i :| 0 <= i < |shown| && shown[i] == m;
      assert v.seen[i].message == m.(sender := Resolve(s, m.sender));
    }
  }

  /** A message is seen by me when I sent it or my id is among its readers;
      its seen users are participants, and none are listed unless some
      reader id is not blank. */
  lemma ConversationDetailSeenBy(s: LocalState, id: Long, v: ConversationView)
    requires ConversationDetail(s, id) == Some(v)
    ensures forall i :: 0 <= i < |v.seen| ==>
        (v.seen[i].isSeenByMe <==>
           v.seen[i].message.sender.isMe || (s.me.Some? && s.me.value.id in v.seen[i].message.seenBy))
        && (forall u :: u in v.seen[i].seenUsers ==> u in v.conversation.participants)
        && ((forall j :: 0 <= j < |v.seen[i].message.seenBy| ==> IsBlank(v.seen[i].message.seenBy[j])) ==>
              v.seen[i].seenUsers == [])
    ensures forall i :: 0 <= i < |v.seen| && (exists j :: 0 <= j < |v.seen[i].message.seenBy| && !IsBlank(v.seen[i].message.seenBy[j])) ==>
        Keys(v.seen[i].seenUsers, UserId) == (set x | x in v.seen[i].message.seenBy) * Keys(v.conversation.participants, UserId)
  {
    forall i | 0 <= i < |v.seen| {
      SeenUsersAreSeenParticipants(v.seen[i].message.seenBy, v.conversation.participants);
    }
  }

  /** The messages a list entry shows: the first stored message, if any
      (`findConversationMessages(id, limit = 1)`). */
  function LatestStored(s: LocalState, id: Long): seq<Message> {
    Take(MessagesOf(s, id), 1)
  }

  /** One entry of `getLocalConversations()`: `None` (dropped) for a
      conversation with no stored message; otherwise the conversation with its
      creator looked up, at most four participants and its one message, whose
      seen users are left empty. */
  function ListEntry(s: LocalState, c: Conversation): (r: Option<ConversationView>)
    ensures r.None? <==> MessagesOf(s, c.id) == []
    ensures r.Some? ==>
      var v := r.value;
      var m := MessagesOf(s, c.id)[0];
      var sender := Resolve(s, m.sender);
      && v.conversation.id == c.id && v.conversation.title == c.title
      && v.conversation.conversationType == c.conversationType
      && v.conversation.createdAt == c.createdAt && v.conversation.updatedAt == c.updatedAt
      && v.conversation.creator == Resolve(s, c.creator)
      && v.conversation.participants == Take(ParticipantsOf(s, c.id), 4)
      && v.seen == [SeenMessage(m.(sender := sender), [], SeenByMe(s, sender, m))]
      && v.conversation.messages == [v.seen[0].message]
  {
    var latest := LatestStored(s, c.id);
    if latest == [] then None
    else
      var m := latest[0];
      var sender := Resolve(s, m.sender);
      var seen := [SeenMessage(m.(sender := sender), [], SeenByMe(s, sender, m))];
      Some(ConversationView(
        Conversation(c.id, c.title, c.conversationType, Resolve(s, c.creator),
                     Take(ParticipantsOf(s, c.id), 4), Plain(seen), c.createdAt, c.updatedAt),
        seen))
  }

  /** `localConversations.mapNotNull { ... }`. */
  function ConversationList(s: LocalState, cs: seq<Conversation>): seq<ConversationView> {
    if cs == [] then []
    else
      var init := ConversationList(s, cs[..|cs| - 1]);
      match ListEntry(s, cs[|cs| - 1])
      case None => init
      case Some(v) => init + [v]
  }

  function ViewId(v: ConversationView): Long { v.conversation.id }

  /** Whether a conversation has a stored message, as a predicate to filter by. */
  function HasStoredMessage(s: LocalState): Conversation -> bool {
    (c: Conversation) => MessagesOf(s, c.id) != []
  }

  /** The list keeps the stored order: its entries are, one for one and in
      order, the entries of the stored conversations that have a stored
      message. */
  lemma {:induction false} ConversationListFollowsStoredOrder(s: LocalState, cs: seq<Conversation>)
    ensures var f := Filter(cs, HasStoredMessage(s));
            var l := ConversationList(s, cs);
            |l| == |f| && forall i :: 0 <= i < |l| ==> ListEntry(s, f[i]) == Some(l[i])
  {
    if cs != [] {
      var init := cs[..|cs| - 1];
      var last := cs[|cs| - 1];
      ConversationListFollowsStoredOrder(s, init);
      assert cs == init + [last];
      FilterAppend(init, [last], HasStoredMessage(s));
      FilterSingleton(last, HasStoredMessage(s));
    }
  }

  /** The list holds an entry exactly for each stored conversation that has a
      stored message, and every entry shows one message, the conversation's
      first stored one, and at most four participants. */
  lemma {:induction false} ConversationListIsTheNonEmpty(s: LocalState, cs: seq<Conversation>)
    ensures Keys(ConversationList(s, cs), ViewId) ==
              set i | 0 <= i < |cs| && MessagesOf(s, cs[i].id) != [] :: cs[i].id
    ensures forall v :: v in ConversationList(s, cs) ==>
              |v.seen| == 1 && v.conversation.messages == [v.seen[0].message]
              && MessagesOf(s, v.conversation.id) != []
              && v.seen[0].message.id == MessagesOf(s, v.conversation.id)[0].id
              && |v.conversation.participants| <= 4
  {
    if cs != [] {
      var init := cs[..|cs| - 1];
      var last := cs[|cs| - 1];
      ConversationListIsTheNonEmpty(s, init);
      var li := ConversationList(s, init);
      var ids := set i | 0 <= i < |cs| && MessagesOf(s, cs[i].id) != [] :: cs[i].id;
      var initIds := set i | 0 <= i < |init| && MessagesOf(s, init[i].id) != [] :: init[i].id;
      assert ids == initIds + (if MessagesOf(s, last.id) != [] then {last.id} else {}) by {
        forall k | k in ids ensures k in initIds + (if MessagesOf(s, last.id) != [] then {last.id} else {}) {
          var i :| 0 <= i < |cs| && MessagesOf(s, cs[i].id) != [] && cs[i].id == k;
          if i < |cs| - 1 { assert init[i] == cs[i]; }
        }
        forall k | k in initIds ensures k in ids {
          var i :| 0 <= i < |init| && MessagesOf(s, init[i].id) != [] && init[i].id == k;
          assert cs[i] == init[i];
        }
      }
      match ListEntry(s, last)
      case None =>
      case Some(v) =>
        KeysSnoc(li, v, ViewId);
  }
  }

  /** The key `getConversations()` sorts by:
      `messages.maxByOrNull { it.createdAt }?.createdAt`. */
  function LatestCreatedAt(ms: seq<Message>): (r: Option<Instant>)
    ensures r.None? <==> ms == []
    ensures r.Some? ==> (exists i :: 0 <= i < |ms| && ms[i].createdAt == r.value)
                        && forall i :: 0 <= i < |ms| ==> ms[i].createdAt <= r.value
  {
    if ms == [] then None
    else match LatestCreatedAt(ms[1..])
      case None => Some(ms[0].createdAt)
      case Some(t) =>
        assert forall i :: 1 <= i < |ms| ==> ms[i] == ms[1..][i - 1];
        Some(if ms[0].createdAt >= t then ms[0].createdAt else t)
  }

  function SortKey(v: ConversationView): Option<Instant> {
    LatestCreatedAt(v.conversation.messages)
  }

  /** One emission of `getConversations()`: the list, newest message first. */
  function ConversationsScreen(s: LocalState): seq<ConversationView> {
    SortedByDescending(ConversationList(s, s.conversations), SortKey)
  }

  /** The screen is the list reordered: every entry has a latest message, the
      entries run from the newest latest message to the oldest, and entries
      with equal times keep their stored order. */
  lemma ConversationsScreenIsNewestFirst(s: LocalState, t: Option<Instant>)
    ensures multiset(ConversationsScreen(s)) == multiset(ConversationList(s, s.conversations))
    ensures SortedDescending(ConversationsScreen(s), SortKey)
    ensures forall v :: v in ConversationsScreen(s) ==> SortKey(v).Some?
    ensures WithKey(ConversationsScreen(s), SortKey, t) == WithKey(ConversationList(s, s.conversations), SortKey, t)
  {
    var list := ConversationList(s, s.conversations);
    SortIsSorted(list, SortKey);
    SortIsStable(list, SortKey, t);
    ConversationListIsTheNonEmpty(s, s.conversations);
    forall v | v in ConversationsScreen(s) ensures SortKey(v).Some? {
      assert v in multiset(list);
    }
  }

  lemma RefreshEventsSnoc(cs: seq<Conversation>, i: nat, me: Option<User>)
    requires i < |cs|
    ensures RefreshEvents(cs[..i + 1], me) == RefreshEvents(cs[..i], me) + UpdateEvents(cs[i], me, SaveAll)
  {
    assert cs[..i + 1][..i] == cs[..i];
  }

  lemma AppendAssociative<T>(a: seq<T>, b: seq<T>, c: seq<T>)
    ensures (a + b) + c == a + (b + c)
  {
  }

  // ---------------------------------------------------------------------
  // The repository object

  /** The repository, reduced to the log of what it has done. */
  class ConversationRepositoryImpl {
    var log: seq<Event>

    constructor ()
      ensures log == []
    {
      log := [];
    }

    method CreateConversation(userId: string, createApi: ApiRequest -> ApiCall<Conversation>)
      returns (id: Outcome<Long>)
      modifies this
      ensures log == old(log) + [Request(NewSingleRequest(userId))]
      ensures id == CreatedId(createApi(NewSingleRequest(userId)))
    {
      log := log + [Request(NewSingleRequest(userId))];
      var answer := createApi(NewSingleRequest(userId));
      if answer.Threw? {
        return Thrown;
      }
      if answer.data.Some? {
        id := Returned(answer.data.value.id);
      } else {
        id := Returned(0);
      }
    }

    method SendConversationMessage(conversationId: Long, userId: string, message: Message, me: Option<User>,
                                   createApi: ApiRequest -> ApiCall<Conversation>,
                                   sendApi: ApiRequest -> ApiCall<Message>)
      returns (r: Outcome<Long>)
      modifies this
      ensures var t := Send(conversationId, userId, message, me, createApi, sendApi);
        log == old(log) + t.events && r == t.result
    {
      var target: Long := conversationId;
      if conversationId == 0 {
        var created := CreateConversation(userId, createApi);
        if created.Thrown? {
          return Thrown;
        }
        target := created.value;
      }
      if target == 0 {
        return Returned(0);
      }
      if me.None? {
        return Thrown;
      }
      var sending := message.(sender := me.value, status := SENDING);
      log := log + [Write(LocalWrite.UpsertConversationMessages(target, [sending]))];
      var request := SendConversationMessageRequest(target, sending);
      log := log + [Request(request)];
      var answer := sendApi(request);
      if answer.Threw? {
        return Thrown;
      }
      var sent: Message;
      if answer.successful && answer.data.Some? {
        sent := answer.data.value.(localId := sending.localId, status := SENT);
      } else {
        sent := sending.(status := FAILED);
      }
      log := log + [Write(LocalWrite.UpsertConversationMessages(target, [sent]))];
      r := Returned(target);
    }

    method GetConversationMessages(conversationId: Long, before: Option<Long>, after: Option<Long>,
                                   messagesApi: ApiRequest -> ApiCall<seq<Message>>)
      returns (r: seq<Message>)
      modifies this
      ensures var t := FetchMessages(conversationId, before, after, messagesApi);
        log == old(log) + t.events && Returned(r) == t.result
    {
      var request := GetConversationMessagesRequest(conversationId, before, after);
      log := log + [Request(request)];
      var answer := messagesApi(request);
      if answer.Threw? || !answer.successful {
        r := [];
        return;
      }
      var page := if answer.data.Some? then answer.data.value else [];
      r := [];
      for i := 0 to |page|
        invariant |r| == i && forall j :: 0 <= j < i ==> r[j] == page[j].(status := SENT)
      {
        r := r + [page[i].(status := SENT)];
      }
      assert r == MarkSent(page);
      log := log + [Write(LocalWrite.UpsertConversationMessages(conversationId, r))];
    }

    method UpdateLocalConversation(c: Conversation, me: Option<User>, o: SaveOptions)
      modifies this
      ensures log == old(log) + UpdateEvents(c, me, o)
    {
      if me.None? {
        return;
      }
      var user := me.value;
      var stored := [Write(UpsertConversation(c))]
        + WriteIf(o.saveCreator, UpsertUser(c.creator))
        + WriteIf(o.saveParticipants, UpsertConversationParticipants(c.id, c.participants))
        + WriteIf(o.saveMessage, LocalWrite.UpsertConversationMessages(c.id, StoredMessages(c, user, o.saveMyMessage)));
      ghost var start := log;
      log := log + stored;
      if o.saveSender {
        var senders := Senders(c);
        UpsertUsers(senders);
        AppendAssociative(start, stored, UserWrites(senders));
      }
    }

    /** `forEach { localUserDataSource.upsert(it) }`. */
    method UpsertUsers(users: seq<User>)
      modifies this
      ensures log == old(log) + UserWrites(users)
    {
      for i := 0 to |users|
        invariant log == old(log) + UserWrites(users[..i])
      {
        assert UserWrites(users[..i + 1]) == UserWrites(users[..i]) + [Write(UpsertUser(users[i]))];
        log := log + [Write(UpsertUser(users[i]))];
      }
      assert users[..|users|] == users;
    }

    /** One conversation from the stream. */
    method OnConversationStreamed(c: Conversation, me: Option<User>)
      modifies this
      ensures log == old(log) + UpdateEvents(c, me, StreamOptions(c))
    {
      UpdateLocalConversation(c, me, StreamOptions(c));
    }

    /** The background refresh `getConversation(id)` launches. */
    method RefreshConversation(conversationId: Long, answer: ApiCall<Conversation>, me: Option<User>)
      modifies this
      ensures log == old(log) + [Request(GetConversationRequest(conversationId))]
                    + (if answer.Responded? && answer.data.Some? then UpdateEvents(answer.data.value, me, SaveAll) else [])
    {
      log := log + [Request(GetConversationRequest(conversationId))];
      if answer.Responded? && answer.data.Some? {
        UpdateLocalConversation(answer.data.value, me, SaveAll);
      }
    }

    /** The background refresh `getConversations()` launches. */
    method RefreshConversations(answer: ApiCall<seq<Conversation>>, me: Option<User>)
      modifies this
      ensures log == old(log) + [Request(GetConversationsRequest)]
                    + (if answer.Responded? && answer.data.Some? then RefreshEvents(answer.data.value, me) else [])
    {
      log := log + [Request(GetConversationsRequest)];
      if answer.Responded? && answer.data.Some? {
        UpdateLocalConversations(answer.data.value, me);
        AppendAssociative(old(log), [Request(GetConversationsRequest)], RefreshEvents(answer.data.value, me));
      }
    }

    /** `forEach { updateLocalConversation(it) }`. */
    method UpdateLocalConversations(cs: seq<Conversation>, me: Option<User>)
      modifies this
      ensures log == old(log) + RefreshEvents(cs, me)
    {
      for i := 0 to |cs|
        invariant log == old(log) + RefreshEvents(cs[..i], me)
      {
        RefreshEventsSnoc(cs, i, me);
        UpdateLocalConversation(cs[i], me, SaveAll);
        AppendAssociative(old(log), RefreshEvents(cs[..i], me), UpdateEvents(cs[i], me, SaveAll));
      }
      assert cs[..|cs|] == cs;
    }

    method UpsertConversationMessages(conversationId: Long, messages: seq<Message>)
      modifies this
      ensures log == old(log) + [Write(LocalWrite.UpsertConversationMessages(conversationId, messages))]
    {
      log := log + [Write(LocalWrite.UpsertConversationMessages(conversationId, messages))];
    }

    method UpdateMessageStatus(conversationId: Long, messageId: Long)
      modifies this
      ensures log == old(log) + [Request(UpdateMessageStatusRequest(conversationId, messageId))]
    {
      log := log + [Request(UpdateMessageStatusRequest(conversationId, messageId))];
    }
  }
}
