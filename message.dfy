/** The conversation domain model: users, messages, attachments and
    conversations, the two message enums, the defaults of a new message, and
    the attachment URL / photo URI choice. */
module Messages {
  import opened Strings
  import opened Lists

  /** The fields of a user the conversation core reads. */
  datatype User = User(id: string, name: string, isMe: bool)

  /** `User()`: a user with no identity yet. */
  const DefaultUser: User := User("", "", false)

  datatype MessageStatus = SENDING | SENT | VIEWED | FAILED

  datatype MessageType = PLAINTEXT | STICKER | GIF | PHOTO | DOCUMENT | UNDEFINED

  datatype ConversationType = SINGLE | GROUP

  /** Instants are milliseconds since the epoch. */
  type Instant = int

  /** `contents` is transient: it is never serialised. */
  datatype MessageAttachment = MessageAttachment(
    id: Long,
    name: string,
    originalName: string,
    mimeType: string,
    size: Long,
    url: string,
    localPath: string,
    contents: seq<bv8>)

  /** The constructor fields of a message. The body properties `seenUsers`
      and `isSeenByMe` are not fields of the data class: they live in
      `SeenMessage` below, so they take no part in equality and a copy of a
      message never carries them. */
  datatype Message = Message(
    id: Long,
    localId: string,
    sender: User,
    message: string,
    stickerUrl: string,
    attachments: seq<MessageAttachment>,
    messageType: MessageType,
    status: MessageStatus,
    seenBy: seq<string>,
    createdAt: Instant,
    updatedAt: Instant)

  /** A message as the conversation view hands it out, with the two body
      properties set. */
  datatype SeenMessage = SeenMessage(message: Message, seenUsers: seq<User>, isSeenByMe: bool)

  datatype Conversation = Conversation(
    id: Long,
    title: string,
    conversationType: ConversationType,
    creator: User,
    participants: seq<User>,
    messages: seq<Message>,
    createdAt: Instant,
    updatedAt: Instant)

  /** `Message(message = text)`: every other field at its default. The random
      `localId` and the two clock readings are inputs. */
  function NewMessage(text: string, localId: string, createdAt: Instant, updatedAt: Instant): (m: Message)
    ensures m.id == 0 && m.status == SENDING && m.messageType == UNDEFINED
    ensures m.seenBy == [] && m.attachments == [] && m.stickerUrl == "" && m.sender == DefaultUser
    ensures m.message == text && m.localId == localId
    ensures m.createdAt == createdAt && m.updatedAt == updatedAt
  {
    Message(0, localId, DefaultUser, text, "", [], UNDEFINED, SENDING, [], createdAt, updatedAt)
  }

  /** Every status, in declaration order. */
  const AllStatuses: seq<MessageStatus> := [SENDING, SENT, VIEWED, FAILED]

  /** Every message type, in declaration order. */
  const AllTypes: seq<MessageType> := [PLAINTEXT, STICKER, GIF, PHOTO, DOCUMENT, UNDEFINED]

  /** The serialised name of a status (kotlinx.serialization writes enum names). */
  function StatusName(s: MessageStatus): string {
    match s
    case SENDING => "SENDING"
    case SENT => "SENT"
    case VIEWED => "VIEWED"
    case FAILED => "FAILED"
  }

  function ParseStatus(name: string): (r: Option<MessageStatus>)
    ensures r.Some? ==> StatusName(r.value) == name
  {
    if name == "SENDING" then Some(SENDING)
    else if name == "SENT" then Some(SENT)
    else if name == "VIEWED" then Some(VIEWED)
    else if name == "FAILED" then Some(FAILED)
    else None
  }

  /** The serialised name of a message type. */
  function TypeName(t: MessageType): string {
    match t
    case PLAINTEXT => "PLAINTEXT"
    case STICKER => "STICKER"
    case GIF => "GIF"
    case PHOTO => "PHOTO"
    case DOCUMENT => "DOCUMENT"
    case UNDEFINED => "UNDEFINED"
  }

  function ParseType(name: string): (r: Option<MessageType>)
    ensures r.Some? ==> TypeName(r.value) == name
  {
    if name == "PLAINTEXT" then Some(PLAINTEXT)
    else if name == "STICKER" then Some(STICKER)
    else if name == "GIF" then Some(GIF)
    else if name == "PHOTO" then Some(PHOTO)
    else if name == "DOCUMENT" then Some(DOCUMENT)
    else if name == "UNDEFINED" then Some(UNDEFINED)
    else None
  }

  /** There are exactly four statuses and six types, each listed once, and
      every one is read back from its serialised name. */
  lemma EnumsAreClosed()
    ensures |AllStatuses| == 4 && forall s: MessageStatus :: s in AllStatuses
    ensures |AllTypes| == 6 && forall t: MessageType :: t in AllTypes
    ensures forall i, j :: 0 <= i < j < |AllStatuses| ==> AllStatuses[i] != AllStatuses[j]
    ensures forall i, j :: 0 <= i < j < |AllTypes| ==> AllTypes[i] != AllTypes[j]
    ensures forall s: MessageStatus :: ParseStatus(StatusName(s)) == Some(s)
    ensures forall t: MessageType :: ParseType(TypeName(t)) == Some(t)
  {
    forall s: MessageStatus ensures ParseStatus(StatusName(s)) == Some(s) && s in AllStatuses {
      match s
      case SENDING =>
      case SENT =>
      case VIEWED =>
      case FAILED =>
    }
    forall t: MessageType ensures ParseType(TypeName(t)) == Some(t) && t in AllTypes {
      match t
      case PLAINTEXT =>
      case STICKER =>
      case GIF =>
      case PHOTO =>
      case DOCUMENT =>
      case UNDEFINED =>
    }
  }

  /** `getAttachmentUrl`: `<base>/conversations/<conversationId>/attachments/<id>`.
      The base URL is a build constant, so it is an input here. */
  function AttachmentUrl(baseUrl: string, a: MessageAttachment, conversationId: Long): string {
    baseUrl + "/conversations/" + LongToString(conversationId) + "/attachments/" + LongToString(a.id)
  }

  /** Under one base URL the URL names the conversation and the attachment id
      exactly: different ones never share a URL. */
  lemma AttachmentUrlInjective(baseUrl: string, a: MessageAttachment, c: Long, b: MessageAttachment, d: Long)
    requires AttachmentUrl(baseUrl, a, c) == AttachmentUrl(baseUrl, b, d)
    ensures c == d && a.id == b.id
  {
    var head := baseUrl + "/conversations/";
    var sep := "/attachments/";
    var x1, x2 := LongToString(c), LongToString(d);
    var y1, y2 := sep + LongToString(a.id), sep + LongToString(b.id);
    assert AttachmentUrl(baseUrl, a, c) == head + (x1 + y1);
    assert AttachmentUrl(baseUrl, b, d) == head + (x2 + y2);
    DropCommonPrefix(head, x1 + y1, x2 + y2);
    LongToStringHasNo(c, '/');
    LongToStringHasNo(d, '/');
    SplitAtSeparator(x1, y1, x2, y2, '/');
    LongToStringInjective(c, d);
    DropCommonPrefix(sep, LongToString(a.id), LongToString(b.id));
    LongToStringInjective(a.id, b.id);
  }

  /** `getPhotoUri`: the local file when there is one, else the server URL;
      either way the URI is never blank. */
  function PhotoUri(baseUrl: string, a: MessageAttachment, conversationId: Long): (r: string)
    ensures !IsBlank(a.localPath) ==> r == a.localPath
    ensures IsBlank(a.localPath) ==> r == AttachmentUrl(baseUrl, a, conversationId)
    ensures !IsBlank(r)
  {
    if !IsBlank(a.localPath) then a.localPath
    else
      var url := AttachmentUrl(baseUrl, a, conversationId);
      assert url[|baseUrl|] == '/';
      url
  }
}
