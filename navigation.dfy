/** The app's navigation commands: the route template each one is
    registered under, and the concrete route each one navigates to. */
module Navigation {
  import opened Strings

  /** The navigation commands. `FinishWithResults` carries a map of results
      whose values may be of any type; here they are strings. */
  datatype Direction =
    | Root
    | Splash
    | TermsOfService
    | Auth
    | Signup
    | Forgot
    | CountryPicker
    | AuthOTP(phone: string)
    | UpdateProfile
    | Home
    | ChatItem
    | CelebrationItem
    | PlayItem
    | StoreItem
    | UserItem
    | MyInfo
    | Setting
    | Back
    | Chat(conversationId: Long, userId: string, userName: string)
    | SelectContact
    | FinishWithResults(data: map<string, string>)
    | PhoneSettings

  /** `destination`: the route each command is registered under. */
  function Destination(d: Direction): string {
    match d
    case Root => "root"
    case Splash => "splash"
    case TermsOfService => "terms_of_service"
    case Auth => "auth"
    case Signup => "signup"
    case Forgot => "forget"
    case CountryPicker => "country_picker"
    case AuthOTP(_) => "auth_otp?phone={phone}"
    case UpdateProfile => "update_profile"
    case Home => "home"
    case ChatItem => "home_chat_item"
    case CelebrationItem => "home_celebration_item"
    case PlayItem => "home_play_item"
    case StoreItem => "home_store_item"
    case UserItem => "home_user_item"
    case MyInfo => "my_info"
    case Setting => "setting"
    case Back => "back"
    case Chat(_, _, _) => "chat?conversationId={conversationId}&userId={userId}&userName={userName}"
    case SelectContact => "select_contact"
    case FinishWithResults(_) => "back"
    case PhoneSettings => "phone_settings"
  }

  /** `createDestination()`: the route navigated to. `encode` is
      `URLEncoder.encode(_, "UTF-8")`. A command without arguments navigates
      to its registered route. */
  function CreateDestination(d: Direction, encode: string -> string): string {
    match d
    case AuthOTP(phone) => "auth_otp?phone=" + encode(phone)
    case Chat(c, u, n) => ChatRoute(LongToString(c), u, n)
    case _ => Destination(d)
  }

  /** The shape of a chat route, with the three argument values filled in. */
  function ChatRoute(conversationId: string, userId: string, userName: string): string {
    "chat?conversationId=" + conversationId + "&userId=" + userId + "&userName=" + userName
  }

  /** The chat template and the chat route agree: the same path and the
      same three arguments in the same order, the route holding the values
      where the template holds the `{name}` placeholders. The same holds for
      the one argument of `AuthOTP`. */
  lemma RoutesFollowTheirTemplates(c: Long, userId: string, userName: string, phone: string, encode: string -> string)
    ensures Destination(Chat(c, userId, userName)) == ChatRoute("{conversationId}", "{userId}", "{userName}")
    ensures CreateDestination(Chat(c, userId, userName), encode) == ChatRoute(LongToString(c), userId, userName)
    ensures Destination(AuthOTP(phone)) == "auth_otp?phone=" + "{phone}"
    ensures CreateDestination(AuthOTP(phone), encode) == "auth_otp?phone=" + encode(phone)
  {
    ChatTemplateIsChatRoute();
  }

  lemma ChatTemplateIsChatRoute()
    ensures "chat?conversationId={conversationId}&userId={userId}&userName={userName}"
         == ChatRoute("{conversationId}", "{userId}", "{userName}")
  {
    assert "chat?conversationId={conversationId}" == "chat?conversationId=" + "{conversationId}";
    assert "chat?conversationId={conversationId}&userId=" == "chat?conversationId={conversationId}" + "&userId=";
    assert "chat?conversationId={conversationId}&userId={userId}" == "chat?conversationId={conversationId}&userId=" + "{userId}";
    assert "chat?conversationId={conversationId}&userId={userId}&userName="
        == "chat?conversationId={conversationId}&userId={userId}" + "&userName=";
    assert "chat?conversationId={conversationId}&userId={userId}&userName={userName}"
        == "chat?conversationId={conversationId}&userId={userId}&userName=" + "{userName}";
  }

  /** `Chat()` navigates to `chat?conversationId=0&userId=&userName=`. */
  lemma DefaultChatRoute(encode: string -> string)
    ensures CreateDestination(Chat(0, "", ""), encode) == "chat?conversationId=0&userId=&userName="
  {
    assert LongToString(0) == "0";
    assert "chat?conversationId=" + "0" == "chat?conversationId=0";
    assert "chat?conversationId=0" + "&userId=" + "" == "chat?conversationId=0&userId=";
    assert "chat?conversationId=0&userId=" + "&userName=" + "" == "chat?conversationId=0&userId=&userName=";
  }

  /** A route names its chat when the user id holds no `&`. */
  lemma ChatRouteNamesItsChat(c1: Long, u1: string, n1: string, c2: Long, u2: string, n2: string,
                              encode: string -> string)
    requires '&' !in u1 && '&' !in u2
    requires CreateDestination(Chat(c1, u1, n1), encode) == CreateDestination(Chat(c2, u2, n2), encode)
    ensures c1 == c2 && u1 == u2 && n1 == n2
  {
    ChatArgumentsAreRecoverable(LongToString(c1), u1, n1, LongToString(c2), u2, n2);
    LongToStringInjective(c1, c2);
  }

  /** A chat route, read from the left: the head, then the conversation id,
      then the rest. */
  lemma ChatRouteFromTheLeft(x: string, u: string, n: string)
    ensures ChatRoute(x, u, n) == "chat?conversationId=" + (x + ("&userId=" + (u + ("&userName=" + n))))
  {
    var h, a, b := "chat?conversationId=", "&userId=", "&userName=";
    assert (h + x + a + u + b) + n == (h + x + a + u) + (b + n);
    assert (h + x + a + u) + (b + n) == (h + x + a) + (u + (b + n));
    assert (h + x + a) + (u + (b + n)) == (h + x) + (a + (u + (b + n)));
    assert (h + x) + (a + (u + (b + n))) == h + (x + (a + (u + (b + n))));
  }

  /** The splitting behind both route lemmas: with an `&`-free conversation
      id and user id, the three values are read back from the route. */
  lemma ChatArgumentsAreRecoverable(x1: string, u1: string, n1: string, x2: string, u2: string, n2: string)
    requires '&' !in x1 && '&' !in x2 && '&' !in u1 && '&' !in u2
    requires ChatRoute(x1, u1, n1) == ChatRoute(x2, u2, n2)
    ensures x1 == x2 && u1 == u2 && n1 == n2
  {
    ChatRouteFromTheLeft(x1, u1, n1);
    ChatRouteFromTheLeft(x2, u2, n2);
    var z1 := "&userName=" + n1;
    var z2 := "&userName=" + n2;
    var y1 := "&userId=" + (u1 + z1);
    var y2 := "&userId=" + (u2 + z2);
    DropCommonPrefix("chat?conversationId=", x1 + y1, x2 + y2);
    SplitAtSeparator(x1, y1, x2, y2, '&');
    DropCommonPrefix("&userId=", u1 + z1, u2 + z2);
    SplitAtSeparator(u1, z1, u2, z2, '&');
    DropCommonPrefix("&userName=", n1, n2);
  }

  /** As written, a user id holding `&userName=` makes two different chats
      share one route. */
  lemma ChatRouteCollides(encode: string -> string)
    ensures Chat(1, "a&userName=b", "") != Chat(1, "a", "b&userName=")
    ensures CreateDestination(Chat(1, "a&userName=b", ""), encode) ==
            CreateDestination(Chat(1, "a", "b&userName="), encode)
  {
    assert LongToString(1) == "1";
    ChatRouteFromTheLeft("1", "a&userName=b", "");
    ChatRouteFromTheLeft("1", "a", "b&userName=");
    assert "a&userName=b" + ("&userName=" + "") == "a" + ("&userName=" + "b&userName=");
  }

  /** The route with the user id and name URL-encoded, as `AuthOTP` encodes
      the phone number. */
  function EncodedChatRoute(c: Long, userId: string, userName: string, encode: string -> string): string {
    ChatRoute(LongToString(c), encode(userId), encode(userName))
  }

  /** With an encoder that is injective and never emits `&`, as URL encoding
      is, the encoded route names its chat. */
  lemma EncodedChatRouteNamesItsChat(c1: Long, u1: string, n1: string, c2: Long, u2: string, n2: string,
                                     encode: string -> string)
    requires forall s :: '&' !in encode(s)
    requires forall s, t :: encode(s) == encode(t) ==> s == t
    requires EncodedChatRoute(c1, u1, n1, encode) == EncodedChatRoute(c2, u2, n2, encode)
    ensures c1 == c2 && u1 == u2 && n1 == n2
  {
    LongToStringHasNo(c1, '&');
    LongToStringHasNo(c2, '&');
    ChatArgumentsAreRecoverable(LongToString(c1), encode(u1), encode(n1), LongToString(c2), encode(u2), encode(n2));
    LongToStringInjective(c1, c2);
  }

  /** `AuthOTP` routes name their phone number whenever the encoder is
      injective. */
  lemma AuthOTPRouteNamesItsPhone(p1: string, p2: string, encode: string -> string)
    requires forall s, t :: encode(s) == encode(t) ==> s == t
    requires CreateDestination(AuthOTP(p1), encode) == CreateDestination(AuthOTP(p2), encode)
    ensures p1 == p2
  {
    DropCommonPrefix("auth_otp?phone=", encode(p1), encode(p2));
  }

  /** The commands whose registered route is "back". */
  predicate GoesBack(d: Direction) {
    d.Back? || d.FinishWithResults?
  }

  /** `Back` and `FinishWithResults` are registered under the same route,
      "back", and no other command is. */
  lemma OnlyBackCommandsShareBack(d: Direction, results: map<string, string>)
    ensures Destination(Back) == Destination(FinishWithResults(results))
    ensures Destination(d) == "back" <==> GoesBack(d)
  {
  }
}
