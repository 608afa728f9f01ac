/**
 * The two chat screens: the patient's (frontend/src/pages/ChatPage.jsx) and the doctor's
 * (admin/src/pages/Doctor/DoctorChatPage.jsx). Each is a class over the page's React state;
 * a request's reply is a parameter (`Response<Chat>`), where a status outside 2xx is the
 * rejection axios throws, and the clock is `now`.
 */
module ChatPages {
  import opened Wrappers
  import opened Text
  import opened Http
  import opened Chats
  import opened ChatQueries
  import opened LocalMessages
  import UserController
  import DoctorController

  /** axios resolves for a 2xx status and throws otherwise. */
  predicate Resolves<T>(r: Response<T>) {
    200 <= r.status < 300
  }

  /** `new Date(chat.expiresAt) < new Date()`: a missing expiry is an invalid date, and `NaN < now` is false. */
  predicate ClientExpired(c: Chat, now: nat) {
    c.expiresAt.Some? && c.expiresAt.value < now
  }

  /** A chat the server would accept a patient's message for at `now`. */
  predicate ServerOpen(c: Chat, now: nat) {
    c.paymentStatus && Unexpired(c, now)
  }

  /**
   * The client and the server disagree for exactly one instant: at `now == expiresAt` the page
   * still enables the message box, but the server already refuses (`$gt`). At every other
   * moment a paid chat with an expiry is either open on both or closed on both.
   */
  lemma ExpiryBoundary(c: Chat, now: nat)
    requires c.paymentStatus && c.expiresAt.Some?
    ensures !ClientExpired(c, now) && !ServerOpen(c, now) <==> c.expiresAt.value == now
    ensures ClientExpired(c, now) ==> !ServerOpen(c, now)
  {
  }

  /** `chats.find(c => c._id === chatId)` over the list held in the app context. */
  function FindActive(active: seq<Chat>, chatId: nat): (r: Option<Chat>)
    ensures r.Some? ==> r.value in active && r.value.id == chatId
    ensures r.None? ==> forall c :: c in active ==> c.id != chatId
  {
    if active == [] then None
    else if active[0].id == chatId then Some(active[0])
    else FindActive(active[1..], chatId)
  }

  /** The patient's chat screen. */
  class ChatPage {
    var currentChat: Option<Chat>
    var messages: seq<LocalMessage>
    var error: Option<string>
    var redirect: Option<string>

    constructor ()
      ensures currentChat.None? && messages == [] && error.None? && redirect.None?
    {
      currentChat := None;
      messages := [];
      error := None;
      redirect := None;
    }

    /**
     * `loadChatData`. Without a session the page goes to `/login`. The chat is taken from the
     * context's active chats, or else fetched (`fetch`); a failed fetch sets the error. A chat
     * that is missing or already expired sends the patient to `/doctors`; otherwise it is shown.
     */
    method Load(signedIn: bool, chatId: nat, active: seq<Chat>, fetch: Response<Chat>, now: nat)
      modifies this
      ensures !signedIn ==>
        redirect == Some("/login") && currentChat == old(currentChat)
        && messages == old(messages) && error == old(error)
      ensures signedIn && FindActive(active, chatId).None? && !(Resolves(fetch) && fetch.success) ==>
        error == Some("Failed to load chat.") && currentChat == old(currentChat) && messages == old(messages)
        && redirect == old(redirect)
      ensures currentChat != old(currentChat) ==>
        && signedIn && currentChat.Some?
        && (currentChat == FindActive(active, chatId) || (FindActive(active, chatId).None? && currentChat == fetch.data))
        && !ClientExpired(currentChat.value, now)
        && messages == FromServer(currentChat.value.messages)
      ensures signedIn && FindActive(active, chatId).Some? ==>
        var c := FindActive(active, chatId).value;
        error == old(error) &&
        if ClientExpired(c, now) then
          redirect == Some("/doctors") && currentChat == old(currentChat) && messages == old(messages)
        else currentChat == Some(c) && messages == FromServer(c.messages) && redirect == old(redirect)
      ensures signedIn && FindActive(active, chatId).None? && Resolves(fetch) && fetch.success ==>
        error == old(error) &&
        if fetch.data.None? || ClientExpired(fetch.data.value, now) then
          redirect == Some("/doctors") && currentChat == old(currentChat) && messages == old(messages)
        else
          currentChat == fetch.data && messages == FromServer(fetch.data.value.messages) && redirect == old(redirect)
    {
      if !signedIn {
        redirect := Some("/login");
        return;
      }
      var chat := FindActive(active, chatId);
      if chat.None? {
        if Resolves(fetch) && fetch.success {
          chat := fetch.data;
        } else {
          error := Some("Failed to load chat.");
          return;
        }
      }
      if chat.None? {
        redirect := Some("/doctors");
        return;
      }
      if ClientExpired(chat.value, now) {
        redirect := Some("/doctors");
        return;
      }
      currentChat := chat;
      messages := FromServer(chat.value.messages);
    }

    /** The message box is disabled once the shown chat has expired. */
    predicate InputDisabled(now: nat)
      reads this
    {
      currentChat.Some? && ClientExpired(currentChat.value, now)
    }

    /**
     * `handleSendMessage`: a non-blank text with a chat shown is appended as a `Sending`
     * placeholder keyed by the stamp, and posted to the chat; it answers the chat id and text posted.
     */
    method HandleSend(text: string, stamp: string, now: nat) returns (posted: Option<(nat, string)>)
      modifies this
      ensures posted.Some? <==> !IsBlank(text) && old(currentChat).Some?
      ensures posted.Some? ==>
        posted.value == (old(currentChat).value.id, text)
        && messages == old(messages) + [Placeholder(stamp, FromUser, text, now)]
      ensures posted.None? ==> messages == old(messages)
      ensures currentChat == old(currentChat) && error == old(error) && redirect == old(redirect)
    {
      if EmptyText(text) || currentChat.None? {
        return None;
      }
      messages := messages + [Placeholder(stamp, FromUser, text, now)];
      posted := Some((currentChat.value.id, text));
    }

    /** The `catch` of `handleSendMessage`: the placeholder with this stamp is marked failed. */
    method SendFailed(stamp: string)
      modifies this
      ensures messages == MarkFailed(old(messages), stamp)
      ensures currentChat == old(currentChat) && error == old(error) && redirect == old(redirect)
    {
      messages := MarkFailed(messages, stamp);
    }
  }

  /**
   * What the patient posts is never refused as blank: the page's trim check is the server's,
   * so a post either lands or fails for the chat's sake (403).
   */
  lemma PatientPostNeverBlank(chats: seq<Chat>, userId: nat, chatId: nat, text: string, now: nat)
    requires !IsBlank(text)
    ensures UserController.SendChatMessage(chats, userId, chatId, text, now).response.status in {200, 403}
  {
  }

  /** The doctor's chat screen. */
  class DoctorChatPage {
    var currentChat: Option<Chat>
    var messages: seq<LocalMessage>
    var error: Option<string>
    var redirect: Option<string>
    var expiredWarning: bool

    constructor ()
      ensures currentChat.None? && messages == [] && error.None? && redirect.None? && !expiredWarning
    {
      currentChat := None;
      messages := [];
      error := None;
      redirect := None;
      expiredWarning := false;
    }

    /**
     * `loadChatData`: without a session, to `/doctor/login`. A fetch that fails (2xx with
     * `success: false`, or a rejection) sets the error and goes to the dashboard; a fetched chat
     * is shown even when expired, with only a warning.
     */
    method Load(signedIn: bool, fetch: Response<Chat>, now: nat)
      modifies this
      ensures !signedIn ==>
        redirect == Some("/doctor/login") && currentChat == old(currentChat)
        && messages == old(messages) && error == old(error) && expiredWarning == old(expiredWarning)
      ensures signedIn && !(Resolves(fetch) && fetch.success) ==>
        error == Some("Failed to load chat.") && redirect == Some("/doctor/dashboard")
        && currentChat == old(currentChat) && messages == old(messages) && expiredWarning == old(expiredWarning)
      ensures signedIn && Resolves(fetch) && fetch.success && fetch.data.None? ==>
        redirect == Some("/doctor/dashboard") && currentChat == old(currentChat) && error == old(error)
        && messages == old(messages) && expiredWarning == old(expiredWarning)
      ensures signedIn && Resolves(fetch) && fetch.success && fetch.data.Some? ==>
        && currentChat == fetch.data
        && messages == FromServer(fetch.data.value.messages)
        && expiredWarning == ClientExpired(fetch.data.value, now)
        && redirect == old(redirect) && error == old(error)
    {
      if !signedIn {
        redirect := Some("/doctor/login");
        return;
      }
      if Resolves(fetch) && fetch.success {
        match fetch.data {
          case None =>
            redirect := Some("/doctor/dashboard");
          case Some(chat) =>
            expiredWarning := ClientExpired(chat, now);
            currentChat := Some(chat);
            messages := FromServer(chat.messages);
        }
      } else {
        error := Some("Failed to load chat.");
        redirect := Some("/doctor/dashboard");
      }
    }

    /**
     * The five-second poll: a resolved, successful fetch replaces the chat and its messages. A
     * successful reply without a chat clears the chat and then throws reading its messages, so
     * the messages stay; anything else is ignored.
     */
    method Poll(fetch: Response<Chat>)
      modifies this
      ensures Resolves(fetch) && fetch.success ==> currentChat == fetch.data
      ensures Resolves(fetch) && fetch.success && fetch.data.Some? ==> messages == FromServer(fetch.data.value.messages)
      ensures !(Resolves(fetch) && fetch.success && fetch.data.Some?) ==> messages == old(messages)
      ensures !(Resolves(fetch) && fetch.success) ==> currentChat == old(currentChat)
      ensures error == old(error) && redirect == old(redirect) && expiredWarning == old(expiredWarning)
    {
      if Resolves(fetch) && fetch.success {
        currentChat := fetch.data;
        if fetch.data.Some? {
          messages := FromServer(fetch.data.value.messages);
        }
      }
    }

    /** The doctor's message box is never disabled. */
    predicate InputDisabled(now: nat)
      reads this
    {
      false
    }

    /** `handleSendMessage`: the same guard and placeholder as the patient's, sent as the doctor. */
    method HandleSend(text: string, stamp: string, now: nat) returns (posted: Option<(nat, string)>)
      modifies this
      ensures posted.Some? <==> !IsBlank(text) && old(currentChat).Some?
      ensures posted.Some? ==>
        posted.value == (old(currentChat).value.id, text)
        && messages == old(messages) + [Placeholder(stamp, FromDoctor, text, now)]
      ensures posted.None? ==> messages == old(messages)
      ensures currentChat == old(currentChat) && error == old(error) && redirect == old(redirect)
      ensures expiredWarning == old(expiredWarning)
    {
      if EmptyText(text) || currentChat.None? {
        return None;
      }
      messages := messages + [Placeholder(stamp, FromDoctor, text, now)];
      posted := Some((currentChat.value.id, text));
    }

    /**
     * The rest of `handleSendMessage` once the reply has been posted: a rejected post, a
     * rejected re-fetch or a successful re-fetch without a chat marks the placeholder failed;
     * a successful re-fetch replaces the chat and its messages; a resolved re-fetch with
     * `success: false` leaves the page as it is.
     */
    method ReplySettled(post: Response<Chat>, refetch: Response<Chat>, stamp: string)
      modifies this
      ensures !Resolves(post) || !Resolves(refetch) || (refetch.success && refetch.data.None?) ==>
        messages == MarkFailed(old(messages), stamp)
        && currentChat == (if Resolves(post) && Resolves(refetch) then None else old(currentChat))
      ensures Resolves(post) && Resolves(refetch) && refetch.success && refetch.data.Some? ==>
        currentChat == refetch.data && messages == FromServer(refetch.data.value.messages)
      ensures Resolves(post) && Resolves(refetch) && !refetch.success ==>
        messages == old(messages) && currentChat == old(currentChat)
      ensures error == old(error) && redirect == old(redirect) && expiredWarning == old(expiredWarning)
    {
      if !Resolves(post) || !Resolves(refetch) {
        messages := MarkFailed(messages, stamp);
        return;
      }
      if refetch.success {
        currentChat := refetch.data;
        if refetch.data.None? {
          messages := MarkFailed(messages, stamp);
          return;
        }
        messages := FromServer(refetch.data.value.messages);
      }
    }
  }

  /**
   * The doctor's screen keeps a replyable box on an expired chat, and the server accepts the
   * reply: after loading an expired chat of theirs the doctor can still post.
   */
  lemma DoctorCanReplyOnExpiredChat(chats: seq<Chat>, i: nat, text: string, now: nat)
    requires ChatIdsArePositions(chats) && i < |chats|
    requires ClientExpired(chats[i], now) && !IsBlank(text)
    ensures DoctorController.DoctorReplyToChat(chats, chats[i].doctorId, i, text, now).response.success
    ensures !UserController.SendChatMessage(chats, chats[i].userId, i, text, now).response.success
  {
    FindChatById(chats, OfDoctor(i, chats[i].doctorId), i);
    FindChatById(chats, Sendable(i, chats[i].userId, now), i);
  }
}
