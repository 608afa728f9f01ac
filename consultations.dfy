/**
 * Properties of a consultation that span the patient, doctor and admin handlers: who may write
 * to a chat when, what a free chat does to the doctor's earnings, and the log a short exchange
 * leaves.
 */
module Consultations {
  import opened Wrappers
  import opened Text
  import opened Http
  import opened Accounts
  import opened Chats
  import opened ChatQueries
  import UserController
  import DoctorController

  /**
   * Once a chat is expired (or was never paid) the patient's message is refused with 403, while
   * the doctor's reply on the same chat still goes through: only the patient route checks
   * payment and expiry.
   */
  lemma DoctorOutlivesPatient(chats: seq<Chat>, i: nat, text: string, now: nat)
    requires ChatIdsArePositions(chats) && i < |chats|
    requires !IsBlank(text)
    requires !(chats[i].paymentStatus && Unexpired(chats[i], now))
    ensures UserController.SendChatMessage(chats, chats[i].userId, i, text, now).response.status == 403
    ensures DoctorController.DoctorReplyToChat(chats, chats[i].doctorId, i, text, now).response.success
  {
    FindChatById(chats, Sendable(i, chats[i].userId, now), i);
    FindChatById(chats, OfDoctor(i, chats[i].doctorId), i);
  }

  /** While a paid chat is unexpired, both sides can write to it. */
  lemma BothSidesWriteWhileActive(chats: seq<Chat>, i: nat, text: string, now: nat)
    requires ChatIdsArePositions(chats) && i < |chats|
    requires !IsBlank(text)
    requires chats[i].paymentStatus && Unexpired(chats[i], now)
    ensures UserController.SendChatMessage(chats, chats[i].userId, i, text, now).response.success
    ensures DoctorController.DoctorReplyToChat(chats, chats[i].doctorId, i, text, now).response.success
  {
    FindChatById(chats, Sendable(i, chats[i].userId, now), i);
    FindChatById(chats, OfDoctor(i, chats[i].doctorId), i);
  }

  /** A consultation started by a patient is free: no doctor's earnings change. */
  lemma FreeChatLeavesEarnings(doctors: seq<Doctor>, chats: seq<Chat>, userId: nat, doctorId: nat, now: nat,
                               someDoctor: nat, later: nat)
    ensures var after := UserController.StartChat(doctors, chats, userId, doctorId, now).after;
      DoctorController.DoctorDashboard(after, someDoctor, later).data.value.earnings
        == DoctorController.DoctorDashboard(chats, someDoctor, later).data.value.earnings
  {
    var o := UserController.StartChat(doctors, chats, userId, doctorId, now);
    if o.response.success {
      var c := o.response.data.value;
      var f := PaidOfDoctor(someDoctor);
      SelectAppend(chats, [c], f);
      assert [c][1..] == [];
      if Matches(c, f) {
        assert Select([c], f) == [c];
        SumAmountsAppend(Select(chats, f), c);
      } else {
        assert Select([c], f) == [];
        assert Select(chats, f) + [] == Select(chats, f);
      }
    }
  }

  /** A started consultation shows up in the patient's and in the doctor's chat lists. */
  lemma StartedChatIsListed(doctors: seq<Doctor>, chats: seq<Chat>, userId: nat, doctorId: nat, now: nat)
    requires UserController.StartChat(doctors, chats, userId, doctorId, now).response.success
    ensures var o := UserController.StartChat(doctors, chats, userId, doctorId, now);
      && o.response.data.value in UserController.GetUserChats(o.after, userId).data.value
      && o.response.data.value in DoctorController.GetDoctorChats(o.after, doctorId).data.value
  {
    var o := UserController.StartChat(doctors, chats, userId, doctorId, now);
    assert o.after[|chats|] == o.response.data.value;
  }

  /**
   * A short exchange: the patient starts a chat, writes within the day, the doctor replies;
   * the chat's log is exactly those two messages, in order, with their senders and times.
   */
  lemma StartSendReply(doctors: seq<Doctor>, chats: seq<Chat>, userId: nat, doctorId: nat,
                       t0: nat, question: string, t1: nat, answer: string, t2: nat)
    requires ChatIdsArePositions(chats)
    requires UserController.StartChat(doctors, chats, userId, doctorId, t0).response.success
    requires t1 < t0 + UserController.ChatLifetimeMs
    requires !IsBlank(question) && !IsBlank(answer)
    ensures
      var started := UserController.StartChat(doctors, chats, userId, doctorId, t0).after;
      var sent := UserController.SendChatMessage(started, userId, |chats|, question, t1);
      var replied := DoctorController.DoctorReplyToChat(sent.after, doctorId, |chats|, answer, t2);
      && sent.response.success && replied.response.success
      && replied.after[|chats|].messages == [Message(FromUser, question, t1), Message(FromDoctor, answer, t2)]
  {
    var started := UserController.StartChat(doctors, chats, userId, doctorId, t0).after;
    assert ChatIdsArePositions(started);
    var c := started[|chats|];
    BothSidesWriteWhileActive(started, |chats|, question, t1);
    var sent := UserController.SendChatMessage(started, userId, |chats|, question, t1);
    FindChatById(started, Sendable(|chats|, userId, t1), |chats|);
    assert sent.after[|chats|] == Push(c, FromUser, question, t1);
    assert ChatIdsArePositions(sent.after);
    BothSidesWriteWhileActive(sent.after, |chats|, answer, t1);
    FindChatById(sent.after, OfDoctor(|chats|, doctorId), |chats|);
    var replied := DoctorController.DoctorReplyToChat(sent.after, doctorId, |chats|, answer, t2);
    assert replied.after[|chats|] == Push(sent.after[|chats|], FromDoctor, answer, t2);
  }
}
