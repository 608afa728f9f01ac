/**
 * The message list a chat page holds (frontend/src/pages/ChatPage.jsx and
 * admin/src/pages/Doctor/DoctorChatPage.jsx): the chat's stored messages, plus optimistic
 * placeholders for messages being sent, keyed by `Date.now().toString()` and marked failed when
 * the request fails.
 */
module LocalMessages {
  import opened Chats

  /** The `status` a placeholder carries; stored messages have none. */
  datatype Status = Confirmed | Sending | Failed

  /** A message's `_id` as the page compares it: a stored id never equals a millisecond stamp. */
  datatype LocalKey = Stored | Temp(stamp: string)

  datatype LocalMessage = LocalMessage(key: LocalKey, sender: Sender, text: string, createdAt: nat, status: Status)

  /** `chat.messages || []` as the page shows it. */
  function FromServer(ms: seq<Message>): (r: seq<LocalMessage>)
    ensures |r| == |ms|
    ensures forall i :: 0 <= i < |ms| ==>
      r[i].key == Stored && r[i].status == Confirmed
      && r[i].sender == ms[i].sender && r[i].text == ms[i].text && r[i].createdAt == ms[i].createdAt
  {
    if ms == [] then []
    else [LocalMessage(Stored, ms[0].sender, ms[0].text, ms[0].createdAt, Confirmed)] + FromServer(ms[1..])
  }

  /** The optimistic entry appended when sending. */
  function Placeholder(stamp: string, sender: Sender, text: string, now: nat): LocalMessage {
    LocalMessage(Temp(stamp), sender, text, now, Sending)
  }

  /** `msg._id === tempId ? { ...msg, status: 'failed' } : msg`. */
  function MarkOne(m: LocalMessage, stamp: string): LocalMessage {
    if m.key == Temp(stamp) then m.(status := Failed) else m
  }

  /** `prev.map(...)`: every entry keyed by the stamp is marked failed, every other entry is kept. */
  function MarkFailed(ms: seq<LocalMessage>, stamp: string): (r: seq<LocalMessage>)
    ensures |r| == |ms|
    ensures forall i :: 0 <= i < |ms| ==> r[i] == MarkOne(ms[i], stamp)
  {
    if ms == [] then [] else [MarkOne(ms[0], stamp)] + MarkFailed(ms[1..], stamp)
  }

  /** Marking only touches the status: senders, texts, times and keys stay, in the same order. */
  lemma MarkFailedKeepsContent(ms: seq<LocalMessage>, stamp: string)
    ensures var r := MarkFailed(ms, stamp);
      forall i :: 0 <= i < |ms| ==>
        r[i].key == ms[i].key && r[i].sender == ms[i].sender && r[i].text == ms[i].text
        && r[i].createdAt == ms[i].createdAt
        && (r[i].status != ms[i].status ==> r[i].key == Temp(stamp) && r[i].status == Failed)
  {
  }

  /** A failure report that arrives twice has the effect of one. */
  lemma {:induction false} MarkFailedIdempotent(ms: seq<LocalMessage>, stamp: string)
    ensures MarkFailed(MarkFailed(ms, stamp), stamp) == MarkFailed(ms, stamp)
  {
    if ms != [] {
      MarkFailedIdempotent(ms[1..], stamp);
      assert MarkFailed(ms, stamp)[1..] == MarkFailed(ms[1..], stamp);
    }
  }

  /** Stored messages are never marked: a failure leaves a list loaded from the server as it was. */
  lemma {:induction false} StoredNeverFail(ms: seq<Message>, stamp: string)
    ensures MarkFailed(FromServer(ms), stamp) == FromServer(ms)
  {
    var loaded := FromServer(ms);
    assert forall i :: 0 <= i < |loaded| ==> MarkOne(loaded[i], stamp) == loaded[i];
  }

  /**
   * With a fresh stamp, a failed send marks exactly its own placeholder: the earlier entries are
   * unchanged and the placeholder ends up `Failed`.
   */
  lemma FailureMarksOnlyItsPlaceholder(ms: seq<LocalMessage>, stamp: string, sender: Sender, text: string, now: nat)
    requires forall i :: 0 <= i < |ms| ==> ms[i].key != Temp(stamp)
    ensures MarkFailed(ms + [Placeholder(stamp, sender, text, now)], stamp)
      == ms + [LocalMessage(Temp(stamp), sender, text, now, Failed)]
  {
    var all := ms + [Placeholder(stamp, sender, text, now)];
    assert forall i :: 0 <= i < |ms| ==> all[i] == ms[i];
  }

  /**
   * Two sends within the same millisecond share a stamp, so the failure of either marks both
   * placeholders, including one whose request succeeded.
   */
  lemma SameStampMarksBoth(ms: seq<LocalMessage>, stamp: string, sender: Sender, first: string, second: string, now: nat)
    ensures var r := MarkFailed(ms + [Placeholder(stamp, sender, first, now), Placeholder(stamp, sender, second, now)], stamp);
      r[|ms|].status == Failed && r[|ms| + 1].status == Failed
  {
  }
}
