/**
 * The two chat widgets under admin/src/components/chat/: the message box (MessageInput.jsx)
 * and the countdown banner (ChatExpiryWarning.jsx). Each is a class over the widget's React
 * state; the clock is the `now` parameter.
 */
module ChatComponents {
  import opened Wrappers
  import opened Text

  /** The message box: the text typed so far. */
  class MessageInput {
    var message: string

    /** `useState('')`. */
    constructor ()
      ensures message == ""
    {
      message := "";
    }

    /** `onChange`: the box holds whatever was typed. */
    method Change(value: string)
      modifies this
      ensures message == value
    {
      message := value;
    }

    /** The send button is enabled for a non-blank message in an enabled box. */
    predicate SendEnabled(disabled: bool)
      reads this
    {
      !IsBlank(message) && !disabled
    }

    /**
     * `handleSubmit`: a non-blank message in an enabled box is handed to `onSendMessage` as
     * typed (untrimmed) and the box is cleared; otherwise nothing happens.
     */
    method Submit(disabled: bool) returns (sent: Option<string>)
      modifies this
      ensures sent.Some? <==> old(SendEnabled(disabled))
      ensures sent.Some? ==> sent.value == old(message) && !IsBlank(sent.value) && message == ""
      ensures sent.None? ==> message == old(message)
    {
      if !EmptyText(message) && !disabled {
        sent := Some(message);
        message := "";
      } else {
        sent := None;
      }
    }
  }

  const MsPerHour: nat := 1000 * 60 * 60
  const MsPerMinute: nat := 1000 * 60

  /** Whole hours and the whole minutes left over. */
  datatype Remaining = Remaining(hours: nat, minutes: nat)

  /** `Math.floor(diffMs / hour)` and `Math.floor((diffMs % hour) / minute)` for a positive difference. */
  function Countdown(diffMs: int): (r: Remaining)
    requires diffMs > 0
    ensures r.minutes < 60
    ensures r.hours * MsPerHour + r.minutes * MsPerMinute <= diffMs < r.hours * MsPerHour + r.minutes * MsPerMinute + MsPerMinute
  {
    Remaining(diffMs / MsPerHour, (diffMs % MsPerHour) / MsPerMinute)
  }

  /** The countdown is the only reading of the time left in whole hours and minutes. */
  lemma CountdownUnique(diffMs: int, r: Remaining)
    requires diffMs > 0 && r.minutes < 60
    requires r.hours * MsPerHour + r.minutes * MsPerMinute <= diffMs < r.hours * MsPerHour + r.minutes * MsPerMinute + MsPerMinute
    ensures r == Countdown(diffMs)
  {
    var c := Countdown(diffMs);
    assert r.hours == c.hours;
  }

  /** `` `${diffHrs}h ${diffMins}m` ``. */
  function Label(diffMs: int): (s: string)
    requires diffMs > 0
    ensures s != [] && '-' !in s
  {
    var r := Countdown(diffMs);
    Decimal(r.hours) + "h " + Decimal(r.minutes) + "m"
  }

  /**
   * What one run of `updateTimer` leaves in `timeLeft`: with no expiry the dates subtract to
   * `NaN`, which is not `<= 0` and formats as `NaNh NaNm`; a difference that is zero or
   * negative returns early, keeping the previous text.
   */
  function NextTimeLeft(timeLeft: string, expiresAt: Option<nat>, now: nat): string {
    match expiresAt
    case None => "NaNh NaNm"
    case Some(e) => if e as int - now as int <= 0 then timeLeft else Label(e as int - now as int)
  }

  /** The countdown banner. */
  class ChatExpiryWarning {
    var timeLeft: string

    /** `useState('')`. */
    constructor ()
      ensures timeLeft == "" && !Visible()
    {
      timeLeft := "";
    }

    /** The banner renders when `timeLeft` is non-empty and has no minus sign. */
    predicate Visible()
      reads this
    {
      timeLeft != "" && '-' !in timeLeft
    }

    /** `updateTimer`, run on mount and then once a minute. */
    method Tick(expiresAt: Option<nat>, now: nat)
      modifies this
      ensures timeLeft == NextTimeLeft(old(timeLeft), expiresAt, now)
      ensures expiresAt.Some? && now < expiresAt.value ==> Visible()
      ensures expiresAt.Some? && expiresAt.value <= now ==> timeLeft == old(timeLeft)
    {
      match expiresAt {
        case None =>
          timeLeft := "NaNh NaNm";
        case Some(e) =>
          var diffMs := e as int - now as int;
          if diffMs <= 0 {
            return;
          }
          timeLeft := Label(diffMs);
      }
    }
  }

  /** A banner that first ticks after the expiry never shows; one that ticked before keeps its last countdown. */
  lemma ExpiredBannerState(timeLeft: string, e: nat, now: nat)
    requires e <= now
    ensures NextTimeLeft("", Some(e), now) == ""
    ensures timeLeft != "" && '-' !in timeLeft ==> NextTimeLeft(timeLeft, Some(e), now) == timeLeft
  {
  }

  /** Under a minute before expiry the banner reads `0h 0m`. */
  lemma LastMinuteLabel(e: nat, now: nat)
    requires now < e < now + MsPerMinute
    ensures NextTimeLeft("", Some(e), now) == "0h 0m"
  {
    var r := Countdown(e - now);
    CountdownUnique(e - now, Remaining(0, 0));
    assert Decimal(0) == "0";
  }
}
