/**
 * A consultation (backend/models/Chat.js): the patient and doctor it belongs to, whether it
 * is paid, what was paid, when it expires, and its message log. `createdAt` and `updatedAt`
 * are the timestamps Mongoose maintains: both are set on insert, and `updatedAt` moves on
 * every save.
 */
module Chats {
  import opened Wrappers

  /** The `sender` enum: exactly `'user'` or `'doctor'`. */
  datatype Sender = FromUser | FromDoctor

  /** The string stored for a sender. */
  function SenderName(s: Sender): (name: string)
    ensures name == "user" || name == "doctor"
  {
    match s
    case FromUser => "user"
    case FromDoctor => "doctor"
  }

  /** The two senders are stored as different strings, so the stored value determines the sender. */
  lemma SenderNamesDistinct(a: Sender, b: Sender)
    ensures SenderName(a) == SenderName(b) <==> a == b
  {
  }

  /** One message: `sender` and `text` are required, `createdAt` defaults to the insertion time. */
  datatype Message = Message(sender: Sender, text: string, createdAt: nat)

  /** `paymentDetails`: `orderId` is required, `paymentId` and `signature` are optional. */
  datatype PaymentDetails = PaymentDetails(orderId: string, paymentId: Option<string>, signature: Option<string>)

  /**
   * A chat record. `userId`, `doctorId`, `paymentStatus`, `paymentDetails.orderId` and `amount`
   * are required; `expiresAt` is optional. Chat ids are positions in the collection.
   */
  datatype Chat = Chat(
    id: nat,
    userId: nat,
    doctorId: nat,
    paymentStatus: bool,
    paymentDetails: PaymentDetails,
    amount: int,
    expiresAt: Option<nat>,
    messages: seq<Message>,
    createdAt: nat,
    updatedAt: nat)

  /**
   * `Chat.create(...)` at time `now`: `paymentStatus` takes its default `false` when not given,
   * the log starts empty and both timestamps are `now`.
   */
  function CreateChat(id: nat, userId: nat, doctorId: nat, paymentStatus: Option<bool>,
                      details: PaymentDetails, amount: int, expiresAt: Option<nat>, now: nat): (c: Chat)
    ensures c.id == id && c.userId == userId && c.doctorId == doctorId
    ensures c.paymentStatus <==> paymentStatus == Some(true)
    ensures c.paymentDetails == details && c.amount == amount && c.expiresAt == expiresAt
    ensures c.messages == [] && c.createdAt == now && c.updatedAt == now
  {
    Chat(id, userId, doctorId, paymentStatus.GetOr(false), details, amount, expiresAt, [], now, now)
  }

  /**
   * How a chat may change once created: its owners, payment, amount, expiry and creation time
   * stay fixed, and its old log is a prefix of the new one.
   */
  predicate Evolves(before: Chat, after: Chat) {
    && after.id == before.id
    && after.userId == before.userId
    && after.doctorId == before.doctorId
    && after.paymentStatus == before.paymentStatus
    && after.paymentDetails == before.paymentDetails
    && after.amount == before.amount
    && after.expiresAt == before.expiresAt
    && after.createdAt == before.createdAt
    && |before.messages| <= |after.messages|
    && after.messages[..|before.messages|] == before.messages
  }

  /** `chat.messages.push({ sender, text, createdAt: now }); chat.save()`. */
  function Push(c: Chat, sender: Sender, text: string, now: nat): (r: Chat)
    ensures Evolves(c, r)
    ensures |r.messages| == |c.messages| + 1
    ensures r.messages[|c.messages|] == Message(sender, text, now)
    ensures r.updatedAt == now
  {
    c.(messages := c.messages + [Message(sender, text, now)], updatedAt := now)
  }

  /** Changes compose: a chat evolved from an evolved chat evolved from the original. */
  lemma EvolvesTransitive(a: Chat, b: Chat, c: Chat)
    requires Evolves(a, b) && Evolves(b, c)
    ensures Evolves(a, c)
  {
    assert c.messages[..|a.messages|] == c.messages[..|b.messages|][..|a.messages|];
  }

  /** Evolution of whole collections: no chat disappears or moves, and each one evolves. */
  predicate CollectionEvolves(before: seq<Chat>, after: seq<Chat>) {
    |before| <= |after| && forall i :: 0 <= i < |before| ==> Evolves(before[i], after[i])
  }
}

/**
 * The chat lookups and list queries the controllers run: `findOne`/`find`/`countDocuments`
 * with their filters, `sort({ key: -1 })`, `limit(5)`/`slice(0, 5)`, and the dashboard
 * aggregates.
 */
module ChatQueries {
  import opened Wrappers
  import opened Chats

  /** The chat filter documents the controllers use. */
  datatype Filter =
    | AnyChat                                            // {}
    | ChatById(chatId: nat)                              // findById
    | OfUser(chatId: nat, userId: nat)                   // { _id, userId }
    | OfDoctor(chatId: nat, doctorId: nat)               // { _id, doctorId }
    | Sendable(chatId: nat, userId: nat, now: nat)       // { _id, userId, paymentStatus: true, expiresAt: { $gt: now } }
    | PaidOfUser(userId: nat)                            // { userId, paymentStatus: true }
    | PaidOfDoctor(doctorId: nat)                        // { doctorId, paymentStatus: true }
    | ActiveOfDoctor(doctorId: nat, now: nat)            // { doctorId, paymentStatus: true, expiresAt: { $gt: now } }

  /** `expiresAt: { $gt: now }`: a missing expiry never matches. */
  predicate Unexpired(c: Chat, now: nat) {
    c.expiresAt.Some? && c.expiresAt.value > now
  }

  predicate Matches(c: Chat, f: Filter) {
    match f
    case AnyChat => true
    case ChatById(id) => c.id == id
    case OfUser(id, u) => c.id == id && c.userId == u
    case OfDoctor(id, d) => c.id == id && c.doctorId == d
    case Sendable(id, u, now) => c.id == id && c.userId == u && c.paymentStatus && Unexpired(c, now)
    case PaidOfUser(u) => c.userId == u && c.paymentStatus
    case PaidOfDoctor(d) => c.doctorId == d && c.paymentStatus
    case ActiveOfDoctor(d, now) => c.doctorId == d && c.paymentStatus && Unexpired(c, now)
  }

  /** `Chat.findOne(filter)`: the position of the first match in natural order. */
  function FindChat(s: seq<Chat>, f: Filter): (r: Option<nat>)
    ensures r.Some? ==> r.value < |s| && Matches(s[r.value], f)
    ensures r.Some? ==> forall j :: 0 <= j < r.value ==> !Matches(s[j], f)
    ensures r.None? ==> forall j :: 0 <= j < |s| ==> !Matches(s[j], f)
  {
    if s == [] then None
    else if Matches(s[0], f) then Some(0)
    else match FindChat(s[1..], f)
      case None => None
      case Some(k) => Some(k + 1)
  }

  /** Chat ids are positions. */
  predicate ChatIdsArePositions(s: seq<Chat>) {
    forall i :: 0 <= i < |s| ==> s[i].id == i
  }

  /** With positional ids, a filter on one chat id finds that chat exactly when it satisfies the rest of the filter. */
  lemma FindChatById(s: seq<Chat>, f: Filter, id: nat)
    requires ChatIdsArePositions(s)
    requires forall c: Chat :: Matches(c, f) ==> c.id == id
    ensures FindChat(s, f) == if id < |s| && Matches(s[id], f) then Some(id) else None
  {
  }

  /** `Chat.find(filter)` in natural order. */
  function Select(s: seq<Chat>, f: Filter): (r: seq<Chat>)
    ensures |r| <= |s|
    ensures forall c :: c in r <==> c in s && Matches(c, f)
  {
    if s == [] then []
    else (if Matches(s[0], f) then [s[0]] else []) + Select(s[1..], f)
  }

  /** Selecting distributes over concatenation, so appending a chat appends it to every result it matches. */
  lemma {:induction false} SelectAppend(s: seq<Chat>, t: seq<Chat>, f: Filter)
    ensures Select(s + t, f) == Select(s, f) + Select(t, f)
  {
    if s == [] {
      assert s + t == t;
    } else {
      assert (s + t)[0] == s[0];
      assert (s + t)[1..] == s[1..] + t;
      SelectAppend(s[1..], t, f);
    }
  }

  /** A filter implied by another keeps at least as many chats. */
  lemma {:induction false} SelectNarrower(s: seq<Chat>, f: Filter, g: Filter)
    requires forall c :: Matches(c, f) ==> Matches(c, g)
    ensures |Select(s, f)| <= |Select(s, g)|
  {
    if s != [] {
      SelectNarrower(s[1..], f, g);
    }
  }

  /** Selecting with a stricter filter from a selection is selecting with it from the start. */
  lemma {:induction false} SelectTwice(s: seq<Chat>, f: Filter, g: Filter)
    requires forall c :: Matches(c, f) ==> Matches(c, g)
    ensures Select(Select(s, g), f) == Select(s, f)
  {
    if s != [] {
      var head, rest := s[0], Select(s[1..], g);
      SelectTwice(s[1..], f, g);
      assert Matches(head, f) ==> Matches(head, g);
      if Matches(head, g) {
        var t := [head] + rest;
        assert Select(s, g) == t;
        assert t[0] == head && t[1..] == rest;
      } else {
        assert Select(s, g) == rest;
      }
    }
  }

  /** The sort fields used: `updatedAt` (patient and doctor lists) and `createdAt` (admin lists). */
  datatype SortKey = ByUpdatedAt | ByCreatedAt

  function Key(c: Chat, k: SortKey): nat {
    match k
    case ByUpdatedAt => c.updatedAt
    case ByCreatedAt => c.createdAt
  }

  /** Newest first. */
  predicate SortedDesc(s: seq<Chat>, k: SortKey) {
    forall i, j :: 0 <= i < j < |s| ==> Key(s[i], k) >= Key(s[j], k)
  }

  /** Places `c` into a newest-first sequence. */
  function Insert(c: Chat, s: seq<Chat>, k: SortKey): (r: seq<Chat>)
    requires SortedDesc(s, k)
    ensures |r| == |s| + 1
    ensures r[0] == c || (s != [] && r[0] == s[0])
    ensures SortedDesc(r, k)
    ensures multiset(r) == multiset(s) + multiset{c}
  {
    if s == [] || Key(c, k) >= Key(s[0], k) then
      [c] + s
    else
      var rest := Insert(c, s[1..], k);
      assert Key(rest[0], k) <= Key(s[0], k);
      assert s == [s[0]] + s[1..];
      [s[0]] + rest
  }

  /** `sort({ key: -1 })`: the same chats, newest first. */
  function SortDesc(s: seq<Chat>, k: SortKey): (r: seq<Chat>)
    ensures SortedDesc(r, k)
    ensures multiset(r) == multiset(s)
  {
    if s == [] then []
    else
      assert s == [s[0]] + s[1..];
      Insert(s[0], SortDesc(s[1..], k), k)
  }

  /** Chats with the same multiset are the same chats. */
  lemma MultisetSameMembers(a: seq<Chat>, b: seq<Chat>)
    requires multiset(a) == multiset(b)
    ensures |a| == |b|
    ensures forall c :: c in a <==> c in b
  {
    assert |multiset(a)| == |multiset(b)|;
    forall c ensures c in a <==> c in b {
      assert c in a <==> c in multiset(a);
      assert c in b <==> c in multiset(b);
    }
  }

  /** The number of chats a dashboard list shows. */
  const LatestCount: nat := 5

  /** `sort(...).slice(0, 5)` / `sort(...).limit(5)`: the five newest chats. */
  function Latest(s: seq<Chat>, k: SortKey): (r: seq<Chat>)
    ensures |r| == (if |s| < LatestCount then |s| else LatestCount)
    ensures SortedDesc(r, k)
    ensures multiset(r) <= multiset(s)
    ensures forall c :: c in r ==> c in s
  {
    var sorted := SortDesc(s, k);
    MultisetSameMembers(sorted, s);
    var n := if |sorted| < LatestCount then |sorted| else LatestCount;
    PrefixSplit(sorted, n);
    var r := sorted[..n];
    assert forall c :: c in r ==> c in sorted;
    r
  }

  /** None of the chats the newest-five list leaves out is newer than the last one it keeps. */
  lemma LatestIsNewest(s: seq<Chat>, k: SortKey)
    ensures var r := Latest(s, k);
      |r| > 0 ==> forall c :: c in multiset(s) - multiset(r) ==> Key(c, k) <= Key(r[|r| - 1], k)
  {
    var sorted := SortDesc(s, k);
    var r := Latest(s, k);
    var n := |r|;
    PrefixSplit(sorted, n);
    if n > 0 {
      SortedTailIsOlder(sorted, n, k);
    }
  }

  /** Cutting a sequence at `n` splits its multiset in two. */
  lemma PrefixSplit(s: seq<Chat>, n: nat)
    requires n <= |s|
    ensures multiset(s) == multiset(s[..n]) + multiset(s[n..])
  {
    assert s == s[..n] + s[n..];
  }

  /** In a newest-first sequence, nothing after position `n - 1` is newer than it. */
  lemma SortedTailIsOlder(sorted: seq<Chat>, n: nat, k: SortKey)
    requires SortedDesc(sorted, k) && 0 < n <= |sorted|
    ensures forall c :: c in multiset(sorted[n..]) ==> Key(c, k) <= Key(sorted[n - 1], k)
  {
    forall c | c in multiset(sorted[n..]) ensures Key(c, k) <= Key(sorted[n - 1], k) {
      assert c in sorted[n..];
      var j :| 0 <= j < |sorted[n..]| && sorted[n..][j] == c;
      assert sorted[n + j] == c;
    }
  }

  /** `reduce((sum, chat) => sum + (chat.amount || 0), 0)`; `amount` is required, so it is never missing. */
  function SumAmounts(s: seq<Chat>): int {
    if s == [] then 0 else SumAmounts(s[..|s| - 1]) + s[|s| - 1].amount
  }

  /** Adding a chat adds its amount to the total. */
  lemma SumAmountsAppend(s: seq<Chat>, c: Chat)
    ensures SumAmounts(s + [c]) == SumAmounts(s) + c.amount
  {
    assert (s + [c])[..|s|] == s;
  }

  /** With no charge on any chat, the earnings are zero. */
  lemma {:induction false} FreeChatsEarnNothing(s: seq<Chat>)
    requires forall i :: 0 <= i < |s| ==> s[i].amount == 0
    ensures SumAmounts(s) == 0
  {
    if s != [] {
      FreeChatsEarnNothing(s[..|s| - 1]);
    }
  }

  /** `new Set(chats.map(chat => chat.userId))`: the distinct patients, never more than the chats. */
  function PatientIds(s: seq<Chat>): (r: set<nat>)
    ensures forall u :: u in r <==> exists i :: 0 <= i < |s| && s[i].userId == u
    ensures |r| <= |s|
  {
    if s == [] then {}
    else
      var prefix := PatientIds(s[..|s| - 1]);
      assert forall i :: 0 <= i < |s| - 1 ==> s[..|s| - 1][i] == s[i];
      prefix + {s[|s| - 1].userId}
  }

  /** One patient with many chats is counted once. */
  lemma OnePatientCountsOnce(s: seq<Chat>, u: nat)
    requires s != []
    requires forall i :: 0 <= i < |s| ==> s[i].userId == u
    ensures |PatientIds(s)| == 1
  {
    var r := PatientIds(s);
    assert s[0].userId == u;
    assert r == {u};
  }
}
