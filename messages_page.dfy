/**
 * The user's messages page: sending a message in the active conversation,
 * the other participant shown in a conversation's header, the relative time
 * shown under a message, and which messages are drawn as the user's own.
 */
module MessagesPage {
  import opened Wrappers
  import opened Text

  datatype Participant = Participant(id: int, fullName: string, username: string)

  /** A conversation; `participants` is None when the API left it out. */
  datatype Conversation = Conversation(id: int, participants: Option<seq<Participant>>)

  datatype Message = Message(id: int, conversationId: int, text: string, senderId: int, createdAt: string)

  /** `participants.find(p => p.id !== userId)`. */
  function FindOther(ps: seq<Participant>, userId: int): (r: Option<Participant>)
    ensures r.Some? ==> exists i :: 0 <= i < |ps| && ps[i] == r.value && ps[i].id != userId &&
                          forall j :: 0 <= j < i ==> ps[j].id == userId
    ensures r.None? <==> forall i :: 0 <= i < |ps| ==> ps[i].id == userId
  {
    if ps == [] then None
    else if ps[0].id != userId then Some(ps[0])
    else
      var r := FindOther(ps[1..], userId);
      assert r.Some? ==> exists i :: 0 <= i < |ps| && ps[i] == r.value && ps[i].id != userId &&
                           forall j :: 0 <= j < i ==> ps[j].id == userId by {
        if r.Some? {
          var k :| 0 <= k < |ps[1..]| && ps[1..][k] == r.value && ps[1..][k].id != userId &&
                   forall j :: 0 <= j < k ==> ps[1..][j].id == userId;
          assert ps[k + 1] == r.value;
          assert forall j :: 0 <= j < k + 1 ==> ps[j].id == userId by {
            forall j | 0 <= j < k + 1 ensures ps[j].id == userId {
              if j > 0 { assert ps[j] == ps[1..][j - 1]; }
            }
          }
        }
      }
      r
  }

  /**
   * `getOtherUser(conversation)`: nothing when the participants or the
   * signed-in user are missing, otherwise the first participant who is not
   * the user (nothing when there is none).
   */
  function GetOtherUser(c: Conversation, userId: Option<int>): (r: Option<Participant>)
    ensures c.participants.None? || userId.None? ==> r.None?
    ensures c.participants.Some? && userId.Some? ==> r == FindOther(c.participants.value, userId.value)
  {
    if c.participants.None? || userId.None? then None
    else FindOther(c.participants.value, userId.value)
  }

  /** The other user shown is never the signed-in user. */
  lemma OtherUserIsNotSelf(c: Conversation, userId: Option<int>)
    requires GetOtherUser(c, userId).Some?
    ensures userId.Some? && GetOtherUser(c, userId).value.id != userId.value
  {
  }

  /** In a two-person conversation the other user is the participant who is not the signed-in user. */
  lemma OtherUserOfPair(a: Participant, b: Participant)
    requires a.id != b.id
    ensures GetOtherUser(Conversation(0, Some([a, b])), Some(a.id)) == Some(b)
    ensures GetOtherUser(Conversation(0, Some([a, b])), Some(b.id)) == Some(a)
  {
    assert [a, b][1..] == [b];
    assert FindOther([a, b], a.id) == FindOther([b], a.id) == Some(b);
  }

  /** `isOwn`: `msg.sender_id === user?.id`; with no user signed in, no message is own. */
  function IsOwn(m: Message, userId: Option<int>): (own: bool)
    ensures own <==> userId.Some? && userId.value == m.senderId
  {
    userId == Some(m.senderId)
  }

  /** The relative time of a message, before it is written out. */
  datatype TimeLabel = JustNow | MinutesAgo(minutes: int) | HoursAgo(hours: int) | OnDate

  /** `Math.floor(diff / 60000)`: whole minutes, rounded down also for negative differences. */
  function Minutes(diffMs: int): (m: int)
    ensures 60000 * m <= diffMs < 60000 * (m + 1)
  {
    diffMs / 60000
  }

  /**
   * The bucket `formatTime` picks for the time between the message and now,
   * in milliseconds; `None` is the `NaN` of an unreadable date, for which
   * every comparison fails and the date is shown.
   */
  function Bucket(diffMs: Option<int>): (bucket: TimeLabel)
    ensures bucket == JustNow <==> diffMs.Some? && diffMs.value < 60000
    ensures bucket.MinutesAgo? <==> diffMs.Some? && 60000 <= diffMs.value < 3600000
    ensures bucket.MinutesAgo? ==> 1 <= bucket.minutes < 60 && bucket.minutes == Minutes(diffMs.value)
    ensures bucket.HoursAgo? <==> diffMs.Some? && 3600000 <= diffMs.value < 86400000
    ensures bucket.HoursAgo? ==>
              1 <= bucket.hours < 24 && 60 * bucket.hours <= Minutes(diffMs.value) < 60 * bucket.hours + 60
    ensures bucket == OnDate <==> diffMs.None? || diffMs.value >= 86400000
  {
    if diffMs.None? then OnDate
    else
      var minutes := Minutes(diffMs.value);
      if minutes < 1 then JustNow
      else if minutes < 60 then MinutesAgo(minutes)
      else if minutes < 1440 then HoursAgo(minutes / 60)
      else OnDate
  }

  /** Exactly an hour ago reads "1 hour ago", and exactly a day ago shows the date. */
  lemma BucketBoundaries()
    ensures Bucket(Some(60 * 60000)) == HoursAgo(1)
    ensures Bucket(Some(59 * 60000)) == MinutesAgo(59)
    ensures Bucket(Some(1440 * 60000)) == OnDate
    ensures Bucket(Some(1439 * 60000)) == HoursAgo(23)
  {
  }

  /** A message dated in the future (a negative difference) reads "now". */
  lemma FutureMessageIsNow(diffMs: int)
    requires diffMs < 0
    ensures Bucket(Some(diffMs)) == JustNow
  {
  }

  /** `formatTime`: the bucket written out in Persian; the locale date is a parameter. */
  function FormatTime(diffMs: Option<int>, localeDate: string): (shown: string)
    ensures Bucket(diffMs) == JustNow ==> shown == "الان"
    ensures Bucket(diffMs).MinutesAgo? ==> shown == IntToString(Bucket(diffMs).minutes) + " دقیقه پیش"
    ensures Bucket(diffMs).HoursAgo? ==> shown == IntToString(Bucket(diffMs).hours) + " ساعت پیش"
    ensures Bucket(diffMs) == OnDate ==> shown == localeDate
  {
    match Bucket(diffMs)
    case JustNow => "الان"
    case MinutesAgo(m) => IntToString(m) + " دقیقه پیش"
    case HoursAgo(h) => IntToString(h) + " ساعت پیش"
    case OnDate => localeDate
  }

  /** The alert shown when sending or reloading fails. */
  const SendFailedAlert := "خطا در ارسال پیام"

  /** What reloading the conversation's messages gave: a list, no data (`null`), or an error. */
  datatype Fetched = Loaded(messages: seq<Message>) | NoData | FetchFailed

  /** The page's message state. */
  class MessagesPage {
    var messageText: string
    var active: Option<Conversation>
    var messages: seq<Message>
    /** The send calls made, as (conversation id, text), in order. */
    var sent: seq<(int, string)>
    var alerts: seq<string>

    constructor ()
      ensures messageText == "" && active.None? && messages == [] && sent == [] && alerts == []
    {
      messageText := "";
      active := None;
      messages := [];
      sent := [];
      alerts := [];
    }

    /**
     * `handleSendMessage`: nothing when the trimmed text is empty or no
     * conversation is open. Otherwise the text is sent; a failed send
     * alerts and keeps the text. After a successful send the text is
     * cleared and the messages are reloaded; a failed reload alerts too,
     * although the message went out.
     */
    method HandleSendMessage(sendOk: bool, reload: Fetched)
      modifies this
      ensures active == old(active)
      ensures Trim(old(messageText)) == "" || old(active).None? ==>
                messageText == old(messageText) && messages == old(messages) &&
                sent == old(sent) && alerts == old(alerts)
      ensures Trim(old(messageText)) != "" && old(active).Some? ==>
                sent == old(sent) + [(old(active).value.id, old(messageText))]
      ensures Trim(old(messageText)) != "" && old(active).Some? && !sendOk ==>
                messageText == old(messageText) && messages == old(messages) &&
                alerts == old(alerts) + [SendFailedAlert]
      ensures Trim(old(messageText)) != "" && old(active).Some? && sendOk ==>
                messageText == "" &&
                messages == (match reload case Loaded(ms) => ms case NoData => [] case FetchFailed => old(messages)) &&
                alerts == (if reload.FetchFailed? then old(alerts) + [SendFailedAlert] else old(alerts))
    {
      if Trim(messageText) == "" || active.None? {
        return;
      }
      sent := sent + [(active.value.id, messageText)];
      if !sendOk {
        alerts := alerts + [SendFailedAlert];
        return;
      }
      messageText := "";
      match reload {
        case Loaded(ms) =>
          messages := ms;
        case NoData =>
          messages := [];
        case FetchFailed =>
          alerts := alerts + [SendFailedAlert];
      }
    }
  }
}
