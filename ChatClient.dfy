/** The chat page of public/js/chat.js: the active-conversation state, the
    submit guard, the two socket handlers that extend the displayed thread, the
    sent/received classification of a loaded thread and the elapsed-time labels.
    Fetches and emits are returned as values; the DOM is left out. */
module ChatClient {
  import opened Wrappers
  import opened Text
  import opened Messages
  import opened Realtime

  /** `!x` is false for a conversation id: `null` and `0` are both falsy. */
  predicate Truthy(active: Option<int>) {
    active.Some? && active.value != 0
  }

  /** The send guard and payload of the submit handler: the trimmed box text is
      sent to the active conversation when both are truthy. */
  function SubmitDecision(typed: string, active: Option<int>, me: int): (r: Option<SendPayload>)
    ensures r.Some? <==> Truthy(active) && exists i :: 0 <= i < |typed| && !IsJsWhitespace(typed[i])
    ensures r.Some? ==> r.value.senderId == me && r.value.receiverId == active.value
    ensures r.Some? ==> r.value.message == Trim(typed) && r.value.message != ""
  {
    TrimEmpty(typed);
    var message := Trim(typed);
    if message == "" || !Truthy(active) then None
    else Some(SendPayload(me, active.value, message))
  }

  /** A sent message never starts or ends with whitespace, and trimming the
      payload again changes nothing. */
  lemma SubmittedTextIsTrimmed(typed: string, active: Option<int>, me: int)
    requires SubmitDecision(typed, active, me).Some?
    ensures var text := SubmitDecision(typed, active, me).value.message;
      && !IsJsWhitespace(text[0]) && !IsJsWhitespace(text[|text| - 1])
      && Trim(text) == text
  {
    TrimIdempotent(typed);
  }

  /** A message as displayed: `sent` picks the 'sent' or 'received' style. */
  datatype Bubble = Bubble(message: Message, sent: bool)

  /** The classification `renderMessages` applies to a loaded thread. */
  function RenderThread(ms: seq<Message>, me: int): (r: seq<Bubble>)
    ensures |r| == |ms|
    ensures forall i :: 0 <= i < |r| ==> r[i].message == ms[i]
    ensures forall i :: 0 <= i < |r| ==> (r[i].sent <==> ms[i].senderId == me)
  {
    seq(|ms|, i requires 0 <= i < |ms| => Bubble(ms[i], ms[i].senderId == me))
  }

  /** Rendering a longer thread renders the extra message at the end. */
  lemma RenderThreadAppend(ms: seq<Message>, m: Message, me: int)
    ensures RenderThread(ms + [m], me) == RenderThread(ms, me) + [Bubble(m, m.senderId == me)]
  {
  }

  /** In the thread between `me` and a user `o`, a received bubble is a
      message from `o` to `me` and a sent bubble one from `me` to `o` (with
      `o == me` every bubble is sent). */
  lemma RenderedPairThread(store: seq<Message>, me: int, o: int, i: nat)
    requires i < |PairQuery(store, me, o)|
    ensures var b := RenderThread(PairQuery(store, me, o), me)[i];
      && (!b.sent ==> b.message.senderId == o && b.message.receiverId == me)
      && (b.sent ==> b.message.senderId == me && b.message.receiverId == o)
  {
    var t := PairQuery(store, me, o);
    assert t[i] in t;
  }

  /** The requests the page makes. */
  datatype Request =
    | FetchConversations(userId: int)
    | FetchThread(userId: int, otherUserId: int)

  /** The page state of one logged-in user `currentUserId`. */
  class ChatView {
    const currentUserId: int
    var activeConversationUserId: Option<int>
    var conversations: seq<Summary>
    var thread: seq<Bubble>
    /** The value of the message box. */
    var input: string

    /** Page load: no chat open, nothing loaded. */
    constructor (me: int)
      ensures currentUserId == me
      ensures activeConversationUserId == None
      ensures conversations == [] && thread == [] && input == ""
    {
      currentUserId := me;
      activeConversationUserId := None;
      conversations := [];
      thread := [];
      input := "";
    }

    /** `loadConversations` once the list arrives. */
    method ConversationsLoaded(data: seq<Summary>)
      modifies this
      ensures conversations == data
      ensures activeConversationUserId == old(activeConversationUserId)
      ensures thread == old(thread) && input == old(input)
    {
      conversations := data;
    }

    /** `openChat(userId)`: the conversation is active before its thread is requested. */
    method OpenChat(userId: int) returns (req: Request)
      modifies this
      ensures activeConversationUserId == Some(userId)
      ensures req == FetchThread(currentUserId, userId)
      ensures conversations == old(conversations) && thread == old(thread) && input == old(input)
    {
      activeConversationUserId := Some(userId);
      req := FetchThread(currentUserId, userId);
    }

    /** `loadMessages` once the thread arrives: `renderMessages` replaces the
        displayed thread. */
    method ThreadLoaded(ms: seq<Message>)
      modifies this
      ensures thread == RenderThread(ms, currentUserId)
      ensures activeConversationUserId == old(activeConversationUserId)
      ensures conversations == old(conversations) && input == old(input)
    {
      thread := RenderThread(ms, currentUserId);
    }

    /** The submit handler with `typed` in the box: emits `send_message` when
        the guard lets it through, and clears the box only then. */
    method Submit(typed: string) returns (emitted: Option<SendPayload>)
      modifies this
      ensures emitted == SubmitDecision(typed, activeConversationUserId, currentUserId)
      ensures input == if emitted.Some? then "" else typed
      ensures activeConversationUserId == old(activeConversationUserId)
      ensures conversations == old(conversations) && thread == old(thread)
    {
      input := typed;
      var message := Trim(typed);
      if message == "" || !Truthy(activeConversationUserId) {
        return None;
      }
      emitted := Some(SendPayload(currentUserId, activeConversationUserId.value, message));
      input := "";
    }

    /** `message_sent`: the acknowledged message is appended as sent, whichever
        chat is open. */
    method OnMessageSent(msg: Message)
      modifies this
      ensures thread == old(thread) + [Bubble(msg, true)]
      ensures activeConversationUserId == old(activeConversationUserId)
      ensures conversations == old(conversations) && input == old(input)
    {
      thread := thread + [Bubble(msg, true)];
    }

    /** `receive_message`: appended as received only when its sender is the
        open conversation; the conversation list is reloaded in every case. */
    method OnReceiveMessage(msg: Message) returns (req: Request)
      modifies this
      ensures thread == if activeConversationUserId == Some(msg.senderId)
                        then old(thread) + [Bubble(msg, false)] else old(thread)
      ensures req == FetchConversations(currentUserId)
      ensures activeConversationUserId == old(activeConversationUserId)
      ensures conversations == old(conversations) && input == old(input)
    {
      if activeConversationUserId == Some(msg.senderId) {
        thread := thread + [Bubble(msg, false)];
      }
      req := FetchConversations(currentUserId);
    }
  }

  /** A displayed thread that matches the stored one stays in step: the
      server stores a message from `o` to `me` and delivers it while `o` is open,
      or stores one from `me` to `o` and acknowledges it; the bubble the
      handler appends is what reloading the thread would render. */
  lemma ThreadStaysInSync(store: seq<Message>, me: int, o: int, m: Message,
                          received: bool)
    requires me != o
    requires received ==> m.senderId == o && m.receiverId == me
    requires !received ==> m.senderId == me && m.receiverId == o
    ensures RenderThread(PairQuery(store + [m], me, o), me)
            == RenderThread(PairQuery(store, me, o), me) + [Bubble(m, !received)]
  {
    PairQueryAppend(store, m, me, o);
    RenderThreadAppend(PairQuery(store, me, o), m, me);
  }

  /** Chatting with oneself (the seller's own listing leads to `openChat` for
      the current user) breaks that: `send_message` emits `receive_message` and
      then `message_sent` to the same page, whose handlers append the message
      twice, first as received and then as sent, while reloading the thread
      shows it once, as sent. */
  lemma SelfChatDiverges(store: seq<Message>, me: int, m: Message)
    requires m.senderId == me && m.receiverId == me
    ensures RenderThread(PairQuery(store + [m], me, me), me)
            == RenderThread(PairQuery(store, me, me), me) + [Bubble(m, true)]
    ensures RenderThread(PairQuery(store, me, me), me) + [Bubble(m, false), Bubble(m, true)]
            != RenderThread(PairQuery(store + [m], me, me), me)
  {
    PairQueryAppend(store, m, me, me);
    RenderThreadAppend(PairQuery(store, me, me), m, me);
  }

  const MinuteMs := 60000
  const HourMs := 3600000
  const DayMs := 86400000
  const WeekMs := 604800000

  /** `formatTime` for `diffMs` elapsed milliseconds (`now - date`);
      `localeDate` is `date.toLocaleDateString()`. Each `Math.floor` of a
      non-negative or negative quotient by a positive divisor is Dafny's `/`. */
  function FormatTime(diffMs: int, localeDate: string): (r: string)
    ensures diffMs < MinuteMs ==> r == "Just now"
    ensures MinuteMs <= diffMs < HourMs ==>
      1 <= diffMs / MinuteMs <= 59 && r == NatToString(diffMs / MinuteMs) + "m ago"
    ensures HourMs <= diffMs < DayMs ==>
      1 <= diffMs / HourMs <= 23 && r == NatToString(diffMs / HourMs) + "h ago"
    ensures DayMs <= diffMs < WeekMs ==>
      1 <= diffMs / DayMs <= 6 && r == NatToString(diffMs / DayMs) + "d ago"
    ensures WeekMs <= diffMs ==> r == localeDate
  {
    var diffMins := diffMs / 60000;
    if diffMins < 1 then "Just now"
    else if diffMins < 60 then NatToString(diffMins) + "m ago"
    else
      var diffHours := diffMins / 60;
      assert diffHours == diffMs / HourMs;
      if diffHours < 24 then NatToString(diffHours) + "h ago"
      else
        var diffDays := diffHours / 24;
        assert diffDays == diffMs / DayMs;
        if diffDays < 7 then NatToString(diffDays) + "d ago"
        else localeDate
  }

  /** The number in a relative label reads back as the elapsed whole minutes,
      hours or days. */
  lemma FormatTimeReadsBack(diffMs: int, localeDate: string)
    requires MinuteMs <= diffMs < WeekMs
    ensures var r := FormatTime(diffMs, localeDate);
      var n := DigitsValue(r[..|r| - 5]);
      && |r| > 5
      && (diffMs < HourMs ==> r[|r| - 5..] == "m ago" && n == diffMs / MinuteMs)
      && (HourMs <= diffMs < DayMs ==> r[|r| - 5..] == "h ago" && n == diffMs / HourMs)
      && (DayMs <= diffMs ==> r[|r| - 5..] == "d ago" && n == diffMs / DayMs)
  {
    var r := FormatTime(diffMs, localeDate);
    var q := if diffMs < HourMs then diffMs / MinuteMs
             else if diffMs < DayMs then diffMs / HourMs
             else diffMs / DayMs;
    NatToStringRoundTrip(q);
    assert r[..|r| - 5] == NatToString(q);
  }
}
