/** The inbound side of `SimpleSlackApiSlack`: the message-posted listener
    that routes each event to one of three replaceable handlers, the setters
    of those handlers, and the user lookup by name. */
module SlackClient {
  import opened Runtime
  import opened Text

  datatype EventType = SlackMessagePosted | OtherEventType(name: string)

  /** The fields of a message-posted event that the listener reads. */
  datatype MessagePosted = MessagePosted(
    eventType: EventType,
    userId: string,
    channelId: string,
    messageContent: string)

  /** The three handler slots. */
  datatype Slot = DirectMessageSlot | ReplySlot | MessageSlot

  /** A handler stored in a slot: `NoOp` is the initial `{ _, _ -> }`; any
      other handler is opaque and known only by its identity. */
  datatype Handler = NoOp | Callback(id: nat)

  /** One invocation of a stored handler with an event's message. */
  datatype Invocation = Invocation(handler: Handler, message: MessagePosted)

  /** How the bot is written inside a message that mentions it. */
  function MentionToken(myId: string): string {
    "<@" + myId + ">"
  }

  /** The listener's guard clauses: only message-posted events that the bot
      did not post itself are handled. */
  predicate Accepted(myId: string, ev: MessagePosted) {
    ev.eventType == SlackMessagePosted && ev.userId != myId
  }

  /** The routing rule of the message-posted listener: the slot whose handler
      receives the event, or `None` when the event is dropped. A channel
      whose id starts with "D" is a direct message, whatever the text says;
      otherwise a text containing the mention token is a reply; anything
      else is a plain message. */
  function Route(myId: string, ev: MessagePosted): (r: Option<Slot>)
    ensures r.Some? <==> Accepted(myId, ev)
    ensures r == Some(DirectMessageSlot) <==> Accepted(myId, ev) && StartsWith(ev.channelId, "D")
    ensures r == Some(ReplySlot) <==>
      Accepted(myId, ev) && !StartsWith(ev.channelId, "D") && Occurs(ev.messageContent, MentionToken(myId))
    ensures r == Some(MessageSlot) <==>
      Accepted(myId, ev) && !StartsWith(ev.channelId, "D") && !Occurs(ev.messageContent, MentionToken(myId))
  {
    if ev.eventType != SlackMessagePosted then None
    else if myId == ev.userId then None
    else if StartsWith(ev.channelId, "D") then Some(DirectMessageSlot)
    else if Contains(ev.messageContent, MentionToken(myId)) then Some(ReplySlot)
    else Some(MessageSlot)
  }

  /** A mention inside a direct-message channel still goes to the
      direct-message handler. */
  lemma DirectMessageBeforeMention(myId: string, userId: string, channelRest: string, before: string, after: string)
    requires userId != myId
    ensures Route(myId, MessagePosted(SlackMessagePosted, userId, "D" + channelRest,
                                      before + MentionToken(myId) + after)) == Some(DirectMessageSlot)
  {
    assert ("D" + channelRest)[..1] == "D";
  }

  /** A text that embeds the mention token in a channel that is not a direct
      message goes to the reply handler. */
  lemma {:induction false} MentionIsReply(myId: string, userId: string, channelId: string, before: string, after: string)
    requires userId != myId && !StartsWith(channelId, "D")
    ensures Route(myId, MessagePosted(SlackMessagePosted, userId, channelId,
                                      before + MentionToken(myId) + after)) == Some(ReplySlot)
  {
    var text := before + MentionToken(myId) + after;
    assert OccursAt(text, MentionToken(myId), |before|) by {
      assert text[|before|..|before| + |MentionToken(myId)|] == MentionToken(myId);
    }
  }

  /** `getUserIdByName`: the id of the first user of the session whose name
      is `userName`, or `null` when there is none. */
  datatype User = User(id: string, userName: string)

  function UserIdByName(users: seq<User>, userName: string): (r: Option<string>)
    ensures r.None? <==> forall i :: 0 <= i < |users| ==> users[i].userName != userName
    ensures r.Some? ==> exists i :: (0 <= i < |users| && users[i].userName == userName &&
      users[i].id == r.value && forall j :: 0 <= j < i ==> users[j].userName != userName)
  {
    if users == [] then None
    else if users[0].userName == userName then Some(users[0].id)
    else
      var r := UserIdByName(users[1..], userName);
      assert forall i :: 1 <= i < |users| ==> users[i] == users[1..][i - 1];
      assert r.Some? ==> exists i :: (0 <= i < |users| && users[i].userName == userName &&
        users[i].id == r.value && forall j :: 0 <= j < i ==> users[j].userName != userName) by {
        if r.Some? {
          var i :| 0 <= i < |users[1..]| && users[1..][i].userName == userName &&
            users[1..][i].id == r.value && forall j :: 0 <= j < i ==> users[1..][j].userName != userName;
          assert users[i + 1] == users[1..][i];
        }
      }
      r
  }

  /** A `SimpleSlackApiSlack` as the listener sees it: the bot's own user id,
      the three handler slots, and the handler invocations made so far. */
  class SimpleSlackApiSlack {
    const myId: string
    var onReceiveDirectMessage: Handler
    var onReceiveReply: Handler
    var onReceiveMessage: Handler
    var invoked: seq<Invocation>

    /** Before any setter is called, every slot holds the no-op handler. */
    constructor (myId: string)
      ensures this.myId == myId
      ensures forall s :: HandlerIn(s) == NoOp
      ensures invoked == []
    {
      this.myId := myId;
      onReceiveDirectMessage := NoOp;
      onReceiveReply := NoOp;
      onReceiveMessage := NoOp;
      invoked := [];
    }

    /** The handler currently stored in `slot`. */
    function HandlerIn(slot: Slot): Handler
      reads this
    {
      match slot
      case DirectMessageSlot => onReceiveDirectMessage
      case ReplySlot => onReceiveReply
      case MessageSlot => onReceiveMessage
    }

    /** `onReceiveMessage(handler)`: replaces the plain-message handler only. */
    method OnReceiveMessage(handler: Handler)
      modifies this
      ensures HandlerIn(MessageSlot) == handler
      ensures forall s :: s != MessageSlot ==> HandlerIn(s) == old(HandlerIn(s))
      ensures invoked == old(invoked)
    {
      onReceiveMessage := handler;
    }

    /** `onReceiveDirectMessage(handler)`: replaces the direct-message handler only. */
    method OnReceiveDirectMessage(handler: Handler)
      modifies this
      ensures HandlerIn(DirectMessageSlot) == handler
      ensures forall s :: s != DirectMessageSlot ==> HandlerIn(s) == old(HandlerIn(s))
      ensures invoked == old(invoked)
    {
      onReceiveDirectMessage := handler;
    }

    /** `onReceiveReply(handler)`: replaces the reply handler only. */
    method OnReceiveReply(handler: Handler)
      modifies this
      ensures HandlerIn(ReplySlot) == handler
      ensures forall s :: s != ReplySlot ==> HandlerIn(s) == old(HandlerIn(s))
      ensures invoked == old(invoked)
    {
      onReceiveReply := handler;
    }

    /** The message-posted listener: a dropped event invokes nothing; an
        accepted one invokes exactly the handler in the slot `Route` picks.
        The slots themselves are left as they are. */
    method OnMessagePosted(ev: MessagePosted)
      modifies this
      ensures forall s :: HandlerIn(s) == old(HandlerIn(s))
      ensures invoked == old(invoked) + match Route(myId, ev)
        case None => []
        case Some(slot) => [Invocation(old(HandlerIn(slot)), ev)]
    {
      match Route(myId, ev) {
        case None =>
        case Some(slot) =>
          invoked := invoked + [Invocation(HandlerIn(slot), ev)];
      }
    }
  }
}
