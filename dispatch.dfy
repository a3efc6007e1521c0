/** The Slacklet that `Bot` registers (Bot.kt): for each posted message it
    picks the first command of the event's kind that matches, evaluates it,
    and turns the handler's return value into at most one message sent back
    to the request's channel. */
module Dispatch {
  import opened Runtime
  import opened Commands

  /** The parts of a Slacklet request that `respondTo` reads: the channel and
      the text of the posted message. */
  datatype Request = Request(channel: string, content: string)

  /** One call of the service's `sendMessageTo`. */
  datatype Send =
    | SendText(channel: string, text: string)                  // sendMessageTo(channel, text)
    | SendAttachment(channel: string, attachment: Attachment)  // sendMessageTo(channel, null, attachment)

  /** Every command of kind `kind` among `cmds[from..to]` was tested and did
      not match. */
  ghost predicate NoneMatchIn(p: Platform, cmds: seq<Command>, message: string, kind: ResponseType, from: int, to: int) {
    forall j :: from <= j < to && 0 <= j < |cmds| && cmds[j].responseType == kind ==>
      Matches(p, cmds[j], message) == Ok(false)
  }

  /** Prefixing a command that is of the other kind or does not match keeps
      "no command of the kind matched before position i" true, one position on. */
  lemma NoneMatchShift(p: Platform, cmds: seq<Command>, message: string, kind: ResponseType, i: int)
    requires cmds != []
    requires cmds[0].responseType == kind ==> Matches(p, cmds[0], message) == Ok(false)
    requires NoneMatchIn(p, cmds[1..], message, kind, 0, i)
    ensures NoneMatchIn(p, cmds, message, kind, 0, i + 1)
  {
    forall j | 0 <= j < i + 1 && 0 <= j < |cmds| && cmds[j].responseType == kind
      ensures Matches(p, cmds[j], message) == Ok(false)
    {
      if j > 0 {
        assert cmds[j] == cmds[1..][j - 1];
      }
    }
  }

  /** `commands.firstOrNull { it.responseType == type && it.matches(message) }`,
      as an index into `cmds`. The first command of the right kind that
      matches is chosen; commands of the other kind are never tested; an
      exception escaping `matches` ends the search. */
  function Select(p: Platform, cmds: seq<Command>, message: string, kind: ResponseType): (r: Result<Option<nat>>)
    ensures r == Ok(None) ==> NoneMatchIn(p, cmds, message, kind, 0, |cmds|)
    ensures r.Ok? && r.value.Some? ==>
      var i := r.value.value;
      && i < |cmds|
      && cmds[i].responseType == kind
      && Matches(p, cmds[i], message) == Ok(true)
      && NoneMatchIn(p, cmds, message, kind, 0, i)
    ensures r.Throw? ==> exists i :: (0 <= i < |cmds| && cmds[i].responseType == kind &&
      Matches(p, cmds[i], message) == Throw(r.error) && NoneMatchIn(p, cmds, message, kind, 0, i))
  {
    if cmds == [] then Ok(None)
    else
      var head := if cmds[0].responseType == kind then Matches(p, cmds[0], message) else Ok(false);
      match head
      case Throw(e) => Throw(e)
      case Ok(true) => Ok(Some(0))
      case Ok(false) =>
        match Select(p, cmds[1..], message, kind)
        case Throw(e) =>
          assert exists i :: (0 <= i < |cmds| && cmds[i].responseType == kind &&
            Matches(p, cmds[i], message) == Throw(e) && NoneMatchIn(p, cmds, message, kind, 0, i)) by {
            var i :| 0 <= i < |cmds[1..]| && cmds[1..][i].responseType == kind &&
              Matches(p, cmds[1..][i], message) == Throw(e) && NoneMatchIn(p, cmds[1..], message, kind, 0, i);
            assert cmds[i + 1] == cmds[1..][i];
            NoneMatchShift(p, cmds, message, kind, i);
          }
          Throw(e)
        case Ok(None) =>
          NoneMatchShift(p, cmds, message, kind, |cmds| - 1);
          Ok(None)
        case Ok(Some(i)) =>
          assert cmds[i + 1] == cmds[1..][i];
          NoneMatchShift(p, cmds, message, kind, i);
          Ok(Some(i + 1))
  }

  /** The `when (response)` of `respondTo`: `null` sends nothing, a `String`
      is sent as text and a `SlackAttachment` as an attachment with no text,
      both to the request's channel; any other value, or an exception from
      `eval`, is thrown. */
  function Deliver(reply: Result<Reply>, channel: string): (r: Result<Option<Send>>)
    ensures r == Ok(None) <==> reply == Ok(NullReply)
    ensures r.Ok? && r.value.Some? ==> r.value.value.channel == channel
    ensures (r.Ok? && r.value.Some? && r.value.value.SendText?) <==> (reply.Ok? && reply.value.TextReply?)
    ensures reply.Ok? && reply.value.TextReply? ==> r == Ok(Some(SendText(channel, reply.value.text)))
    ensures (r.Ok? && r.value.Some? && r.value.value.SendAttachment?) <==> (reply.Ok? && reply.value.AttachmentReply?)
    ensures reply.Ok? && reply.value.AttachmentReply? ==> r == Ok(Some(SendAttachment(channel, reply.value.attachment)))
    ensures r.Throw? <==> reply.Throw? || reply.value.OtherReply?
    ensures r.Throw? ==> r.error == if reply.Throw? then reply.error else IllegalState
  {
    match reply
    case Throw(e) => Throw(e)
    case Ok(NullReply) => Ok(None)
    case Ok(TextReply(text)) => Ok(Some(SendText(channel, text)))
    case Ok(AttachmentReply(a)) => Ok(Some(SendAttachment(channel, a)))
    case Ok(OtherReply(_)) => Throw(IllegalState)
  }

  /** What `respondTo(req, type)` does: the one message it sends, if any, or
      the exception it throws. */
  function Respond(p: Platform, cmds: seq<Command>, req: Request, kind: ResponseType): (r: Result<Option<Send>>)
    ensures r.Ok? && r.value.Some? ==> r.value.value.channel == req.channel
  {
    match Select(p, cmds, req.content, kind)
    case Throw(e) => Throw(e)
    case Ok(None) => Ok(None)
    case Ok(Some(i)) => Deliver(Eval(p, cmds[i], req.content), req.channel)
  }

  /** First match wins: a command of the right kind that matches, after only
      non-matching commands of that kind, is the one selected, whatever
      follows it. */
  lemma SelectIsFirstEligible(p: Platform, cmds: seq<Command>, message: string, kind: ResponseType, i: nat)
    requires i < |cmds| && cmds[i].responseType == kind
    requires Matches(p, cmds[i], message) == Ok(true)
    requires NoneMatchIn(p, cmds, message, kind, 0, i)
    ensures Select(p, cmds, message, kind) == Ok(Some(i))
  {
  }

  /** A command that is of the other kind, or that does not match (for
      instance because a coercion failed), is passed over: the reply is that
      of the commands after it. */
  lemma RespondSkipsNonMatching(p: Platform, c: Command, rest: seq<Command>, req: Request, kind: ResponseType)
    requires c.responseType != kind || Matches(p, c, req.content) == Ok(false)
    ensures Respond(p, [c] + rest, req, kind) == Respond(p, rest, req, kind)
  {
    var cmds := [c] + rest;
    assert cmds[1..] == rest;
    match Select(p, rest, req.content, kind)
    case Throw(_) =>
    case Ok(None) =>
    case Ok(Some(i)) => assert cmds[i + 1] == rest[i];
  }

  /** A command of the right kind that matches, or whose `matches` throws,
      decides the reply alone: nothing after it is tested or evaluated. */
  lemma RespondHeadDecides(p: Platform, c: Command, rest: seq<Command>, req: Request, kind: ResponseType)
    requires c.responseType == kind && Matches(p, c, req.content) != Ok(false)
    ensures Respond(p, [c] + rest, req, kind) == Respond(p, [c], req, kind)
    ensures Matches(p, c, req.content) == Ok(true) ==>
      Respond(p, [c] + rest, req, kind) == Deliver(Eval(p, c, req.content), req.channel)
  {
    MatchesSpec(p, c, req.content);
  }

  /** The commands of kind `kind`, in registry order. */
  function OfKind(cmds: seq<Command>, kind: ResponseType): (r: seq<Command>)
    ensures |r| <= |cmds|
    ensures forall j :: 0 <= j < |r| ==> r[j].responseType == kind
    ensures forall c :: c in r <==> c in cmds && c.responseType == kind
  {
    if cmds == [] then []
    else if cmds[0].responseType == kind then [cmds[0]] + OfKind(cmds[1..], kind)
    else OfKind(cmds[1..], kind)
  }

  /** Commands of the other kind play no part: dispatching over the whole
      registry gives the same reply as dispatching over the commands of the
      event's kind alone. */
  lemma {:induction false} OtherKindIgnored(p: Platform, cmds: seq<Command>, req: Request, kind: ResponseType)
    ensures Respond(p, cmds, req, kind) == Respond(p, OfKind(cmds, kind), req, kind)
  {
    if cmds != [] {
      var c, rest := cmds[0], cmds[1..];
      assert cmds == [c] + rest;
      OtherKindIgnored(p, rest, req, kind);
      if c.responseType != kind {
        RespondSkipsNonMatching(p, c, rest, req, kind);
      } else if Matches(p, c, req.content) == Ok(false) {
        RespondSkipsNonMatching(p, c, rest, req, kind);
        RespondSkipsNonMatching(p, c, OfKind(rest, kind), req, kind);
      } else {
        RespondHeadDecides(p, c, rest, req, kind);
        RespondHeadDecides(p, c, OfKind(rest, kind), req, kind);
      }
    }
  }

  /** Once the search has stopped, commands registered later are never
      tested: appending commands does not change the selection. */
  lemma {:induction false} SelectIgnoresLater(p: Platform, cmds: seq<Command>, more: seq<Command>, message: string, kind: ResponseType)
    requires Select(p, cmds, message, kind) != Ok(None)
    ensures Select(p, cmds + more, message, kind) == Select(p, cmds, message, kind)
  {
    var all := cmds + more;
    assert all[0] == cmds[0];
    assert all[1..] == cmds[1..] + more;
    if cmds[0].responseType == kind ==> Matches(p, cmds[0], message) == Ok(false) {
      SelectIgnoresLater(p, cmds[1..], more, message, kind);
    }
  }

  /** No later command is evaluated either: once a command has been selected
      (or `matches` has thrown), appending commands leaves the reply as it is. */
  lemma LaterCommandsIgnored(p: Platform, cmds: seq<Command>, more: seq<Command>, req: Request, kind: ResponseType)
    requires Select(p, cmds, req.content, kind) != Ok(None)
    ensures Respond(p, cmds + more, req, kind) == Respond(p, cmds, req, kind)
  {
    SelectIgnoresLater(p, cmds, more, req.content, kind);
    var r := Select(p, cmds, req.content, kind);
    if r.Ok? {
      assert (cmds + more)[r.value.value] == cmds[r.value.value];
    }
  }

  /** `after` is `before` with the send that `outcome` calls for, and
      `thrown` is the exception `outcome` throws, if any. */
  ghost predicate Performs(outcome: Result<Option<Send>>, before: seq<Send>, after: seq<Send>, thrown: Option<Exception>) {
    match outcome
    case Ok(None) => after == before && thrown == None
    case Ok(Some(s)) => after == before + [s] && thrown == None
    case Throw(e) => after == before && thrown == Some(e)
  }

  /** A `Bot` with its Slacklet: the fixed, ordered command registry and the
      messages sent so far through the Slack service. */
  class Bot {
    const platform: Platform
    const commands: seq<Command>
    var sent: seq<Send>

    constructor (platform: Platform, commands: seq<Command>)
      ensures this.platform == platform && this.commands == commands
      ensures sent == []
    {
      this.platform := platform;
      this.commands := commands;
      sent := [];
    }

    /** The Slacklet's private `respondTo(req, type)`: select, evaluate, and
        send at most one message; `thrown` is the exception that escapes. */
    method RespondTo(req: Request, kind: ResponseType) returns (thrown: Option<Exception>)
      modifies this
      ensures Performs(Respond(platform, commands, req, kind), old(sent), sent, thrown)
    {
      match Respond(platform, commands, req, kind) {
        case Throw(e) =>
          thrown := Some(e);
        case Ok(None) =>
          thrown := None;
        case Ok(Some(message)) =>
          sent := sent + [message];
          thrown := None;
      }
    }

    /** A post that mentions the bot is dispatched to `RespondTo` commands. */
    method OnMentionedMessagePosted(req: Request) returns (thrown: Option<Exception>)
      modifies this
      ensures Performs(Respond(platform, commands, req, ResponseType.RespondTo), old(sent), sent, thrown)
    {
      thrown := RespondTo(req, ResponseType.RespondTo);
    }

    /** A plain post is dispatched to `ListenTo` commands. */
    method OnMessagePosted(req: Request) returns (thrown: Option<Exception>)
      modifies this
      ensures Performs(Respond(platform, commands, req, ListenTo), old(sent), sent, thrown)
    {
      thrown := RespondTo(req, ListenTo);
    }

    /** A direct message is dispatched to `RespondTo` commands. */
    method OnDirectMessagePosted(req: Request) returns (thrown: Option<Exception>)
      modifies this
      ensures Performs(Respond(platform, commands, req, ResponseType.RespondTo), old(sent), sent, thrown)
    {
      thrown := RespondTo(req, ResponseType.RespondTo);
    }
  }
}
