/** Worked dispatch scenarios over commands written out in full. The regular
    expression engine stays abstract: each scenario states, as a requirement,
    the group values the engine reports for its pattern and message. */
module Scenarios {
  import opened Runtime
  import opened Text
  import opened Coercion
  import opened Commands
  import opened Dispatch

  /** A command `@ListenTo("^add (\\d+)$") fun add(@GroupParam(1) n: Int)`. */
  function AddCommand(call: seq<Value> -> Result<Reply>): Command {
    Command(ListenTo, Regex("^add (\\d+)$"), NoArgConstructor,
            [Param([GroupParamAnnotation(1)], KType(IntClass, false))], call)
  }

  /** "add 5" binds the Int argument 5, and the handler's text goes back to
      the request's channel. */
  lemma AddFiveIsEvaluated(p: Platform, call: seq<Value> -> Result<Reply>, rest: seq<Command>, channel: string)
    requires p.find(Regex("^add (\\d+)$"), "add 5") == Some(["add 5", "5"])
    requires call([IntValue(5)]) == Ok(TextReply("7"))
    ensures Respond(p, [AddCommand(call)] + rest, Request(channel, "add 5"), ListenTo) ==
            Ok(Some(SendText(channel, "7")))
  {
    var c := AddCommand(call);
    assert DigitsValue("5") == 5 by {
      assert "5"[..0] == "";
    }
    assert ConvertTo(p, "5", KType(IntClass, false)) == Ok(IntValue(5));
    assert Binds(p, c, "add 5", [IntValue(5)]);
    ArgumentsSpec(p, c, "add 5", [IntValue(5)]);
    RespondHeadDecides(p, c, rest, Request(channel, "add 5"), ListenTo);
  }

  /** `add (\d+)` does not occur in "add five", so the search gives `null`,
      extraction throws `IllegalStateException`, the command counts as not
      matching and the next commands answer instead. */
  lemma AddFiveWordFallsThrough(p: Platform, call: seq<Value> -> Result<Reply>, rest: seq<Command>, channel: string)
    requires p.find(Regex("^add (\\d+)$"), "add five") == None
    ensures Respond(p, [AddCommand(call)] + rest, Request(channel, "add five"), ListenTo) ==
            Respond(p, rest, Request(channel, "add five"), ListenTo)
  {
    var c := AddCommand(call);
    ExtractionFailures(p, c, "add five");
    RespondSkipsNonMatching(p, c, rest, Request(channel, "add five"), ListenTo);
  }

  /** The same Int parameter behind the looser pattern `add (\w+)`: the
      pattern is found in "add five", but "five" is not an Int, so the
      conversion fails, the command counts as not matching and the next
      commands answer instead. */
  lemma AddWordFailsCoercion(p: Platform, call: seq<Value> -> Result<Reply>, rest: seq<Command>, channel: string)
    requires p.find(Regex("^add (\\w+)$"), "add five") == Some(["add five", "five"])
    ensures var c := Command(ListenTo, Regex("^add (\\w+)$"), NoArgConstructor,
                             [Param([GroupParamAnnotation(1)], KType(IntClass, false))], call);
      Respond(p, [c] + rest, Request(channel, "add five"), ListenTo) ==
      Respond(p, rest, Request(channel, "add five"), ListenTo)
  {
    var c := Command(ListenTo, Regex("^add (\\w+)$"), NoArgConstructor,
                     [Param([GroupParamAnnotation(1)], KType(IntClass, false))], call);
    assert !IsDigit("five"[0]);
    assert ConvertTo(p, "five", KType(IntClass, false)).Throw?;
    FailedCoercionIsNonMatch(p, c, "add five", 0);
    RespondSkipsNonMatching(p, c, rest, Request(channel, "add five"), ListenTo);
  }

  /** A non-nullable Boolean parameter given "yes" is not a conversion
      failure: the command matches, and the handler call is applied to the
      argument list `[null]`. */
  lemma BooleanYesGivesNull(p: Platform, call: seq<Value> -> Result<Reply>, message: string, channel: string)
    requires p.find(Regex("^set (\\w+)$"), message) == Some([message, "yes"])
    ensures var c := Command(RespondTo, Regex("^set (\\w+)$"), NoArgConstructor,
                             [Param([GroupParamAnnotation(1)], KType(BooleanClass, false))], call);
      Matches(p, c, message) == Ok(true) && Eval(p, c, message) == call([Null])
  {
    var c := Command(RespondTo, Regex("^set (\\w+)$"), NoArgConstructor,
                     [Param([GroupParamAnnotation(1)], KType(BooleanClass, false))], call);
    assert Binds(p, c, message, [Null]);
    MatchesSpec(p, c, message);
    EvalAfterMatch(p, c, message, [Null]);
  }

  /** Two `RespondTo` commands that both match "ping": the one registered
      first answers, the second is never evaluated. */
  lemma FirstOfTwoPingsAnswers(p: Platform, first: Command, second: Command, channel: string)
    requires first.responseType == RespondTo && second.responseType == RespondTo
    requires Matches(p, first, "ping") == Ok(true) && Matches(p, second, "ping") == Ok(true)
    ensures Respond(p, [first, second], Request(channel, "ping"), RespondTo) ==
            Deliver(Eval(p, first, "ping"), channel)
  {
    assert [first, second] == [first] + [second];
    RespondHeadDecides(p, first, [second], Request(channel, "ping"), RespondTo);
  }
}
