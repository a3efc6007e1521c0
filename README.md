# easy-slackbot command dispatch, modelled in Dafny

This project models the core of easy-slackbot, a Kotlin library for chat bots.
Developers write handler methods annotated with `@ListenTo(regexp)` (react to
any post) or `@RespondTo(regexp)` (react to posts addressed to the bot). Each
parameter is annotated with `@GroupParam(group)`. The model covers two parts.

- **The dispatch engine of `Bot.kt`.**
  - `Coercion.ConvertTo` turns a capture group's text into a Byte, Short, Int, Long, Float, Double, Boolean or String argument.
  - `Commands` builds the argument list of one command from the first match of its pattern. It also decides whether the command *matches*: an `IllegalStateException` during extraction is caught and means "no match".
  - `Dispatch.Select` picks the first command in registry order that has the event's kind and matches.
  - `Dispatch.Deliver` turns the handler's return value into one text message, one attachment, nothing, or an exception.
  - The class `Dispatch.Bot` records the messages sent in the `sent` field.
- **The inbound router of `SimpleSlackApiSlack.kt`.**
  - The pure function `SlackClient.Route` drops events that are not "message posted" and posts by the bot itself.
  - It sends a direct message, a mention or a plain post to exactly one of three handler slots.
  - The class `SlackClient.SimpleSlackApiSlack` holds the three slots, their setters, and a log of handler invocations.

Kotlin exceptions are modelled as `Runtime.Result` values (`Ok` or `Throw`), and `null` as `Runtime.Option`.

Some code is not part of the model. The operations it provides become parameters, bundled in `Runtime.Platform`:

- The regular-expression engine: `find(regex, message)` gives the group values of the first match. Index 0 is the whole match, and an unmatched group is `""`.
- `toFloatOrNull` and `toDoubleOrNull`.

Each handler body is an opaque function from its argument list to a reply, or to an exception.

The conversion and matching code behaves as follows in cases a reader might not expect, and the model keeps each behaviour:

- A Boolean parameter that receives anything other than `"true"` or `"false"` gets `null`, even when the parameter is not nullable. That conversion never fails, so the command matches. For a non-nullable parameter, the reflective call then rejects the `null` before the handler body runs. That error belongs to the opaque handler call (see "Left out").
- A nullable numeric parameter gets `null` on any parse failure.
- A String parameter always gets the group's text, whatever its nullability. A group that did not take part in the match, or matched nothing, gives `""`, never `null` and never a failure.
- An unsupported parameter type throws inside `matches`, so that command silently does not match.
- A parameter without `@GroupParam` is not rejected when the command is registered. It throws `IllegalStateException` on every message, so the command never matches.
- A `@GroupParam` index outside the match throws `IndexOutOfBoundsException`. `matches` does not catch it, so it escapes dispatch.

Integer texts are read as an optional `+` or `-` followed by at least one digit, as `toIntOrNull` and its siblings read them. An out-of-range value gives `null`. `Text.ParseDecimalSpec` characterises the accepted texts independently of the parser: they are an optional sign, any number of leading zeros, then the digits `toString` prints. A `-` is allowed only in front of a number that is not positive.

## Model

| member | source | states |
|---|---|---|
| Text.ParseDecimal | src/main/kotlin/io/github/yusaka39/easySlackbot/bot/Bot.kt:59-62 | the base-10 reading shared by `toByteOrNull`…`toLongOrNull`; `Text.ParseDecimalSpec` states what it accepts |
| Text.ParseDecimalSpec | src/main/kotlin/io/github/yusaka39/easySlackbot/bot/Bot.kt:59-62 | the reading gives `n` if and only if the text is an optional sign, then leading zeros, then the printed digits of the magnitude of `n`, with a `-` only when `n <= 0` |
| Text.IntegralOrNull | src/main/kotlin/io/github/yusaka39/easySlackbot/bot/Bot.kt:59-62 | `toByteOrNull`…`toLongOrNull`: a result always lies in [lo, hi]; `Text.IntegralOrNullSpec` states which texts give it |
| Text.IntegralOrNullSpec | src/main/kotlin/io/github/yusaka39/easySlackbot/bot/Bot.kt:59-62 | the range-checked parse gives `n` if and only if `n` lies in [lo, hi] and the text spells `n` |
| Text.IntegralOrNullOfFormat | src/main/kotlin/io/github/yusaka39/easySlackbot/bot/Bot.kt:59-62 | on the printed form of `n`, the range-checked parse gives `n` when it is in [lo, hi] and `null` otherwise |
| Text.ParseFormatRoundTrip | src/main/kotlin/io/github/yusaka39/easySlackbot/bot/Bot.kt:59-62 | parsing the decimal text of any integer gives that integer back |
| Text.StartsWith | src/main/kotlin/io/github/yusaka39/easySlackbot/slack/impl/SimpleSlackApiSlack.kt:33 | `startsWith("D")`: the text's first characters are the prefix; its use is stated by `SlackClient.Route` and `SlackClient.DirectMessageBeforeMention` |
| Text.Contains | src/main/kotlin/io/github/yusaka39/easySlackbot/slack/impl/SimpleSlackApiSlack.kt:37 | `contains` is true exactly when the token occurs at some position of the text |
| Text.IndexOf | src/main/kotlin/io/github/yusaka39/easySlackbot/slack/impl/SimpleSlackApiSlack.kt:37 | the search returns the first position where the token occurs, or none when it occurs nowhere |
| Coercion.ConvertTo | src/main/kotlin/io/github/yusaka39/easySlackbot/bot/Bot.kt:52-73 | a non-null result has the declared type, and integers are within that type's range; `null` comes only for a nullable type or Boolean; the only exception is `IllegalStateException` |
| Coercion.ValidateNullability | src/main/kotlin/io/github/yusaka39/easySlackbot/bot/Bot.kt:55-56 | `validateNullability`: passes a present value and throws on `null` unless the type is nullable; its effect is stated by `Coercion.IntegralCoercion` and `Coercion.FloatingCoercion` |
| Coercion.IntegralCoercion | src/main/kotlin/io/github/yusaka39/easySlackbot/bot/Bot.kt:55-62 | for Byte/Short/Int/Long: the parsed value when the text is an in-range base-10 integer; otherwise `null` if nullable and `IllegalStateException` if not |
| Coercion.NullableNumberNeverThrows | src/main/kotlin/io/github/yusaka39/easySlackbot/bot/Bot.kt:55-64 | a nullable numeric parameter never throws, because any parse failure gives `null` |
| Coercion.FloatingCoercion | src/main/kotlin/io/github/yusaka39/easySlackbot/bot/Bot.kt:63-64 | Float and Double use the platform parser's answer, and a failed parse goes through `validateNullability` |
| Coercion.BooleanCoercion | src/main/kotlin/io/github/yusaka39/easySlackbot/bot/Bot.kt:65-69 | "true" gives true, "false" gives false, anything else gives `null` whatever the nullability; it never throws |
| Coercion.StringAndUnsupportedCoercion | src/main/kotlin/io/github/yusaka39/easySlackbot/bot/Bot.kt:70-71 | String gives the text unchanged; any other classifier throws `IllegalStateException` |
| Coercion.CoercionRoundTrip | src/main/kotlin/io/github/yusaka39/easySlackbot/bot/Bot.kt:58-70 | converting the printed form of a Byte, Short, Int, Long, Boolean or String value back to its type gives the value |
| Commands.From | src/main/kotlin/io/github/yusaka39/easySlackbot/bot/Bot.kt:79-83 | `ResponseType.from`; stated by `Commands.FromAgreesWithGetRegex` |
| Commands.GetRegexFromAnnotation | src/main/kotlin/io/github/yusaka39/easySlackbot/bot/Bot.kt:86-89 | the only exception is `IllegalStateException`; when it succeeds is stated by `Commands.FromAgreesWithGetRegex` |
| Commands.FromAgreesWithGetRegex | src/main/kotlin/io/github/yusaka39/easySlackbot/bot/Bot.kt:79-89 | `from` maps `@ListenTo` to ListenTo, `@RespondTo` to RespondTo and anything else to null; `getRegexFromAnnotation` of a kind succeeds exactly for that kind's annotation and yields its pattern |
| Commands.FirstGroup | src/main/kotlin/io/github/yusaka39/easySlackbot/bot/Bot.kt:26 | the group of the first `@GroupParam`; absent exactly when the parameter has none |
| Commands.GroupIndices | src/main/kotlin/io/github/yusaka39/easySlackbot/bot/Bot.kt:25-28 | succeeds exactly when every parameter has `@GroupParam` and then gives one group per parameter, in order; otherwise `IllegalStateException` |
| Commands.Argument | src/main/kotlin/io/github/yusaka39/easySlackbot/bot/Bot.kt:32 | `groupValues[index].convertTo(param.type)`: an index outside the group values, and only that, throws `IndexOutOfBoundsException`; otherwise the conversion decides, and it throws only `IllegalStateException` |
| Commands.ConvertAll | src/main/kotlin/io/github/yusaka39/easySlackbot/bot/Bot.kt:31-33 | succeeds exactly when every parameter's group is in range and converts; entry i is parameter i's conversion; on failure the first failing parameter's exception is thrown |
| Commands.GetArgumentsFromTargetMessage | src/main/kotlin/io/github/yusaka39/easySlackbot/bot/Bot.kt:24-34 | extraction throws only `IllegalStateException` or `IndexOutOfBoundsException` |
| Commands.ArgumentsSpec | src/main/kotlin/io/github/yusaka39/easySlackbot/bot/Bot.kt:24-33 | extraction returns `args` exactly when `Binds` holds. `Binds`: every parameter has a group; the pattern occurs; entry i converts parameter i's group value from the first match (groups may repeat or come in any order) |
| Commands.ExtractionFailures | src/main/kotlin/io/github/yusaka39/easySlackbot/bot/Bot.kt:25-30 | a parameter without `@GroupParam`, or a message where the pattern is not found, makes extraction throw `IllegalStateException` |
| Commands.Matches | src/main/kotlin/io/github/yusaka39/easySlackbot/bot/Bot.kt:36-41 | `matches`; stated by `Commands.MatchesSpec` |
| Commands.MatchesSpec | src/main/kotlin/io/github/yusaka39/easySlackbot/bot/Bot.kt:36-41 | `matches` is true exactly when some argument list binds; false exactly when extraction throws `IllegalStateException`; it throws only an `IndexOutOfBoundsException` that escapes |
| Commands.FailedCoercionIsNonMatch | src/main/kotlin/io/github/yusaka39/easySlackbot/bot/Bot.kt:32-41 | a pattern hit with all groups in range, where some conversion fails (bad number, unsupported type), is a non-match |
| Commands.BadGroupIndexEscapes | src/main/kotlin/io/github/yusaka39/easySlackbot/bot/Bot.kt:32-41 | a group index outside the match, reached before any other failure, makes `matches` throw `IndexOutOfBoundsException` |
| Commands.Invoke | src/main/kotlin/io/github/yusaka39/easySlackbot/bot/Bot.kt:45-48 | `primaryConstructor?.call()` then `kCallable.call`; its use is stated by `Commands.EvalAfterMatch` |
| Commands.Eval | src/main/kotlin/io/github/yusaka39/easySlackbot/bot/Bot.kt:43-49 | `eval`; stated by `Commands.EvalAfterMatch` |
| Commands.EvalAfterMatch | src/main/kotlin/io/github/yusaka39/easySlackbot/bot/Bot.kt:43-49 | evaluating a matching command instantiates its class and calls the handler with exactly the bound arguments |
| Commands.FirstTagged | src/main/kotlin/io/github/yusaka39/easySlackbot/bot/Bot.kt:104 | the first annotation that is `@ListenTo` or `@RespondTo` |
| Commands.NotNull | src/main/kotlin/io/github/yusaka39/easySlackbot/bot/Bot.kt:105 | the `!!` on `ResponseType.from`: `null` throws `NullPointerException`; `Commands.CommandOf` shows it is never reached with `null` |
| Commands.CommandOf | src/main/kotlin/io/github/yusaka39/easySlackbot/bot/Bot.kt:104-107 | the `!!` and the cast never fail; kind and pattern come from the first tagged annotation (pattern compilation is not modelled, see "Left out") |
| Dispatch.Select | src/main/kotlin/io/github/yusaka39/easySlackbot/bot/Bot.kt:128-130 | the selected command has the event's kind and matches, and no earlier command of that kind matches; no selection means none of that kind matches; an exception comes from the first command of that kind whose `matches` throws |
| Dispatch.Respond | src/main/kotlin/io/github/yusaka39/easySlackbot/bot/Bot.kt:126-137 | what `respondTo` sends or throws; a message it sends always goes to the request's channel; the dispatch lemmas below state the rest |
| Dispatch.SelectIsFirstEligible | src/main/kotlin/io/github/yusaka39/easySlackbot/bot/Bot.kt:128-130 | a matching command of the right kind with only non-matching commands of that kind before it is the one selected |
| Dispatch.RespondSkipsNonMatching | src/main/kotlin/io/github/yusaka39/easySlackbot/bot/Bot.kt:128-130 | a command of the other kind, or one that does not match, is passed over and the later commands decide the reply |
| Dispatch.RespondHeadDecides | src/main/kotlin/io/github/yusaka39/easySlackbot/bot/Bot.kt:128-130 | a command of the right kind that matches, or whose `matches` throws, decides the reply alone |
| Dispatch.OtherKindIgnored | src/main/kotlin/io/github/yusaka39/easySlackbot/bot/Bot.kt:128-129 | over an already-built registry, dispatching over all commands gives the same reply as dispatching over the commands of the event's kind alone (a registry rebuilt with a pattern that does not compile is outside the model, see "Left out") |
| Dispatch.SelectIgnoresLater | src/main/kotlin/io/github/yusaka39/easySlackbot/bot/Bot.kt:128-130 | once the search stops, appending commands does not change the selection |
| Dispatch.LaterCommandsIgnored | src/main/kotlin/io/github/yusaka39/easySlackbot/bot/Bot.kt:128-130 | once the search stops, appending commands does not change the reply, so no later command is evaluated |
| Dispatch.Deliver | src/main/kotlin/io/github/yusaka39/easySlackbot/bot/Bot.kt:130-136 | `null` sends nothing; a String sends one text and an attachment sends one attachment, both to the request's channel; any other value throws `IllegalStateException`; an exception from `eval` passes through |
| Dispatch.Bot.constructor | src/main/kotlin/io/github/yusaka39/easySlackbot/bot/Bot.kt:122-125 | a new bot has sent nothing |
| Dispatch.Bot.RespondTo | src/main/kotlin/io/github/yusaka39/easySlackbot/bot/Bot.kt:126-137 | `sent` grows by exactly the one message `Respond` calls for, or stays the same; the escaping exception is reported |
| Dispatch.Bot.OnMentionedMessagePosted | src/main/kotlin/io/github/yusaka39/easySlackbot/bot/Bot.kt:138-140 | a mention is dispatched with kind RespondTo |
| Dispatch.Bot.OnMessagePosted | src/main/kotlin/io/github/yusaka39/easySlackbot/bot/Bot.kt:142-144 | a plain post is dispatched with kind ListenTo |
| Dispatch.Bot.OnDirectMessagePosted | src/main/kotlin/io/github/yusaka39/easySlackbot/bot/Bot.kt:146-148 | a direct message is dispatched with kind RespondTo |
| Scenarios.AddFiveIsEvaluated | src/main/kotlin/io/github/yusaka39/easySlackbot/bot/Bot.kt:24-49 | `add (\d+)` on "add 5" calls the handler with Int 5, and its text reply goes to the request's channel |
| Scenarios.AddFiveWordFallsThrough | src/main/kotlin/io/github/yusaka39/easySlackbot/bot/Bot.kt:30-41 | `add (\d+)` is not found in "add five": extraction throws `IllegalStateException`, the command is a non-match, and the later commands answer |
| Scenarios.AddWordFailsCoercion | src/main/kotlin/io/github/yusaka39/easySlackbot/bot/Bot.kt:31-41 | `add (\w+)` is found in "add five", but "five" does not convert to Int: the command is a non-match, and the later commands answer |
| Scenarios.BooleanYesGivesNull | src/main/kotlin/io/github/yusaka39/easySlackbot/bot/Bot.kt:65-69 | a non-nullable Boolean parameter given "yes" matches, and `kCallable.call` is applied to the argument list `[null]` |
| Scenarios.FirstOfTwoPingsAnswers | src/main/kotlin/io/github/yusaka39/easySlackbot/bot/Bot.kt:128-130 | of two matching RespondTo commands, the first registered answers |
| SlackClient.Route | src/main/kotlin/io/github/yusaka39/easySlackbot/slack/impl/SimpleSlackApiSlack.kt:23-46 | events that are not "message posted", and the bot's own posts, go nowhere; a channel id starting with "D" goes to the direct-message slot even when the text mentions the bot; otherwise a text containing `<@myId>` goes to the reply slot, and everything else goes to the plain-message slot |
| SlackClient.DirectMessageBeforeMention | src/main/kotlin/io/github/yusaka39/easySlackbot/slack/impl/SimpleSlackApiSlack.kt:33-37 | a direct message that contains the mention token still goes to the direct-message slot |
| SlackClient.MentionIsReply | src/main/kotlin/io/github/yusaka39/easySlackbot/slack/impl/SimpleSlackApiSlack.kt:37-40 | a non-DM text that embeds `<@myId>` goes to the reply slot |
| SlackClient.UserIdByName | src/main/kotlin/io/github/yusaka39/easySlackbot/slack/impl/SimpleSlackApiSlack.kt:123-124 | the id of the first user whose name equals the argument; none exactly when no user has that name |
| SlackClient.SimpleSlackApiSlack.constructor | src/main/kotlin/io/github/yusaka39/easySlackbot/slack/impl/SimpleSlackApiSlack.kt:49-51 | all three slots start as the no-op handler, and nothing has been invoked |
| SlackClient.SimpleSlackApiSlack.OnReceiveMessage | src/main/kotlin/io/github/yusaka39/easySlackbot/slack/impl/SimpleSlackApiSlack.kt:108-110 | replaces the plain-message slot only |
| SlackClient.SimpleSlackApiSlack.OnReceiveDirectMessage | src/main/kotlin/io/github/yusaka39/easySlackbot/slack/impl/SimpleSlackApiSlack.kt:112-114 | replaces the direct-message slot only |
| SlackClient.SimpleSlackApiSlack.OnReceiveReply | src/main/kotlin/io/github/yusaka39/easySlackbot/slack/impl/SimpleSlackApiSlack.kt:116-118 | replaces the reply slot only |
| SlackClient.SimpleSlackApiSlack.OnMessagePosted | src/main/kotlin/io/github/yusaka39/easySlackbot/slack/impl/SimpleSlackApiSlack.kt:23-46 | a dropped event invokes nothing; an accepted one invokes exactly the handler in the slot `Route` picks; the slots are unchanged |

## Left out

- Classpath scanning, class loading and reflection (`Bot.kt:92-120`): the registry is an explicit, ordered `seq<Command>`. Only the step that builds one command from a tagged member (`CommandOf`) is modelled.
- The lazy, thread-safe initialisation of `classPath`, `commands` and the Slacklet service, and `run`/`kill` (service start and stop): these are concurrency and I/O concerns.
- The regular-expression engine (`toRegex`, `Regex.find`): it is the abstract `Platform.find`. A pattern that does not compile is not modelled.
- Commands.CommandOf: `toRegex()` (Bot.kt:89) throws on a pattern that does not compile, and the model does not show this. `commands` (Bot.kt:96-109) is a lazily held `Sequence` that is not cached, so each `firstOrNull` (Bot.kt:128) rebuilds every command it passes, whatever its kind. A member whose pattern does not compile therefore makes `respondTo` throw on every message whose search reaches it, for both kinds. The model's registry is fixed and already built, so it cannot show this. `Dispatch.OtherKindIgnored` therefore holds only for registries whose patterns all compile.
- Coercion.FloatingCoercion: float and double parsing is the abstract `Platform` parser returning a real. IEEE rounding is not modelled.
- Text.ParseDecimal: accepts only the ASCII digits 0-9, while the Kotlin parsers also accept other Unicode decimal digits.
- Handler bodies and `kCallable.call` are one opaque function from arguments to a reply or an exception. This includes the error reflection raises when `null` reaches a non-nullable parameter.
- The Slacklet request and `toMessage()`: a request is just its channel and text, and a handler is invoked with the event itself.
- Dispatch.Bot.RespondTo: a send is recorded in `sent`; delivery over the network and its failures are not modelled.
- In `SimpleSlackApiSlack.kt`: session creation and connect/disconnect; the `LazyMap` channel caches; `sendTo`, `putAttachmentTo`, `putReactionTo`, `sendDirectMessageTo`, `getChannelIdOrNullByName` and `getDmChannelIdOrNullByUserName`; and logging. These are network plumbing.
- The bot's own id (a lazy session lookup) is a constructor argument, and the session's user list is a parameter of `UserIdByName`.
- SlackClient.SimpleSlackApiSlack.OnMessagePosted: what an invoked handler itself does (it may call the setters or send messages) is not modelled. Only the invocation is recorded.
- `slack/Slack.kt` is not part of this model: it is an interface with no behaviour.
