/** The `Command` data class of Bot.kt and the `ResponseType` enum: how a
    command declared by a `@ListenTo`/`@RespondTo` member turns a chat message
    into handler arguments, whether it matches, and how it is evaluated. */
module Commands {
  import opened Runtime
  import opened Coercion

  /** Which events a command listens to: plain posts (`ListenTo`) or posts
      addressed to the bot (`RespondTo`). */
  datatype ResponseType = ListenTo | RespondTo

  /** The annotations the core looks at on members and parameters. */
  datatype Annotation =
    | ListenToAnnotation(regexp: string)
    | RespondToAnnotation(regexp: string)
    | GroupParamAnnotation(group: int)
    | OtherAnnotation(name: string)

  /** `ResponseType.from(annotation)`. */
  function From(a: Annotation): Option<ResponseType> {
    match a
    case ListenToAnnotation(_) => Some(ListenTo)
    case RespondToAnnotation(_) => Some(RespondTo)
    case _ => None
  }

  /** `type.getRegexFromAnnotation(annotation)`: the annotation's pattern when
      the annotation is of the receiver's own kind, otherwise
      `IllegalStateException`. */
  function GetRegexFromAnnotation(t: ResponseType, a: Annotation): (r: Result<Regex>)
    ensures r.Throw? ==> r.error == IllegalState
  {
    match t
    case ListenTo => if a.ListenToAnnotation? then Ok(Regex(a.regexp)) else Throw(IllegalState)
    case RespondTo => if a.RespondToAnnotation? then Ok(Regex(a.regexp)) else Throw(IllegalState)
  }

  /** `from` maps `@ListenTo` to `ListenTo`, `@RespondTo` to `RespondTo` and
      anything else to `null`; it yields `t` exactly for the annotations whose
      pattern `getRegexFromAnnotation` of `t` accepts. */
  lemma FromAgreesWithGetRegex(t: ResponseType, a: Annotation)
    ensures From(a) == Some(ListenTo) <==> a.ListenToAnnotation?
    ensures From(a) == Some(RespondTo) <==> a.RespondToAnnotation?
    ensures From(a) == Some(t) <==> GetRegexFromAnnotation(t, a).Ok?
    ensures GetRegexFromAnnotation(t, a).Ok? ==> GetRegexFromAnnotation(t, a).value == Regex(a.regexp)
  {
  }

  /** A value parameter of a command member. */
  datatype Param = Param(annotations: seq<Annotation>, kType: KType)

  /** `findAnnotation<GroupParam>()?.group`: the group of the first
      `@GroupParam` among the annotations. */
  function FirstGroup(anns: seq<Annotation>): (r: Option<int>)
    ensures r.None? <==> forall i :: 0 <= i < |anns| ==> !anns[i].GroupParamAnnotation?
    ensures r.Some? ==> exists i :: 0 <= i < |anns| && anns[i] == GroupParamAnnotation(r.value) &&
                                    forall j :: 0 <= j < i ==> !anns[j].GroupParamAnnotation?
  {
    if anns == [] then None
    else if anns[0].GroupParamAnnotation? then Some(anns[0].group)
    else
      var r := FirstGroup(anns[1..]);
      assert r.Some? ==> exists i :: 1 <= i < |anns| && anns[i] == GroupParamAnnotation(r.value) &&
                                      forall j :: 0 <= j < i ==> !anns[j].GroupParamAnnotation? by {
        if r.Some? {
          var i :| 0 <= i < |anns[1..]| && anns[1..][i] == GroupParamAnnotation(r.value) &&
                   forall j :: 0 <= j < i ==> !anns[1..][j].GroupParamAnnotation?;
          assert anns[i + 1] == GroupParamAnnotation(r.value);
          assert forall j :: 0 <= j < i + 1 ==> !anns[j].GroupParamAnnotation? by {
            forall j | 0 <= j < i + 1 ensures !anns[j].GroupParamAnnotation? {
              if j > 0 { assert anns[j] == anns[1..][j - 1]; }
            }
          }
        }
      }
      r
  }

  /** How a command's owning class is instantiated by `primaryConstructor?.call()`. */
  datatype Constructor = NoArgConstructor | NoPrimaryConstructor | ConstructorNeedingArgs

  /** A Slack message attachment; its fields are not interpreted by the core. */
  datatype Attachment = Attachment(fields: map<string, string>)

  /** What a handler returns, classified as `respondTo` classifies it. */
  datatype Reply =
    | NullReply
    | TextReply(text: string)
    | AttachmentReply(attachment: Attachment)
    | OtherReply(className: string)

  /** One command: its kind, its compiled pattern, its owner's primary constructor,
      its value parameters, and the handler body as a function of the
      argument list (which may itself throw). */
  datatype Command = Command(
    responseType: ResponseType,
    regex: Regex,
    primaryConstructor: Constructor,
    params: seq<Param>,
    call: seq<Value> -> Result<Reply>)

  /** The first half of `getArgumentsFromTargetMessage`: each parameter paired
      with its group, or `IllegalStateException` for one without `@GroupParam`. */
  function GroupIndices(params: seq<Param>): (r: Result<seq<int>>)
    ensures r.Ok? <==> forall i :: 0 <= i < |params| ==> FirstGroup(params[i].annotations).Some?
    ensures r.Ok? ==> |r.value| == |params|
    ensures r.Ok? ==> forall i :: 0 <= i < |params| ==> FirstGroup(params[i].annotations) == Some(r.value[i])
    ensures r.Throw? ==> r.error == IllegalState
  {
    if params == [] then Ok([])
    else
      match FirstGroup(params[0].annotations)
      case None => Throw(IllegalState)
      case Some(g) =>
        match GroupIndices(params[1..])
        case Throw(e) => Throw(e)
        case Ok(rest) =>
          assert forall i :: 1 <= i < |params| ==> params[i] == params[1..][i - 1];
          Ok([g] + rest)
  }

  /** `groupValues[index].convertTo(param.type)`, with the list access that
      throws for an index outside the group values. */
  function Argument(p: Platform, groupValues: seq<string>, param: Param, index: int): (r: Result<Value>)
    ensures r.Throw? ==> r.error == IllegalState || r.error == IndexOutOfBounds
    ensures r.Throw? && r.error == IndexOutOfBounds <==> !(0 <= index < |groupValues|)
  {
    if 0 <= index < |groupValues| then ConvertTo(p, groupValues[index], param.kType)
    else Throw(IndexOutOfBounds)
  }

  /** The second half of `getArgumentsFromTargetMessage`: the arguments in
      parameter order; the first parameter that fails decides the exception. */
  function ConvertAll(p: Platform, groupValues: seq<string>, params: seq<Param>, indices: seq<int>): (r: Result<seq<Value>>)
    requires |indices| == |params|
    ensures r.Ok? <==> forall i :: 0 <= i < |params| ==> Argument(p, groupValues, params[i], indices[i]).Ok?
    ensures r.Ok? ==> |r.value| == |params|
    ensures r.Ok? ==> forall i :: 0 <= i < |params| ==> Argument(p, groupValues, params[i], indices[i]) == Ok(r.value[i])
    ensures r.Throw? ==> exists k :: (0 <= k < |params| &&
      Argument(p, groupValues, params[k], indices[k]) == Throw(r.error) &&
      forall j :: 0 <= j < k ==> Argument(p, groupValues, params[j], indices[j]).Ok?)
  {
    if params == [] then Ok([])
    else
      match Argument(p, groupValues, params[0], indices[0])
      case Throw(e) => Throw(e)
      case Ok(v) =>
        var rest := ConvertAll(p, groupValues, params[1..], indices[1..]);
        assert forall i :: 1 <= i < |params| ==> params[i] == params[1..][i - 1] && indices[i] == indices[1..][i - 1];
        match rest
        case Throw(e) =>
          var k :| 0 <= k < |params[1..]| &&
            Argument(p, groupValues, params[1..][k], indices[1..][k]) == Throw(e) &&
            forall j :: 0 <= j < k ==> Argument(p, groupValues, params[1..][j], indices[1..][j]).Ok?;
          assert Argument(p, groupValues, params[k + 1], indices[k + 1]) == Throw(e);
          Throw(e)
        case Ok(vs) => Ok([v] + vs)
  }

  /** `command.getArgumentsFromTargetMessage(message)`. */
  function GetArgumentsFromTargetMessage(p: Platform, c: Command, message: string): (r: Result<seq<Value>>)
    ensures r.Throw? ==> r.error == IllegalState || r.error == IndexOutOfBounds
  {
    match GroupIndices(c.params)
    case Throw(e) => Throw(e)
    case Ok(indices) =>
      match p.find(c.regex, message)
      case None => Throw(IllegalState)
      case Some(groupValues) => ConvertAll(p, groupValues, c.params, indices)
  }

  /** The arguments a command takes from a message, stated directly: every
      parameter has a group, the pattern occurs in the message, and entry i
      is the conversion of the value of parameter i's group in the first
      match (groups may repeat or come in any order). */
  ghost predicate Binds(p: Platform, c: Command, message: string, args: seq<Value>) {
    && (forall i :: 0 <= i < |c.params| ==> FirstGroup(c.params[i].annotations).Some?)
    && p.find(c.regex, message).Some?
    && |args| == |c.params|
    && var groupValues := p.find(c.regex, message).value;
       forall i :: 0 <= i < |c.params| ==>
         var g := FirstGroup(c.params[i].annotations).value;
         0 <= g < |groupValues| && ConvertTo(p, groupValues[g], c.params[i].kType) == Ok(args[i])
  }

  /** Argument extraction succeeds with exactly the arguments `Binds` describes. */
  lemma ArgumentsSpec(p: Platform, c: Command, message: string, args: seq<Value>)
    ensures GetArgumentsFromTargetMessage(p, c, message) == Ok(args) <==> Binds(p, c, message, args)
  {
    var r := GetArgumentsFromTargetMessage(p, c, message);
    var gi := GroupIndices(c.params);
    if Binds(p, c, message, args) {
      var groupValues := p.find(c.regex, message).value;
      var conv := ConvertAll(p, groupValues, c.params, gi.value);
      assert conv.Ok?;
      assert conv.value == args;
    }
  }

  /** A parameter without `@GroupParam`, or a message in which the pattern
      does not occur, makes extraction throw `IllegalStateException`. */
  lemma ExtractionFailures(p: Platform, c: Command, message: string)
    ensures (exists i :: 0 <= i < |c.params| && FirstGroup(c.params[i].annotations).None?) ==>
      GetArgumentsFromTargetMessage(p, c, message) == Throw(IllegalState)
    ensures p.find(c.regex, message).None? ==>
      GetArgumentsFromTargetMessage(p, c, message) == Throw(IllegalState)
  {
  }

  /** `command.matches(message)`: extraction that finishes is a match, an
      `IllegalStateException` is caught as a non-match, and any other
      exception escapes. */
  function Matches(p: Platform, c: Command, message: string): Result<bool> {
    match GetArgumentsFromTargetMessage(p, c, message)
    case Ok(_) => Ok(true)
    case Throw(IllegalState) => Ok(false)
    case Throw(e) => Throw(e)
  }

  /** `matches` is true exactly when some argument list binds, false exactly
      when extraction throws `IllegalStateException`, and throws only the
      `IndexOutOfBoundsException` of a group index outside the match. */
  lemma MatchesSpec(p: Platform, c: Command, message: string)
    ensures Matches(p, c, message) == Ok(true) <==> exists args :: Binds(p, c, message, args)
    ensures Matches(p, c, message) == Ok(false) <==> GetArgumentsFromTargetMessage(p, c, message) == Throw(IllegalState)
    ensures Matches(p, c, message).Throw? <==> GetArgumentsFromTargetMessage(p, c, message) == Throw(IndexOutOfBounds)
    ensures Matches(p, c, message).Throw? ==> Matches(p, c, message).error == IndexOutOfBounds
  {
    var r := GetArgumentsFromTargetMessage(p, c, message);
    if r.Ok? {
      ArgumentsSpec(p, c, message, r.value);
    }
    forall args | Binds(p, c, message, args) ensures r.Ok? {
      ArgumentsSpec(p, c, message, args);
    }
  }

  /** A pattern hit whose groups are all in range but one of whose conversions
      throws (a failed coercion, or a parameter type outside the supported
      set) is a non-match, not an error. */
  lemma FailedCoercionIsNonMatch(p: Platform, c: Command, message: string, k: nat)
    requires forall i :: 0 <= i < |c.params| ==> FirstGroup(c.params[i].annotations).Some?
    requires p.find(c.regex, message).Some?
    requires var groupValues := p.find(c.regex, message).value;
      forall i :: 0 <= i < |c.params| ==> 0 <= FirstGroup(c.params[i].annotations).value < |groupValues|
    requires k < |c.params|
    requires var groupValues := p.find(c.regex, message).value;
      ConvertTo(p, groupValues[FirstGroup(c.params[k].annotations).value], c.params[k].kType).Throw?
    ensures Matches(p, c, message) == Ok(false)
  {
    var groupValues := p.find(c.regex, message).value;
    var indices := GroupIndices(c.params).value;
    assert !Argument(p, groupValues, c.params[k], indices[k]).Ok?;
  }

  /** A group index outside the first match's groups, reached before any
      other failure, throws `IndexOutOfBoundsException` out of `matches`. */
  lemma BadGroupIndexEscapes(p: Platform, c: Command, message: string, k: nat)
    requires forall i :: 0 <= i < |c.params| ==> FirstGroup(c.params[i].annotations).Some?
    requires p.find(c.regex, message).Some?
    requires k < |c.params|
    requires var groupValues := p.find(c.regex, message).value;
      var g := FirstGroup(c.params[k].annotations).value;
      !(0 <= g < |groupValues|)
    requires var groupValues := p.find(c.regex, message).value;
      forall j :: 0 <= j < k ==>
        Argument(p, groupValues, c.params[j], FirstGroup(c.params[j].annotations).value).Ok?
    ensures Matches(p, c, message) == Throw(IndexOutOfBounds)
  {
    var groupValues := p.find(c.regex, message).value;
    var indices := GroupIndices(c.params).value;
    var r := ConvertAll(p, groupValues, c.params, indices);
    assert !Argument(p, groupValues, c.params[k], indices[k]).Ok?;
    var k' :| 0 <= k' < |c.params| &&
      Argument(p, groupValues, c.params[k'], indices[k']) == Throw(r.error) &&
      forall j :: 0 <= j < k' ==> Argument(p, groupValues, c.params[j], indices[j]).Ok?;
    assert k' == k;
  }

  /** `primaryConstructor?.call()` followed by `kCallable.call(instance, *args)`. */
  function Invoke(c: Command, args: seq<Value>): Result<Reply> {
    match c.primaryConstructor
    case NoArgConstructor => c.call(args)
    case NoPrimaryConstructor => Throw(IllegalState)
    case ConstructorNeedingArgs => Throw(IllegalArgument)
  }

  /** `command.eval(message)`: extract the arguments again, instantiate the
      owning class, and call the handler. */
  function Eval(p: Platform, c: Command, message: string): Result<Reply> {
    match GetArgumentsFromTargetMessage(p, c, message)
    case Throw(e) => Throw(e)
    case Ok(args) => Invoke(c, args)
  }

  /** Evaluating a matching command calls its handler, on a fresh instance,
      with the arguments the message binds. */
  lemma EvalAfterMatch(p: Platform, c: Command, message: string, args: seq<Value>)
    requires Matches(p, c, message) == Ok(true)
    requires Binds(p, c, message, args)
    ensures Eval(p, c, message) == Invoke(c, args)
    ensures c.primaryConstructor == NoArgConstructor ==> Eval(p, c, message) == c.call(args)
  {
    ArgumentsSpec(p, c, message, args);
  }

  predicate IsTagged(a: Annotation) {
    a.ListenToAnnotation? || a.RespondToAnnotation?
  }

  /** `annotations.first { it is ListenTo || it is RespondTo }`. */
  function FirstTagged(anns: seq<Annotation>): (a: Annotation)
    requires exists i :: 0 <= i < |anns| && IsTagged(anns[i])
    ensures IsTagged(a)
    ensures exists i :: 0 <= i < |anns| && anns[i] == a && forall j :: 0 <= j < i ==> !IsTagged(anns[j])
  {
    if IsTagged(anns[0]) then anns[0]
    else
      assert exists i :: 0 <= i < |anns[1..]| && IsTagged(anns[1..][i]) by {
        var i :| 0 <= i < |anns| && IsTagged(anns[i]);
        assert anns[1..][i - 1] == anns[i];
      }
      var a := FirstTagged(anns[1..]);
      assert exists i :: 1 <= i < |anns| && anns[i] == a && forall j :: 0 <= j < i ==> !IsTagged(anns[j]) by {
        var i :| 0 <= i < |anns[1..]| && anns[1..][i] == a && forall j :: 0 <= j < i ==> !IsTagged(anns[1..][j]);
        assert anns[i + 1] == a;
        forall j | 0 <= j < i + 1 ensures !IsTagged(anns[j]) {
          if j > 0 { assert anns[j] == anns[1..][j - 1]; }
        }
      }
      a
  }

  /** `ResponseType.from(annotation)!!`. */
  function NotNull(o: Option<ResponseType>): Result<ResponseType> {
    match o
    case Some(t) => Ok(t)
    case None => Throw(NullPointer)
  }

  /** The command built for one member carrying `@ListenTo` or `@RespondTo`:
      its kind and pattern come from the first such annotation. The `!!` and
      the cast in `getRegexFromAnnotation` never fail, because both read the
      annotation that was selected for being of one of the two kinds. */
  function CommandOf(primaryConstructor: Constructor, anns: seq<Annotation>, params: seq<Param>,
                     call: seq<Value> -> Result<Reply>): (r: Result<Command>)
    requires exists i :: 0 <= i < |anns| && IsTagged(anns[i])
    ensures r.Ok?
    ensures var a := FirstTagged(anns);
      r.value.responseType == (if a.ListenToAnnotation? then ListenTo else RespondTo) &&
      r.value.regex == Regex(a.regexp)
    ensures r.value.primaryConstructor == primaryConstructor && r.value.params == params
  {
    var annotation := FirstTagged(anns);
    match NotNull(From(annotation))
    case Throw(e) => Throw(e)
    case Ok(t) =>
      match GetRegexFromAnnotation(t, annotation)
      case Throw(e) => Throw(e)
      case Ok(regex) => Ok(Command(t, regex, primaryConstructor, params, call))
  }
}
