/** `buildLocalApiConfigApplyResult` of src/api/LocalApi.cpp: from an HTTP request to the configuration file. */
module ConfigApply {
  import opened Text
  import opened JsonStrings
  import opened ApiToken
  import opened ConfigFile

  datatype Request = Request(authorization: string, body: string)

  datatype WriteContext = WriteContext(configPath: string, authToken: string)

  /** What the TOML loader and Config::validate make of a text; not part of this model. */
  datatype Checked = Unloadable(code: string) | Loaded(errors: seq<string>)

  datatype ApplyResult =
    | Unauthorized
    | Forbidden
    | PayloadTooLarge
    | MissingFields
    | UnsupportedFormat
    | ConfigUnloadable(code: string)
    | ValidationFailed(errors: seq<string>)
    | NoConfigPath
    | PersistFailed
    | Applied(appliedPath: string, backupPath: string)
  {
    function StatusCode(): int {
      match this
      case Unauthorized => 401
      case Forbidden => 403
      case ValidationFailed(_) => 200
      case Applied(_, _) => 200
      case NoConfigPath => 500
      case PersistFailed => 500
      case _ => 400
    }
  }

  const MAX_BODY_BYTES := 0x10_0000

  /** What is decided before any file is touched. */
  datatype Verdict = Refuse(result: ApplyResult) | Write(config: string)

  /** The request presents the configured token. */
  predicate Authenticated(request: Request, context: WriteContext) {
    var presented := ParseBearer(request.authorization);
    presented.Some? && context.authToken != "" && TokenAccepted(presented.value, context.authToken)
  }

  function JudgeConfig(format: string, config: string, checked: Checked, context: WriteContext): Verdict {
    if format == "" || config == "" then Refuse(MissingFields)
    else if format != "toml" then Refuse(UnsupportedFormat)
    else match checked
      case Unloadable(code) => Refuse(ConfigUnloadable(code))
      case Loaded(errors) =>
        if errors != [] then Refuse(ValidationFailed(errors))
        else if context.configPath == "" then Refuse(NoConfigPath)
        else Write(config)
  }

  function Judge(request: Request, context: WriteContext, check: string -> Checked): Verdict {
    var presented := ParseBearer(request.authorization);
    if presented.None? then Refuse(Unauthorized)
    else if context.authToken == "" || !TokenAccepted(presented.value, context.authToken) then Refuse(Forbidden)
    else if |request.body| > MAX_BODY_BYTES then Refuse(PayloadTooLarge)
    else
      var config := OrEmpty(ValueText(request.body, "config"));
      JudgeConfig(OrEmpty(ValueText(request.body, "format")), config, check(config), context)
  }

  /** The disk and the reply; no reply when the process dies on the way. */
  function Apply(disk: Disk, request: Request, context: WriteContext, check: string -> Checked, script: Script)
    : (Disk, Option<ApplyResult>)
  {
    match Judge(request, context, check)
    case Refuse(result) => (disk, Some(result))
    case Write(config) =>
      var (after, outcome) := Persist(disk, config, script);
      (after, match outcome
              case Killed => None
              case Finished(false) => Some(PersistFailed)
              case Finished(true) => Some(Applied(context.configPath, context.configPath + ".bak")))
  }

  method BuildLocalApiConfigApplyResult(files: FileSystem, request: Request, context: WriteContext,
                                        check: string -> Checked, script: Script) returns (reply: Option<ApplyResult>)
    modifies files
    ensures (files.State(), reply) == Apply(old(files.State()), request, context, check, script)
  {
    hide ParseBearer, TokenAccepted, ValueText, Persist;
    if request.authorization == "" {
      EmptyHeaderHasNoToken();
      return Some(Unauthorized);
    }
    var presented := ParseBearerToken(request.authorization);
    if presented.None? { return Some(Unauthorized); }
    if context.authToken == "" { return Some(Forbidden); }
    var equal := ConstantTimeTokenEquals(presented.value, context.authToken);
    if !equal { return Some(Forbidden); }
    if |request.body| > MAX_BODY_BYTES { return Some(PayloadTooLarge); }

    var format := ParseJsonStringValue(request.body, "format");
    var config := ParseJsonStringValue(request.body, "config");
    if format == "" || config == "" { return Some(MissingFields); }
    if format != "toml" { return Some(UnsupportedFormat); }
    var checked := check(config);
    if checked.Unloadable? { return Some(ConfigUnloadable(checked.code)); }
    if checked.errors != [] { return Some(ValidationFailed(checked.errors)); }
    if context.configPath == "" { return Some(NoConfigPath); }

    var outcome := files.AtomicWriteConfigWithBackup(config, script);
    match outcome {
      case Killed => reply := None;
      case Finished(false) => reply := Some(PersistFailed);
      case Finished(true) => reply := Some(Applied(context.configPath, context.configPath + ".bak"));
    }
  }

  lemma EmptyHeaderHasNoToken()
    ensures ParseBearer("") == None
  {
  }

  // ---------------------------------------------------------------- what a request can do

  /** Exactly which requests reach the disk, and with which text. */
  lemma WritesIff(request: Request, context: WriteContext, check: string -> Checked, config: string)
    ensures Judge(request, context, check) == Write(config) <==>
      && Authenticated(request, context) && |request.body| <= 1048576
      && ValueText(request.body, "format") == Some("toml") && ValueText(request.body, "config") == Some(config)
      && config != "" && check(config) == Loaded([]) && context.configPath != ""
  {
    hide ParseBearer, TokenAccepted, ValueText;
  }

  /** Which refusal an authenticated request gets: the first of these that applies. */
  lemma RefusalIff(request: Request, context: WriteContext, check: string -> Checked)
    requires Authenticated(request, context)
    ensures var verdict, format, config := Judge(request, context, check),
                OrEmpty(ValueText(request.body, "format")), OrEmpty(ValueText(request.body, "config"));
      && (verdict == Refuse(PayloadTooLarge) <==> |request.body| > 1048576)
      && (verdict == Refuse(MissingFields) <==> |request.body| <= 1048576 && (format == "" || config == ""))
      && (verdict == Refuse(UnsupportedFormat) <==> |request.body| <= 1048576 && format !in ["", "toml"] && config != "")
      && (forall code :: verdict == Refuse(ConfigUnloadable(code)) <==>
            |request.body| <= 1048576 && format == "toml" && config != "" && check(config) == Unloadable(code))
      && (forall errors :: verdict == Refuse(ValidationFailed(errors)) <==>
            |request.body| <= 1048576 && format == "toml" && config != "" && check(config) == Loaded(errors) && errors != [])
  {
    hide ParseBearer, TokenAccepted, ValueText;
  }

  /** Without the token, the body has no influence at all: nothing of it is looked at. */
  lemma UnauthenticatedBodyIsIgnored(request: Request, body: string, context: WriteContext, check: string -> Checked, other: string -> Checked)
    requires !Authenticated(request, context)
    ensures Judge(request.(body := body), context, other) == Judge(request, context, check)
    ensures var verdict := Judge(request, context, check);
      verdict.Refuse? && verdict.result.StatusCode() == if ParseBearer(request.authorization).None? then 401 else 403
  {
    hide ParseBearer, TokenAccepted, ValueText;
  }

  /**
   * Applying is all or nothing. Whatever the script, the file under the target's name is the old one or
   * the complete text that the request carried; it is replaced when the reply says Applied and untouched
   * under every other reply, and an accepted text always loads and validates.
   */
  lemma ApplyIsAllOrNothing(disk: Disk, request: Request, context: WriteContext, check: string -> Checked, script: Script)
    ensures var (after, reply) := Apply(disk, request, context, check, script);
      var config := ValueText(request.body, "config");
      && (after.target == disk.target || (config.Some? && after.target == Whole(config.value)))
      && (Durable(disk) ==> Durable(after))
      && (after != disk ==> Authenticated(request, context) && config.Some? && check(config.value) == Loaded([]))
      && (reply.Some? ==>
           if reply.value.Applied? then config.Some? && after.target == Whole(config.value)
           else after.target == disk.target && after.survivors == disk.survivors)
  {
    hide Persist, Judge, ValueText, Authenticated, Durable;
    var verdict := Judge(request, context, check);
    AppliedIff(disk, request, context, check, script);
    if verdict.Write? {
      WritesIff(request, context, check, verdict.config);
      PersistIsAllOrNothing(disk, verdict.config, script);
    }
  }

  /** The reply is Applied exactly when the request is one to write and every call of the protocol succeeds. */
  lemma AppliedIff(disk: Disk, request: Request, context: WriteContext, check: string -> Checked, script: Script)
    ensures var reply := Apply(disk, request, context, check, script).1;
      reply.Some? && reply.value.Applied? <==>
        && Judge(request, context, check).Write?
        && Persist(disk, Judge(request, context, check).config, script).1 == Finished(true)
    ensures var reply := Apply(disk, request, context, check, script).1;
      reply.Some? && reply.value.Applied? ==> reply.value == Applied(context.configPath, context.configPath + ".bak")
    ensures Judge(request, context, check).Refuse? ==> !Judge(request, context, check).result.Applied?
  {
    hide Persist, ParseBearer, TokenAccepted, ValueText;
  }

  /**
   * The HTTP status of the reply: 401 or 403 without the token, then 200 for a text that was written or only failed
   * validation, 500 when there is nowhere to write or writing failed, and 400 for every other request.
   */
  lemma StatusOfReply(disk: Disk, request: Request, context: WriteContext, check: string -> Checked, script: Script)
    ensures var (after, reply) := Apply(disk, request, context, check, script);
      var config := ValueText(request.body, "config");
      var readable := |request.body| <= 1048576 && ValueText(request.body, "format") == Some("toml")
                      && config.Some? && config.value != "" && check(config.value).Loaded?;
      && (reply.Some? ==>
            reply.value.StatusCode() == (if ParseBearer(request.authorization).None? then 401
                                         else if !Authenticated(request, context) then 403
                                         else if !readable then 400
                                         else if check(config.value).errors != [] || reply.value.Applied? then 200
                                         else 500))
  {
    hide ParseBearer, TokenAccepted, ValueText, Persist;
  }

  /**
   * End to end: the text that a client prints into either form of the body, presenting the token, is
   * what the file holds once the reply says Applied, byte for byte.
   */
  lemma ClientTextReachesDisk(disk: Disk, token: string, config: string, path: string, check: string -> Checked, script: Script, configFirst: bool)
    requires Trimmed(token)
    ensures var request := Request("Bearer " + token, if configFirst then ConfigFirst(config) else FormatFirst(config));
      var (after, reply) := Apply(disk, request, WriteContext(path, token), check, script);
      && (Judge(request, WriteContext(path, token), check).Write? <==>
           |request.body| <= 1048576 && config != "" && check(config) == Loaded([]) && path != "")
      && (reply.Some? && reply.value.Applied? ==> after.target == Whole(config))
  {
    var request := Request("Bearer " + token, if configFirst then ConfigFirst(config) else FormatFirst(config));
    var context := WriteContext(path, token);
    PresentedTokenArrivesIffTrimmed(token);
    FormatFirstRoundTrip(config);
    ConfigFirstRoundTrip(config);
    assert TokenAccepted(token, token);
    hide Judge, Persist, ParseBearer, TokenAccepted, ValueText, ConfigFirst, FormatFirst, Trimmed;
    assert Authenticated(request, context);
    WritesIff(request, context, check, config);
    if Judge(request, context, check).Write? {
      WritesIff(request, context, check, Judge(request, context, check).config);
    }
    ApplyIsAllOrNothing(disk, request, context, check, script);
    AppliedIff(disk, request, context, check, script);
  }
}
