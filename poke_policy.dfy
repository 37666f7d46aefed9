/** The admission policy of the poke event handler (`PokeEventHandler.execute`),
    as functions of the handler's state and of everything the outside world
    supplies to one call: the parsed JSON payload, the clock, the random
    rolls, the person directory and the reply generator.

    One call goes through three stages:
    - Classify: the guard clauses, up to the question "is the bot the target?";
    - Admit: the per-user cooldown and the global sliding window;
    - Respond: poke-back and the generated text reply. */
module PokePolicy {
  import opened PyValues
  import Dig

  /** Length of the global rate window, in seconds. */
  const WindowSeconds: real := 60.0

  // The message field of the handler's result.
  const MsgNotPoke: string := "非戳一戳消息"
  const MsgNotJson: string := "非 JSON 消息"
  const MsgNotDict: string := "非字典格式消息"
  const MsgNoSender: string := "无法获取发送者 user_id"
  const MsgNoPerson: string := "找不到人物 ID"
  const MsgPersonError: string := "获取用户信息异常"
  const MsgNotAtBot: string := "戳的对象不是 bot"
  const MsgCoolingDown: string := "冷却中"
  const MsgRateLimited: string := "达到频率上限"
  const MsgPokeBackOnly: string := "戳一戳已响应（仅回戳）"
  const MsgSkippedText: string := "戳一戳已响应（跳过文字回复）"
  const MsgReplied: string := "戳一戳已响应"
  const MsgReplyError: string := "生成回复异常"

  /** The error `random.randint(1, m)` raises when `m < 1`. */
  const RandIntError: string := "ValueError"

  /** The `poke_config` values the handler reads (the probabilities are
      replaced by the outcomes of their rolls, see Rolls). */
  datatype Config = Config(
    autoReplyEnabled: bool,
    autoPokeBack: bool,
    pokeBackMaxTimes: int,
    followPokeEnabled: bool,
    rateLimitSeconds: int,
    maxPokesPerMinute: int)

  /** The defaults of the plugin's configuration schema. */
  const DefaultConfig: Config := Config(
    autoReplyEnabled := true,
    autoPokeBack := true,
    pokeBackMaxTimes := 3,
    followPokeEnabled := true,
    rateLimitSeconds := 30,
    maxPokesPerMinute := 10)

  /** The inbound message: the object that `getattr` and `_dig` look into,
      and `plain_text or ""`. */
  datatype Message = Message(obj: PyValue, plainText: string)

  /** What the person directory answers for a sender id: an exception, no
      person id, or the person's name. */
  datatype PersonLookup = LookupRaised | NoPersonId | Person(name: string)

  /** What reply generation answers: an exception, or a success flag and the
      generated text segments. */
  datatype Generation = GenerationRaised | Generated(success: bool, segments: seq<string>)

  /** The outcome of each random draw:
      follow    — `random.random() < follow_poke_probability`;
      pokeBack  — `random.random() < poke_back_probability`;
      pokeTimesDraw — the draw behind `random.randint(1, poke_back_max_times)`;
      reply     — `random.random() < reply_probability`. */
  datatype Rolls = Rolls(follow: bool, pokeBack: bool, pokeTimesDraw: nat, reply: bool)

  /** Everything one call reads from outside the handler. */
  datatype Inputs = Inputs(
    config: Config,
    botAccount: string,
    now: real,
    parseJson: PyValue -> Option<PyValue>,
    lookupPerson: string -> PersonLookup,
    rolls: Rolls,
    generation: Generation)

  /** A `SEND_POKE` command with its `qq_id` parameter. */
  datatype Command = SendPoke(qqId: string)

  /** The arguments passed to reply generation. */
  datatype ReplyRequest = ReplyRequest(reason: string, extraInfo: string)

  /** What one call sends out: poke commands, the reply request, the texts. */
  datatype Effects = Effects(commands: seq<Command>, request: Option<ReplyRequest>, texts: seq<string>)

  const NoEffects: Effects := Effects([], None, [])

  /** The result tuple `(ok, continue, message, None, None)`. */
  datatype Verdict = Verdict(ok: bool, continueProcessing: bool, message: string)

  /** A call either returns a verdict or lets an exception escape. */
  datatype Outcome = Returned(verdict: Verdict) | Raised(error: string)

  /** The handler's state: last trigger time per user, and the timestamps of
      recent acceptances, oldest first. */
  datatype State = State(cooldown: map<string, real>, window: seq<real>)

  /** The result of one call. */
  datatype Step = Step(state: State, outcome: Outcome, effects: Effects)

  /** Where the guard clauses send a call. */
  datatype Route =
    | Neutral(verdict: Verdict)
    | Elsewhere(user: string, target: string)
    | AtBot(user: string, name: string, plainText: string)

  function Neutral3(message: string): Outcome {
    Returned(Verdict(true, true, message))
  }

  // ---------- guard clauses ----------

  /** The payload is a JSON object with post_type "notice" and sub_type "poke". */
  predicate IsPokeNotice(message: Option<Message>, parseJson: PyValue -> Option<PyValue>) {
    && message.Some?
    && var raw := GetAttr(message.value.obj, "raw_message");
    && Truthy(raw)
    && parseJson(raw).Some?
    && parseJson(raw).value.PyDict?
    && Get(parseJson(raw).value.items, "post_type") == PyStr("notice")
    && Get(parseJson(raw).value.items, "sub_type") == PyStr("poke")
  }

  /** The sender id: `_dig(m, "user_id") or _dig(m, "message_base_info.user_id")`,
      turned into a string when it is truthy. */
  function SenderId(obj: PyValue): Option<string> {
    var first := Dig.DigSpec(obj, "user_id", PyNone);
    var raw := if Truthy(first) then first else Dig.DigSpec(obj, "message_base_info.user_id", PyNone);
    if Truthy(raw) then Some(Str(raw)) else None
  }

  /** The path of the top-level sender id splits into one segment. */
  lemma UserIdPath()
    ensures Dig.Split("user_id", '.') == ["user_id"]
  {
    Dig.SplitWithoutSeparator("user_id", '.');
  }

  /** The path of the nested sender id splits into its two segments. */
  lemma NestedUserIdPath()
    ensures Dig.Split("message_base_info.user_id", '.') == ["message_base_info", "user_id"]
  {
    Dig.TwoSegments("message_base_info", "user_id");
    assert "message_base_info" + ['.'] + "user_id" == "message_base_info.user_id";
  }

  /** Where the sender id comes from, one `_dig` step at a time (an attribute,
      or failing that a dict key): a truthy top-level `user_id` is the sender
      id; when it is missing or falsy, `user_id` under `message_base_info` is,
      if it is truthy; otherwise there is no sender. */
  lemma SenderIdFallback(obj: PyValue)
    ensures var first := Dig.Step(obj, "user_id");
      first.Some? && Truthy(first.value) ==> SenderId(obj) == Some(Str(first.value))
    ensures var first := Dig.Step(obj, "user_id");
      var info := Dig.Step(obj, "message_base_info");
      var nested := if info.Some? then Dig.Step(info.value, "user_id") else None;
      !(first.Some? && Truthy(first.value)) ==>
        SenderId(obj) == if nested.Some? && Truthy(nested.value) then Some(Str(nested.value)) else None
  {
    UserIdPath();
    NestedUserIdPath();
    assert Dig.Resolve(obj, ["user_id"]) == match Dig.Step(obj, "user_id")
      case None => None case Some(v) => Dig.Resolve(v, []);
    assert Dig.Resolve(obj, ["message_base_info", "user_id"]) == match Dig.Step(obj, "message_base_info")
      case None => None case Some(v) => Dig.Resolve(v, ["user_id"]);
    var info := Dig.Step(obj, "message_base_info");
    if info.Some? {
      assert Dig.Resolve(info.value, ["user_id"]) == match Dig.Step(info.value, "user_id")
        case None => None case Some(v) => Dig.Resolve(v, []);
    }
  }

  /** The guard clauses: only a notice/poke payload with a resolvable sender
      and person gets past them; it then goes to the bot or elsewhere. */
  function Classify(message: Option<Message>, env: Inputs): (r: Route)
    ensures !IsPokeNotice(message, env.parseJson) ==> r.Neutral? && r.verdict.ok && r.verdict.continueProcessing
    ensures !r.Neutral? ==> IsPokeNotice(message, env.parseJson) && SenderId(message.value.obj) == Some(r.user)
    ensures r.Elsewhere? ==> r.target != env.botAccount
    ensures r.AtBot? ==> env.lookupPerson(r.user) == Person(r.name) && r.plainText == message.value.plainText
  {
    if message.None? then Neutral(Verdict(true, true, MsgNotPoke))
    else
      var raw := GetAttr(message.value.obj, "raw_message");
      if !Truthy(raw) then Neutral(Verdict(true, true, MsgNotPoke))
      else match env.parseJson(raw)
        case None => Neutral(Verdict(true, true, MsgNotJson))
        case Some(event) =>
          if !event.PyDict? then Neutral(Verdict(true, true, MsgNotDict))
          else if Get(event.items, "post_type") != PyStr("notice") || Get(event.items, "sub_type") != PyStr("poke")
          then Neutral(Verdict(true, true, MsgNotPoke))
          else match SenderId(message.value.obj)
            case None => Neutral(Verdict(false, true, MsgNoSender))
            case Some(user) =>
              match env.lookupPerson(user)
              case LookupRaised => Neutral(Verdict(false, true, MsgPersonError))
              case NoPersonId => Neutral(Verdict(false, true, MsgNoPerson))
              case Person(name) =>
                var target := Str(Get(event.items, "target_id"));
                if target != env.botAccount then Elsewhere(user, target)
                else AtBot(user, name, message.value.plainText)
  }

  /** `str(target_id)` of a poke notice. */
  function TargetOf(message: Option<Message>, env: Inputs): string
    requires IsPokeNotice(message, env.parseJson)
  {
    Str(Get(env.parseJson(GetAttr(message.value.obj, "raw_message")).value.items, "target_id"))
  }

  /** How a poke notice is routed: to the bot exactly when the sender and the
      person resolve and `str(target_id)` is the bot's account, elsewhere
      (carrying that target) exactly when they resolve and it is another
      account; an unresolved sender or person, or a failing lookup, gives a
      `(False, True, …)` result. */
  lemma ClassifyRoutes(message: Option<Message>, env: Inputs)
    ensures var r := Classify(message, env);
      r.AtBot? <==>
        && IsPokeNotice(message, env.parseJson)
        && SenderId(message.value.obj).Some?
        && env.lookupPerson(SenderId(message.value.obj).value).Person?
        && TargetOf(message, env) == env.botAccount
    ensures var r := Classify(message, env);
      r.Elsewhere? <==>
        && IsPokeNotice(message, env.parseJson)
        && SenderId(message.value.obj).Some?
        && env.lookupPerson(SenderId(message.value.obj).value).Person?
        && TargetOf(message, env) != env.botAccount
    ensures var r := Classify(message, env);
      r.Elsewhere? ==> IsPokeNotice(message, env.parseJson) && r.target == TargetOf(message, env)
    ensures IsPokeNotice(message, env.parseJson) && SenderId(message.value.obj).None?
      ==> Classify(message, env) == Neutral(Verdict(false, true, MsgNoSender))
    ensures IsPokeNotice(message, env.parseJson) && SenderId(message.value.obj).Some?
      && env.lookupPerson(SenderId(message.value.obj).value).LookupRaised?
      ==> Classify(message, env) == Neutral(Verdict(false, true, MsgPersonError))
    ensures IsPokeNotice(message, env.parseJson) && SenderId(message.value.obj).Some?
      && env.lookupPerson(SenderId(message.value.obj).value).NoPersonId?
      ==> Classify(message, env) == Neutral(Verdict(false, true, MsgNoPerson))
  {
  }

  /** The follow-poke sent when someone pokes someone other than the bot. */
  function FollowPoke(user: string, target: string, env: Inputs): seq<Command> {
    if env.config.followPokeEnabled && user != env.botAccount && target != env.botAccount && env.rolls.follow
    then [SendPoke(target)]
    else []
  }

  /** At most one follow-poke, at the target; none when the sender or the
      target is the bot itself, when following is off or its roll fails. */
  lemma FollowPokeBounds(user: string, target: string, env: Inputs)
    ensures |FollowPoke(user, target, env)| <= 1
    ensures FollowPoke(user, target, env) != [] ==>
      FollowPoke(user, target, env) == [SendPoke(target)] && user != env.botAccount && target != env.botAccount
    ensures !env.config.followPokeEnabled || !env.rolls.follow ==> FollowPoke(user, target, env) == []
  {
  }

  // ---------- throttling ----------

  /** The user's last trigger time; 0 for a user never seen. */
  function LastTrigger(cooldown: map<string, real>, user: string): real {
    if user in cooldown then cooldown[user] else 0.0
  }

  predicate CoolingDown(st: State, user: string, env: Inputs) {
    env.now - LastTrigger(st.cooldown, user) < env.config.rateLimitSeconds as real
  }

  /** The timestamps less than a minute old, in their original order. */
  function Prune(window: seq<real>, now: real): (kept: seq<real>)
    ensures |kept| <= |window|
    ensures forall t :: t in kept <==> t in window && now - t < WindowSeconds
    decreases |window|
  {
    if window == [] then []
    else (if now - window[0] < WindowSeconds then [window[0]] else []) + Prune(window[1..], now)
  }

  // ---------- responding ----------

  /** `random.randint(lo, hi)` given the draw behind it. */
  function RandInt(lo: int, hi: int, draw: nat): (r: int)
    requires lo <= hi
    ensures lo <= r <= hi
  {
    lo + draw % (hi - lo + 1)
  }

  /** `n` copies of the same command. */
  function Repeat(c: Command, n: nat): (r: seq<Command>)
    ensures |r| == n
    ensures forall k :: 0 <= k < |r| ==> r[k] == c
  {
    if n == 0 then [] else Repeat(c, n - 1) + [c]
  }

  // The fixed parts of the extra instruction.
  const ExtraIntro: string := "用户「"
  const ExtraPoked: string := "」戳了你一下"
  const ExtraAttached: string := "，附带消息："
  const ExtraClosing: string := "。请用简短俏皮的方式回应。"

  /** The extra instruction given to reply generation: it names the user,
      carries the message text when there is one, and ends with the request
      for a short playful answer. */
  function ExtraInfo(name: string, plainText: string): (r: string)
    ensures ExtraIntro + name + ExtraPoked <= r
    ensures plainText != "" ==> ExtraIntro + name + ExtraPoked + ExtraAttached + plainText <= r
    ensures |r| >= |ExtraClosing| && r[|r| - |ExtraClosing|..] == ExtraClosing
  {
    ExtraIntro + name + ExtraPoked
    + (if plainText != "" then ExtraAttached + plainText else "")
    + ExtraClosing
  }

  predicate PokesBack(env: Inputs) {
    env.config.autoPokeBack && env.rolls.pokeBack
  }

  /** What a call returns and sends, apart from the state. */
  datatype Reaction = Reaction(outcome: Outcome, effects: Effects)

  /** After acceptance: poke back, then maybe reply with generated text. */
  function Respond(user: string, name: string, plainText: string, env: Inputs): (r: Reaction)
    ensures r.outcome.Raised? <==> PokesBack(env) && env.config.pokeBackMaxTimes < 1
    ensures r.effects.commands == [] || 1 <= |r.effects.commands| <= env.config.pokeBackMaxTimes
    ensures forall k :: 0 <= k < |r.effects.commands| ==> r.effects.commands[k] == SendPoke(user)
    ensures r.effects.request.Some? ==> env.config.autoReplyEnabled && env.rolls.reply
    ensures r.effects.texts != [] ==> r.outcome == Neutral3(MsgReplied)
  {
    if PokesBack(env) && env.config.pokeBackMaxTimes < 1 then Reaction(Raised(RandIntError), NoEffects)
    else
      var commands :=
        if PokesBack(env) then Repeat(SendPoke(user), RandInt(1, env.config.pokeBackMaxTimes, env.rolls.pokeTimesDraw))
        else [];
      if !env.config.autoReplyEnabled then Reaction(Neutral3(MsgPokeBackOnly), Effects(commands, None, []))
      else if !env.rolls.reply then Reaction(Neutral3(MsgSkippedText), Effects(commands, None, []))
      else
        var request := Some(ReplyRequest(name + plainText, ExtraInfo(name, plainText)));
        if env.generation.Generated? && env.generation.success && env.generation.segments != []
        then Reaction(Neutral3(MsgReplied), Effects(commands, request, env.generation.segments))
        else Reaction(Returned(Verdict(false, true, MsgReplyError)), Effects(commands, request, []))
  }

  /** The cooldown check, the cooldown stamp, the global window. */
  function Admit(st: State, user: string, name: string, plainText: string, env: Inputs): (s: Step)
    ensures forall u :: u in st.cooldown ==> u in s.state.cooldown
    ensures |s.state.window| <= |st.window| + 1
    ensures s.state.window != st.window ==> forall t :: t in s.state.window ==> env.now - t < WindowSeconds
    ensures s.effects != NoEffects ==> !CoolingDown(st, user, env) && |Prune(st.window, env.now)| < env.config.maxPokesPerMinute
  {
    if CoolingDown(st, user, env) then Step(st, Neutral3(MsgCoolingDown), NoEffects)
    else
      var cooldown := st.cooldown[user := env.now];
      var pruned := Prune(st.window, env.now);
      if |pruned| >= env.config.maxPokesPerMinute then Step(State(cooldown, pruned), Neutral3(MsgRateLimited), NoEffects)
      else
        var r := Respond(user, name, plainText, env);
        Step(State(cooldown, pruned + [env.now]), r.outcome, r.effects)
  }

  /** One call of the handler. The cooldown map never forgets a user and the
      window grows by at most one timestamp. */
  function Handle(st: State, message: Option<Message>, env: Inputs): (s: Step)
    ensures forall u :: u in st.cooldown ==> u in s.state.cooldown
    ensures |s.state.window| <= |st.window| + 1
  {
    match Classify(message, env)
    case Neutral(v) => Step(st, Returned(v), NoEffects)
    case Elsewhere(user, target) => Step(st, Neutral3(MsgNotAtBot), Effects(FollowPoke(user, target, env), None, []))
    case AtBot(user, name, plainText) => Admit(st, user, name, plainText, env)
  }

  // ---------- properties of one call ----------

  /** Anything but a notice/poke JSON object gets a neutral "not applicable"
      result, and only such messages get one of those three results; the state
      is untouched and nothing is sent. */
  lemma NonPokeIsNeutral(st: State, message: Option<Message>, env: Inputs)
    ensures !IsPokeNotice(message, env.parseJson)
      <==> Handle(st, message, env).outcome in {Neutral3(MsgNotPoke), Neutral3(MsgNotJson), Neutral3(MsgNotDict)}
    ensures !IsPokeNotice(message, env.parseJson)
      ==> Handle(st, message, env).state == st && Handle(st, message, env).effects == NoEffects
  {
    NonPokeRoute(message, env);
    if IsPokeNotice(message, env.parseJson) {
      match Classify(message, env)
      case Neutral(v) =>
        assert !v.ok;
      case Elsewhere(_, _) =>
        assert Handle(st, message, env).outcome == Neutral3(MsgNotAtBot);
      case AtBot(user, name, plainText) =>
        AdmitMessages(st, user, name, plainText, env);
        assert Handle(st, message, env) == Admit(st, user, name, plainText, env);
    }
  }

  /** A poke at the bot ends with an escaping error or with one of the
      throttle's and the response's own messages. */
  lemma AdmitMessages(st: State, user: string, name: string, plainText: string, env: Inputs)
    ensures var o := Admit(st, user, name, plainText, env).outcome;
      o.Raised? || o.verdict.message in {MsgCoolingDown, MsgRateLimited, MsgPokeBackOnly, MsgSkippedText, MsgReplied, MsgReplyError}
  {
    if !CoolingDown(st, user, env) && |Prune(st.window, env.now)| < env.config.maxPokesPerMinute {
      var r := Respond(user, name, plainText, env);
      assert r.outcome.Raised? || r.outcome.verdict.message in {MsgPokeBackOnly, MsgSkippedText, MsgReplied, MsgReplyError};
    }
  }

  /** The route of a message that is not a notice/poke JSON object, and the
      verdict of a poke notice stopped by the guard clauses. */
  lemma NonPokeRoute(message: Option<Message>, env: Inputs)
    ensures !IsPokeNotice(message, env.parseJson)
      ==> Classify(message, env) in
            {Neutral(Verdict(true, true, MsgNotPoke)), Neutral(Verdict(true, true, MsgNotJson)), Neutral(Verdict(true, true, MsgNotDict))}
    ensures IsPokeNotice(message, env.parseJson) && Classify(message, env).Neutral? ==> !Classify(message, env).verdict.ok
  {
  }

  /** Each guard clause's own message: a missing message or a falsy payload,
      and a dict that is not a notice/poke, are "not a poke"; a payload the
      parser rejects is "not JSON"; a parsed value that is not a dict is
      "not a dict". */
  lemma GuardMessages(message: Option<Message>, env: Inputs)
    ensures message.None? ==> Classify(message, env) == Neutral(Verdict(true, true, MsgNotPoke))
    ensures message.Some? && !Truthy(GetAttr(message.value.obj, "raw_message"))
      ==> Classify(message, env) == Neutral(Verdict(true, true, MsgNotPoke))
    ensures message.Some? && Truthy(GetAttr(message.value.obj, "raw_message"))
      && env.parseJson(GetAttr(message.value.obj, "raw_message")).None?
      ==> Classify(message, env) == Neutral(Verdict(true, true, MsgNotJson))
    ensures var raw := if message.Some? then GetAttr(message.value.obj, "raw_message") else PyNone;
      message.Some? && Truthy(raw) && env.parseJson(raw).Some? && !env.parseJson(raw).value.PyDict?
      ==> Classify(message, env) == Neutral(Verdict(true, true, MsgNotDict))
    ensures var raw := if message.Some? then GetAttr(message.value.obj, "raw_message") else PyNone;
      message.Some? && Truthy(raw) && env.parseJson(raw).Some? && env.parseJson(raw).value.PyDict?
      && !IsPokeNotice(message, env.parseJson)
      ==> Classify(message, env) == Neutral(Verdict(true, true, MsgNotPoke))
  {
  }

  /** Only a poke at the bot that is past its sender's cooldown changes the state. */
  lemma OnlyAdmissionChangesState(st: State, message: Option<Message>, env: Inputs)
    ensures Handle(st, message, env).state != st
      ==> Classify(message, env).AtBot? && !CoolingDown(st, Classify(message, env).user, env)
  {
  }

  /** A poke at someone else never touches the throttling state; it follows
      with one poke at the target exactly when following is on, the sender is
      not the bot and the roll succeeds. */
  lemma FollowPokeRule(st: State, message: Option<Message>, env: Inputs)
    requires Classify(message, env).Elsewhere?
    ensures Handle(st, message, env).state == st
    ensures Handle(st, message, env).outcome == Neutral3(MsgNotAtBot)
    ensures Classify(message, env).target != env.botAccount
    ensures var r := Classify(message, env);
      Handle(st, message, env).effects.commands
        == if env.config.followPokeEnabled && r.user != env.botAccount && env.rolls.follow
           then [SendPoke(r.target)] else []
  {
  }

  /** A poke at the bot within the sender's cooldown is answered "cooling
      down" — and only then — with the state untouched. */
  lemma CooldownRule(st: State, message: Option<Message>, env: Inputs)
    requires Classify(message, env).AtBot?
    ensures var user := Classify(message, env).user;
      Handle(st, message, env).outcome == Neutral3(MsgCoolingDown) <==> CoolingDown(st, user, env)
    ensures CoolingDown(st, Classify(message, env).user, env)
      ==> Handle(st, message, env).state == st && Handle(st, message, env).effects == NoEffects
  {
  }

  /** An unseen user counts as last seen at time 0, so before the clock
      reaches the cooldown length even a first poke is "cooling down". */
  lemma UnseenUserEarlyClock(st: State, message: Option<Message>, env: Inputs)
    requires Classify(message, env).AtBot?
    requires Classify(message, env).user !in st.cooldown
    requires 0.0 <= env.now < env.config.rateLimitSeconds as real
    ensures Handle(st, message, env).outcome == Neutral3(MsgCoolingDown)
  {
  }

  /** Past the cooldown, the sender's entry is stamped with the current time
      whatever follows — also when the global limit then rejects the poke —
      and no other user's entry changes. */
  lemma CooldownStampedBeforeRateCheck(st: State, message: Option<Message>, env: Inputs)
    requires Classify(message, env).AtBot?
    requires !CoolingDown(st, Classify(message, env).user, env)
    ensures Handle(st, message, env).state.cooldown == st.cooldown[Classify(message, env).user := env.now]
    ensures forall u :: u != Classify(message, env).user ==>
      LastTrigger(Handle(st, message, env).state.cooldown, u) == LastTrigger(st.cooldown, u)
  {
  }

  /** Past the cooldown, the poke is rejected as rate limited exactly when a
      minute's worth of acceptances is already in the pruned window; the
      window is then the pruned one, otherwise the pruned one plus now. */
  lemma GlobalRateRule(st: State, message: Option<Message>, env: Inputs)
    requires Classify(message, env).AtBot?
    requires !CoolingDown(st, Classify(message, env).user, env)
    ensures var full := |Prune(st.window, env.now)| >= env.config.maxPokesPerMinute;
      && (Handle(st, message, env).outcome == Neutral3(MsgRateLimited) <==> full)
      && Handle(st, message, env).state.window
           == if full then Prune(st.window, env.now) else Prune(st.window, env.now) + [env.now]
    ensures |Prune(st.window, env.now)| >= env.config.maxPokesPerMinute
      ==> Handle(st, message, env).effects == NoEffects
  {
  }

  /** Once accepted, the sender gets between 1 and poke_back_max_times pokes
      back when poke-back is on and its roll succeeds, and none otherwise; a
      maximum below 1 makes `randint` raise instead. */
  lemma PokeBackRule(st: State, message: Option<Message>, env: Inputs)
    requires Classify(message, env).AtBot?
    requires !CoolingDown(st, Classify(message, env).user, env)
    requires |Prune(st.window, env.now)| < env.config.maxPokesPerMinute
    ensures Handle(st, message, env).outcome.Raised? <==> PokesBack(env) && env.config.pokeBackMaxTimes < 1
    ensures var cs := Handle(st, message, env).effects.commands;
      !Handle(st, message, env).outcome.Raised? ==>
        && (PokesBack(env) ==> 1 <= |cs| <= env.config.pokeBackMaxTimes)
        && (!PokesBack(env) ==> cs == [])
        && forall k :: 0 <= k < |cs| ==> cs[k] == SendPoke(Classify(message, env).user)
  {
  }

  /** Once accepted and past poke-back, the text reply: none when replies are
      off or the roll fails; otherwise generation is asked with the reason
      "name + text", and its segments are sent when it succeeds with some,
      else the call reports a reply error. */
  lemma ReplyRule(st: State, message: Option<Message>, env: Inputs)
    requires Classify(message, env).AtBot?
    requires !CoolingDown(st, Classify(message, env).user, env)
    requires |Prune(st.window, env.now)| < env.config.maxPokesPerMinute
    requires !(PokesBack(env) && env.config.pokeBackMaxTimes < 1)
    ensures var r := Classify(message, env);
      var s := Handle(st, message, env);
      && (!env.config.autoReplyEnabled ==> s.outcome == Neutral3(MsgPokeBackOnly) && s.effects.request == None)
      && (env.config.autoReplyEnabled && !env.rolls.reply ==> s.outcome == Neutral3(MsgSkippedText) && s.effects.request == None)
      && (env.config.autoReplyEnabled && env.rolls.reply ==>
            && s.effects.request == Some(ReplyRequest(r.name + r.plainText, ExtraInfo(r.name, r.plainText)))
            && (s.outcome == Neutral3(MsgReplied) <==> env.generation.Generated? && env.generation.success && env.generation.segments != [])
            && (s.outcome == Neutral3(MsgReplied) ==> s.effects.texts == env.generation.segments)
            && (s.outcome != Neutral3(MsgReplied) ==> s.outcome == Returned(Verdict(false, true, MsgReplyError)) && s.effects.texts == []))
  {
  }

  // ---------- the rate window ----------

  /** Pruning works element by element: pruning a concatenation is the
      concatenation of the pruned parts, so order is kept. */
  lemma {:induction false} PruneAppend(a: seq<real>, b: seq<real>, now: real)
    ensures Prune(a + b, now) == Prune(a, now) + Prune(b, now)
    decreases |a|
  {
    if a == [] {
      assert a + b == b;
    } else {
      PruneAppend(a[1..], b, now);
      assert a == [a[0]] + a[1..];
      assert a + b == [a[0]] + (a[1..] + b);
      PruneCons(a[0], a[1..] + b, now);
      PruneCons(a[0], a[1..], now);
    }
  }

  /** Pruning a window with a first timestamp `t` decides `t` on its own. */
  lemma PruneCons(t: real, rest: seq<real>, now: real)
    ensures Prune([t] + rest, now) == (if now - t < WindowSeconds then [t] else []) + Prune(rest, now)
  {
    assert ([t] + rest)[1..] == rest;
  }


  predicate Chronological(w: seq<real>) {
    forall i, j :: 0 <= i < j < |w| ==> w[i] <= w[j]
  }

  /** Pruning a chronological window keeps it chronological. */
  lemma {:induction false} PruneChronological(w: seq<real>, now: real)
    requires Chronological(w)
    ensures Chronological(Prune(w, now))
    decreases |w|
  {
    if w != [] {
      PruneChronological(w[1..], now);
      var rest := Prune(w[1..], now);
      forall t | t in rest ensures w[0] <= t {
        var k :| 0 <= k < |w[1..]| && w[1..][k] == t;
        assert w[k + 1] == t;
      }
      if WindowSeconds <= now - w[0] {
        assert Prune(w, now) == rest;
      } else {
        var kept := [w[0]] + rest;
        assert Prune(w, now) == kept;
        forall i, j | 0 <= i < j < |kept| ensures kept[i] <= kept[j] {
          if i == 0 {
            assert kept[j] in rest;
          } else {
            assert kept[i] == rest[i - 1] && kept[j] == rest[j - 1];
          }
        }
      }
    }
  }

  /** With a clock that does not go back, the window stays chronological. */
  lemma WindowStaysChronological(st: State, message: Option<Message>, env: Inputs)
    requires Chronological(st.window)
    requires forall k :: 0 <= k < |st.window| ==> st.window[k] <= env.now
    ensures Chronological(Handle(st, message, env).state.window)
  {
    var pruned := Prune(st.window, env.now);
    PruneChronological(st.window, env.now);
    forall t | t in pruned ensures t <= env.now {
      var k :| 0 <= k < |st.window| && st.window[k] == t;
    }
    var grown := pruned + [env.now];
    forall i, j | 0 <= i < j < |grown| ensures grown[i] <= grown[j] {
      if j == |pruned| {
        assert grown[i] in pruned;
      }
    }
  }

  /** With the same limit on every call, the window never holds more than
      max_pokes_per_minute timestamps. */
  lemma WindowStaysBounded(st: State, message: Option<Message>, env: Inputs)
    requires |st.window| <= env.config.maxPokesPerMinute
    ensures |Handle(st, message, env).state.window| <= env.config.maxPokesPerMinute
  {
  }

  /** Every timestamp the window keeps after a poke at the bot past its
      sender's cooldown is less than a minute old, whether the poke was then
      accepted or rate limited. */
  lemma WindowHoldsLastMinute(st: State, message: Option<Message>, env: Inputs)
    requires Classify(message, env).AtBot? && !CoolingDown(st, Classify(message, env).user, env)
    ensures forall t :: t in Handle(st, message, env).state.window ==> env.now - t < WindowSeconds
  {
  }

  /** Once the first (oldest) timestamp of a window is a minute old,
      the next check sees fewer timestamps: capacity frees up. */
  lemma OldestAgesOut(w: seq<real>, now: real)
    requires w != []
    requires now - w[0] >= WindowSeconds
    ensures |Prune(w, now)| < |w|
  {
  }

  /** A poke at the bot that passed both the cooldown and the global limit. */
  predicate Accepted(st: State, message: Option<Message>, env: Inputs) {
    && Classify(message, env).AtBot?
    && !CoolingDown(st, Classify(message, env).user, env)
    && |Prune(st.window, env.now)| < env.config.maxPokesPerMinute
  }

  /** Pruning at one time and then at a later time is pruning at the later time. */
  lemma {:induction false} PruneLater(w: seq<real>, earlier: real, later: real)
    requires earlier <= later
    ensures Prune(Prune(w, earlier), later) == Prune(w, later)
    decreases |w|
  {
    if w != [] {
      PruneLater(w[1..], earlier, later);
      var head := if earlier - w[0] < WindowSeconds then [w[0]] else [];
      PruneAppend(head, Prune(w[1..], earlier), later);
    }
  }

  // ---------- properties of consecutive calls ----------

  /** Seen from any later time (with a clock that does not go back), a call
      leaves the window's count as it was, plus its own timestamp if it
      accepted the poke and that timestamp is still under a minute old: no
      call drops a timestamp that still counts, and none adds one it did not
      accept. */
  lemma WindowCountsAcrossCalls(st: State, message: Option<Message>, env: Inputs, later: real)
    requires env.now <= later
    ensures Prune(Handle(st, message, env).state.window, later)
      == Prune(st.window, later)
         + (if Accepted(st, message, env) && later - env.now < WindowSeconds then [env.now] else [])
  {
    var r := Classify(message, env);
    if r.AtBot? && !CoolingDown(st, r.user, env) {
      PruneLater(st.window, env.now, later);
      if Accepted(st, message, env) {
        PruneAppend(Prune(st.window, env.now), [env.now], later);
        assert [env.now][1..] == [];
      }
    }
  }

  /** A second poke at the bot from the same sender less than the cooldown
      after one that passed the cooldown check is "cooling down" — even when
      the first was then rejected by the global limit. */
  lemma RepeatPokeWithinCooldown(st: State, m1: Option<Message>, in1: Inputs, m2: Option<Message>, in2: Inputs)
    requires Classify(m1, in1).AtBot? && Classify(m2, in2).AtBot?
    requires Classify(m1, in1).user == Classify(m2, in2).user
    requires !CoolingDown(st, Classify(m1, in1).user, in1)
    requires in2.now - in1.now < in2.config.rateLimitSeconds as real
    ensures Handle(Handle(st, m1, in1).state, m2, in2).outcome == Neutral3(MsgCoolingDown)
  {
  }

  // ---------- a worked example ----------

  /** A known user (12345) pokes the bot (account 10000) with a clear
      cooldown and an empty window; poke-back is on and rolled with the draw
      1 out of a maximum of 3, and text replies are off: two pokes go back to
      the sender, both the cooldown and the window record the poke, and the
      result is "responded, poke-back only". */
  lemma PokeBackOnlyExample(env: Inputs)
    requires env.config == DefaultConfig.(autoReplyEnabled := false)
    requires env.botAccount == "10000" && env.now == 100.0
    requires env.parseJson(PyStr(ExampleRaw)) == Some(ExamplePayload())
    requires env.lookupPerson("12345") == Person("Alice")
    requires env.rolls.pokeBack && env.rolls.pokeTimesDraw == 1
    ensures Handle(State(map[], []), Some(ExampleMessage()), env)
        == Step(State(map["12345" := 100.0], [100.0]),
                Neutral3(MsgPokeBackOnly),
                Effects([SendPoke("12345"), SendPoke("12345")], None, []))
  {
    ExampleRoute(env, ExampleMessage(), ExamplePayload());
    var st := State(map[], []);
    assert Handle(st, Some(ExampleMessage()), env) == Admit(st, "12345", "Alice", "", env);
    ExampleAdmit(env, st);
  }

  lemma ExampleAdmit(env: Inputs, st: State)
    requires st == State(map[], [])
    requires env.config == DefaultConfig.(autoReplyEnabled := false)
    requires env.now == 100.0
    requires env.rolls.pokeBack && env.rolls.pokeTimesDraw == 1
    ensures Admit(st, "12345", "Alice", "", env)
        == Step(State(map["12345" := 100.0], [100.0]),
                Neutral3(MsgPokeBackOnly),
                Effects([SendPoke("12345"), SendPoke("12345")], None, []))
  {
    assert Prune([], 100.0) == [];
    assert RandInt(1, 3, 1) == 2;
    assert Repeat(SendPoke("12345"), 2) == [SendPoke("12345"), SendPoke("12345")];
  }

  lemma ExampleRoute(env: Inputs, message: Message, event: PyValue)
    requires message == ExampleMessage() && event == ExamplePayload()
    requires env.botAccount == "10000"
    requires env.parseJson(PyStr(ExampleRaw)) == Some(event)
    requires env.lookupPerson("12345") == Person("Alice")
    ensures Classify(Some(message), env) == AtBot("12345", "Alice", "")
  {
    assert GetAttr(message.obj, "raw_message") == PyStr(ExampleRaw);
    assert Get(event.items, "post_type") == PyStr("notice");
    assert Get(event.items, "sub_type") == PyStr("poke");
    ExampleSender(message.obj);
    ExampleTarget(event);
  }

  lemma ExampleTarget(event: PyValue)
    requires event == ExamplePayload()
    ensures event.PyDict? && Str(Get(event.items, "target_id")) == "10000"
  {
  }

  lemma ExampleSender(obj: PyValue)
    requires obj == PyObject(map["raw_message" := PyStr(ExampleRaw), "user_id" := PyInt(12345)], "")
    ensures SenderId(obj) == Some("12345")
  {
    ExampleUserId(obj);
    ExampleSenderDigits();
  }

  lemma ExampleUserId(obj: PyValue)
    requires obj == PyObject(map["raw_message" := PyStr(ExampleRaw), "user_id" := PyInt(12345)], "")
    ensures Dig.DigSpec(obj, "user_id", PyNone) == PyInt(12345)
  {
    UserIdPath();
    assert Dig.Resolve(obj, ["user_id"]) == Dig.Resolve(PyInt(12345), []);
  }

  lemma ExampleSenderDigits()
    ensures Decimal(12345) == "12345"
  {
  }

  /** The raw payload of the example poke notice. */
  const ExampleRaw: string := "{\"post_type\":\"notice\",\"sub_type\":\"poke\",\"target_id\":10000}"

  /** What a JSON parser makes of ExampleRaw. */
  function ExamplePayload(): PyValue {
    PyDict(map["post_type" := PyStr("notice"), "sub_type" := PyStr("poke"), "target_id" := PyInt(10000)], map[], "")
  }

  function ExampleMessage(): Message {
    Message(PyObject(map["raw_message" := PyStr(ExampleRaw), "user_id" := PyInt(12345)], ""), "")
  }
}
