/** The poke event handler as the object it is: a cooldown map and a list of
    recent timestamps, updated in place by `Execute`, one call at a time. */
module PokeHandler {
  import opened PyValues
  import Dig
  import opened PokePolicy

  /** The guard clauses of the handler: early returns for anything that is not
      a poke notice, for an unknown sender, and the split between pokes at the
      bot and pokes at someone else. */
  method Screen(message: Option<Message>, env: Inputs) returns (route: Route)
    ensures route == Classify(message, env)
  {
    if message.None? {
      return Neutral(Verdict(true, true, MsgNotPoke));
    }
    var msg := message.value;
    var raw := GetAttr(msg.obj, "raw_message");
    if !Truthy(raw) {
      return Neutral(Verdict(true, true, MsgNotPoke));
    }
    var parsed := env.parseJson(raw);
    if parsed.None? {
      return Neutral(Verdict(true, true, MsgNotJson));
    }
    var event := parsed.value;
    if !event.PyDict? {
      return Neutral(Verdict(true, true, MsgNotDict));
    }
    if Get(event.items, "post_type") != PyStr("notice") || Get(event.items, "sub_type") != PyStr("poke") {
      return Neutral(Verdict(true, true, MsgNotPoke));
    }

    var senderRaw := Dig.Dig(msg.obj, "user_id", PyNone);
    if !Truthy(senderRaw) {
      senderRaw := Dig.Dig(msg.obj, "message_base_info.user_id", PyNone);
    }
    if !Truthy(senderRaw) {
      return Neutral(Verdict(false, true, MsgNoSender));
    }
    var user := Str(senderRaw);

    var person := env.lookupPerson(user);
    if person.LookupRaised? {
      return Neutral(Verdict(false, true, MsgPersonError));
    }
    if person.NoPersonId? {
      return Neutral(Verdict(false, true, MsgNoPerson));
    }

    var target := Str(Get(event.items, "target_id"));
    if target != env.botAccount {
      return Elsewhere(user, target);
    }
    return AtBot(user, person.name, msg.plainText);
  }

  /** Poke-back and the text reply of an accepted poke. A failed poke command
      only gets logged, so the loop sends every one of them. */
  method Answer(user: string, name: string, plainText: string, env: Inputs) returns (outcome: Outcome, effects: Effects)
    ensures Reaction(outcome, effects) == Respond(user, name, plainText, env)
  {
    effects := NoEffects;
    var reason := name + plainText;

    if env.config.autoPokeBack && env.rolls.pokeBack {
      if env.config.pokeBackMaxTimes < 1 {
        return Raised(RandIntError), effects;
      }
      var pokeTimes := RandInt(1, env.config.pokeBackMaxTimes, env.rolls.pokeTimesDraw);
      var sent: seq<Command> := [];
      for i := 0 to pokeTimes
        invariant sent == Repeat(SendPoke(user), i)
      {
        sent := sent + [SendPoke(user)];
      }
      effects := effects.(commands := sent);
    }

    if !env.config.autoReplyEnabled {
      return Neutral3(MsgPokeBackOnly), effects;
    }
    if !env.rolls.reply {
      return Neutral3(MsgSkippedText), effects;
    }

    effects := effects.(request := Some(ReplyRequest(reason, ExtraInfo(name, plainText))));
    if env.generation.Generated? && env.generation.success && env.generation.segments != [] {
      var segments := env.generation.segments;
      var texts: seq<string> := [];
      for k := 0 to |segments|
        invariant texts == segments[..k]
      {
        texts := texts + [segments[k]];
      }
      assert segments[..|segments|] == segments;
      effects := effects.(texts := texts);
      return Neutral3(MsgReplied), effects;
    }
    return Returned(Verdict(false, true, MsgReplyError)), effects;
  }

  class PokeEventHandler {
    /** Last trigger time per sender id. */
    var cooldown: map<string, real>
    /** Times of recent acceptances, oldest first. */
    var timestamps: seq<real>

    constructor ()
      ensures cooldown == map[] && timestamps == []
    {
      cooldown := map[];
      timestamps := [];
    }

    /** The state as the policy functions see it. */
    function Snapshot(): State
      reads this
    {
      State(cooldown, timestamps)
    }

    /** Handles one inbound message: the guard clauses, the cooldown and the
        global window (updating both in place), then poke-back and the reply. */
    method Execute(message: Option<Message>, env: Inputs) returns (outcome: Outcome, effects: Effects)
      modifies this
      ensures Step(Snapshot(), outcome, effects) == Handle(old(Snapshot()), message, env)
    {
      var route := Screen(message, env);
      match route {
        case Neutral(verdict) =>
          return Returned(verdict), NoEffects;
        case Elsewhere(user, target) =>
          effects := NoEffects;
          if env.config.followPokeEnabled && user != env.botAccount && target != env.botAccount && env.rolls.follow {
            effects := effects.(commands := [SendPoke(target)]);
          }
          return Neutral3(MsgNotAtBot), effects;
        case AtBot(user, name, plainText) =>
          var last := if user in cooldown then cooldown[user] else 0.0;
          if env.now - last < env.config.rateLimitSeconds as real {
            return Neutral3(MsgCoolingDown), NoEffects;
          }
          cooldown := cooldown[user := env.now];

          timestamps := Prune(timestamps, env.now);
          if |timestamps| >= env.config.maxPokesPerMinute {
            return Neutral3(MsgRateLimited), NoEffects;
          }
          timestamps := timestamps + [env.now];

          outcome, effects := Answer(user, name, plainText, env);
      }
    }
  }
}
