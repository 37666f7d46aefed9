# quick-poke: the poke handler's admission policy in Dafny

quick-poke is a chat-bot plugin that reacts to QQ "poke" notices. Its event
handler, `PokeEventHandler.execute` in `plugin.py`, decides in four stages:

1. The guard clauses. Only a JSON-object payload with `post_type == "notice"`
   and `sub_type == "poke"` goes on; the sender id and the sender's person
   record must resolve.
2. The target check. When someone pokes someone other than the bot, the
   handler may follow with a poke at that target. It never throttles on this path.
3. The throttle. A per-user cooldown map is checked, then a global one-minute
   sliding window of acceptance times.
4. The response. When `auto_poke_back` is on and its roll succeeds, the
   handler pokes back 1 to `poke_back_max_times` times; then, when replies
   are on and their roll succeeds, it replies with generated text.

The helper `_dig` walks a dotted path through attributes and dict keys.

The model has four modules:

- `PyValues` (`python_values.dfy`): the Python values the handler inspects.
  It covers truthiness, `getattr`, `dict.get` and `str()`, including the
  decimal rendering of ints. `str()` on ints is proved injective (`DecimalInjective`).
- `Dig` (`dig.dfy`): `str.split` and `_dig`. `Dig.Dig` is the loop over
  segments, proved equal to `DigSpec`. Lemmas cover the split/join round
  trips, where the walk stops, and how nested paths compose.
- `PokePolicy` (`poke_policy.dfy`): one call of the handler as functions.
  `Classify` is the guard clauses, `Admit` the cooldown and window, `Respond`
  the poke-back and reply. `Handle` chains them over a `State` (the cooldown
  map and the window). The lemmas state the policy and relate consecutive calls.
- `PokeHandler` (`poke_handler.dfy`): the class `PokeEventHandler`. Its
  `cooldown` map and `timestamps` sequence are updated in place by `Execute`,
  which is proved to do exactly what `Handle` says. `Screen` and `Answer`
  are its guard-clause and response parts.

Everything outside the handler's own code is an input of one call (`Inputs`).
This covers the JSON parser, the clock (`real` seconds), every random roll,
the person directory, reply generation, the configuration and the bot's
account. What the call sends out (poke commands, the reply request, the reply
texts) is returned as `Effects`.

The code stamps the sender's cooldown (`plugin.py:118`) before the global rate
check (`plugin.py:124`), so a poke rejected as rate limited still restarts its
sender's cooldown. `CooldownStampedBeforeRateCheck` and
`RepeatPokeWithinCooldown` state this.

## Model

| member | source | states |
|---|---|---|
| `PyValues.Digits` | plugin.py:80 | `str()` of a natural number is a non-empty string of decimal digits with no leading zero |
| `PyValues.Decimal` | plugin.py:93-94 | `str()` of an int is non-empty and starts with '-' exactly when the int is negative |
| `PyValues.DigitsRoundTrip` | plugin.py:94 | reading back the digits `str()` gives for a natural number yields that number |
| `PyValues.DecimalInjective` | plugin.py:93-94 | two ints have the same `str()` exactly when they are equal, so an int `target_id` matches the bot's account only if it is that number |
| `Dig.Split` | plugin.py:26 | `path.split(".")` gives at least one piece and no piece contains the separator |
| `Dig.SplitAppend` | plugin.py:26 | splitting `a + "." + b` gives the pieces of `a` followed by the pieces of `b` |
| `Dig.SplitWithoutSeparator` | plugin.py:26 | a path without a dot is a single segment |
| `Dig.JoinSplit` | plugin.py:26 | joining the pieces of a split with the separator gives the original string back |
| `Dig.SplitJoin` | plugin.py:26 | splitting the join of separator-free pieces gives the same pieces back |
| `Dig.Dig` | plugin.py:23-35 | the segment-by-segment loop returns what `DigSpec` specifies: the last value reached when every step resolves, `default` otherwise |
| `Dig.ResolveAppend` | plugin.py:26-34 | walking a concatenation of segments is walking the first part and then, if it resolved, the second |
| `Dig.DigStopsAtFirstMiss` | plugin.py:27-34 | once a reached value is None, or a segment is neither its attribute nor its dict key, `_dig` returns `default` whatever the remaining segments are |
| `Dig.ResolveTrace` | plugin.py:27-34 | a walk along a trace of values, each one step from the previous, resolves to the trace's last value |
| `Dig.DigReachesEnd` | plugin.py:27-35 | when every segment resolves along a trace of values starting at the object, `_dig` returns the trace's last value, whatever the default |
| `Dig.DigMayReturnNone` | plugin.py:27-35 | a final value of None is returned as it is, not replaced by the default, since the None check comes before each step only |
| `Dig.TwoSegments` | plugin.py:26 | a path of two dot-free segments joined by a dot splits into exactly those two segments |
| `Dig.DigPrefersAttribute` | plugin.py:29-32 | on a dict with both an attribute and a key named by the segment, the attribute is returned |
| `Dig.DigComposes` | plugin.py:77 | with default None, looking up `p.q` equals looking up `q` in the result of looking up `p` |
| `PokePolicy.UserIdPath` | plugin.py:77 | the path `user_id` is one segment |
| `PokePolicy.NestedUserIdPath` | plugin.py:77 | the path `message_base_info.user_id` is the two segments `message_base_info` and `user_id` |
| `PokePolicy.SenderId` | plugin.py:77-80 | the sender id is `str()` of `_dig(m, "user_id") or _dig(m, "message_base_info.user_id")` when that is truthy, and missing otherwise; what this means for the message object is stated by `SenderIdFallback` |
| `PokePolicy.SenderIdFallback` | plugin.py:77-80 | taking each step as an attribute or, failing that, a dict key: a truthy top-level `user_id` is the sender id; when it is missing or falsy, a truthy `user_id` under `message_base_info` is; otherwise there is no sender |
| `PokePolicy.ClassifyRoutes` | plugin.py:56-109 | a poke notice goes to the bot exactly when the sender and the person resolve and `str(target_id)` is the bot's account, and elsewhere, carrying `str(target_id)` as its target, exactly when they resolve and it is another account; a missing sender, a missing person id and a failing lookup give their `(False, True, …)` results |
| `PokePolicy.NonPokeRoute` | plugin.py:56-74 | a message that is not a notice/poke JSON object is routed to one of the three `(True, True, …)` results; a poke notice stopped by the guard clauses gets `ok == False` |
| `PokePolicy.GuardMessages` | plugin.py:56-74 | each guard has its own message: no message or a falsy payload is "非戳一戳消息", a payload the parser rejects is "非 JSON 消息", a parsed non-dict is "非字典格式消息", and a dict that is not a notice/poke is "非戳一戳消息" |
| `PokePolicy.AdmitMessages` | plugin.py:111-173 | a poke at the bot ends in an escaping error or with one of the messages "冷却中", "达到频率上限", "戳一戳已响应（仅回戳）", "戳一戳已响应（跳过文字回复）", "戳一戳已响应" or "生成回复异常" |
| `PokePolicy.FollowPokeBounds` | plugin.py:96-109 | at most one follow-poke is sent, at the target; none when the sender or the target is the bot, when following is off or when its roll fails |
| `PokePolicy.Classify` | plugin.py:56-109 | a message that is not a notice/poke JSON object gets a neutral route with `ok` and `continue` both true; any other route carries the resolved sender id; a poke routed elsewhere has a target that is not the bot's account; a poke at the bot carries the sender's person name and the message text |
| `PokePolicy.ExtraInfo` | plugin.py:162 | the extra instruction begins with the user's name in 「」 and "戳了你一下", contains "，附带消息：" and the text right after it when the text is non-empty, and ends with the request for a short playful answer |
| `PokePolicy.Respond` | plugin.py:129-173 | the call raises exactly when poke-back is rolled with a maximum below 1; it sends either no poke or 1 to `poke_back_max_times` pokes, all at the sender; a reply is requested only when replies are on and rolled; texts are sent only with the "戳一戳已响应" result |
| `PokePolicy.Admit` | plugin.py:111-173 | the cooldown map never forgets a user; the window grows by at most one timestamp, and when it changes every timestamp in it is under 60 seconds old; anything is sent only for a poke past the cooldown with room in the pruned window |
| `PokePolicy.Handle` | plugin.py:54-173 | one whole call never removes a user from the cooldown map and grows the window by at most one timestamp |
| `PokePolicy.Prune` | plugin.py:123 | the pruned window holds exactly the timestamps less than 60 seconds old and is no longer than the original |
| `PokePolicy.PruneAppend` | plugin.py:123 | pruning works element by element and keeps the original order |
| `PokePolicy.PruneCons` | plugin.py:123 | the first timestamp is kept or dropped on its own age, ahead of the pruned rest |
| `PokePolicy.PruneChronological` | plugin.py:123 | pruning an oldest-first window keeps it oldest-first |
| `PokePolicy.RandInt` | plugin.py:138 | the poke-back count drawn is between 1 and `poke_back_max_times` |
| `PokePolicy.Repeat` | plugin.py:139-145 | the poke-back loop's commands are exactly `n` pokes, all at the same target |
| `PokePolicy.NonPokeIsNeutral` | plugin.py:56-74 | a missing message, a falsy raw payload, unparseable JSON, a non-dict event or a non-notice/poke event gets the neutral `(True, True, …)` result with one of its three messages, and only such messages do; state and effects are untouched |
| `PokePolicy.OnlyAdmissionChangesState` | plugin.py:91-127 | the cooldown map and window change only for a poke at the bot that is past its sender's cooldown |
| `PokePolicy.FollowPokeRule` | plugin.py:91-109 | a poke at someone else returns "戳的对象不是 bot" without touching state, and sends one poke at the target exactly when following is on, the sender is not the bot and the roll succeeds |
| `PokePolicy.CooldownRule` | plugin.py:111-117 | a poke at the bot is answered "冷却中" exactly when less than `rate_limit_seconds` passed since the sender's last trigger, and then nothing changes |
| `PokePolicy.UnseenUserEarlyClock` | plugin.py:114-115 | an unseen sender counts as last triggered at time 0 |
| `PokePolicy.CooldownStampedBeforeRateCheck` | plugin.py:118-126 | past the cooldown, the sender's entry becomes the current time whatever the global check decides, and no other entry changes |
| `PokePolicy.GlobalRateRule` | plugin.py:121-127 | past the cooldown, "达到频率上限" is returned exactly when the pruned window holds `max_pokes_per_minute` or more entries; the window is then the pruned one, otherwise the pruned one plus the current time |
| `PokePolicy.PokeBackRule` | plugin.py:133-147 | after acceptance, the call raises exactly when poke-back is rolled with a maximum below 1; otherwise the sender gets 1 to `poke_back_max_times` pokes when poke-back is on and rolled, none otherwise, all at the sender |
| `PokePolicy.ReplyRule` | plugin.py:149-173 | after poke-back: replies off gives "仅回戳", a failed roll gives "跳过文字回复", otherwise generation is asked with reason name + text, its segments are sent and "戳一戳已响应" returned on success with segments, else `(False, True, "生成回复异常")` |
| `PokePolicy.WindowStaysChronological` | plugin.py:123-127 | with a clock that does not go back, the window stays oldest-first |
| `PokePolicy.WindowStaysBounded` | plugin.py:121-127 | with the same limit on every call, the window never holds more than `max_pokes_per_minute` timestamps |
| `PokePolicy.WindowHoldsLastMinute` | plugin.py:118-127 | after a poke at the bot past its sender's cooldown, accepted or rate limited, every timestamp in the window is less than 60 seconds old |
| `PokePolicy.PruneLater` | plugin.py:123 | pruning at one time and again at a later time is pruning at the later time |
| `PokePolicy.WindowCountsAcrossCalls` | plugin.py:121-127 | seen from any later time, a call leaves the count of timestamps under a minute old as it was, plus its own timestamp exactly when it accepted the poke and that timestamp is still under a minute old; no call drops a timestamp that still counts |
| `PokePolicy.OldestAgesOut` | plugin.py:123-124 | once the oldest timestamp is 60 seconds old, the pruned window is shorter, so capacity frees up |
| `PokePolicy.RepeatPokeWithinCooldown` | plugin.py:112-126 | a second poke from the same sender within `rate_limit_seconds` of one that passed the cooldown check is "冷却中", even if the first was then rate limited |
| `PokePolicy.PokeBackOnlyExample` | plugin.py:54-151 | a known user poking the bot with a clear cooldown, poke-back rolled with count 2 and replies off gets two pokes back, is recorded in both containers, and gets "戳一戳已响应（仅回戳）" |
| `PokeHandler.Screen` | plugin.py:56-109 | the early-return guard clauses compute exactly the route `Classify` specifies |
| `PokeHandler.Answer` | plugin.py:129-173 | the poke-back loop and the reply compute exactly what `Respond` specifies; every poke of the drawn count is sent, since the result of each poke command is not an input of the model |
| `PokeHandler.PokeEventHandler.constructor` | plugin.py:49-52 | a new handler starts with an empty cooldown map and an empty window |
| `PokeHandler.PokeEventHandler.Execute` | plugin.py:54-173 | the in-place updates of the cooldown map and window, the result and the commands sent are exactly those of `Handle` on the previous state |

## Left out

- JSON parsing (`json.loads`, plugin.py:64) is an input function from the raw payload to a parsed value, or to nothing when it raises.
- Randomness (plugin.py:101, 136, 138, 154): each `random.random() < p` is an input boolean, so the probability settings do not appear. `random.randint(1, m)` is an input draw mapped into `[1, m]`; for `m < 1` it raises, which the model reports as an escaping `ValueError`.
- The clock (`time.monotonic`, plugin.py:113) is an input `real`; floating-point rounding is not modelled.
- Host calls are inputs of each call. `person_api` is an answer per sender id. `generate_reply` is a fixed answer. The bot's account is a string. `send_command` and `send_text` become the returned effects. The chat stream id they are sent to is not carried, nor the `storage_message` flag (False for the pokes at plugin.py:106 and 144, True for the reply texts at plugin.py:167), nor `enable_chinese_typo=False` passed to `generate_reply` (plugin.py:161).
- The result of each poke command only decides whether a warning is logged (plugin.py:146-147), so it is not an input. Logging is not modelled.
- `person_name` is assumed to be a string. A non-string value would make line 130 raise after the state was updated; that case is not modelled.
- `send_command` raising is not modelled. It is not guarded, neither for the follow-poke (plugin.py:102) nor inside the poke-back loop (plugin.py:140), so it would escape from the call; at plugin.py:140 this happens after the cooldown and the window were updated.
- `send_text` raising inside the reply loop is not modelled. It would be caught and reported as a reply error after some texts were sent.
- `str()` of dicts, objects and other values (floats, lists) is carried in the value, not computed. Attributes of str and int values (their methods) are not modelled for `hasattr`. Dict keys are strings only.
- `PokeAction.execute` (plugin.py:205-231) is a chain of host lookups with no state or logic of its own; it is not modelled.
- The plugin's configuration schema and registration (plugin.py:235-331) are not modelled. Only the defaults appear, as `DefaultConfig`. The configuration is passed to each call, as `get_config` reads it on every call.
- Concurrency is not modelled: calls are handled one at a time. In the source `_cooldown` and `_poke_timestamps` are class attributes. The cooldown dict is shared by all handler instances, while the window list is rebound per instance at line 123. The model has a single handler.
