# CobbleBattleRewards: the reward engine in Dafny

CobbleBattleRewards is a server-side Cobblemon mod. It watches battle events and grants configured rewards when a battle ends:

- an item, or a console command;
- for the triggers "BattleWon", "BattleLost", "BattleForfeit" and "Captured".

This project models the mod's reward engine and proves properties of the model. The engine has six parts:

- **Classification.** A battle is PVP, WILD or NPC. ROAM is used for a capture outside any tracked battle.
- **Condition matching.** `key:value`, `key=value` and raw species tags are matched against a creature's property snapshot.
- **Reward selection.** Rules are filtered by dimension, battle type, conditions and level. Only the lowest `order` tier is kept, and each rule then rolls its chance.
- **Cooldown-gated dispatch.** A per-player table keeps the last time each reward was granted.
- **Weighted choice.** One variant of an item reward is chosen by weight.
- **Battle registry.** The registry tracks each battle from start to victory, flight, capture or time-out, and decides which player receives which trigger.

Modules, one per file:

| file | module | what it holds |
|---|---|---|
| `options.dfy` | `Options` | the `Option` type |
| `text.dfy` | `Text` | the string operations the matcher uses |
| `battle.dfy` | `Battle` | actors, creatures, `BattleType`, `BattleState`, classification |
| `rules.dfy` | `Rules` | reward rules and the configuration |
| `subsequence.dfy` | `Subsequences` | a list read from another at increasing positions: what `filter` and `filterIsInstance` produce |
| `conditions.dfy` | `Conditions` | `checkCondition`, `rewardApplies` |
| `selection.dfy` | `Selection` | `getEligibleRewards` |
| `weighted.dfy` | `Weighted` | `getRandomItem` |
| `dispatch.dfy` | `Dispatch` | the cooldown table as class `CooldownTracker` |
| `lifecycle.dfy` | `Lifecycle` | what each handler grants, as functions over a battle state |
| `registry.dfy` | `Registry` | the battle map as class `BattleRegistry`, whose methods are the handler bodies |

Randomness and the clock are parameters:

- `roll(i)` is the i-th `Random.nextDouble(100.0)` of a selection.
- `itemDraw` is the value `(1..total).random()` drew.
- `now` is the current epoch millisecond.

A terminal handler returns its `determineAndProcessReward` calls as a sequence of `Grant` records, in call order. Each record carries:

- the player and the trigger;
- the battle type;
- the opponent creature as it was at the moment of the call.

`CooldownTracker.DetermineAndProcessReward` then runs one such call against the cooldown table.

Behaviours of the code that the model keeps:

- A capture outside a tracked battle is rewarded as a ROAM encounter (`BattleType.ROAM`), not a WILD one.
- A capture inside a tracked battle marks it captured and resolved but does not remove it. The periodic sweep evicts it.
- Selection is the flat "lowest order only" rule. No reward is excluded by another.
- A stack that did not fit in the inventory still counts as given when `inventoryFullBehavior` is "drop".

## Model

All source paths are under `src/main/kotlin/com/cobblebattlerewards/`; the table gives them in full.

| member | source | states |
|---|---|---|
| Text.Trim | src/main/kotlin/com/cobblebattlerewards/CobbleBattleRewards.kt:84-85 | `trim()` yields a slice of the input that neither starts nor ends with whitespace; only whitespace is cut away on either side |
| Text.TrimIdempotent | src/main/kotlin/com/cobblebattlerewards/CobbleBattleRewards.kt:84-85 | trimming a trimmed key or value changes nothing |
| Text.Lower | src/main/kotlin/com/cobblebattlerewards/CobbleBattleRewards.kt:84 | `lowercase()` keeps the length and lower-cases each character |
| Text.EqualsIgnoreCaseIsLowerEquality | src/main/kotlin/com/cobblebattlerewards/CobbleBattleRewards.kt:103 | `equals(ignoreCase = true)` holds exactly when the lower-cased strings are equal |
| Text.ContainsIgnoreCase | src/main/kotlin/com/cobblebattlerewards/CobbleBattleRewards.kt:91 | `contains(ignoreCase = true)` holds exactly when the needle occurs at some position, ignoring case |
| Text.ContainsItself | src/main/kotlin/com/cobblebattlerewards/CobbleBattleRewards.kt:103 | every string equals and contains itself, ignoring case |
| Text.IsBlank | src/main/kotlin/com/cobblebattlerewards/CobbleBattleRewards.kt:360 | `isBlank()` holds exactly when every character is whitespace, and for the empty string |
| Text.FirstSeparator | src/main/kotlin/com/cobblebattlerewards/CobbleBattleRewards.kt:81 | `indexOfAny(':', '=')` finds the first ':' or '=' and returns none when neither occurs |
| Battle.BattleTypeName | src/main/kotlin/com/cobblebattlerewards/CobbleBattleRewards.kt:478 | the lower-cased enum name a rule's `battleTypes` is searched for: "roam", "wild", "npc" or "pvp", each name belonging to exactly one type |
| Battle.PlayerCount | src/main/kotlin/com/cobblebattlerewards/CobbleBattleRewards.kt:251 | `count` of the player actors: never more than the actors, all of them when every actor is a player, none when no actor is |
| Battle.FreshBattleState | src/main/kotlin/com/cobblebattlerewards/CobbleBattleRewards.kt:48-61 | a new `BattleState()` has no actors and no creatures, is neither resolved nor captured, is typed WILD and is active now |
| Battle.PlayerCountPositive | src/main/kotlin/com/cobblebattlerewards/CobbleBattleRewards.kt:251 | the player count is positive exactly when some actor is a player |
| Battle.PlayerCountAboveOne | src/main/kotlin/com/cobblebattlerewards/CobbleBattleRewards.kt:251-252 | `playerCount > 1` holds exactly when two distinct actors are players |
| Battle.DetermineBattleType | src/main/kotlin/com/cobblebattlerewards/CobbleBattleRewards.kt:251-263 | never ROAM; PVP iff several players; otherwise WILD if any actor is wild; otherwise NPC iff an NPC actor or an NPC-owned creature of a non-player actor; otherwise WILD |
| Battle.UpgradeOnSwap | src/main/kotlin/com/cobblebattlerewards/CobbleBattleRewards.kt:567-569 | a swap only ever moves the type to NPC, never away from PVP, and only for an NPC-owned creature |
| Battle.LeadPokemon | src/main/kotlin/com/cobblebattlerewards/CobbleBattleRewards.kt:573 | an actor's active creature is the first of its team, absent for an empty team |
| Conditions.CheckCondition | src/main/kotlin/com/cobblebattlerewards/CobbleBattleRewards.kt:79-123 | the condition is split at its first ':' or '='; for a known key (trimmed, lower-cased) the property must contain the trimmed value, ignoring case; with an unknown key or no separator the whole condition must equal the species, ignoring case; without a species it fails |
| Conditions.AllElementsHold | src/main/kotlin/com/cobblebattlerewards/CobbleBattleRewards.kt:136-140 | a list entry holds iff every element is a string condition that holds; a non-string element fails |
| Conditions.AnyEntryHolds | src/main/kotlin/com/cobblebattlerewards/CobbleBattleRewards.kt:133-145 | the conditions match iff some entry holds |
| Conditions.RewardApplies | src/main/kotlin/com/cobblebattlerewards/CobbleBattleRewards.kt:126-152 | no opponent never applies; an empty list always applies, with no blacklist inversion; otherwise the rule applies iff (some entry holds) differs from the blacklist flag |
| Conditions.BlacklistComplements | src/main/kotlin/com/cobblebattlerewards/CobbleBattleRewards.kt:147-151 | with a non-empty list, the blacklist and whitelist versions of a rule disagree on every opponent |
| Conditions.RawTagMatchesOwnSpecies | src/main/kotlin/com/cobblebattlerewards/CobbleBattleRewards.kt:111-121 | a separator-free tag matches a creature whose species is exactly that tag |
| Conditions.KnownKeyMatchesByContainment | src/main/kotlin/com/cobblebattlerewards/CobbleBattleRewards.kt:86-91 | a known key matches whenever the property holds the value at some position, ignoring case |
| Conditions.TypeConditionExample | src/main/kotlin/com/cobblebattlerewards/CobbleBattleRewards.kt:79-92 | "type:electric" matches the type property "electric,flying" |
| Conditions.SpeciesTagExample | src/main/kotlin/com/cobblebattlerewards/CobbleBattleRewards.kt:111-121 | "pikachu" matches the species "Pikachu" and not "Raichu" |
| Selection.RulesFor | src/main/kotlin/com/cobblebattlerewards/CobbleBattleRewards.kt:466-472 | each of the four triggers selects its own table, and any other trigger selects none |
| Selection.Matching | src/main/kotlin/com/cobblebattlerewards/CobbleBattleRewards.kt:476-481 | exactly the rules that pass the dimension, battle-type, condition and inclusive level filters: the table read at `PassingIndices`, so table order is kept and a rule listed twice is kept twice |
| Selection.PassingIndices | src/main/kotlin/com/cobblebattlerewards/CobbleBattleRewards.kt:476-481 | the positions whose rule passes every filter, strictly increasing and within range: every passing position and no other |
| Selection.MinOrder | src/main/kotlin/com/cobblebattlerewards/CobbleBattleRewards.kt:485 | the order of some matching rule, and no larger than any of them |
| Selection.AtOrder | src/main/kotlin/com/cobblebattlerewards/CobbleBattleRewards.kt:487 | exactly the rules whose order equals the given one: the input read at `OrderIndices`, order and repeats kept |
| Selection.OrderIndices | src/main/kotlin/com/cobblebattlerewards/CobbleBattleRewards.kt:487 | the positions whose rule has the given order, strictly increasing and within range: every such position and no other |
| Selection.Rolled | src/main/kotlin/com/cobblebattlerewards/CobbleBattleRewards.kt:489 | a rule is kept iff its own draw is below its chance; the result is the input read at `RolledIndices`, so order and repeats are kept |
| Selection.RolledIndices | src/main/kotlin/com/cobblebattlerewards/CobbleBattleRewards.kt:489 | the positions whose draw is below their chance, strictly increasing and each within range: the kept positions in table order |
| Subsequences.SubsequenceTrans | src/main/kotlin/com/cobblebattlerewards/CobbleBattleRewards.kt:458-490 | a subsequence of a subsequence of a list is a subsequence of that list, which carries table order through the successive `filter` calls |
| Subsequences.EmbedsTrans | src/main/kotlin/com/cobblebattlerewards/CobbleBattleRewards.kt:476-489 | reading a list at positions `i` of a list read at positions `j` is reading at the composed positions, which are again increasing: successive `filter` calls compose |
| Selection.LowestTier | src/main/kotlin/com/cobblebattlerewards/CobbleBattleRewards.kt:485-487 | the rules at the lowest order are a subsequence of the matching rules and none of those has a lower order |
| Selection.TopTierSound | src/main/kotlin/com/cobblebattlerewards/CobbleBattleRewards.kt:476-487 | the lowest tier is a subsequence of the trigger's table, every rule in it passes the filters, and none of the passing rules has a lower order |
| Selection.TierPositions | src/main/kotlin/com/cobblebattlerewards/CobbleBattleRewards.kt:476-487 | the lowest tier is the trigger's table read at `TierIndices`, and a position is among them exactly when its rule passes every filter and no passing rule has a lower order: every such rule, in table order, repeats kept |
| Selection.EligibleRewards | src/main/kotlin/com/cobblebattlerewards/CobbleBattleRewards.kt:458-490 | an unknown trigger yields nothing; each result comes from the trigger's table, passes every filter, has the lowest order among the passing rules and won its roll; every lowest-order rule that wins its roll is returned; the result is the lowest tier read at the positions whose roll succeeded, and so the trigger's table read at the composed positions `TierIndices` then `RolledIndices`: table order kept and every occurrence of a winning rule returned |
| Selection.CertainRewardsAlwaysSelected | src/main/kotlin/com/cobblebattlerewards/CobbleBattleRewards.kt:485-489 | a lowest-order passing rule with chance 100 or more is always selected, because every draw lies in [0, 100) |
| Weighted.TotalWeight | src/main/kotlin/com/cobblebattlerewards/CobbleBattleRewards.kt:523 | `sumOf { it.weight }`: 0 for no variants; with non-negative weights, non-negative and at least every single weight |
| Weighted.WeightedChoice | src/main/kotlin/com/cobblebattlerewards/CobbleBattleRewards.kt:522-536 | "" when the total weight is 0 or less; otherwise "" or the value of one of the variants |
| Weighted.FirstReaching | src/main/kotlin/com/cobblebattlerewards/CobbleBattleRewards.kt:528-533 | the first variant whose running weight reaches the draw; every earlier one stays below it |
| Weighted.PrefixWeightMonotone | src/main/kotlin/com/cobblebattlerewards/CobbleBattleRewards.kt:526-529 | with non-negative weights the running weight never decreases |
| Weighted.FirstReachingIsUnique | src/main/kotlin/com/cobblebattlerewards/CobbleBattleRewards.kt:530-531 | the scan stops at the unique first variant that reaches the draw |
| Weighted.RandomItem | src/main/kotlin/com/cobblebattlerewards/CobbleBattleRewards.kt:522-536 | the accumulating loop returns "" for a total weight of 0 or less, and otherwise the weighted choice for the draw |
| Weighted.FirstReachingInRange | src/main/kotlin/com/cobblebattlerewards/CobbleBattleRewards.kt:525-533 | a draw in 1..total is always reached by some variant, so the scan never falls through to the final "" |
| Weighted.ChoiceIsPositiveVariant | src/main/kotlin/com/cobblebattlerewards/CobbleBattleRewards.kt:523-533 | with non-negative weights and a draw in 1..total, the result is a real variant with positive weight, never "" |
| Weighted.ChoiceBand | src/main/kotlin/com/cobblebattlerewards/CobbleBattleRewards.kt:525-533 | a draw picks variant k exactly when it lies between k's preceding and its own running weight |
| Weighted.DrawsPerVariant | src/main/kotlin/com/cobblebattlerewards/CobbleBattleRewards.kt:523-533 | exactly `weight` of the draws 1..total pick each variant, so the choice is proportional to the weights |
| Dispatch.GiveItem | src/main/kotlin/com/cobblebattlerewards/CobbleBattleRewards.kt:325-351 | fails for an empty variant list or when a call throws; otherwise succeeds iff the stack was inserted or the full-inventory behaviour is "drop"; the stack given is the weighted choice |
| Dispatch.ExecuteCommand | src/main/kotlin/com/cobblebattlerewards/CobbleBattleRewards.kt:353-375 | a blank command fails; otherwise it succeeds iff the dispatch did not throw |
| Dispatch.EffectSucceeds | src/main/kotlin/com/cobblebattlerewards/CobbleBattleRewards.kt:312-319 | only the types "item" and "command", in any case, can succeed, each under its own conditions |
| Dispatch.AttemptGrant | src/main/kotlin/com/cobblebattlerewards/CobbleBattleRewards.kt:293-322 | the player's entry is created if missing; a reward inside its cooldown fails; a failed attempt leaves every timestamp unchanged; a granted one sets this reward's timestamp to now and changes no other |
| Dispatch.SecondAttemptWithinCooldownFails | src/main/kotlin/com/cobblebattlerewards/CobbleBattleRewards.kt:298-321 | after a grant, a second attempt less than the cooldown later fails and keeps the first grant's time |
| Dispatch.AttemptAll | src/main/kotlin/com/cobblebattlerewards/CobbleBattleRewards.kt:281-284 | one outcome per reward; other players' timestamps, and this player's timestamps for keys not attempted, are unchanged |
| Dispatch.CooldownTracker.constructor | src/main/kotlin/com/cobblebattlerewards/CobbleBattleRewards.kt:40 | the cooldown table starts empty |
| Dispatch.CooldownTracker.ProcessReward | src/main/kotlin/com/cobblebattlerewards/CobbleBattleRewards.kt:287-323 | the outcome and the new table are exactly those of `AttemptGrant` on the old table |
| Dispatch.CooldownTracker.DetermineAndProcessReward | src/main/kotlin/com/cobblebattlerewards/CobbleBattleRewards.kt:265-285 | attempts, in order, exactly the eligible rewards for the opponent's level (1 without an opponent); the new table and outcomes are those of `AttemptAll` |
| Lifecycle.PlayerActors | src/main/kotlin/com/cobblebattlerewards/CobbleBattleRewards.kt:404 | exactly the player actors of the battle |
| Lifecycle.PlayerIndices | src/main/kotlin/com/cobblebattlerewards/CobbleBattleRewards.kt:404 | the positions of the player actors, strictly increasing and within range: every player position and no other |
| Lifecycle.PlayerActorsInOrder | src/main/kotlin/com/cobblebattlerewards/CobbleBattleRewards.kt:404 | the player actors are the actors read at `PlayerIndices`: battle order kept, each player actor once |
| Lifecycle.ActorPlayer | src/main/kotlin/com/cobblebattlerewards/CobbleBattleRewards.kt:408-409 | an actor with no creature has no player; otherwise its player is exactly the owner of its first creature (none when that owner is offline) |
| Lifecycle.GrantsFor | src/main/kotlin/com/cobblebattlerewards/CobbleBattleRewards.kt:225-235 | one pass over the player actors grants, for each actor, exactly what the pass decides for it, skipping actors whose player does not resolve |
| Lifecycle.GrantIndices | src/main/kotlin/com/cobblebattlerewards/CobbleBattleRewards.kt:225-235 | the positions a pass grants, strictly increasing and within range: exactly those whose player resolves and to which the pass gives a trigger |
| Lifecycle.GrantsForInOrder | src/main/kotlin/com/cobblebattlerewards/CobbleBattleRewards.kt:225-235 | the k-th grant of a pass is the one it makes for the k-th position of `GrantIndices`: actor order kept, each granted actor exactly once |
| Lifecycle.FirstLead | src/main/kotlin/com/cobblebattlerewards/CobbleBattleRewards.kt:410-414 | the active creature of the first actor on the requested side (winner or not): some actor on that side fields it, and it is none when no actor is on that side |
| Lifecycle.VictoryPassSound | src/main/kotlin/com/cobblebattlerewards/CobbleBattleRewards.kt:407-444 | each victory pass grants only to player actors, with the victory trigger of that actor, and "BattleWon" only in the winners' pass |
| Lifecycle.VictoryPassesComplete | src/main/kotlin/com/cobblebattlerewards/CobbleBattleRewards.kt:407-444 | every player actor whose player resolves is granted by one of the two passes |
| Lifecycle.VictoryGrants | src/main/kotlin/com/cobblebattlerewards/CobbleBattleRewards.kt:399-449 | winners get "BattleWon"; every other player gets "BattleForfeit" if a creature still has health, else "BattleLost"; the grants are first the winners' pass over the granted player actors in battle order, each once, then the other pass likewise; a winner's grant carries the first non-winner's creature, or the battle's opponent when there is none; any other grant carries the first winner's creature, or else what the winners' pass left: the first non-winner's creature if some winner was granted, the battle's opponent otherwise |
| Lifecycle.VictoryInOrder | src/main/kotlin/com/cobblebattlerewards/CobbleBattleRewards.kt:404-444 | with n the number of actors the winners' pass grants, the first n victory grants are that pass's grants for those actors, in actor order and once each, and the rest are the other pass's grants likewise |
| Lifecycle.VictoryShape | src/main/kotlin/com/cobblebattlerewards/CobbleBattleRewards.kt:404-444 | every victory grant goes to a player actor of the battle with the trigger that actor earns; every player actor whose player resolves is granted; every "BattleWon" comes before every other grant |
| Lifecycle.VictoryOpponents | src/main/kotlin/com/cobblebattlerewards/CobbleBattleRewards.kt:407-434 | the opponent each victory grant carries, as the two passes leave it: the winners' pass sets the first non-winner's creature, if any; the other pass sets the first winner's, if any, and otherwise sees what the winners' pass left |
| Lifecycle.LonePlayerKeepsOpponent | src/main/kotlin/com/cobblebattlerewards/CobbleBattleRewards.kt:399-449 | with a single player actor (a battle against a wild creature or an NPC) every victory grant carries the opponent the battle already had |
| Lifecycle.AnyHealthy | src/main/kotlin/com/cobblebattlerewards/CobbleBattleRewards.kt:436 | `any { it.currentHealth > 0 }` holds exactly when some creature of the team has positive health |
| Lifecycle.HasHealthyPokemon | src/main/kotlin/com/cobblebattlerewards/CobbleBattleRewards.kt:436 | an actor still has a healthy creature exactly when one of its team has positive health; an empty team has none |
| Lifecycle.FaintedLoserTrigger | src/main/kotlin/com/cobblebattlerewards/CobbleBattleRewards.kt:436-443 | a non-winner with no creature left standing gets "BattleLost" |
| Lifecycle.FaintedLoserGetsBattleLost | src/main/kotlin/com/cobblebattlerewards/CobbleBattleRewards.kt:423-444 | a resolvable non-winner whose whole team has fainted is granted "BattleLost" by the victory handler |
| Lifecycle.FleeShape | src/main/kotlin/com/cobblebattlerewards/CobbleBattleRewards.kt:220-238 | the flee pass grants "BattleForfeit" to exactly the fleeing actor and "BattleWon" to the others only in PVP; every such player actor whose player resolves is granted; the opponent is left as it was |
| Lifecycle.FleeGrants | src/main/kotlin/com/cobblebattlerewards/CobbleBattleRewards.kt:220-238 | the fleeing player gets "BattleForfeit"; other players get "BattleWon" in PVP and nothing otherwise; one grant per granted player actor, in battle order; the opponent is left as it was |
| Lifecycle.FirstPlayerActor | src/main/kotlin/com/cobblebattlerewards/CobbleBattleRewards.kt:451-452 | the first player actor: a player actor, at an index before which no actor is a player; none when no actor is a player |
| Lifecycle.CapturedState | src/main/kotlin/com/cobblebattlerewards/CobbleBattleRewards.kt:194-203 | a captured battle is captured and resolved; its opponent is the captured creature itself, exactly as given, unless the stored opponent already has that identity, in which case the stored one is kept; everything else is kept |
| Lifecycle.CaptureGrants | src/main/kotlin/com/cobblebattlerewards/CobbleBattleRewards.kt:199-202 | at most one "Captured" grant, made exactly when the first player actor's player resolves; it goes to that actor and to that actor's player |
| Lifecycle.RoamCaptureGrant | src/main/kotlin/com/cobblebattlerewards/CobbleBattleRewards.kt:204-209 | an untracked capture grants "Captured" to the capturing player as ROAM, with the creature as opponent |
| Lifecycle.AssignActiveType | src/main/kotlin/com/cobblebattlerewards/CobbleBattleRewards.kt:572-584 | recording the active creatures changes neither the actors nor the flags, moves the type only to NPC, never away from PVP, and never without the upgrade |
| Lifecycle.AssignActive | src/main/kotlin/com/cobblebattlerewards/CobbleBattleRewards.kt:572-584 | the whole new state: each side holds the active creature of the last actor on that side that fields one, or keeps its creature when no actor does; with the upgrade, a battle other than PVP becomes NPC exactly when an actor off the player side fields an NPC-owned creature; nothing else changes |
| Lifecycle.LastLead | src/main/kotlin/com/cobblebattlerewards/CobbleBattleRewards.kt:158-168 | the lead of an actor on the given side with a lead, after which no actor on that side has one; none exactly when no actor on that side has a lead |
| Lifecycle.SwapIn | src/main/kotlin/com/cobblebattlerewards/CobbleBattleRewards.kt:560-570 | a player-owned creature becomes the player's; any other becomes the opponent; the type changes only for an NPC-owned creature, only to NPC and never from PVP, and a non-player creature applies exactly the swap upgrade; the activity time is kept |
| Lifecycle.Updated | src/main/kotlin/com/cobblebattlerewards/CobbleBattleRewards.kt:558-588 | active at `now`, with the actors and flags kept; a sent player-owned creature becomes the player's and changes neither the opponent nor the type; any other sent creature becomes the opponent, keeps the player's creature and applies the swap upgrade; without a sent creature each side holds the last lead on that side (or keeps its creature) and a non-PVP battle becomes NPC exactly when a creature off the player side is NPC-owned |
| Lifecycle.StartedBattleType | src/main/kotlin/com/cobblebattlerewards/CobbleBattleRewards.kt:172-178 | after the start, the type is PVP exactly when several players take part, and never ROAM |
| Lifecycle.Sweep | src/main/kotlin/com/cobblebattlerewards/CobbleBattleRewards.kt:551-556 | exactly the unresolved battles active within 30 minutes are kept, unchanged |
| Lifecycle.SweepIdempotent | src/main/kotlin/com/cobblebattlerewards/CobbleBattleRewards.kt:551-556 | a second sweep at the same time removes nothing |
| Lifecycle.SweepLaterKeepsLess | src/main/kotlin/com/cobblebattlerewards/CobbleBattleRewards.kt:553-555 | a later sweep keeps no battle an earlier one dropped |
| Registry.BattleRegistry.constructor | src/main/kotlin/com/cobblebattlerewards/CobbleBattleRewards.kt:39 | the battle map starts empty, and the registry is valid |
| Registry.BattleRegistry.BattleStartedPre | src/main/kotlin/com/cobblebattlerewards/CobbleBattleRewards.kt:156-170 | the battle is stored as a fresh state whose player creature is the active creature of the last player actor that fields one and whose opponent is that of the last other actor that fields one, none when no actor on that side does (`AssignActive` without the upgrade); the registry stays valid |
| Registry.BattleRegistry.UpdateBattlePokemon | src/main/kotlin/com/cobblebattlerewards/CobbleBattleRewards.kt:558-588 | an untracked battle is untouched; a tracked one is refreshed and active now; its type only moves to NPC and never leaves PVP |
| Registry.RefreshActive | src/main/kotlin/com/cobblebattlerewards/CobbleBattleRewards.kt:572-584 | the forEach over the actors yields exactly `AssignActive` over the battle's actors with the NPC upgrade |
| Registry.BattleRegistry.BattleStartedPost | src/main/kotlin/com/cobblebattlerewards/CobbleBattleRewards.kt:172-179 | the actors are stored, the battle is classified and refreshed; it is PVP iff several players take part |
| Registry.BattleRegistry.FindBattleByPokemon | src/main/kotlin/com/cobblebattlerewards/CobbleBattleRewards.kt:590-595 | a battle one of whose actors fields the creature, and none exactly when no tracked battle does |
| Registry.BattleRegistry.PokemonSentOut | src/main/kotlin/com/cobblebattlerewards/CobbleBattleRewards.kt:181-185 | the battle fielding the creature is updated with it; with none, nothing changes |
| Registry.BattleRegistry.PokemonCaptured | src/main/kotlin/com/cobblebattlerewards/CobbleBattleRewards.kt:187-211 | a tracked battle becomes captured and resolved, stays registered and grants "Captured" to its first player; otherwise the capturer gets a ROAM "Captured" and the registry is untouched |
| Registry.BattleRegistry.FinalizeBattleVictory | src/main/kotlin/com/cobblebattlerewards/CobbleBattleRewards.kt:399-449 | an unknown or captured battle grants nothing and changes nothing; otherwise the grants are `VictoryGrants` over the battle's actors as they are when the battle ends, none of them ROAM, and the battle is removed |
| Registry.BattleRegistry.BattleVictory | src/main/kotlin/com/cobblebattlerewards/CobbleBattleRewards.kt:213-218 | a captured or unknown battle is ignored; otherwise the winners' identities go to `finalizeBattleVictory`, which reads the actors as they are when the battle ends |
| Registry.BattleRegistry.BattleFled | src/main/kotlin/com/cobblebattlerewards/CobbleBattleRewards.kt:220-238 | a captured or unknown battle is ignored; otherwise the grants are `FleeGrants` over the actors as they are at the flight, none of them ROAM, and the battle is removed |
| Registry.BattleRegistry.CleanupBattles | src/main/kotlin/com/cobblebattlerewards/CobbleBattleRewards.kt:551-556 | the registry becomes its sweep at `now` and stays valid |
| Registry.FleePassGrants | src/main/kotlin/com/cobblebattlerewards/CobbleBattleRewards.kt:225-235 | the flight forEach grants exactly the flee pass over the player actors |
| Registry.WinnersPassGrants | src/main/kotlin/com/cobblebattlerewards/CobbleBattleRewards.kt:407-421 | the winners' forEach grants exactly the winners' pass; the opponent becomes the first non-winner's creature once a grant was made |
| Registry.LosersPassGrants | src/main/kotlin/com/cobblebattlerewards/CobbleBattleRewards.kt:423-444 | the second forEach grants exactly the other players' pass; the opponent becomes the first winner's creature once a grant was made |

`BattleRegistry.Valid()` is kept by every method. It says that no tracked battle is typed ROAM and that a captured battle is also resolved.

## Left out

- Event wiring (`onInitialize`, `setupEventHandlers`, the scheduler) is left out. The handler bodies are the methods of `BattleRegistry`.
- Concurrency is left out. The `ConcurrentHashMap`s, synchronized lists and the background sweep thread become plain maps updated by sequential methods.
- `toPropertyMap` and `createDynamicProperties` work by reflection and are not modelled. Each creature carries its property snapshot as a given `map<string, string>`.
- The item and command effects are not modelled: `deserializeItemStack`, inventory insert and drop, command dispatch and chat messages. Their outcome (inserted or not, threw or not) is the `HostOutcome` input.
- `applyPlaceholders` and the cooldown message text are left out. They affect only what players read.
- Dispatch.KeyOf: the reward key is the (type, message) pair, not `"${type}_${message.hashCode()}"`. Two rewards whose messages collide under `hashCode` share a cooldown in the mod but not in the model.
- Text.Lower: lower-casing and ignoring case cover the ASCII letters only. Locale rules and other Unicode case mappings are not modelled.
- Dispatch.AttemptGrant: the engine's own `Reward` declaration is not part of this model, so the width of `cooldown` is not known (the older configuration schema declares it `Long`). Arithmetic on it is unbounded.
- Weighted.RandomItem: weights are unbounded integers. The Kotlin `Int` wrap-around of `sumOf` and of `weight += item.weight` on very large weights is not modelled.
- BattleState fields that nothing reads are left out: `playerWon`, `winningPlayers` and `forfeitingActors`. `playerProperties` and `opponentProperties` are the snapshots carried by the creatures.
- `BattleState` is a value stored in the map. A Kotlin handler mutates the shared object. Here the handler writes a new value, so the aliasing of that object is not modelled. The terminal handlers (victory, flight) take the battle's actors as they are when the event arrives, as the parameter `current`; it holds the same participants as the stored list, whose creatures' health and owners may have changed.
- Registry.BattleRegistry.PokemonCaptured and Registry.BattleRegistry.FindBattleByPokemon read the actor list stored at the start of the battle. Changes to those actors' teams during the battle are not seen by them.
- A player actor is identified by its `type` being PLAYER. The mod sometimes tests the actor's class (`PlayerBattleActor`) instead; the model treats the two as the same.
- Registry.BattleRegistry.FindBattleByPokemon returns some matching battle. The model does not fix which one, because the mod's map iteration order is unspecified.
- Dispatch.CooldownTracker.DetermineAndProcessReward uses one `now` for the whole pass. The mod reads the clock once per reward.
- The BATTLE_FAINTED handler only logs and is not modelled.
- `utils/BattleRewardsConfig.kt` (config loading and defaults) is not part of this model. Nor is `utils/BattleRewardsCommands.kt` (admin commands). The reward record follows the fields the engine reads.
