/**
 * The reward dispatcher with its per-player cooldown table (`processReward`,
 * `giveItem`, `executeCommand`, `determineAndProcessReward`). What the game
 * does with an item or a command is not modelled; whether it worked comes in
 * as a `HostOutcome`.
 */
module Dispatch {
  import opened Options
  import opened Text
  import opened Battle
  import opened Rules
  import opened Selection
  import opened Weighted

  /** Stands for the key `"${type}_${message.hashCode()}"`. */
  datatype RewardKey = RewardKey(rewardType: string, message: string)

  function KeyOf(r: Reward): RewardKey {
    RewardKey(r.rewardType, r.message)
  }

  /**
   * What the collaborators did during one attempt: the value `(1..total).random()`
   * drew, whether the inventory accepted the stack, and whether any call threw.
   */
  datatype HostOutcome = HostOutcome(itemDraw: int, inserted: bool, threw: bool)

  /** Player identity to reward key to the epoch millisecond of the last grant. */
  type CooldownTable = map<Uuid, map<RewardKey, int>>

  /** `cd[rewardId] ?: 0L`. */
  function LastGranted(table: CooldownTable, player: Uuid, key: RewardKey): int {
    if player in table && key in table[player] then table[player][key] else 0
  }

  /** `now - last < cooldown * 1000`: the reward is still cooling down. */
  predicate OnCooldown(last: int, now: int, cooldownSeconds: int) {
    now - last < cooldownSeconds * 1000
  }

  /**
   * `giveItem`: fails without payload variants or when a call throws;
   * otherwise succeeds when the stack went into the inventory or the
   * configured behaviour for a full inventory is "drop". The payload is the
   * weighted choice for the host's draw.
   */
  method GiveItem(reward: Reward, inventoryFullBehavior: string, host: HostOutcome)
    returns (ok: bool, payload: string)
    ensures reward.itemStack == [] ==> !ok && payload == ""
    ensures host.threw ==> !ok
    ensures ok <==> reward.itemStack != [] && !host.threw && (host.inserted || inventoryFullBehavior == "drop")
    ensures reward.itemStack != [] ==> payload == WeightedChoice(reward.itemStack, host.itemDraw)
  {
    if reward.itemStack == [] {
      return false, "";
    }
    payload := RandomItem(reward.itemStack, host.itemDraw);
    if host.threw {
      return false, payload;
    }
    ok := host.inserted || inventoryFullBehavior == "drop";
  }

  /** `executeCommand`: a blank command fails, and so does a dispatch that throws. */
  function ExecuteCommand(reward: Reward, host: HostOutcome): (ok: bool)
    ensures IsBlank(reward.command) ==> !ok
    ensures ok <==> !IsBlank(reward.command) && !host.threw
  {
    if IsBlank(reward.command) then false else !host.threw
  }

  /**
   * The effect of a reward by its lower-cased type: an item, a command, or a
   * failure for any other type.
   */
  function EffectSucceeds(reward: Reward, inventoryFullBehavior: string, host: HostOutcome): (ok: bool)
    ensures ok ==> Lower(reward.rewardType) in {"item", "command"} && !host.threw
    ensures Lower(reward.rewardType) == "item" ==>
      (ok <==> reward.itemStack != [] && (host.inserted || inventoryFullBehavior == "drop") && !host.threw)
    ensures Lower(reward.rewardType) == "command" ==> (ok <==> !IsBlank(reward.command) && !host.threw)
  {
    var kind := Lower(reward.rewardType);
    if kind == "item" then reward.itemStack != [] && !host.threw && (host.inserted || inventoryFullBehavior == "drop")
    else if kind == "command" then ExecuteCommand(reward, host)
    else false
  }

  datatype Attempt = Attempt(table: CooldownTable, granted: bool)

  /**
   * One `processReward` call on the cooldown table. The player's inner map is
   * created if missing (`getOrPut`); a reward still cooling down or whose
   * effect fails leaves every timestamp as it was; a granted reward's
   * timestamp becomes `now` and nothing else changes.
   */
  function AttemptGrant(table: CooldownTable, player: Uuid, reward: Reward, now: int,
                        inventoryFullBehavior: string, host: HostOutcome): (a: Attempt)
    ensures a.table.Keys == table.Keys + {player}
    ensures a.granted <==> !OnCooldown(LastGranted(table, player, KeyOf(reward)), now, reward.cooldown)
                           && EffectSucceeds(reward, inventoryFullBehavior, host)
    ensures OnCooldown(LastGranted(table, player, KeyOf(reward)), now, reward.cooldown) ==> !a.granted
    ensures a.granted ==> LastGranted(a.table, player, KeyOf(reward)) == now
    ensures forall p, k :: p != player || k != KeyOf(reward) ==> LastGranted(a.table, p, k) == LastGranted(table, p, k)
    ensures !a.granted ==> forall p, k :: LastGranted(a.table, p, k) == LastGranted(table, p, k)
  {
    var key := KeyOf(reward);
    var cd := if player in table then table[player] else map[];
    var created := table[player := cd];
    var last := if key in cd then cd[key] else 0;
    if OnCooldown(last, now, reward.cooldown) then Attempt(created, false)
    else if EffectSucceeds(reward, inventoryFullBehavior, host) then Attempt(table[player := cd[key := now]], true)
    else Attempt(created, false)
  }

  /**
   * Two attempts at the same reward by the same player less than its cooldown
   * apart: if the first is granted, the second fails and does not reset the
   * timestamp, whatever the collaborators do the second time.
   */
  lemma SecondAttemptWithinCooldownFails(table: CooldownTable, player: Uuid, reward: Reward,
                                         t1: int, t2: int, behavior: string, h1: HostOutcome, h2: HostOutcome)
    requires AttemptGrant(table, player, reward, t1, behavior, h1).granted
    requires t1 <= t2 < t1 + reward.cooldown * 1000
    ensures !AttemptGrant(AttemptGrant(table, player, reward, t1, behavior, h1).table, player, reward, t2, behavior, h2).granted
    ensures LastGranted(AttemptGrant(AttemptGrant(table, player, reward, t1, behavior, h1).table, player, reward, t2, behavior, h2).table,
                        player, KeyOf(reward)) == t1
  {
  }

  /** The attempts of one resolution pass, in order, each seeing the table the previous one left. */
  function AttemptAll(table: CooldownTable, player: Uuid, rewards: seq<Reward>, now: int,
                      inventoryFullBehavior: string, hosts: nat -> HostOutcome): (a: (CooldownTable, seq<bool>))
    ensures |a.1| == |rewards|
    ensures rewards != [] ==> a.0.Keys == table.Keys + {player}
    ensures forall p, k :: p != player ==> LastGranted(a.0, p, k) == LastGranted(table, p, k)
    ensures forall k :: (forall i :: 0 <= i < |rewards| ==> KeyOf(rewards[i]) != k)
                        ==> LastGranted(a.0, player, k) == LastGranted(table, player, k)
  {
    if rewards == [] then (table, [])
    else
      var n := |rewards| - 1;
      var prev := AttemptAll(table, player, rewards[..n], now, inventoryFullBehavior, hosts);
      var a := AttemptGrant(prev.0, player, rewards[n], now, inventoryFullBehavior, hosts(n));
      (a.table, prev.1 + [a.granted])
  }

  /** Attempting one more reward extends the pass by that attempt. */
  lemma AttemptAllStep(table: CooldownTable, player: Uuid, rewards: seq<Reward>, i: nat, now: int,
                       inventoryFullBehavior: string, hosts: nat -> HostOutcome)
    requires i < |rewards|
    ensures var prev := AttemptAll(table, player, rewards[..i], now, inventoryFullBehavior, hosts);
            var a := AttemptGrant(prev.0, player, rewards[i], now, inventoryFullBehavior, hosts(i));
            AttemptAll(table, player, rewards[..i + 1], now, inventoryFullBehavior, hosts) == (a.table, prev.1 + [a.granted])
  {
    assert rewards[..i + 1][..i] == rewards[..i];
  }

  class CooldownTracker {
    var cooldowns: CooldownTable

    constructor()
      ensures cooldowns == map[]
    {
      cooldowns := map[];
    }

    /** `processReward`: the cooldown gate, the effect, and the timestamp written only on success. */
    method ProcessReward(player: Player, reward: Reward, now: int, inventoryFullBehavior: string, host: HostOutcome)
      returns (ok: bool)
      modifies this
      ensures Attempt(cooldowns, ok) == AttemptGrant(old(cooldowns), player.uuid, reward, now, inventoryFullBehavior, host)
    {
      var key := KeyOf(reward);
      var cd := if player.uuid in cooldowns then cooldowns[player.uuid] else map[];
      cooldowns := cooldowns[player.uuid := cd];
      var last := if key in cd then cd[key] else 0;
      if now - last < reward.cooldown * 1000 {
        return false;
      }
      var kind := Lower(reward.rewardType);
      var success := false;
      if kind == "item" {
        var payload;
        success, payload := GiveItem(reward, inventoryFullBehavior, host);
      } else if kind == "command" {
        success := ExecuteCommand(reward, host);
      }
      if success {
        cooldowns := cooldowns[player.uuid := cd[key := now]];
      }
      ok := success;
    }

    /**
     * `determineAndProcessReward`: selects the eligible rewards for the
     * trigger (opponent level defaulting to 1) and attempts each in order;
     * `hosts(i)` is what the collaborators did for the i-th of them.
     */
    method DetermineAndProcessReward(cfg: RewardConfig, player: Player, opponent: Option<Pokemon>,
                                     battleType: BattleType, trigger: string,
                                     roll: nat -> real, hosts: nat -> HostOutcome, now: int)
      returns (outcomes: seq<bool>)
      modifies this
      ensures var rewards := EligibleRewards(cfg, trigger, player, battleType, opponent,
                                             if opponent.Some? then opponent.value.level else 1, roll);
              (cooldowns, outcomes) == AttemptAll(old(cooldowns), player.uuid, rewards, now, cfg.inventoryFullBehavior, hosts)
    {
      var level := if opponent.Some? then opponent.value.level else 1;
      var rewards := EligibleRewards(cfg, trigger, player, battleType, opponent, level, roll);
      outcomes := [];
      var i := 0;
      while i < |rewards|
        invariant 0 <= i <= |rewards|
        invariant (cooldowns, outcomes) == AttemptAll(old(cooldowns), player.uuid, rewards[..i], now, cfg.inventoryFullBehavior, hosts)
      {
        AttemptAllStep(old(cooldowns), player.uuid, rewards, i, now, cfg.inventoryFullBehavior, hosts);
        var ok := ProcessReward(player, rewards[i], now, cfg.inventoryFullBehavior, hosts(i));
        outcomes := outcomes + [ok];
        i := i + 1;
      }
      assert rewards[..|rewards|] == rewards;
    }
  }
}
