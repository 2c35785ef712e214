/**
 * The reward rule record and the rule set, with exactly the fields the engine
 * in CobbleBattleRewards.kt reads, and the four trigger names.
 */
module Rules {
  import opened Options

  const BATTLE_WON: string := "BattleWon"
  const BATTLE_LOST: string := "BattleLost"
  const BATTLE_FORFEIT: string := "BattleForfeit"
  const CAPTURED: string := "Captured"

  /** One payload variant of an item reward and its relative weight. */
  datatype WeightedItem = WeightedItem(value: string, weight: int)

  /** An element of a grouped condition: a string, or anything else the JSON held. */
  datatype ConditionElement = TextElement(text: string) | OtherElement

  /**
   * One entry of a reward's `conditions` list: a single expression, a list of
   * elements that must all match, or a value of any other JSON shape.
   */
  datatype ConditionEntry = TextCondition(text: string) | AllOf(elements: seq<ConditionElement>) | OtherEntry

  datatype Reward = Reward(
    rewardType: string,             // "item" or "command", compared lower-cased
    message: string,
    command: string,
    itemStack: seq<WeightedItem>,
    chance: real,                   // percentage in [0, 100]
    cooldown: int,                  // seconds
    cooldownMessage: string,
    battleTypes: seq<string>,       // lower-cased battle type names
    conditions: seq<ConditionEntry>,
    conditionsBlacklist: bool,
    minLevel: int,
    maxLevel: int,
    order: int,                     // lower is preferred
    allowedDimensions: Option<seq<string>>)

  /**
   * The loaded configuration: the four per-trigger reward maps, each given by
   * its values in the map's iteration order, and the full-inventory policy.
   */
  datatype RewardConfig = RewardConfig(
    battleWonRewards: seq<Reward>,
    battleLostRewards: seq<Reward>,
    battleForfeitRewards: seq<Reward>,
    captureRewards: seq<Reward>,
    inventoryFullBehavior: string)
}
