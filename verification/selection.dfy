/**
 * Reward selection (`getEligibleRewards`): the rule table of the trigger,
 * filtered by dimension, battle type, conditions and level; only the rules at
 * the lowest `order` survive, and each of them is kept when its own chance
 * roll succeeds. The i-th call of `Random.nextDouble(100.0)` is `roll(i)`.
 */
module Selection {
  import opened Options
  import opened Battle
  import opened Rules
  import opened Conditions
  import opened Subsequences

  /** The rule table of a trigger; an unknown trigger has none. */
  function RulesFor(cfg: RewardConfig, trigger: string): (rules: seq<Reward>)
    ensures trigger == BATTLE_WON ==> rules == cfg.battleWonRewards
    ensures trigger == BATTLE_LOST ==> rules == cfg.battleLostRewards
    ensures trigger == BATTLE_FORFEIT ==> rules == cfg.battleForfeitRewards
    ensures trigger == CAPTURED ==> rules == cfg.captureRewards
    ensures trigger !in {BATTLE_WON, BATTLE_LOST, BATTLE_FORFEIT, CAPTURED} ==> rules == []
  {
    if trigger == BATTLE_WON then cfg.battleWonRewards
    else if trigger == BATTLE_LOST then cfg.battleLostRewards
    else if trigger == BATTLE_FORFEIT then cfg.battleForfeitRewards
    else if trigger == CAPTURED then cfg.captureRewards
    else []
  }

  /** No dimension list, or an empty one, allows every dimension. */
  predicate DimensionAllowed(r: Reward, dimension: string) {
    r.allowedDimensions.None? || r.allowedDimensions.value == [] || dimension in r.allowedDimensions.value
  }

  /** The four filters a rule must pass before its order and chance are considered. */
  predicate PassesFilters(r: Reward, player: Player, t: BattleType, opponent: Option<Pokemon>, level: int) {
    && DimensionAllowed(r, player.dimension)
    && BattleTypeName(t) in r.battleTypes
    && RewardApplies(r, opponent)
    && r.minLevel <= level <= r.maxLevel
  }

  /** The positions of the rules that pass the filters, in increasing order. */
  function PassingIndices(rules: seq<Reward>, player: Player, t: BattleType, opponent: Option<Pokemon>, level: int): (idx: seq<int>)
    ensures forall k :: 0 <= k < |idx| ==> 0 <= idx[k] < |rules|
    ensures forall k, l :: 0 <= k < l < |idx| ==> idx[k] < idx[l]
    ensures forall i :: 0 <= i < |rules| ==> (i in idx <==> PassesFilters(rules[i], player, t, opponent, level))
  {
    if rules == [] then []
    else
      var tail := PassingIndices(rules[1..], player, t, opponent, level);
      ShiftIndices(tail, |rules| - 1);
      assert forall i :: 1 <= i < |rules| ==> rules[i] == rules[1..][i - 1];
      if PassesFilters(rules[0], player, t, opponent, level) then [0] + Shift(tail) else Shift(tail)
  }

  /**
   * The rules that pass the filters: `rules` read at exactly the passing
   * positions, in table order, a rule listed twice kept twice.
   */
  function Matching(rules: seq<Reward>, player: Player, t: BattleType, opponent: Option<Pokemon>, level: int): (m: seq<Reward>)
    ensures |m| <= |rules|
    ensures forall r :: r in m <==> r in rules && PassesFilters(r, player, t, opponent, level)
    ensures SubsequenceOf(m, rules)
    ensures Embeds(m, rules, PassingIndices(rules, player, t, opponent, level))
  {
    if rules == [] then
      assert Embeds([], rules, []);
      []
    else
      var rest := Matching(rules[1..], player, t, opponent, level);
      assert forall r :: r in rules <==> r == rules[0] || r in rules[1..];
      EmbedsCons(rest, rules, PassingIndices(rules[1..], player, t, opponent, level));
      if PassesFilters(rules[0], player, t, opponent, level) then [rules[0]] + rest else rest
  }

  /** `minOfOrNull { it.order }` on a non-empty list. */
  function MinOrder(rs: seq<Reward>): (o: int)
    requires rs != []
    ensures exists i :: 0 <= i < |rs| && rs[i].order == o
    ensures forall i :: 0 <= i < |rs| ==> o <= rs[i].order
  {
    if |rs| == 1 then rs[0].order
    else
      var m := MinOrder(rs[1..]);
      assert forall i :: 1 <= i < |rs| ==> rs[i] == rs[1..][i - 1];
      if rs[0].order <= m then rs[0].order else m
  }

  /** The positions of the rules of order `o`, in increasing order. */
  function OrderIndices(rs: seq<Reward>, o: int): (idx: seq<int>)
    ensures forall k :: 0 <= k < |idx| ==> 0 <= idx[k] < |rs|
    ensures forall k, l :: 0 <= k < l < |idx| ==> idx[k] < idx[l]
    ensures forall i :: 0 <= i < |rs| ==> (i in idx <==> rs[i].order == o)
  {
    if rs == [] then []
    else
      var tail := OrderIndices(rs[1..], o);
      ShiftIndices(tail, |rs| - 1);
      assert forall i :: 1 <= i < |rs| ==> rs[i] == rs[1..][i - 1];
      if rs[0].order == o then [0] + Shift(tail) else Shift(tail)
  }

  /** The rules of exactly order `o`: `rs` read at exactly those positions, in order, repeats kept. */
  function AtOrder(rs: seq<Reward>, o: int): (top: seq<Reward>)
    ensures forall r :: r in top <==> r in rs && r.order == o
    ensures SubsequenceOf(top, rs)
    ensures Embeds(top, rs, OrderIndices(rs, o))
  {
    if rs == [] then
      assert Embeds([], rs, []);
      []
    else
      var rest := AtOrder(rs[1..], o);
      assert forall r :: r in rs <==> r == rs[0] || r in rs[1..];
      EmbedsCons(rest, rs, OrderIndices(rs[1..], o));
      if rs[0].order == o then [rs[0]] + rest else rest
  }

  /** The lowest tier of the matching rules: the rules whose chance is rolled. */
  function TopTier(cfg: RewardConfig, trigger: string, player: Player, t: BattleType, opponent: Option<Pokemon>, level: int): seq<Reward> {
    var m := Matching(RulesFor(cfg, trigger), player, t, opponent, level);
    if m == [] then [] else AtOrder(m, MinOrder(m))
  }

  /** The positions of `rs` whose draw `roll(from + i)` is below their chance, in increasing order. */
  function RolledIndices(rs: seq<Reward>, roll: nat -> real, from: nat): (idx: seq<int>)
    ensures forall k :: 0 <= k < |idx| ==> 0 <= idx[k] < |rs|
    ensures forall k, l :: 0 <= k < l < |idx| ==> idx[k] < idx[l]
    ensures forall i :: 0 <= i < |rs| ==> (i in idx <==> roll(from + i) < rs[i].chance)
  {
    if rs == [] then []
    else
      var tail := RolledIndices(rs[1..], roll, from + 1);
      ShiftIndices(tail, |rs| - 1);
      assert forall i :: 1 <= i < |rs| ==> rs[i] == rs[1..][i - 1] && from + i == (from + 1) + (i - 1);
      if roll(from) < rs[0].chance then [0] + Shift(tail) else Shift(tail)
  }

  /**
   * Keeps `rs[i]` exactly when the draw `roll(from + i)` is below its chance:
   * `rs` read at `RolledIndices`, in order, each kept rule as often as it occurs.
   */
  function Rolled(rs: seq<Reward>, roll: nat -> real, from: nat): (kept: seq<Reward>)
    ensures forall r :: r in kept ==> exists i :: 0 <= i < |rs| && rs[i] == r && roll(from + i) < r.chance
    ensures forall i :: 0 <= i < |rs| && roll(from + i) < rs[i].chance ==> rs[i] in kept
    ensures Embeds(kept, rs, RolledIndices(rs, roll, from))
  {
    if rs == [] then
      assert Embeds([], rs, []);
      []
    else
      var rest := Rolled(rs[1..], roll, from + 1);
      EmbedsCons(rest, rs, RolledIndices(rs[1..], roll, from + 1));
      var kept := if roll(from) < rs[0].chance then [rs[0]] + rest else rest;
      RolledMembership(kept, rs, roll, from);
      kept
  }

  /** Reading `rs` at `RolledIndices` keeps exactly the rules that won their draw. */
  lemma RolledMembership(kept: seq<Reward>, rs: seq<Reward>, roll: nat -> real, from: nat)
    requires Embeds(kept, rs, RolledIndices(rs, roll, from))
    ensures forall r :: r in kept ==> exists i :: 0 <= i < |rs| && rs[i] == r && roll(from + i) < r.chance
    ensures forall i :: 0 <= i < |rs| && roll(from + i) < rs[i].chance ==> rs[i] in kept
  {
    var idx := RolledIndices(rs, roll, from);
    forall r | r in kept
      ensures exists i :: 0 <= i < |rs| && rs[i] == r && roll(from + i) < r.chance
    {
      var k :| 0 <= k < |kept| && kept[k] == r;
      assert idx[k] in idx;
    }
    forall i | 0 <= i < |rs| && roll(from + i) < rs[i].chance
      ensures rs[i] in kept
    {
      var k :| 0 <= k < |idx| && idx[k] == i;
      assert kept[k] == rs[i];
    }
  }

  /** The rules at the lowest order of `m` are a subsequence of `m`, and none of `m` has a lower order. */
  lemma LowestTier(m: seq<Reward>)
    requires m != []
    ensures SubsequenceOf(AtOrder(m, MinOrder(m)), m)
    ensures forall r, c :: r in AtOrder(m, MinOrder(m)) && c in m ==> r.order <= c.order
  {
    var o := MinOrder(m);
    forall r, c | r in AtOrder(m, o) && c in m ensures r.order <= c.order {
      var i :| 0 <= i < |m| && m[i] == c;
    }
  }

  /** The lowest tier comes from the trigger's table in table order, passes the filters and has the lowest order. */
  lemma TopTierSound(cfg: RewardConfig, trigger: string, player: Player, t: BattleType,
                     opponent: Option<Pokemon>, level: int)
    ensures RulesFor(cfg, trigger) == [] ==> TopTier(cfg, trigger, player, t, opponent, level) == []
    ensures SubsequenceOf(TopTier(cfg, trigger, player, t, opponent, level), RulesFor(cfg, trigger))
    ensures forall r :: r in TopTier(cfg, trigger, player, t, opponent, level) ==>
              r in RulesFor(cfg, trigger) && PassesFilters(r, player, t, opponent, level)
    ensures forall r, c :: r in TopTier(cfg, trigger, player, t, opponent, level) && c in RulesFor(cfg, trigger)
                           && PassesFilters(c, player, t, opponent, level)
                           ==> r.order <= c.order
  {
    var rules := RulesFor(cfg, trigger);
    var m := Matching(rules, player, t, opponent, level);
    if m == [] {
      assert Embeds([], rules, []);
    } else {
      LowestTier(m);
      SubsequenceTrans(AtOrder(m, MinOrder(m)), m, rules);
    }
  }

  /** A rule that passes the filters, and no rule of the table that passes them has a lower order. */
  predicate InLowestTier(r: Reward, rules: seq<Reward>, player: Player, t: BattleType, opponent: Option<Pokemon>, level: int) {
    && PassesFilters(r, player, t, opponent, level)
    && forall c :: c in rules && PassesFilters(c, player, t, opponent, level) ==> r.order <= c.order
  }

  /** The positions of the trigger's table the lowest tier is read from. */
  function TierIndices(cfg: RewardConfig, trigger: string, player: Player, t: BattleType,
                       opponent: Option<Pokemon>, level: int): (idx: seq<int>)
    ensures |idx| == |TopTier(cfg, trigger, player, t, opponent, level)|
  {
    var rules := RulesFor(cfg, trigger);
    var m := Matching(rules, player, t, opponent, level);
    if m == [] then []
    else Compose(PassingIndices(rules, player, t, opponent, level), OrderIndices(m, MinOrder(m)))
  }

  /**
   * The lowest tier is the trigger's table read at exactly the positions of
   * the rules that pass the filters with the lowest order, in table order,
   * a rule listed twice kept twice.
   */
  lemma TierPositions(cfg: RewardConfig, trigger: string, player: Player, t: BattleType,
                      opponent: Option<Pokemon>, level: int)
    ensures Embeds(TopTier(cfg, trigger, player, t, opponent, level), RulesFor(cfg, trigger),
                   TierIndices(cfg, trigger, player, t, opponent, level))
    ensures forall i :: 0 <= i < |RulesFor(cfg, trigger)| ==>
              (i in TierIndices(cfg, trigger, player, t, opponent, level)
               <==> InLowestTier(RulesFor(cfg, trigger)[i], RulesFor(cfg, trigger), player, t, opponent, level))
  {
    var rules := RulesFor(cfg, trigger);
    var m := Matching(rules, player, t, opponent, level);
    if m == [] {
      assert Embeds([], rules, []);
      forall i | 0 <= i < |rules|
        ensures !PassesFilters(rules[i], player, t, opponent, level)
      {
        assert rules[i] in rules;
      }
    } else {
      var o := MinOrder(m);
      EmbedsTrans(AtOrder(m, o), m, rules, OrderIndices(m, o), PassingIndices(rules, player, t, opponent, level));
      TierSettingHolds(rules, player, t, opponent, level);
      TierMembership(rules, m, PassingIndices(rules, player, t, opponent, level), OrderIndices(m, o), o, player, t, opponent, level);
    }
  }

  /** Over one table, the matching rules, their passing positions and the positions of their least order. */
  lemma TierSettingHolds(rules: seq<Reward>, player: Player, t: BattleType, opponent: Option<Pokemon>, level: int)
    requires Matching(rules, player, t, opponent, level) != []
    ensures TierSetting(rules, Matching(rules, player, t, opponent, level), PassingIndices(rules, player, t, opponent, level),
                        OrderIndices(Matching(rules, player, t, opponent, level), MinOrder(Matching(rules, player, t, opponent, level))),
                        MinOrder(Matching(rules, player, t, opponent, level)), player, t, opponent, level)
  {
    var m := Matching(rules, player, t, opponent, level);
    var pi := PassingIndices(rules, player, t, opponent, level);
    var o := MinOrder(m);
    var oi := OrderIndices(m, o);
    assert Embeds(m, rules, pi);
    assert forall k :: 0 <= k < |oi| ==> 0 <= oi[k] < |m|;
    assert forall q :: 0 <= q < |m| ==> (q in oi <==> m[q].order == o);
    assert exists j :: 0 <= j < |m| && m[j].order == o;
  }

  /** A position is read through both `pi` and `oi` exactly when its rule passes with the lowest order. */
  lemma TierMembership(rules: seq<Reward>, m: seq<Reward>, pi: seq<int>, oi: seq<int>, o: int,
                       player: Player, t: BattleType, opponent: Option<Pokemon>, level: int)
    requires TierSetting(rules, m, pi, oi, o, player, t, opponent, level)
    ensures forall i :: 0 <= i < |rules| ==> (i in Compose(pi, oi) <==> InLowestTier(rules[i], rules, player, t, opponent, level))
  {
    forall i | 0 <= i < |rules|
      ensures i in Compose(pi, oi) <==> InLowestTier(rules[i], rules, player, t, opponent, level)
    {
      if i in Compose(pi, oi) {
        TierMemberLowest(rules, m, pi, oi, o, player, t, opponent, level, i);
      }
      if InLowestTier(rules[i], rules, player, t, opponent, level) {
        LowestTierMember(rules, m, pi, oi, o, player, t, opponent, level, i);
      }
    }
  }

  /**
   * The matching rules `m` are `rules` read at the passing positions `pi`, and
   * `oi` are the positions of `m` at its least order `o`.
   */
  ghost predicate TierSetting(rules: seq<Reward>, m: seq<Reward>, pi: seq<int>, oi: seq<int>, o: int,
                              player: Player, t: BattleType, opponent: Option<Pokemon>, level: int) {
    && Embeds(m, rules, pi)
    && (forall p :: 0 <= p < |rules| ==> (p in pi <==> PassesFilters(rules[p], player, t, opponent, level)))
    && (forall r :: r in m <==> r in rules && PassesFilters(r, player, t, opponent, level))
    && (forall k :: 0 <= k < |oi| ==> 0 <= oi[k] < |m|)
    && (forall q :: 0 <= q < |m| ==> (q in oi <==> m[q].order == o))
    && (exists j :: 0 <= j < |m| && m[j].order == o)
    && (forall j :: 0 <= j < |m| ==> o <= m[j].order)
  }

  /** A position read through both `pi` and `oi` holds a rule that passes with the lowest order. */
  lemma TierMemberLowest(rules: seq<Reward>, m: seq<Reward>, pi: seq<int>, oi: seq<int>, o: int,
                         player: Player, t: BattleType, opponent: Option<Pokemon>, level: int, i: int)
    requires TierSetting(rules, m, pi, oi, o, player, t, opponent, level) && 0 <= i < |rules|
    requires i in Compose(pi, oi)
    ensures InLowestTier(rules[i], rules, player, t, opponent, level)
  {
    var ti := Compose(pi, oi);
    var k :| 0 <= k < |ti| && ti[k] == i;
    var q := oi[k];
    assert q in oi && m[q] == rules[i];
    assert m[q] in m;
    forall c | c in rules && PassesFilters(c, player, t, opponent, level)
      ensures rules[i].order <= c.order
    {
      var p :| 0 <= p < |m| && m[p] == c;
    }
  }

  /** A position whose rule passes with the lowest order is read through both `pi` and `oi`. */
  lemma LowestTierMember(rules: seq<Reward>, m: seq<Reward>, pi: seq<int>, oi: seq<int>, o: int,
                         player: Player, t: BattleType, opponent: Option<Pokemon>, level: int, i: int)
    requires TierSetting(rules, m, pi, oi, o, player, t, opponent, level) && 0 <= i < |rules|
    requires InLowestTier(rules[i], rules, player, t, opponent, level)
    ensures i in Compose(pi, oi)
  {
    assert i in pi;
    var q :| 0 <= q < |pi| && pi[q] == i;
    assert m[q] == rules[i];
    var j :| 0 <= j < |m| && m[j].order == o;
    assert m[j] in m;
    assert m[q].order == o;
    var k :| 0 <= k < |oi| && oi[k] == q;
    assert Compose(pi, oi)[k] == i;
  }

  /** What survives the rolls is a subsequence of anything the tier is a subsequence of. */
  lemma RolledSubsequence(top: seq<Reward>, rules: seq<Reward>, roll: nat -> real)
    requires SubsequenceOf(top, rules)
    ensures SubsequenceOf(Rolled(top, roll, 0), rules)
    ensures forall r :: r in Rolled(top, roll, 0) ==> r in top
  {
    SubsequenceTrans(Rolled(top, roll, 0), top, rules);
  }

  /**
   * `getEligibleRewards`. Every reward returned comes from the trigger's table,
   * passes the filters, has the lowest order among the rules that pass, and won
   * its roll; every lowest-order rule that wins its roll is returned. The
   * result keeps table order and repeats: it is the lowest tier read at the
   * positions whose roll succeeded, and a subsequence of the table.
   */
  function EligibleRewards(cfg: RewardConfig, trigger: string, player: Player, t: BattleType,
                           opponent: Option<Pokemon>, level: int, roll: nat -> real): (rs: seq<Reward>)
    ensures RulesFor(cfg, trigger) == [] ==> rs == []
    ensures forall r :: r in rs ==> r in RulesFor(cfg, trigger) && PassesFilters(r, player, t, opponent, level)
    ensures forall r, c :: r in rs && c in RulesFor(cfg, trigger) && PassesFilters(c, player, t, opponent, level)
                           ==> r.order <= c.order
    ensures forall r :: r in rs ==> exists i :: 0 <= i < |TopTier(cfg, trigger, player, t, opponent, level)|
                                     && TopTier(cfg, trigger, player, t, opponent, level)[i] == r && roll(i) < r.chance
    ensures forall i :: 0 <= i < |TopTier(cfg, trigger, player, t, opponent, level)|
                        && roll(i) < TopTier(cfg, trigger, player, t, opponent, level)[i].chance
                        ==> TopTier(cfg, trigger, player, t, opponent, level)[i] in rs
    ensures Embeds(rs, TopTier(cfg, trigger, player, t, opponent, level),
                   RolledIndices(TopTier(cfg, trigger, player, t, opponent, level), roll, 0))
    ensures SubsequenceOf(rs, RulesFor(cfg, trigger))
    ensures Embeds(rs, RulesFor(cfg, trigger),
                   Compose(TierIndices(cfg, trigger, player, t, opponent, level),
                           RolledIndices(TopTier(cfg, trigger, player, t, opponent, level), roll, 0)))
  {
    var top := TopTier(cfg, trigger, player, t, opponent, level);
    TopTierSound(cfg, trigger, player, t, opponent, level);
    RolledSubsequence(top, RulesFor(cfg, trigger), roll);
    TierPositions(cfg, trigger, player, t, opponent, level);
    EmbedsTrans(Rolled(top, roll, 0), top, RulesFor(cfg, trigger),
                RolledIndices(top, roll, 0), TierIndices(cfg, trigger, player, t, opponent, level));
    Rolled(top, roll, 0)
  }

  /** Every lowest-tier rule that passes the filters and cannot fail its roll is granted. */
  lemma CertainRewardsAlwaysSelected(cfg: RewardConfig, trigger: string, player: Player, t: BattleType,
                                     opponent: Option<Pokemon>, level: int, roll: nat -> real, r: Reward)
    requires forall i :: 0.0 <= roll(i) < 100.0
    requires r.chance >= 100.0
    requires r in RulesFor(cfg, trigger) && PassesFilters(r, player, t, opponent, level)
    requires forall c :: c in RulesFor(cfg, trigger) && PassesFilters(c, player, t, opponent, level) ==> r.order <= c.order
    ensures r in EligibleRewards(cfg, trigger, player, t, opponent, level, roll)
  {
    var rules := RulesFor(cfg, trigger);
    TierPositions(cfg, trigger, player, t, opponent, level);
    var p :| 0 <= p < |rules| && rules[p] == r;
    var ti := TierIndices(cfg, trigger, player, t, opponent, level);
    assert p in ti;
    var k :| 0 <= k < |ti| && ti[k] == p;
    var top := TopTier(cfg, trigger, player, t, opponent, level);
    assert top[k] == r && roll(k) < r.chance;
  }
}
