/**
 * What the battle lifecycle handlers decide, as values: which players get
 * which trigger on victory, flight and capture, how a battle's tracked
 * creatures and type follow swaps, and which battles the periodic sweep
 * evicts. The registry class applies these to its map.
 */
module Lifecycle {
  import opened Options
  import opened Battle
  import opened Rules
  import opened Subsequences

  /** `BATTLE_TIMEOUT_MS`: thirty minutes. */
  const BATTLE_TIMEOUT_MS: int := 30 * 60 * 1000

  /**
   * One call of `determineAndProcessReward` a handler makes: the receiving
   * player, the actor it stands for, the trigger, the battle type used for
   * selection, and the opponent creature of the state at that moment.
   */
  datatype Grant = Grant(player: Player, actor: Uuid, trigger: string, battleType: BattleType, opponent: Option<Pokemon>)

  /** The positions of the player actors, in increasing order. */
  function PlayerIndices(actors: seq<Actor>): (idx: seq<int>)
    ensures forall k :: 0 <= k < |idx| ==> 0 <= idx[k] < |actors|
    ensures forall k, l :: 0 <= k < l < |idx| ==> idx[k] < idx[l]
    ensures forall i :: 0 <= i < |actors| ==> (i in idx <==> IsPlayer(actors[i]))
  {
    if actors == [] then []
    else
      var tail := PlayerIndices(actors[1..]);
      ShiftIndices(tail, |actors| - 1);
      assert forall i :: 1 <= i < |actors| ==> actors[i] == actors[1..][i - 1];
      if IsPlayer(actors[0]) then [0] + Shift(tail) else Shift(tail)
  }

  /**
   * `actors.filterIsInstance<PlayerBattleActor>()`: the actors read at exactly
   * the player positions, in battle order, each once.
   */
  function PlayerActors(actors: seq<Actor>): (ps: seq<Actor>)
    ensures forall a :: a in ps <==> a in actors && IsPlayer(a)
  {
    if actors == [] then []
    else
      var rest := PlayerActors(actors[1..]);
      assert forall a :: a in actors <==> a == actors[0] || a in actors[1..];
      if IsPlayer(actors[0]) then [actors[0]] + rest else rest
  }

  /** The player actors are the actors read at exactly the player positions: battle order kept, each once. */
  lemma {:induction false} PlayerActorsInOrder(actors: seq<Actor>)
    ensures Embeds(PlayerActors(actors), actors, PlayerIndices(actors))
  {
    if actors == [] {
      assert Embeds([], actors, []);
    } else {
      PlayerActorsInOrder(actors[1..]);
      EmbedsCons(PlayerActors(actors[1..]), actors, PlayerIndices(actors[1..]));
    }
  }

  /** The player behind an actor: the owner of its active creature, when online. */
  function ActorPlayer(a: Actor): (p: Option<Player>)
    ensures a.team == [] ==> p.None?
    ensures a.team != [] ==> p == a.team[0].ownerPlayer
  {
    if a.team == [] then None else a.team[0].ownerPlayer
  }

  /** `team.any { it.currentHealth > 0 }`, scanning from the front. */
  function AnyHealthy(team: seq<Pokemon>): (r: bool)
    ensures r <==> exists k :: 0 <= k < |team| && team[k].currentHealth > 0
  {
    if team == [] then false
    else if team[0].currentHealth > 0 then true
    else
      assert forall k :: 1 <= k < |team| ==> team[1..][k - 1] == team[k];
      AnyHealthy(team[1..])
  }

  /** Some creature of the actor's team still has health. */
  function HasHealthyPokemon(a: Actor): (r: bool)
    ensures r <==> exists k :: 0 <= k < |a.team| && a.team[k].currentHealth > 0
    ensures a.team == [] ==> !r
  {
    AnyHealthy(a.team)
  }

  /** The trigger a victory gives a player actor. */
  function VictoryTrigger(a: Actor, winnerIds: set<Uuid>): string {
    if a.uuid in winnerIds then BATTLE_WON
    else if HasHealthyPokemon(a) then BATTLE_FORFEIT
    else BATTLE_LOST
  }

  /** One forEach pass of a handler over the player actors, and what it decides per actor. */
  datatype Pass =
    | WinnersPass(winnerIds: set<Uuid>)
    | LosersPass(winnerIds: set<Uuid>)
    | FleePass(fleeing: Uuid, pvp: bool)

  function Decide(pass: Pass, a: Actor): Option<string> {
    match pass
    case WinnersPass(w) => if a.uuid in w then Some(BATTLE_WON) else None
    case LosersPass(w) =>
      if a.uuid in w then None else Some(if HasHealthyPokemon(a) then BATTLE_FORFEIT else BATTLE_LOST)
    case FleePass(f, pvp) => if a.uuid == f then Some(BATTLE_FORFEIT) else if pvp then Some(BATTLE_WON) else None
  }

  /** The grant a pass makes for one actor; none when the actor's player cannot be resolved. */
  function GrantOf(a: Actor, pass: Pass, t: BattleType, opponent: Option<Pokemon>): Option<Grant> {
    match (ActorPlayer(a), Decide(pass, a))
    case (Some(p), Some(trigger)) => Some(Grant(p, a.uuid, trigger, t, opponent))
    case _ => None
  }

  /** The pass grants the actor something: its player resolves and the pass gives it a trigger. */
  predicate Resolves(a: Actor, pass: Pass) {
    ActorPlayer(a).Some? && Decide(pass, a).Some?
  }

  /** The positions of `ps` a pass grants, in increasing order. */
  function GrantIndices(ps: seq<Actor>, pass: Pass): (idx: seq<int>)
    ensures forall k :: 0 <= k < |idx| ==> 0 <= idx[k] < |ps|
    ensures forall k, l :: 0 <= k < l < |idx| ==> idx[k] < idx[l]
    ensures forall i :: 0 <= i < |ps| ==> (i in idx <==> Resolves(ps[i], pass))
  {
    if ps == [] then []
    else
      var n := |ps| - 1;
      var prev := GrantIndices(ps[..n], pass);
      assert forall i :: 0 <= i < n ==> ps[..n][i] == ps[i];
      if Resolves(ps[n], pass) then prev + [n] else prev
  }

  /** The grants of one pass over `ps`, in actor order. */
  function GrantsFor(ps: seq<Actor>, pass: Pass, t: BattleType, opponent: Option<Pokemon>): (gs: seq<Grant>)
    ensures |gs| <= |ps|
    ensures forall g :: g in gs ==> exists a :: a in ps && GrantOf(a, pass, t, opponent) == Some(g)
    ensures forall a :: a in ps && GrantOf(a, pass, t, opponent).Some? ==> GrantOf(a, pass, t, opponent).value in gs
  {
    if ps == [] then []
    else
      var n := |ps| - 1;
      var prev := GrantsFor(ps[..n], pass, t, opponent);
      assert forall a :: a in ps <==> a in ps[..n] || a == ps[n];
      match GrantOf(ps[n], pass, t, opponent)
      case Some(g) => prev + [g]
      case None => prev
  }

  /**
   * `gs` are the grants a pass makes over `ps`, in actor order: the k-th is
   * the one it makes for the k-th actor it grants, each such actor once.
   */
  predicate GrantedInOrder(gs: seq<Grant>, ps: seq<Actor>, pass: Pass, t: BattleType, opponent: Option<Pokemon>) {
    && |gs| == |GrantIndices(ps, pass)|
    && forall k :: 0 <= k < |gs| ==> GrantOf(ps[GrantIndices(ps, pass)[k]], pass, t, opponent) == Some(gs[k])
  }

  /** The grants of a pass are made in actor order, each granted actor exactly once. */
  lemma {:induction false} GrantsForInOrder(ps: seq<Actor>, pass: Pass, t: BattleType, opponent: Option<Pokemon>)
    ensures GrantedInOrder(GrantsFor(ps, pass, t, opponent), ps, pass, t, opponent)
  {
    if ps != [] {
      var n := |ps| - 1;
      GrantsForInOrder(ps[..n], pass, t, opponent);
      var prev, pidx := GrantsFor(ps[..n], pass, t, opponent), GrantIndices(ps[..n], pass);
      var gs, idx := GrantsFor(ps, pass, t, opponent), GrantIndices(ps, pass);
      forall k | 0 <= k < |idx|
        ensures GrantOf(ps[idx[k]], pass, t, opponent) == Some(gs[k])
      {
        if k < |pidx| {
          assert idx[k] == pidx[k] && gs[k] == prev[k] && ps[idx[k]] == ps[..n][pidx[k]];
        }
      }
    }
  }

  lemma GrantsForStep(ps: seq<Actor>, i: nat, pass: Pass, t: BattleType, opponent: Option<Pokemon>)
    requires i < |ps|
    ensures GrantsFor(ps[..i + 1], pass, t, opponent) ==
            GrantsFor(ps[..i], pass, t, opponent)
            + (if GrantOf(ps[i], pass, t, opponent).Some? then [GrantOf(ps[i], pass, t, opponent).value] else [])
  {
    assert ps[..i + 1][..i] == ps[..i];
  }

  /** The actor is on the winners' side (`winner`) or on the other side (`!winner`). */
  predicate OnSide(a: Actor, winnerIds: set<Uuid>, winner: bool) {
    (a.uuid in winnerIds) == winner
  }

  /**
   * `playerActors.firstOrNull { ... }?.pokemonList?.firstOrNull()?.effectedPokemon`:
   * the active creature of the first actor on the given side; none when no
   * actor is on that side or that actor's team is empty.
   */
  function FirstLead(ps: seq<Actor>, winnerIds: set<Uuid>, winner: bool): (p: Option<Pokemon>)
    ensures p.Some? ==> exists a :: a in ps && OnSide(a, winnerIds, winner) && LeadPokemon(a) == p
    ensures (forall i :: 0 <= i < |ps| ==> !OnSide(ps[i], winnerIds, winner)) ==> p.None?
    ensures forall i :: 0 <= i < |ps| && OnSide(ps[i], winnerIds, winner)
                        && (forall j :: 0 <= j < i ==> !OnSide(ps[j], winnerIds, winner))
                        ==> p == LeadPokemon(ps[i])
  {
    if ps == [] then None
    else if OnSide(ps[0], winnerIds, winner) then LeadPokemon(ps[0])
    else
      assert forall i :: 1 <= i < |ps| ==> ps[1..][i - 1] == ps[i];
      FirstLead(ps[1..], winnerIds, winner)
  }

  /** `p` if present, else `fallback`: the guarded reassignment of the opponent. */
  function Either(p: Option<Pokemon>, fallback: Option<Pokemon>): Option<Pokemon> {
    if p.Some? then p else fallback
  }

  /** The opponent the winners' grants see: the first non-winner's active creature, if it has one. */
  function WinnersOpponent(st: BattleState, winnerIds: set<Uuid>): Option<Pokemon> {
    Either(FirstLead(PlayerActors(st.actors), winnerIds, false), st.opponentPokemon)
  }

  function WinnerGrants(st: BattleState, winnerIds: set<Uuid>): seq<Grant> {
    GrantsFor(PlayerActors(st.actors), WinnersPass(winnerIds), st.battleType, WinnersOpponent(st, winnerIds))
  }

  /** The opponent the other players' grants see: the first winner's active creature, if it has one. */
  function LosersOpponent(st: BattleState, winnerIds: set<Uuid>): Option<Pokemon> {
    var afterWinners := if WinnerGrants(st, winnerIds) != [] then WinnersOpponent(st, winnerIds) else st.opponentPokemon;
    Either(FirstLead(PlayerActors(st.actors), winnerIds, true), afterWinners)
  }

  function LoserGrants(st: BattleState, winnerIds: set<Uuid>): seq<Grant> {
    GrantsFor(PlayerActors(st.actors), LosersPass(winnerIds), st.battleType, LosersOpponent(st, winnerIds))
  }

  /** What a victory pass grants one actor, when it grants anything. */
  lemma VictoryGrantOf(a: Actor, winnerIds: set<Uuid>, pass: Pass, t: BattleType, opp: Option<Pokemon>, g: Grant)
    requires pass == WinnersPass(winnerIds) || pass == LosersPass(winnerIds)
    requires GrantOf(a, pass, t, opp) == Some(g)
    ensures g.battleType == t && g.opponent == opp
    ensures ActorPlayer(a) == Some(g.player) && g.actor == a.uuid && g.trigger == VictoryTrigger(a, winnerIds)
    ensures g.trigger == BATTLE_WON <==> pass.WinnersPass?
  {
    assert BATTLE_FORFEIT != BATTLE_WON && BATTLE_LOST != BATTLE_WON;
  }

  /** Each victory pass only grants the trigger `VictoryTrigger` assigns, to a player actor of the battle. */
  lemma VictoryPassSound(st: BattleState, winnerIds: set<Uuid>, pass: Pass, opp: Option<Pokemon>)
    requires pass == WinnersPass(winnerIds) || pass == LosersPass(winnerIds)
    ensures forall g :: g in GrantsFor(PlayerActors(st.actors), pass, st.battleType, opp) ==>
              && g.battleType == st.battleType && g.opponent == opp
              && (g.trigger == BATTLE_WON <==> pass.WinnersPass?)
              && exists a :: a in st.actors && IsPlayer(a) && ActorPlayer(a) == Some(g.player)
                             && g.actor == a.uuid && g.trigger == VictoryTrigger(a, winnerIds)
  {
    var ps := PlayerActors(st.actors);
    forall g | g in GrantsFor(ps, pass, st.battleType, opp)
      ensures && g.battleType == st.battleType && g.opponent == opp
              && (g.trigger == BATTLE_WON <==> pass.WinnersPass?)
              && exists a :: a in st.actors && IsPlayer(a) && ActorPlayer(a) == Some(g.player)
                             && g.actor == a.uuid && g.trigger == VictoryTrigger(a, winnerIds)
    {
      var a :| a in ps && GrantOf(a, pass, st.battleType, opp) == Some(g);
      VictoryGrantOf(a, winnerIds, pass, st.battleType, opp, g);
      assert a in st.actors && IsPlayer(a);
    }
  }

  /** Every player actor whose player resolves is granted by one of the two victory passes. */
  lemma VictoryPassesComplete(st: BattleState, winnerIds: set<Uuid>)
    ensures forall a :: a in st.actors && IsPlayer(a) && ActorPlayer(a).Some? ==>
              exists g :: g in WinnerGrants(st, winnerIds) + LoserGrants(st, winnerIds)
                          && g.player == ActorPlayer(a).value && g.actor == a.uuid && g.trigger == VictoryTrigger(a, winnerIds)
  {
    var ps := PlayerActors(st.actors);
    var won: seq<Grant>, rest: seq<Grant> := WinnerGrants(st, winnerIds), LoserGrants(st, winnerIds);
    forall a | a in st.actors && IsPlayer(a) && ActorPlayer(a).Some?
      ensures exists g :: g in won + rest && g.player == ActorPlayer(a).value && g.actor == a.uuid
                          && g.trigger == VictoryTrigger(a, winnerIds)
    {
      assert a in ps;
      if a.uuid in winnerIds {
        var g := GrantOf(a, WinnersPass(winnerIds), st.battleType, WinnersOpponent(st, winnerIds)).value;
        assert g in won;
        assert g in won + rest;
      } else {
        var g := GrantOf(a, LosersPass(winnerIds), st.battleType, LosersOpponent(st, winnerIds)).value;
        assert g in rest;
        assert g in won + rest;
      }
    }
  }

  /**
   * Appending grants none of which is "BattleWon" to grants that all are:
   * every "BattleWon" comes before every other grant and belongs to the first part.
   */
  lemma WonFirst(won: seq<Grant>, rest: seq<Grant>)
    requires forall g :: g in won ==> g.trigger == BATTLE_WON
    requires forall g :: g in rest ==> g.trigger != BATTLE_WON
    ensures forall g :: g in won + rest <==> g in won || g in rest
    ensures forall i, j :: 0 <= i < j < |won + rest| && (won + rest)[j].trigger == BATTLE_WON ==> (won + rest)[i].trigger == BATTLE_WON
  {
    var all := won + rest;
    forall i, j | 0 <= i < j < |all| && all[j].trigger == BATTLE_WON
      ensures all[i].trigger == BATTLE_WON
    {
      assert all[i] == won[i];
    }
  }

  /** Some grant is "BattleWon". */
  predicate GrantsBattleWon(gs: seq<Grant>) {
    exists h :: h in gs && h.trigger == BATTLE_WON
  }

  /**
   * Who the victory grants go to: every grant to a player actor of the battle
   * with the trigger that actor earns, every resolving player actor granted,
   * and every "BattleWon" before every other grant.
   */
  lemma VictoryShape(st: BattleState, winnerIds: set<Uuid>)
    ensures var gs := WinnerGrants(st, winnerIds) + LoserGrants(st, winnerIds);
            && (forall g :: g in gs ==> g.battleType == st.battleType)
            && (forall g :: g in gs ==> exists a :: a in st.actors && IsPlayer(a) && ActorPlayer(a) == Some(g.player)
                                                  && g.actor == a.uuid && g.trigger == VictoryTrigger(a, winnerIds))
            && (forall a :: a in st.actors && IsPlayer(a) && ActorPlayer(a).Some? ==>
                  exists g :: g in gs && g.player == ActorPlayer(a).value && g.actor == a.uuid && g.trigger == VictoryTrigger(a, winnerIds))
            && (forall i, j :: 0 <= i < j < |gs| && gs[j].trigger == BATTLE_WON ==> gs[i].trigger == BATTLE_WON)
  {
    var won: seq<Grant>, rest: seq<Grant> := WinnerGrants(st, winnerIds), LoserGrants(st, winnerIds);
    VictoryPassSound(st, winnerIds, WinnersPass(winnerIds), WinnersOpponent(st, winnerIds));
    VictoryPassSound(st, winnerIds, LosersPass(winnerIds), LosersOpponent(st, winnerIds));
    VictoryPassesComplete(st, winnerIds);
    WonFirst(won, rest);
  }

  /**
   * The opponent each victory grant carries. The winners' pass first makes the
   * first non-winner's creature the opponent, if there is one; the other pass
   * then makes it the first winner's, if there is one, and otherwise sees what
   * the winners' pass left: changed only if that pass granted anything.
   */
  lemma VictoryOpponents(st: BattleState, winnerIds: set<Uuid>)
    ensures var gs := WinnerGrants(st, winnerIds) + LoserGrants(st, winnerIds);
            && (forall g :: g in gs && g.trigger == BATTLE_WON ==>
                  g.opponent == Either(FirstLead(PlayerActors(st.actors), winnerIds, false), st.opponentPokemon))
            && (forall g :: g in gs && g.trigger != BATTLE_WON ==>
                  g.opponent == Either(FirstLead(PlayerActors(st.actors), winnerIds, true),
                                       if GrantsBattleWon(gs)
                                       then Either(FirstLead(PlayerActors(st.actors), winnerIds, false), st.opponentPokemon)
                                       else st.opponentPokemon))
  {
    var won: seq<Grant>, rest: seq<Grant> := WinnerGrants(st, winnerIds), LoserGrants(st, winnerIds);
    VictoryPassSound(st, winnerIds, WinnersPass(winnerIds), WinnersOpponent(st, winnerIds));
    VictoryPassSound(st, winnerIds, LosersPass(winnerIds), LosersOpponent(st, winnerIds));
    assert forall g :: g in won + rest <==> g in won || g in rest;
    assert GrantsBattleWon(won + rest) <==> won != [] by {
      if won != [] {
        assert won[0] in won + rest;
      }
    }
  }

  /**
   * The victory grants are the winners' pass over the player actors in actor
   * order, each granted actor once, followed by the other pass likewise.
   */
  lemma VictoryInOrder(st: BattleState, winnerIds: set<Uuid>)
    ensures var gs := WinnerGrants(st, winnerIds) + LoserGrants(st, winnerIds);
            var n := |GrantIndices(PlayerActors(st.actors), WinnersPass(winnerIds))|;
            && n <= |gs|
            && GrantedInOrder(gs[..n], PlayerActors(st.actors), WinnersPass(winnerIds), st.battleType, WinnersOpponent(st, winnerIds))
            && GrantedInOrder(gs[n..], PlayerActors(st.actors), LosersPass(winnerIds), st.battleType, LosersOpponent(st, winnerIds))
  {
    var ps := PlayerActors(st.actors);
    var won: seq<Grant>, rest: seq<Grant> := WinnerGrants(st, winnerIds), LoserGrants(st, winnerIds);
    GrantsForInOrder(ps, WinnersPass(winnerIds), st.battleType, WinnersOpponent(st, winnerIds));
    GrantsForInOrder(ps, LosersPass(winnerIds), st.battleType, LosersOpponent(st, winnerIds));
    assert (won + rest)[..|won|] == won && (won + rest)[|won|..] == rest;
  }

  /**
   * `finalizeBattleVictory`: every player actor whose player resolves is
   * granted, each grant going to an actor of the battle; winners come first
   * with "BattleWon", then every other actor with "BattleForfeit" if one of
   * its creatures still has health and "BattleLost" otherwise. Before each
   * winner's grant the opponent becomes the first non-winner's active
   * creature, before each other grant the first winner's.
   */
  function VictoryGrants(st: BattleState, winnerIds: set<Uuid>): (gs: seq<Grant>)
    ensures forall g :: g in gs ==> g.battleType == st.battleType
    ensures forall g :: g in gs ==> exists a :: a in st.actors && IsPlayer(a) && ActorPlayer(a) == Some(g.player)
                                               && g.actor == a.uuid && g.trigger == VictoryTrigger(a, winnerIds)
    ensures forall a :: a in st.actors && IsPlayer(a) && ActorPlayer(a).Some? ==>
              exists g :: g in gs && g.player == ActorPlayer(a).value && g.actor == a.uuid && g.trigger == VictoryTrigger(a, winnerIds)
    ensures forall i, j :: 0 <= i < j < |gs| && gs[j].trigger == BATTLE_WON ==> gs[i].trigger == BATTLE_WON
    ensures forall g :: g in gs && g.trigger == BATTLE_WON ==>
              g.opponent == Either(FirstLead(PlayerActors(st.actors), winnerIds, false), st.opponentPokemon)
    ensures forall g :: g in gs && g.trigger != BATTLE_WON ==>
              g.opponent == Either(FirstLead(PlayerActors(st.actors), winnerIds, true),
                                   if GrantsBattleWon(gs)
                                   then Either(FirstLead(PlayerActors(st.actors), winnerIds, false), st.opponentPokemon)
                                   else st.opponentPokemon)
    ensures var n := |GrantIndices(PlayerActors(st.actors), WinnersPass(winnerIds))|;
            && n <= |gs|
            && GrantedInOrder(gs[..n], PlayerActors(st.actors), WinnersPass(winnerIds), st.battleType, WinnersOpponent(st, winnerIds))
            && GrantedInOrder(gs[n..], PlayerActors(st.actors), LosersPass(winnerIds), st.battleType, LosersOpponent(st, winnerIds))
  {
    VictoryShape(st, winnerIds);
    VictoryOpponents(st, winnerIds);
    VictoryInOrder(st, winnerIds);
    WinnerGrants(st, winnerIds) + LoserGrants(st, winnerIds)
  }

  /**
   * With a single player actor (a battle against a wild creature or an NPC),
   * neither pass finds a player on the other side, so every grant carries the
   * opponent the battle already had.
   */
  lemma LonePlayerKeepsOpponent(st: BattleState, winnerIds: set<Uuid>)
    requires forall x, y :: x in st.actors && y in st.actors && IsPlayer(x) && IsPlayer(y) ==> x == y
    ensures forall g :: g in VictoryGrants(st, winnerIds) ==> g.opponent == st.opponentPokemon
  {
    var gs := VictoryGrants(st, winnerIds);
    forall g | g in gs
      ensures g.opponent == st.opponentPokemon
    {
      var a :| a in st.actors && IsPlayer(a) && ActorPlayer(a) == Some(g.player)
               && g.actor == a.uuid && g.trigger == VictoryTrigger(a, winnerIds);
      var other := a.uuid !in winnerIds;
      LoneSide(st, winnerIds, a, other);
      if other {
        LoneLoserNoWin(st, winnerIds, a);
      }
    }
  }

  /** With a single player actor `a`, no player actor stands on the other side from it. */
  lemma LoneSide(st: BattleState, winnerIds: set<Uuid>, a: Actor, other: bool)
    requires forall x, y :: x in st.actors && y in st.actors && IsPlayer(x) && IsPlayer(y) ==> x == y
    requires a in st.actors && IsPlayer(a) && other == (a.uuid !in winnerIds)
    ensures FirstLead(PlayerActors(st.actors), winnerIds, other).None?
  {
    var ps := PlayerActors(st.actors);
    forall i | 0 <= i < |ps|
      ensures !OnSide(ps[i], winnerIds, other)
    {
      assert ps[i] in ps;
      assert ps[i] == a;
    }
  }

  /** With a single player actor that did not win, no grant is "BattleWon". */
  lemma LoneLoserNoWin(st: BattleState, winnerIds: set<Uuid>, a: Actor)
    requires forall x, y :: x in st.actors && y in st.actors && IsPlayer(x) && IsPlayer(y) ==> x == y
    requires a in st.actors && IsPlayer(a) && a.uuid !in winnerIds
    ensures !GrantsBattleWon(VictoryGrants(st, winnerIds))
  {
    var gs := VictoryGrants(st, winnerIds);
    forall h | h in gs
      ensures h.trigger != BATTLE_WON
    {
      var c :| c in st.actors && IsPlayer(c) && ActorPlayer(c) == Some(h.player)
               && h.actor == c.uuid && h.trigger == VictoryTrigger(c, winnerIds);
      assert c == a;
    }
  }

  /** A non-winner with no creature left standing gets the trigger "BattleLost". */
  lemma FaintedLoserTrigger(a: Actor, winnerIds: set<Uuid>)
    requires a.uuid !in winnerIds
    requires forall k :: 0 <= k < |a.team| ==> a.team[k].currentHealth <= 0
    ensures VictoryTrigger(a, winnerIds) == BATTLE_LOST
  {
    assert !HasHealthyPokemon(a);
  }

  /** A non-winner whose whole team has fainted is granted "BattleLost", not "BattleForfeit". */
  lemma FaintedLoserGetsBattleLost(st: BattleState, winnerIds: set<Uuid>, a: Actor)
    requires a in st.actors && IsPlayer(a) && ActorPlayer(a).Some? && a.uuid !in winnerIds
    requires forall k :: 0 <= k < |a.team| ==> a.team[k].currentHealth <= 0
    ensures exists g :: g in VictoryGrants(st, winnerIds) && g.actor == a.uuid && g.trigger == BATTLE_LOST
  {
    FaintedLoserTrigger(a, winnerIds);
    var g := GrantOf(a, LosersPass(winnerIds), st.battleType, LosersOpponent(st, winnerIds)).value;
    assert a in PlayerActors(st.actors);
    assert g in LoserGrants(st, winnerIds);
    assert g in VictoryGrants(st, winnerIds);
  }

  /**
   * Who the flee grants go to: "BattleForfeit" to exactly the fleeing actor,
   * "BattleWon" to the others only in a PvP battle, and every such player
   * actor whose player resolves is granted.
   */
  lemma FleeShape(st: BattleState, fleeing: Uuid)
    ensures var gs := GrantsFor(PlayerActors(st.actors), FleePass(fleeing, st.battleType == PVP), st.battleType, st.opponentPokemon);
            && (forall g :: g in gs ==> g.battleType == st.battleType && g.opponent == st.opponentPokemon)
            && (forall g :: g in gs ==> (g.trigger == BATTLE_FORFEIT <==> g.actor == fleeing))
            && (forall g :: g in gs ==> g.trigger == BATTLE_FORFEIT || g.trigger == BATTLE_WON)
            && (st.battleType != PVP ==> forall g :: g in gs ==> g.actor == fleeing)
            && (forall g :: g in gs ==> exists a :: a in st.actors && IsPlayer(a) && ActorPlayer(a) == Some(g.player) && g.actor == a.uuid)
            && (forall a :: a in st.actors && IsPlayer(a) && ActorPlayer(a).Some? && (a.uuid == fleeing || st.battleType == PVP) ==>
                  Grant(ActorPlayer(a).value, a.uuid, if a.uuid == fleeing then BATTLE_FORFEIT else BATTLE_WON,
                        st.battleType, st.opponentPokemon) in gs)
  {
    var ps := PlayerActors(st.actors);
    var gs := GrantsFor(ps, FleePass(fleeing, st.battleType == PVP), st.battleType, st.opponentPokemon);
    forall a | a in st.actors && IsPlayer(a) && ActorPlayer(a).Some? && (a.uuid == fleeing || st.battleType == PVP)
      ensures Grant(ActorPlayer(a).value, a.uuid, if a.uuid == fleeing then BATTLE_FORFEIT else BATTLE_WON,
                    st.battleType, st.opponentPokemon) in gs
    {
      assert GrantOf(a, FleePass(fleeing, st.battleType == PVP), st.battleType, st.opponentPokemon).Some?;
    }
  }

  /**
   * The BATTLE_FLED handler: the fleeing player gets "BattleForfeit"; in a PVP
   * battle every other player gets "BattleWon"; otherwise nobody else gets
   * anything. The opponent is left as it was.
   */
  function FleeGrants(st: BattleState, fleeing: Uuid): (gs: seq<Grant>)
    ensures forall g :: g in gs ==> g.battleType == st.battleType && g.opponent == st.opponentPokemon
    ensures forall g :: g in gs ==> (g.trigger == BATTLE_FORFEIT <==> g.actor == fleeing)
    ensures forall g :: g in gs ==> g.trigger == BATTLE_FORFEIT || g.trigger == BATTLE_WON
    ensures st.battleType != PVP ==> forall g :: g in gs ==> g.actor == fleeing
    ensures forall g :: g in gs ==> exists a :: a in st.actors && IsPlayer(a) && ActorPlayer(a) == Some(g.player) && g.actor == a.uuid
    ensures forall a :: a in st.actors && IsPlayer(a) && ActorPlayer(a).Some? && (a.uuid == fleeing || st.battleType == PVP) ==>
              Grant(ActorPlayer(a).value, a.uuid, if a.uuid == fleeing then BATTLE_FORFEIT else BATTLE_WON,
                    st.battleType, st.opponentPokemon) in gs
    ensures GrantedInOrder(gs, PlayerActors(st.actors), FleePass(fleeing, st.battleType == PVP), st.battleType, st.opponentPokemon)
  {
    FleeShape(st, fleeing);
    GrantsForInOrder(PlayerActors(st.actors), FleePass(fleeing, st.battleType == PVP), st.battleType, st.opponentPokemon);
    GrantsFor(PlayerActors(st.actors), FleePass(fleeing, st.battleType == PVP), st.battleType, st.opponentPokemon)
  }

  /** `findPlayerFromBattle`: the first PLAYER-typed actor, if any. */
  function FirstPlayerActor(actors: seq<Actor>): (a: Option<Actor>)
    ensures a.Some? ==> a.value in actors && IsPlayer(a.value)
    ensures a.None? ==> forall b :: b in actors ==> !IsPlayer(b)
    ensures a.Some? ==> exists i :: 0 <= i < |actors| && actors[i] == a.value
                                    && forall j :: 0 <= j < i ==> !IsPlayer(actors[j])
  {
    if actors == [] then None
    else if IsPlayer(actors[0]) then Some(actors[0])
    else
      var r := FirstPlayerActor(actors[1..]);
      if r.Some? then
        var i :| 0 <= i < |actors[1..]| && actors[1..][i] == r.value
                 && forall j :: 0 <= j < i ==> !IsPlayer(actors[1..][j]);
        assert forall j :: 1 <= j < i + 1 ==> actors[j] == actors[1..][j - 1];
        assert actors[i + 1] == r.value;
        r
      else r
  }

  /** Some actor of the battle fields a creature with this identity. */
  predicate HoldsPokemon(st: BattleState, pokemonId: Uuid) {
    exists i, k :: 0 <= i < |st.actors| && 0 <= k < |st.actors[i].team| && st.actors[i].team[k].uuid == pokemonId
  }

  /**
   * A tracked battle after one of its creatures is captured: the captured
   * creature becomes the opponent unless it already is, and the battle is
   * marked captured and resolved but stays in the registry.
   */
  function CapturedState(st: BattleState, pokemon: Pokemon): (r: BattleState)
    ensures r.isCaptured && r.isResolved
    ensures r.opponentPokemon.Some? && r.opponentPokemon.value.uuid == pokemon.uuid
    ensures st.opponentPokemon.Some? && st.opponentPokemon.value.uuid == pokemon.uuid ==> r.opponentPokemon == st.opponentPokemon
    ensures !(st.opponentPokemon.Some? && st.opponentPokemon.value.uuid == pokemon.uuid) ==> r.opponentPokemon == Some(pokemon)
    ensures r.actors == st.actors && r.battleType == st.battleType && r.lastActivity == st.lastActivity
    ensures r.playerPokemon == st.playerPokemon
  {
    var opp := if st.opponentPokemon.None? || st.opponentPokemon.value.uuid != pokemon.uuid
               then Some(pokemon) else st.opponentPokemon;
    st.(opponentPokemon := opp, isCaptured := true, isResolved := true)
  }

  /** The single "Captured" grant of a tracked battle, to its first player; none if that player does not resolve. */
  function CaptureGrants(st: BattleState): (gs: seq<Grant>)
    ensures |gs| <= 1
    ensures forall g :: g in gs ==> g.trigger == CAPTURED && g.battleType == st.battleType && g.opponent == st.opponentPokemon
    ensures gs != [] <==> FirstPlayerActor(st.actors).Some? && ActorPlayer(FirstPlayerActor(st.actors).value).Some?
    ensures gs != [] ==> FirstPlayerActor(st.actors).Some?
                         && gs[0].actor == FirstPlayerActor(st.actors).value.uuid
                         && ActorPlayer(FirstPlayerActor(st.actors).value) == Some(gs[0].player)
  {
    match FirstPlayerActor(st.actors)
    case Some(a) =>
      (match ActorPlayer(a)
       case Some(p) => [Grant(p, a.uuid, CAPTURED, st.battleType, st.opponentPokemon)]
       case None => [])
    case None => []
  }

  /** A capture outside any tracked battle: "Captured" for the capturing player, selected as ROAM. */
  function RoamCaptureGrant(capturer: Player, pokemon: Pokemon): (g: Grant)
    ensures g.player == capturer && g.trigger == CAPTURED && g.battleType == ROAM && g.opponent == Some(pokemon)
  {
    Grant(capturer, capturer.uuid, CAPTURED, ROAM, Some(pokemon))
  }

  /** One step of the forEach over the actors that records active creatures; `upgrade` also applies the NPC upgrade. */
  function AssignOne(st: BattleState, a: Actor, upgrade: bool): BattleState {
    match LeadPokemon(a)
    case None => st
    case Some(p) =>
      if IsPlayer(a) then st.(playerPokemon := Some(p))
      else st.(opponentPokemon := Some(p),
               battleType := if upgrade then UpgradeOnSwap(st.battleType, p.entityOwner) else st.battleType)
  }

  /** The actor is on the player side (`player`) or on the other side (`!player`) and fields a creature. */
  predicate FieldsOn(a: Actor, player: bool) {
    IsPlayer(a) == player && LeadPokemon(a).Some?
  }

  /** The active creature of the last actor on the given side that fields one; none when no such actor exists. */
  function LastLead(actors: seq<Actor>, player: bool): (p: Option<Pokemon>)
    ensures p.None? <==> forall i :: 0 <= i < |actors| ==> !FieldsOn(actors[i], player)
    ensures p.Some? ==> exists i :: 0 <= i < |actors| && FieldsOn(actors[i], player) && LeadPokemon(actors[i]) == p
                                    && forall j :: i < j < |actors| ==> !FieldsOn(actors[j], player)
  {
    if actors == [] then None
    else
      var n := |actors| - 1;
      assert forall i :: 0 <= i < n ==> actors[..n][i] == actors[i];
      if FieldsOn(actors[n], player) then LeadPokemon(actors[n]) else LastLead(actors[..n], player)
  }

  lemma LastLeadStep(actors: seq<Actor>)
    requires actors != []
    ensures forall player :: LastLead(actors, player) ==
              if FieldsOn(actors[|actors| - 1], player) then LeadPokemon(actors[|actors| - 1])
              else LastLead(actors[..|actors| - 1], player)
  {
  }

  /** Some actor off the player side fields a creature owned by an NPC. */
  predicate NpcOwnedLead(actors: seq<Actor>) {
    exists i :: 0 <= i < |actors| && FieldsOn(actors[i], false) && LeadPokemon(actors[i]).value.entityOwner == OwnedByNpc
  }

  lemma NpcOwnedLeadStep(actors: seq<Actor>)
    requires actors != []
    ensures NpcOwnedLead(actors) <==>
              NpcOwnedLead(actors[..|actors| - 1])
              || (FieldsOn(actors[|actors| - 1], false) && LeadPokemon(actors[|actors| - 1]).value.entityOwner == OwnedByNpc)
  {
    var n := |actors| - 1;
    assert forall i :: 0 <= i < n ==> actors[..n][i] == actors[i];
    if NpcOwnedLead(actors[..n]) {
      var i :| 0 <= i < n && FieldsOn(actors[..n][i], false) && LeadPokemon(actors[..n][i]).value.entityOwner == OwnedByNpc;
      assert FieldsOn(actors[i], false);
    }
  }

  /** One more step of the forEach extends the final state from the prefix to the whole list. */
  lemma AssignOneStep(st: BattleState, actors: seq<Actor>, upgrade: bool, prev: BattleState)
    requires actors != []
    requires var pre := actors[..|actors| - 1];
             prev == st.(playerPokemon := Either(LastLead(pre, true), st.playerPokemon),
                         opponentPokemon := Either(LastLead(pre, false), st.opponentPokemon),
                         battleType := if upgrade && st.battleType != PVP && NpcOwnedLead(pre) then NPC else st.battleType)
    ensures AssignOne(prev, actors[|actors| - 1], upgrade)
            == st.(playerPokemon := Either(LastLead(actors, true), st.playerPokemon),
                   opponentPokemon := Either(LastLead(actors, false), st.opponentPokemon),
                   battleType := if upgrade && st.battleType != PVP && NpcOwnedLead(actors) then NPC else st.battleType)
  {
    NpcOwnedLeadStep(actors);
    LastLeadStep(actors);
  }

  /**
   * The forEach over `actors` in order. Each side ends up with the active
   * creature of the last actor on that side that fields one, or keeps its
   * creature when there is none; with `upgrade`, a battle other than PVP
   * becomes NPC exactly when some creature of the other side is NPC-owned.
   * Nothing else changes.
   */
  function AssignActive(st: BattleState, actors: seq<Actor>, upgrade: bool): (r: BattleState)
    ensures r == st.(playerPokemon := Either(LastLead(actors, true), st.playerPokemon),
                     opponentPokemon := Either(LastLead(actors, false), st.opponentPokemon),
                     battleType := if upgrade && st.battleType != PVP && NpcOwnedLead(actors) then NPC else st.battleType)
    ensures r.playerPokemon == st.playerPokemon
            || exists i :: 0 <= i < |actors| && IsPlayer(actors[i]) && LeadPokemon(actors[i]) == r.playerPokemon
    ensures r.opponentPokemon == st.opponentPokemon
            || exists i :: 0 <= i < |actors| && !IsPlayer(actors[i]) && LeadPokemon(actors[i]) == r.opponentPokemon
    ensures actors != [] && LeadPokemon(actors[|actors| - 1]).Some? ==>
              if IsPlayer(actors[|actors| - 1]) then r.playerPokemon == LeadPokemon(actors[|actors| - 1])
              else r.opponentPokemon == LeadPokemon(actors[|actors| - 1])
  {
    if actors == [] then st
    else
      var n := |actors| - 1;
      assert forall i :: 0 <= i < n ==> actors[..n][i] == actors[i];
      var prev := AssignActive(st, actors[..n], upgrade);
      AssignOneStep(st, actors, upgrade, prev);
      AssignOne(prev, actors[n], upgrade)
  }

  lemma AssignActiveStep(st: BattleState, actors: seq<Actor>, i: nat, upgrade: bool)
    requires i < |actors|
    ensures AssignActive(st, actors[..i + 1], upgrade) == AssignOne(AssignActive(st, actors[..i], upgrade), actors[i], upgrade)
  {
    assert actors[..i + 1][..i] == actors[..i];
  }

  /**
   * Recording the active creatures changes neither the actors nor the
   * terminal flags, and moves the type only to NPC: never away from PVP,
   * and not at all without the upgrade.
   */
  lemma {:induction false} AssignActiveType(st: BattleState, actors: seq<Actor>, upgrade: bool)
    ensures var r := AssignActive(st, actors, upgrade);
            && r.actors == st.actors && r.isResolved == st.isResolved && r.isCaptured == st.isCaptured
            && r.lastActivity == st.lastActivity
            && (r.battleType == st.battleType || r.battleType == NPC)
            && (st.battleType == PVP ==> r.battleType == PVP)
            && (!upgrade ==> r.battleType == st.battleType)
  {
    if actors != [] {
      AssignActiveType(st, actors[..|actors| - 1], upgrade);
    }
  }

  /** `updateBattlePokemon` with a creature that was sent out. */
  function SwapIn(st: BattleState, p: Pokemon): (r: BattleState)
    ensures p.entityOwner == OwnedByPlayer ==> r == st.(playerPokemon := Some(p))
    ensures p.entityOwner != OwnedByPlayer ==> r.opponentPokemon == Some(p) && r.playerPokemon == st.playerPokemon
    ensures r.battleType == st.battleType || r.battleType == NPC
    ensures st.battleType == PVP ==> r.battleType == PVP
    ensures r.actors == st.actors && r.isResolved == st.isResolved && r.isCaptured == st.isCaptured
    ensures r.lastActivity == st.lastActivity
    ensures r.battleType != st.battleType ==> p.entityOwner == OwnedByNpc
    ensures p.entityOwner != OwnedByPlayer ==> r.battleType == UpgradeOnSwap(st.battleType, p.entityOwner)
  {
    if p.entityOwner == OwnedByPlayer then st.(playerPokemon := Some(p))
    else st.(opponentPokemon := Some(p), battleType := UpgradeOnSwap(st.battleType, p.entityOwner))
  }

  /** The whole of `updateBattlePokemon` on one battle at time `now`. */
  function Updated(st: BattleState, sent: Option<Pokemon>, now: int): (r: BattleState)
    ensures r.lastActivity == now
    ensures r.actors == st.actors && r.isResolved == st.isResolved && r.isCaptured == st.isCaptured
    ensures r.battleType == st.battleType || r.battleType == NPC
    ensures st.battleType == PVP ==> r.battleType == PVP
    ensures sent.Some? && sent.value.entityOwner == OwnedByPlayer ==> r.playerPokemon == sent
    ensures sent.Some? && sent.value.entityOwner != OwnedByPlayer ==> r.opponentPokemon == sent
    ensures sent.Some? && sent.value.entityOwner == OwnedByPlayer ==>
              r.opponentPokemon == st.opponentPokemon && r.battleType == st.battleType
    ensures sent.Some? && sent.value.entityOwner != OwnedByPlayer ==>
              r.playerPokemon == st.playerPokemon && r.battleType == UpgradeOnSwap(st.battleType, sent.value.entityOwner)
    ensures sent.None? ==>
              && r.playerPokemon == Either(LastLead(st.actors, true), st.playerPokemon)
              && r.opponentPokemon == Either(LastLead(st.actors, false), st.opponentPokemon)
              && r.battleType == if st.battleType != PVP && NpcOwnedLead(st.actors) then NPC else st.battleType
  {
    AssignActiveType(st, st.actors, true);
    (if sent.Some? then SwapIn(st, sent.value) else AssignActive(st, st.actors, true)).(lastActivity := now)
  }

  /**
   * The type a battle has after BATTLE_STARTED_POST (classification, then the
   * refresh of its creatures): PVP exactly when several players take part,
   * and never ROAM.
   */
  lemma StartedBattleType(st: BattleState, actors: seq<Actor>, now: int)
    ensures var r := Updated(st.(actors := actors, battleType := DetermineBattleType(actors)), None, now);
            && (r.battleType == PVP <==> SeveralPlayers(actors))
            && r.battleType != ROAM
  {
    AssignActiveType(st.(actors := actors, battleType := DetermineBattleType(actors)), actors, true);
  }

  /** The sweep keeps a battle that is unresolved and active within the timeout. */
  predicate Expired(st: BattleState, now: int) {
    st.isResolved || now - st.lastActivity > BATTLE_TIMEOUT_MS
  }

  /** `cleanupBattles`: drop every resolved or timed-out entry, keep the rest as they are. */
  function Sweep(battles: map<Uuid, BattleState>, now: int): (r: map<Uuid, BattleState>)
    ensures forall id :: id in r <==> id in battles && !Expired(battles[id], now)
    ensures forall id :: id in r ==> r[id] == battles[id]
    ensures forall id :: id in r ==> !r[id].isResolved && now - r[id].lastActivity <= BATTLE_TIMEOUT_MS
  {
    map id | id in battles && !Expired(battles[id], now) :: battles[id]
  }

  /** A second sweep at the same time removes nothing. */
  lemma SweepIdempotent(battles: map<Uuid, BattleState>, now: int)
    ensures Sweep(Sweep(battles, now), now) == Sweep(battles, now)
  {
  }

  /** A later sweep keeps no more than an earlier one. */
  lemma SweepLaterKeepsLess(battles: map<Uuid, BattleState>, t1: int, t2: int)
    requires t1 <= t2
    ensures Sweep(battles, t2).Keys <= Sweep(battles, t1).Keys
  {
  }
}
