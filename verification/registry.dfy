/**
 * The battle registry: the `battles` map of CobbleBattleRewards.kt and the
 * handler bodies that update it in place. Each terminal handler returns the
 * grants (calls of `determineAndProcessReward`) it makes, in order.
 */
module Registry {
  import opened Options
  import opened Battle
  import opened Rules
  import opened Lifecycle

  /**
   * `live` is the stored actor list read at a later moment: the same actors,
   * in the same order and of the same kinds, whose teams (health, owners) may
   * have changed since the battle started.
   */
  predicate SameParticipants(stored: seq<Actor>, live: seq<Actor>) {
    |live| == |stored| && forall i :: 0 <= i < |stored| ==> live[i].uuid == stored[i].uuid && live[i].kind == stored[i].kind
  }

  class BattleRegistry {
    var battles: map<Uuid, BattleState>

    /** No tracked battle is typed ROAM, and a captured battle is resolved. */
    ghost predicate Valid()
      reads this
    {
      forall id :: id in battles ==> battles[id].battleType != ROAM && (battles[id].isCaptured ==> battles[id].isResolved)
    }

    constructor()
      ensures Valid() && battles == map[]
    {
      battles := map[];
    }

    /**
     * BATTLE_STARTED_PRE: a fresh state records the active creature of each
     * actor, player side or opposing side; the actors themselves are not yet stored.
     */
    method BattleStartedPre(battleId: Uuid, actors: seq<Actor>, now: int)
      requires Valid()
      modifies this
      ensures Valid()
      ensures battles == old(battles)[battleId := AssignActive(FreshBattleState(now), actors, false)]
    {
      var st := FreshBattleState(now);
      var i := 0;
      while i < |actors|
        invariant 0 <= i <= |actors|
        invariant battles == old(battles)
        invariant st == AssignActive(FreshBattleState(now), actors[..i], false)
      {
        AssignActiveStep(FreshBattleState(now), actors, i, false);
        var actor := actors[i];
        match LeadPokemon(actor) {
          case Some(p) =>
            if IsPlayer(actor) {
              st := st.(playerPokemon := Some(p));
            } else {
              st := st.(opponentPokemon := Some(p));
            }
          case None =>
        }
        i := i + 1;
      }
      assert actors[..|actors|] == actors;
      AssignActiveType(FreshBattleState(now), actors, false);
      battles := battles[battleId := st];
    }

    /**
     * `updateBattlePokemon`: with a sent-out creature, it becomes the player's
     * or the opponent's by its entity's owner, and an NPC-owned opponent
     * upgrades a non-PVP battle to NPC; without one, the active creature of
     * every actor is recorded the same way. The activity time becomes `now`.
     */
    method UpdateBattlePokemon(battleId: Uuid, sent: Option<Pokemon>, now: int)
      requires Valid()
      modifies this
      ensures Valid()
      ensures battleId !in old(battles) ==> battles == old(battles)
      ensures battleId in old(battles) ==> battles == old(battles)[battleId := Updated(old(battles)[battleId], sent, now)]
      ensures battleId in old(battles) ==>
                && battles[battleId].lastActivity == now
                && (battles[battleId].battleType == old(battles)[battleId].battleType || battles[battleId].battleType == NPC)
                && (old(battles)[battleId].battleType == PVP ==> battles[battleId].battleType == PVP)
    {
      if battleId !in battles {
        return;
      }
      var st := battles[battleId];
      if sent.Some? {
        var p := sent.value;
        if p.entityOwner == OwnedByPlayer {
          st := st.(playerPokemon := Some(p));
        } else {
          st := st.(opponentPokemon := Some(p));
          if p.entityOwner == OwnedByNpc && st.battleType != PVP {
            st := st.(battleType := NPC);
          }
        }
      } else {
        st := RefreshActive(st);
      }
      st := st.(lastActivity := now);
      battles := battles[battleId := st];
    }

    /** BATTLE_STARTED_POST: store the actors, classify the battle, then refresh its creatures. */
    method BattleStartedPost(battleId: Uuid, actors: seq<Actor>, now: int)
      requires Valid()
      modifies this
      ensures Valid()
      ensures battleId !in old(battles) ==> battles == old(battles)
      ensures battleId in old(battles) ==>
                battles == old(battles)[battleId := Updated(old(battles)[battleId].(actors := actors, battleType := DetermineBattleType(actors)), None, now)]
      ensures battleId in old(battles) ==> (battles[battleId].battleType == PVP <==> SeveralPlayers(actors))
    {
      if battleId in battles {
        var st := battles[battleId];
        st := st.(actors := actors, battleType := DetermineBattleType(actors));
        battles := battles[battleId := st];
        StartedBattleType(st, actors, now);
        UpdateBattlePokemon(battleId, None, now);
      }
    }

    /** `findBattleByPokemon`: some tracked battle one of whose actors fields the creature, if any. */
    method FindBattleByPokemon(pokemon: Pokemon) returns (found: Option<Uuid>)
      ensures found.Some? ==> found.value in battles && HoldsPokemon(battles[found.value], pokemon.uuid)
      ensures found.None? <==> forall id :: id in battles ==> !HoldsPokemon(battles[id], pokemon.uuid)
    {
      if exists id :: id in battles && HoldsPokemon(battles[id], pokemon.uuid) {
        var id :| id in battles && HoldsPokemon(battles[id], pokemon.uuid);
        found := Some(id);
      } else {
        found := None;
      }
    }

    /** POKEMON_SENT_POST: update the battle that fields the creature, if one does. */
    method PokemonSentOut(pokemon: Pokemon, now: int)
      requires Valid()
      modifies this
      ensures Valid()
      ensures (forall id :: id in old(battles) ==> !HoldsPokemon(old(battles)[id], pokemon.uuid)) ==> battles == old(battles)
      ensures (exists id :: id in old(battles) && HoldsPokemon(old(battles)[id], pokemon.uuid)) ==>
                exists id :: id in old(battles) && HoldsPokemon(old(battles)[id], pokemon.uuid)
                             && battles == old(battles)[id := Updated(old(battles)[id], Some(pokemon), now)]
    {
      var found := FindBattleByPokemon(pokemon);
      if found.Some? {
        UpdateBattlePokemon(found.value, Some(pokemon), now);
      }
    }

    /**
     * POKEMON_CAPTURED: in a tracked battle the creature becomes the opponent,
     * the battle is marked captured, its first player gets "Captured" and the
     * battle is marked resolved; it stays in the registry until the sweep.
     * Outside any tracked battle the capturing player gets "Captured" as a
     * ROAM encounter and the registry is untouched.
     */
    method PokemonCaptured(pokemon: Pokemon, capturer: Player) returns (grants: seq<Grant>)
      requires Valid()
      modifies this
      ensures Valid()
      ensures (forall id :: id in old(battles) ==> !HoldsPokemon(old(battles)[id], pokemon.uuid)) ==>
                battles == old(battles) && grants == [RoamCaptureGrant(capturer, pokemon)]
      ensures (exists id :: id in old(battles) && HoldsPokemon(old(battles)[id], pokemon.uuid)) ==>
                exists id :: id in old(battles) && HoldsPokemon(old(battles)[id], pokemon.uuid)
                             && battles == old(battles)[id := CapturedState(old(battles)[id], pokemon)]
                             && grants == CaptureGrants(CapturedState(old(battles)[id], pokemon))
    {
      var found := FindBattleByPokemon(pokemon);
      if found.Some? && found.value in battles {
        var id := found.value;
        var st := battles[id];
        if st.opponentPokemon.None? || st.opponentPokemon.value.uuid != pokemon.uuid {
          st := st.(opponentPokemon := Some(pokemon));
        }
        st := st.(isCaptured := true);
        grants := [];
        var first := FirstPlayerActor(st.actors);
        if first.Some? {
          var player := ActorPlayer(first.value);
          if player.Some? {
            grants := [Grant(player.value, first.value.uuid, CAPTURED, st.battleType, st.opponentPokemon)];
          }
        }
        st := st.(isResolved := true);
        battles := battles[id := st];
      } else {
        grants := [RoamCaptureGrant(capturer, pokemon)];
      }
    }

    /**
     * `finalizeBattleVictory`: nothing for an unknown or captured battle;
     * otherwise the battle is resolved, its players get their grants and it
     * is removed. The grants are decided on `current`, the battle's actors as
     * they are at the event (health and owners read live), and the battle's
     * opponent field is threaded from the first pass into the second.
     */
    method FinalizeBattleVictory(battleId: Uuid, winnerIds: set<Uuid>, current: seq<Actor>) returns (grants: seq<Grant>)
      requires Valid()
      requires battleId in battles ==> SameParticipants(battles[battleId].actors, current)
      modifies this
      ensures Valid()
      ensures battleId !in old(battles) || old(battles)[battleId].isCaptured ==> grants == [] && battles == old(battles)
      ensures battleId in old(battles) && !old(battles)[battleId].isCaptured ==>
                grants == VictoryGrants(old(battles)[battleId].(actors := current), winnerIds)
                && battles == old(battles) - {battleId}
      ensures forall g :: g in grants ==> g.battleType != ROAM
    {
      if battleId !in battles || battles[battleId].isCaptured {
        return [];
      }
      var st := battles[battleId].(actors := current);
      st := st.(isResolved := true);
      var playerActors := PlayerActors(st.actors);
      var won, opponent := WinnersPassGrants(playerActors, winnerIds, st.battleType, st.opponentPokemon);
      var rest, _ := LosersPassGrants(playerActors, winnerIds, st.battleType, opponent);
      grants := won + rest;
      battles := battles - {battleId};
    }

    /**
     * BATTLE_VICTORY: ignored for a captured battle, otherwise
     * `finalizeBattleVictory` with the winners' identities and the battle's
     * actors as they are at the event.
     */
    method BattleVictory(battleId: Uuid, winners: seq<Actor>, current: seq<Actor>) returns (grants: seq<Grant>)
      requires Valid()
      requires battleId in battles ==> SameParticipants(battles[battleId].actors, current)
      modifies this
      ensures Valid()
      ensures battleId in old(battles) && old(battles)[battleId].isCaptured ==> grants == [] && battles == old(battles)
      ensures battleId in old(battles) && !old(battles)[battleId].isCaptured ==>
                grants == VictoryGrants(old(battles)[battleId].(actors := current), set a | a in winners :: a.uuid)
                && battles == old(battles) - {battleId}
      ensures battleId !in old(battles) ==> grants == [] && battles == old(battles)
      ensures forall g :: g in grants ==> g.battleType != ROAM
    {
      grants := [];
      if battleId in battles {
        if battles[battleId].isCaptured {
          return;
        }
        grants := FinalizeBattleVictory(battleId, set a | a in winners :: a.uuid, current);
      }
    }

    /**
     * BATTLE_FLED: ignored for a captured battle; otherwise the battle is
     * resolved, the players of `current` (the battle's actors as they are at
     * the event) get the flight grants and the battle is removed.
     */
    method BattleFled(battleId: Uuid, fleeing: Player, current: seq<Actor>) returns (grants: seq<Grant>)
      requires Valid()
      requires battleId in battles ==> SameParticipants(battles[battleId].actors, current)
      modifies this
      ensures Valid()
      ensures battleId !in old(battles) || old(battles)[battleId].isCaptured ==> grants == [] && battles == old(battles)
      ensures battleId in old(battles) && !old(battles)[battleId].isCaptured ==>
                grants == FleeGrants(old(battles)[battleId].(actors := current), fleeing.uuid)
                && battles == old(battles) - {battleId}
      ensures forall g :: g in grants ==> g.battleType != ROAM
    {
      if battleId !in battles || battles[battleId].isCaptured {
        return [];
      }
      var st := battles[battleId].(actors := current);
      st := st.(isResolved := true);
      grants := FleePassGrants(PlayerActors(st.actors), fleeing.uuid, st.battleType, st.opponentPokemon);
      battles := battles - {battleId};
    }

    /** `cleanupBattles`: evict every resolved or stale battle. */
    method CleanupBattles(now: int)
      requires Valid()
      modifies this
      ensures Valid()
      ensures battles == Sweep(old(battles), now)
    {
      battles := map id | id in battles && !(battles[id].isResolved || now - battles[id].lastActivity > BATTLE_TIMEOUT_MS) :: battles[id];
    }
  }

  /**
   * The forEach of `updateBattlePokemon` without a sent creature: each actor's
   * active creature is recorded on its side, and an NPC-owned one on the
   * other side upgrades a battle other than PVP to NPC.
   */
  method RefreshActive(st0: BattleState) returns (st: BattleState)
    ensures st == AssignActive(st0, st0.actors, true)
  {
    var actors := st0.actors;
    st := st0;
    var i := 0;
    while i < |actors|
      invariant 0 <= i <= |actors|
      invariant st == AssignActive(st0, actors[..i], true)
    {
      AssignActiveStep(st0, actors, i, true);
      var actor := actors[i];
      match LeadPokemon(actor) {
        case Some(p) =>
          if IsPlayer(actor) {
            st := st.(playerPokemon := Some(p));
          } else {
            st := st.(opponentPokemon := Some(p));
            if p.entityOwner == OwnedByNpc && st.battleType != PVP {
              st := st.(battleType := NPC);
            }
          }
        case None =>
      }
      i := i + 1;
    }
    assert actors[..|actors|] == actors;
  }

  /**
   * The forEach of the BATTLE_FLED handler over the player actors: the
   * fleeing player gets "BattleForfeit", in a PVP battle every other player
   * "BattleWon"; actors whose player cannot be resolved are skipped.
   */
  method FleePassGrants(ps: seq<Actor>, fleeing: Uuid, t: BattleType, opponent: Option<Pokemon>) returns (grants: seq<Grant>)
    ensures grants == GrantsFor(ps, FleePass(fleeing, t == PVP), t, opponent)
  {
    grants := [];
    var i := 0;
    while i < |ps|
      invariant 0 <= i <= |ps|
      invariant grants == GrantsFor(ps[..i], FleePass(fleeing, t == PVP), t, opponent)
    {
      GrantsForStep(ps, i, FleePass(fleeing, t == PVP), t, opponent);
      var actor := ps[i];
      FleeDecision(actor, fleeing, t, opponent);
      var player := ActorPlayer(actor);
      if player.Some? {
        if actor.uuid == fleeing {
          grants := grants + [Grant(player.value, actor.uuid, BATTLE_FORFEIT, t, opponent)];
        } else if t == PVP {
          grants := grants + [Grant(player.value, actor.uuid, BATTLE_WON, t, opponent)];
        }
      }
      i := i + 1;
    }
    assert ps[..|ps|] == ps;
  }

  /**
   * The first forEach of `finalizeBattleVictory`: each winner whose player
   * resolves gets "BattleWon", the opponent having first been set to the
   * first non-winner's active creature when there is one. Returns the grants
   * and the opponent field afterwards.
   */
  method WinnersPassGrants(ps: seq<Actor>, winnerIds: set<Uuid>, t: BattleType, opponent0: Option<Pokemon>)
    returns (grants: seq<Grant>, opponent: Option<Pokemon>)
    ensures grants == GrantsFor(ps, WinnersPass(winnerIds), t, Either(FirstLead(ps, winnerIds, false), opponent0))
    ensures opponent == if grants == [] then opponent0 else Either(FirstLead(ps, winnerIds, false), opponent0)
  {
    var loserPoke := FirstLead(ps, winnerIds, false);
    ghost var opp := Either(loserPoke, opponent0);
    opponent := opponent0;
    grants := [];
    var i := 0;
    while i < |ps|
      invariant 0 <= i <= |ps|
      invariant grants == GrantsFor(ps[..i], WinnersPass(winnerIds), t, opp)
      invariant opponent == if grants == [] then opponent0 else opp
    {
      GrantsForStep(ps, i, WinnersPass(winnerIds), t, opp);
      var actor := ps[i];
      WinnerDecision(actor, winnerIds, t, opp);
      if actor.uuid in winnerIds {
        var player := ActorPlayer(actor);
        if player.Some? {
          if loserPoke.Some? {
            opponent := loserPoke;
          }
          grants := grants + [Grant(player.value, actor.uuid, BATTLE_WON, t, opponent)];
        }
      }
      i := i + 1;
    }
    assert ps[..|ps|] == ps;
  }

  /**
   * The second forEach of `finalizeBattleVictory`: each non-winner whose
   * player resolves gets "BattleForfeit" when one of its creatures still has
   * health and "BattleLost" otherwise, the opponent having first been set to
   * the first winner's active creature when there is one.
   */
  method LosersPassGrants(ps: seq<Actor>, winnerIds: set<Uuid>, t: BattleType, opponent0: Option<Pokemon>)
    returns (grants: seq<Grant>, opponent: Option<Pokemon>)
    ensures grants == GrantsFor(ps, LosersPass(winnerIds), t, Either(FirstLead(ps, winnerIds, true), opponent0))
    ensures opponent == if grants == [] then opponent0 else Either(FirstLead(ps, winnerIds, true), opponent0)
  {
    var winnerPoke := FirstLead(ps, winnerIds, true);
    ghost var opp := Either(winnerPoke, opponent0);
    opponent := opponent0;
    grants := [];
    var j := 0;
    while j < |ps|
      invariant 0 <= j <= |ps|
      invariant grants == GrantsFor(ps[..j], LosersPass(winnerIds), t, opp)
      invariant opponent == if grants == [] then opponent0 else opp
    {
      GrantsForStep(ps, j, LosersPass(winnerIds), t, opp);
      var actor := ps[j];
      LoserDecision(actor, winnerIds, t, opp);
      if actor.uuid !in winnerIds {
        var player := ActorPlayer(actor);
        if player.Some? {
          if winnerPoke.Some? {
            opponent := winnerPoke;
          }
          var trigger := if HasHealthyPokemon(actor) then BATTLE_FORFEIT else BATTLE_LOST;
          grants := grants + [Grant(player.value, actor.uuid, trigger, t, opponent)];
        }
      }
      j := j + 1;
    }
    assert ps[..|ps|] == ps;
  }

  /** What the BATTLE_FLED forEach does for one player actor. */
  lemma FleeDecision(a: Actor, fleeing: Uuid, t: BattleType, opponent: Option<Pokemon>)
    ensures GrantOf(a, FleePass(fleeing, t == PVP), t, opponent) ==
            if ActorPlayer(a).None? then None
            else if a.uuid == fleeing then Some(Grant(ActorPlayer(a).value, a.uuid, BATTLE_FORFEIT, t, opponent))
            else if t == PVP then Some(Grant(ActorPlayer(a).value, a.uuid, BATTLE_WON, t, opponent))
            else None
  {
  }

  /** What the winners' forEach of `finalizeBattleVictory` does for one player actor. */
  lemma WinnerDecision(a: Actor, winnerIds: set<Uuid>, t: BattleType, opponent: Option<Pokemon>)
    ensures GrantOf(a, WinnersPass(winnerIds), t, opponent) ==
            if ActorPlayer(a).Some? && a.uuid in winnerIds then Some(Grant(ActorPlayer(a).value, a.uuid, BATTLE_WON, t, opponent))
            else None
  {
  }

  /** What the second forEach of `finalizeBattleVictory` does for one player actor. */
  lemma LoserDecision(a: Actor, winnerIds: set<Uuid>, t: BattleType, opponent: Option<Pokemon>)
    ensures GrantOf(a, LosersPass(winnerIds), t, opponent) ==
            if ActorPlayer(a).Some? && a.uuid !in winnerIds
            then Some(Grant(ActorPlayer(a).value, a.uuid, if HasHealthyPokemon(a) then BATTLE_FORFEIT else BATTLE_LOST, t, opponent))
            else None
  {
  }
}
