/**
 * The battle participants as the reward engine sees them, the battle
 * classification and its fixed-priority derivation from the participants
 * (CobbleBattleRewards.kt, `BattleType`, `BattleState`, `determineBattleType`).
 */
module Battle {
  import opened Options

  type Uuid = int

  /** Cobblemon's `ActorType` of a battle participant. */
  datatype ActorType = PlayerActor | WildActor | NpcActor | OtherActor

  /** What `pokemon.entity?.owner` is: no entity or no owner, a player, an NPC, or something else. */
  datatype EntityOwner = Unowned | OwnedByPlayer | OwnedByNpc | OwnedByOther

  /** A server player: its identity and the dimension (world) it stands in. */
  datatype Player = Player(uuid: Uuid, dimension: string)

  /**
   * A creature instance. `ownerPlayer` is what `getOwnerPlayer()` resolves to
   * (absent when the owner is not an online player); `properties` is the
   * flattened property snapshot the condition matcher reads.
   */
  datatype Pokemon = Pokemon(
    uuid: Uuid,
    level: int,
    currentHealth: int,
    entityOwner: EntityOwner,
    ownerPlayer: Option<Player>,
    properties: map<string, string>)

  /** A battle actor: its identity, its kind and its team (`pokemonList`, active creature first). */
  datatype Actor = Actor(uuid: Uuid, kind: ActorType, team: seq<Pokemon>)

  datatype BattleType = ROAM | WILD | NPC | PVP

  /** The lower-cased enum name that reward rules list in `battleTypes`. */
  function BattleTypeName(t: BattleType): (name: string)
    ensures name == "roam" <==> t == ROAM
    ensures name == "wild" <==> t == WILD
    ensures name == "npc" <==> t == NPC
    ensures name == "pvp" <==> t == PVP
  {
    match t
    case ROAM => "roam"
    case WILD => "wild"
    case NPC => "npc"
    case PVP => "pvp"
  }

  /**
   * The ephemeral state of one battle. The properties snapshots of the Kotlin
   * record are carried by the creatures themselves.
   */
  datatype BattleState = BattleState(
    actors: seq<Actor>,
    playerPokemon: Option<Pokemon>,
    opponentPokemon: Option<Pokemon>,
    isResolved: bool,
    isCaptured: bool,
    battleType: BattleType,
    lastActivity: int)

  /** `BattleState()` created at time `now`: no actors, no creatures, typed WILD. */
  function FreshBattleState(now: int): (st: BattleState)
    ensures st.actors == [] && st.playerPokemon.None? && st.opponentPokemon.None?
    ensures !st.isResolved && !st.isCaptured && st.battleType == WILD && st.lastActivity == now
  {
    BattleState([], None, None, false, false, WILD, now)
  }

  predicate IsPlayer(a: Actor) {
    a.kind == PlayerActor
  }

  /** `actors.count { it.type == ActorType.PLAYER }`. */
  function PlayerCount(actors: seq<Actor>): (n: nat)
    ensures n <= |actors|
    ensures (forall i :: 0 <= i < |actors| ==> IsPlayer(actors[i])) ==> n == |actors|
    ensures (forall i :: 0 <= i < |actors| ==> !IsPlayer(actors[i])) ==> n == 0
  {
    if actors == [] then 0
    else
      assert forall i :: 0 <= i < |actors| - 1 ==> actors[1..][i] == actors[i + 1];
      (if IsPlayer(actors[0]) then 1 else 0) + PlayerCount(actors[1..])
  }

  /** Two different participants are players. */
  predicate SeveralPlayers(actors: seq<Actor>) {
    exists i, j :: 0 <= i < j < |actors| && IsPlayer(actors[i]) && IsPlayer(actors[j])
  }

  predicate SomePlayer(actors: seq<Actor>) {
    exists i :: 0 <= i < |actors| && IsPlayer(actors[i])
  }

  lemma {:induction false} PlayerCountPositive(actors: seq<Actor>)
    ensures PlayerCount(actors) > 0 <==> SomePlayer(actors)
  {
    if actors != [] {
      PlayerCountPositive(actors[1..]);
      if SomePlayer(actors[1..]) {
        var i :| 0 <= i < |actors[1..]| && IsPlayer(actors[1..][i]);
        assert IsPlayer(actors[i + 1]);
      }
      if SomePlayer(actors) && !IsPlayer(actors[0]) {
        var i :| 0 <= i < |actors| && IsPlayer(actors[i]);
        assert IsPlayer(actors[1..][i - 1]);
      }
    }
  }

  /** Counting more than one player is the same as finding two distinct player participants. */
  lemma {:induction false} PlayerCountAboveOne(actors: seq<Actor>)
    ensures PlayerCount(actors) > 1 <==> SeveralPlayers(actors)
  {
    if actors != [] {
      var tail := actors[1..];
      PlayerCountAboveOne(tail);
      PlayerCountPositive(tail);
      if SeveralPlayers(tail) {
        var i, j :| 0 <= i < j < |tail| && IsPlayer(tail[i]) && IsPlayer(tail[j]);
        assert IsPlayer(actors[i + 1]) && IsPlayer(actors[j + 1]);
      }
      if IsPlayer(actors[0]) && SomePlayer(tail) {
        var j :| 0 <= j < |tail| && IsPlayer(tail[j]);
        assert IsPlayer(actors[j + 1]);
      }
      if SeveralPlayers(actors) {
        var i, j :| 0 <= i < j < |actors| && IsPlayer(actors[i]) && IsPlayer(actors[j]);
        if i == 0 {
          assert IsPlayer(tail[j - 1]);
        } else {
          assert IsPlayer(tail[i - 1]) && IsPlayer(tail[j - 1]);
        }
      }
    }
  }

  predicate SomeWild(actors: seq<Actor>) {
    exists i :: 0 <= i < |actors| && actors[i].kind == WildActor
  }

  /** An NPC actor, or a non-player actor fielding a creature whose entity an NPC owns. */
  predicate NpcSignal(actors: seq<Actor>) {
    || (exists i :: 0 <= i < |actors| && actors[i].kind == NpcActor)
    || (exists i, k :: 0 <= i < |actors| && !IsPlayer(actors[i]) && 0 <= k < |actors[i].team|
                       && actors[i].team[k].entityOwner == OwnedByNpc)
  }

  /**
   * `determineBattleType`: a fixed priority chain. Several players make it
   * PVP whatever else is present; otherwise a wild actor makes it WILD;
   * otherwise an NPC signal makes it NPC; otherwise WILD. Never ROAM.
   */
  function DetermineBattleType(actors: seq<Actor>): (t: BattleType)
    ensures t != ROAM
    ensures t == PVP <==> SeveralPlayers(actors)
    ensures t == NPC <==> !SeveralPlayers(actors) && !SomeWild(actors) && NpcSignal(actors)
    ensures t == WILD <==> !SeveralPlayers(actors) && (SomeWild(actors) || !NpcSignal(actors))
  {
    PlayerCountAboveOne(actors);
    if PlayerCount(actors) > 1 then PVP
    else if SomeWild(actors) then WILD
    else if NpcSignal(actors) then NPC
    else WILD
  }

  /**
   * The mid-battle upgrade applied when an opposing creature is sent out:
   * an NPC-owned creature turns any battle but a PVP one into an NPC battle.
   */
  function UpgradeOnSwap(current: BattleType, owner: EntityOwner): (t: BattleType)
    ensures current == PVP ==> t == PVP
    ensures t == current || t == NPC
    ensures t != current <==> owner == OwnedByNpc && current != PVP && current != NPC
  {
    if owner == OwnedByNpc && current != PVP then NPC else current
  }

  /** The active (first) creature of an actor's team. */
  function LeadPokemon(a: Actor): (p: Option<Pokemon>)
    ensures p.Some? <==> a.team != []
    ensures p.Some? ==> p.value == a.team[0]
  {
    if a.team == [] then None else Some(a.team[0])
  }
}
