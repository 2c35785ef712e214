/**
 * The condition matcher: one textual condition against a property snapshot
 * (`checkCondition`) and a reward's whole condition list against an
 * opponent creature (`rewardApplies`).
 */
module Conditions {
  import opened Options
  import opened Text
  import opened Battle
  import opened Rules

  /** The key of `condition` split at `sep`: trimmed and lower-cased. */
  function ConditionKey(condition: string, sep: nat): string
    requires sep < |condition|
  {
    Lower(Trim(condition[..sep]))
  }

  /** The value of `condition` split at `sep`: trimmed. */
  function ConditionValue(condition: string, sep: nat): string
    requires sep < |condition|
  {
    Trim(condition[sep + 1..])
  }

  /** The raw-tag fallback: the whole condition equals the species, ignoring case. */
  predicate SpeciesTagMatches(condition: string, props: map<string, string>) {
    "species" in props && EqualsIgnoreCase(props["species"], condition)
  }

  /**
   * `checkCondition`. A condition split at its first ':' or '=' whose key is a
   * known property matches when that property contains the value, ignoring
   * case. With an unknown key, or with no separator, the whole original text
   * must equal the species, ignoring case; without a species it fails.
   */
  function CheckCondition(condition: string, props: map<string, string>): (r: bool)
    ensures FirstSeparator(condition).None? ==> (r <==> SpeciesTagMatches(condition, props))
    ensures FirstSeparator(condition).Some? ==>
      var sep := FirstSeparator(condition).value;
      var key := ConditionKey(condition, sep);
      && (key in props ==> (r <==> ContainsIgnoreCase(props[key], ConditionValue(condition, sep))))
      && (key !in props ==> (r <==> SpeciesTagMatches(condition, props)))
    ensures "species" !in props && (FirstSeparator(condition).None? || ConditionKey(condition, FirstSeparator(condition).value) !in props) ==> !r
  {
    match FirstSeparator(condition)
    case Some(sep) =>
      var key := ConditionKey(condition, sep);
      if key in props then ContainsIgnoreCase(props[key], ConditionValue(condition, sep))
      else SpeciesTagMatches(condition, props)
    case None => SpeciesTagMatches(condition, props)
  }

  predicate ElementHolds(e: ConditionElement, props: map<string, string>) {
    e.TextElement? && CheckCondition(e.text, props)
  }

  /** `condition.all { ... }` over a grouped entry; a non-string element fails. */
  function AllElementsHold(es: seq<ConditionElement>, props: map<string, string>): (r: bool)
    ensures r <==> forall j :: 0 <= j < |es| ==> ElementHolds(es[j], props)
  {
    if es == [] then true
    else ElementHolds(es[0], props) && AllElementsHold(es[1..], props)
  }

  /** One entry of the list: a string is checked, a list must hold entirely, anything else fails. */
  predicate EntryHolds(entry: ConditionEntry, props: map<string, string>) {
    match entry
    case TextCondition(text) => CheckCondition(text, props)
    case AllOf(es) => forall j :: 0 <= j < |es| ==> ElementHolds(es[j], props)
    case OtherEntry => false
  }

  /** `reward.conditions.any { ... }`. */
  function AnyEntryHolds(entries: seq<ConditionEntry>, props: map<string, string>): (r: bool)
    ensures r <==> exists i :: 0 <= i < |entries| && EntryHolds(entries[i], props)
  {
    if entries == [] then false
    else
      var first := match entries[0]
        case TextCondition(text) => CheckCondition(text, props)
        case AllOf(es) => AllElementsHold(es, props)
        case OtherEntry => false;
      assert first == EntryHolds(entries[0], props);
      first || AnyEntryHolds(entries[1..], props)
  }

  /**
   * `rewardApplies`: no opponent never applies; an empty list always applies
   * (the blacklist flag is not consulted); otherwise OR across entries, AND
   * inside grouped entries, negated for a blacklist.
   */
  function RewardApplies(reward: Reward, opponent: Option<Pokemon>): (r: bool)
    ensures opponent.None? ==> !r
    ensures opponent.Some? && reward.conditions == [] ==> r
    ensures opponent.Some? && reward.conditions != [] ==>
      (r <==> (reward.conditionsBlacklist != exists i :: 0 <= i < |reward.conditions|
                                                        && EntryHolds(reward.conditions[i], opponent.value.properties)))
  {
    if opponent.None? then false
    else if reward.conditions == [] then true
    else
      var matched := AnyEntryHolds(reward.conditions, opponent.value.properties);
      if reward.conditionsBlacklist then !matched else matched
  }

  /** A blacklist rule and the same rule as a whitelist split every opponent between them. */
  lemma BlacklistComplements(reward: Reward, opponent: Pokemon)
    requires reward.conditions != []
    ensures RewardApplies(reward.(conditionsBlacklist := true), Some(opponent))
            != RewardApplies(reward.(conditionsBlacklist := false), Some(opponent))
  {
  }

  /** A snapshot whose species is exactly the condition text satisfies it as a raw tag. */
  lemma RawTagMatchesOwnSpecies(tag: string, props: map<string, string>)
    requires FirstSeparator(tag).None?
    requires "species" in props && props["species"] == tag
    ensures CheckCondition(tag, props)
  {
    ContainsItself(tag);
  }

  /** A known key matches when the property holds the value at some position, ignoring case. */
  lemma KnownKeyMatchesByContainment(condition: string, props: map<string, string>, at: nat)
    requires FirstSeparator(condition).Some?
    requires ConditionKey(condition, FirstSeparator(condition).value) in props
    requires MatchesAt(props[ConditionKey(condition, FirstSeparator(condition).value)],
                       ConditionValue(condition, FirstSeparator(condition).value), at)
    ensures CheckCondition(condition, props)
  {
  }

  /** "type:electric" splits at its colon, index 4. */
  lemma TypeExampleSeparator()
    ensures FirstSeparator("type:electric") == Some(4)
  {
    assert FirstSeparatorFrom("type:electric", 4) == Some(4);
  }

  /** The key of "type:electric" is "type". */
  lemma TypeExampleKey()
    ensures ConditionKey("type:electric", 4) == "type"
  {
    var c := "type:electric";
    assert c[..4] == "type";
    assert SkipLeading("type", 0) == 0;
    assert SkipTrailing("type", 0, 4) == 4;
    assert Trim("type") == "type";
    assert Lower("type") == "type";
  }

  /** The value of "type:electric" is "electric". */
  lemma TypeExampleValue()
    ensures ConditionValue("type:electric", 4) == "electric"
  {
    var c := "type:electric";
    assert c[5..] == "electric";
    assert SkipLeading("electric", 0) == 0;
    assert SkipTrailing("electric", 0, 8) == 8;
  }

  /** "type:electric" matches a creature whose type property is "electric,flying". */
  lemma TypeConditionExample()
    ensures CheckCondition("type:electric", map["type" := "electric,flying"])
  {
    var props := map["type" := "electric,flying"];
    TypeExampleSeparator();
    TypeExampleKey();
    TypeExampleValue();
    assert MatchesAt(props["type"], "electric", 0);
    KnownKeyMatchesByContainment("type:electric", props, 0);
  }

  /** "pikachu" is a raw species tag: it matches the species "Pikachu" and not "Raichu". */
  lemma SpeciesTagExample()
    ensures CheckCondition("pikachu", map["species" := "Pikachu"])
    ensures !CheckCondition("pikachu", map["species" := "Raichu"])
  {
    assert FirstSeparator("pikachu").None?;
    assert LowerChar('P') == 'p';
    assert LowerChar('R') == 'r';
    assert !EqualsIgnoreCase("Raichu", "pikachu");
  }
}
