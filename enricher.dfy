/** The per-name lookup (`get_pokemon_data`): one primary fetch, one
    conditional species fetch, merged into one flat record or no record. */
module Enricher {
  import opened Options
  import opened Api

  predicate IsUpperAscii(c: char) { 'A' <= c <= 'Z' }
  predicate IsLowerAscii(c: char) { 'a' <= c <= 'z' }

  function UpperAscii(c: char): char {
    if IsLowerAscii(c) then (c as int - 32) as char else c
  }

  function LowerAscii(c: char): char {
    if IsUpperAscii(c) then (c as int + 32) as char else c
  }

  /** First character not lower-case, every later one not upper-case. */
  predicate IsCapitalized(s: string) {
    && (|s| > 0 ==> !IsLowerAscii(s[0]))
    && forall i :: 0 < i < |s| ==> !IsUpperAscii(s[i])
  }

  /** Python's `str.capitalize()`, restricted to ASCII letters. */
  function Capitalize(s: string): (r: string)
    ensures |r| == |s| && IsCapitalized(r)
    ensures forall i :: 0 <= i < |s| ==> LowerAscii(r[i]) == LowerAscii(s[i])
    ensures IsCapitalized(s) ==> r == s
  {
    if s == [] then []
    else [UpperAscii(s[0])] + seq(|s| - 1, i requires 0 <= i < |s| - 1 => LowerAscii(s[i + 1]))
  }

  /** `res.get('name')`: the name, or None when it is absent or `null`. */
  function GetName(name: Field<string>): Option<string> {
    if name.Present? then Some(name.value) else None
  }

  /** `res.get('name') if res else None` (habitat, color). */
  function NameOf(res: Option<Resource>): Option<string> {
    if res.Some? then GetName(res.value.name) else None
  }

  /** `res.get('url') if res else None` (evolution chain). */
  function UrlOf(res: Option<Resource>): Option<string> {
    if res.Some? then res.value.url else None
  }

  /** `t['type']['name'].capitalize()` can be evaluated: both keys are there
      and the name is a string (a `null` name has no `capitalize`). */
  predicate TypeReadable(slot: Slot) {
    slot.entry.Some? && slot.entry.value.name.Present?
  }

  /** `a['ability']['name']` can be evaluated: both keys are there (a `null`
      name is read as `None`). */
  predicate AbilityReadable(slot: Slot) {
    slot.entry.Some? && !slot.entry.value.name.Missing?
  }

  /** The slots a payload key holds, for display in contracts: `[]` unless
      the key holds a list. */
  function SlotsOf(slots: Field<seq<Slot>>): seq<Slot> {
    if slots.Present? then slots.value else []
  }

  function TypeSlots(data: PokemonPayload): seq<Slot> { SlotsOf(data.types) }
  function AbilitySlots(data: PokemonPayload): seq<Slot> { SlotsOf(data.abilities) }

  /** `poke_data.get('species', {}).get('url')`, once `species` is known not
      to be `null`. */
  function SpeciesUrl(data: PokemonPayload): Option<string> {
    if data.species.Present? then data.species.value.url else None
  }

  /** `poke_data.get('species', {}).get('name')`, the same way. */
  function Category(data: PokemonPayload): Option<string> {
    if data.species.Present? then GetName(data.species.value.name) else None
  }

  /** `if species_url:` — present and not the empty string. */
  predicate Truthy(url: Option<string>) { url.Some? && url.value != "" }

  /** The record the program builds (one row of the output table, columns in
      this order). */
  datatype Record = Record(
    id: Option<int>,
    name: Option<string>,
    type1: Option<string>,
    type2: Option<string>,
    height: Option<int>,
    weight: Option<int>,
    category: Option<string>,
    abilities: seq<Option<string>>,
    habitat: Option<string>,
    color: Option<string>,
    isLegendary: bool,
    isMythical: bool,
    evolutionChain: Option<string>)

  /** The five fields that come from the species lookup. */
  datatype SpeciesDetails = SpeciesDetails(
    habitat: Option<string>,
    color: Option<string>,
    isLegendary: bool,
    isMythical: bool,
    evolutionChain: Option<string>)

  /** The values the five species fields start with. */
  const NoSpeciesDetails := SpeciesDetails(None, None, false, false, None)

  /** A record with its five species fields reset to their defaults. */
  function PrimaryPart(r: Record): Record {
    r.(habitat := None, color := None, isLegendary := false, isMythical := false, evolutionChain := None)
  }

  /** The species lookup: skipped without a truthy URL, degraded to the
      defaults on a status other than 200, and fatal (None) when the request
      raises or its body does not parse. */
  function ReadSpecies(url: Option<string>, reply: Response<SpeciesPayload>): (r: Option<SpeciesDetails>)
    ensures r.None? <==> Truthy(url) && (reply.Raised? || (reply.status == 200 && reply.body.None?))
    ensures !Truthy(url) || (reply.Answered? && reply.status != 200) ==> r == Some(NoSpeciesDetails)
    ensures Truthy(url) && reply.Answered? && reply.status == 200 && reply.body.Some? ==>
      var sp := reply.body.value;
      && r.Some?
      && r.value.habitat == (if sp.habitat.Some? && sp.habitat.value.name.Present? then Some(sp.habitat.value.name.value) else None)
      && r.value.color == (if sp.color.Some? && sp.color.value.name.Present? then Some(sp.color.value.name.value) else None)
      && r.value.isLegendary == (sp.isLegendary.Some? && sp.isLegendary.value)
      && r.value.isMythical == (sp.isMythical.Some? && sp.isMythical.value)
      && r.value.evolutionChain == (if sp.evolutionChain.Some? then sp.evolutionChain.value.url else None)
  {
    if !Truthy(url) then Some(NoSpeciesDetails)
    else match reply
      case Raised => None
      case Answered(status, body) =>
        if status != 200 then Some(NoSpeciesDetails)
        else match body
          case None => None
          case Some(sp) =>
            Some(SpeciesDetails(
              NameOf(sp.habitat), NameOf(sp.color),
              sp.isLegendary.GetOr(false), sp.isMythical.GetOr(false),
              UrlOf(sp.evolutionChain)))
  }

  /** `[t['type']['name'].capitalize() for t in slots]`: None where an entry
      raises, otherwise the capitalised names in slot order. */
  function TypeNames(slots: seq<Slot>): (r: Option<seq<string>>)
    ensures r.Some? <==> forall i :: 0 <= i < |slots| ==> TypeReadable(slots[i])
    ensures r.Some? ==>
      && |r.value| == |slots|
      && forall i :: 0 <= i < |slots| ==> r.value[i] == Capitalize(slots[i].entry.value.name.value)
  {
    var read := seq(|slots|, i requires 0 <= i < |slots| =>
      if TypeReadable(slots[i]) then Some(Capitalize(slots[i].entry.value.name.value)) else None);
    assert forall i :: 0 <= i < |slots| ==> (read[i].Some? <==> TypeReadable(slots[i]));
    AllPresent(read)
  }

  /** `[a['ability']['name'] for a in slots]`: None where an entry raises,
      otherwise the names in slot order, `None` for a `null` name. */
  function AbilityNames(slots: seq<Slot>): (r: Option<seq<Option<string>>>)
    ensures r.Some? <==> forall i :: 0 <= i < |slots| ==> AbilityReadable(slots[i])
    ensures r.Some? ==>
      && |r.value| == |slots|
      && forall i :: 0 <= i < |slots| ==>
           r.value[i] == (if slots[i].entry.value.name.Present? then Some(slots[i].entry.value.name.value) else None)
  {
    var read := seq(|slots|, i requires 0 <= i < |slots| =>
      if AbilityReadable(slots[i]) then Some(GetName(slots[i].entry.value.name)) else None);
    assert forall i :: 0 <= i < |slots| ==> (read[i].Some? <==> AbilityReadable(slots[i]));
    AllPresent(read)
  }

  /** `poke_data.get(key, [])`, then iterated: absent is `[]`, `null` raises. */
  function ListOf(slots: Field<seq<Slot>>): (r: Option<seq<Slot>>)
    ensures r.Some? <==> !slots.Null?
    ensures r.Some? ==> r.value == SlotsOf(slots)
  {
    match slots
    case Missing => Some([])
    case Null => None
    case Present(s) => Some(s)
  }

  /** `type_1`/`type_2`: the i-th type name, if there is one. */
  function NthType(types: seq<string>, i: nat): Option<string> {
    if i < |types| then Some(types[i]) else None
  }

  /** The part of `get_pokemon_data` after the primary body has parsed: the
      extraction from `data`, the species lookup answered by `species`, and
      the record. None where the code raises into its `except`. */
  function RecordFrom(data: PokemonPayload, species: Response<SpeciesPayload>): (r: Option<Record>)
    // failure policy: a `null` types, abilities or species value, a
    // malformed types or abilities entry, or a species request that raises
    // or whose body does not parse, drops the record
    ensures r.Some? <==>
      && !data.types.Null? && !data.abilities.Null? && !data.species.Null?
      && (forall i :: 0 <= i < |TypeSlots(data)| ==> TypeReadable(TypeSlots(data)[i]))
      && (forall i :: 0 <= i < |AbilitySlots(data)| ==> AbilityReadable(AbilitySlots(data)[i]))
      && (Truthy(SpeciesUrl(data)) ==> species.Answered? && (species.status == 200 ==> species.body.Some?))
    // primary fields, taken from the payload as they are
    ensures r.Some? ==>
      && r.value.id == data.id
      && r.value.name == data.name
      && r.value.height == data.height
      && r.value.weight == data.weight
      && r.value.category == (if data.species.Present? && data.species.value.name.Present? then Some(data.species.value.name.value) else None)
    // the first two types, capitalised; any further type is dropped
    ensures r.Some? ==>
      var types := TypeSlots(data);
      && r.value.type1 == (if |types| >= 1 then Some(Capitalize(types[0].entry.value.name.value)) else None)
      && r.value.type2 == (if |types| >= 2 then Some(Capitalize(types[1].entry.value.name.value)) else None)
    // every ability, in payload order (a `null` name kept as None)
    ensures r.Some? ==>
      var slots := AbilitySlots(data);
      && |r.value.abilities| == |slots|
      && forall i :: 0 <= i < |slots| ==>
           r.value.abilities[i] == (if slots[i].entry.value.name.Present? then Some(slots[i].entry.value.name.value) else None)
    // without a truthy species URL, or on a species status other than 200,
    // the five species fields keep their defaults
    ensures r.Some? && (!Truthy(SpeciesUrl(data)) || species.status != 200) ==>
      r.value == PrimaryPart(r.value)
    // after a species answer of 200, the five fields are what it gives
    ensures r.Some? && Truthy(SpeciesUrl(data)) && species.Answered? && species.status == 200 ==>
      ReadSpecies(SpeciesUrl(data), species) ==
        Some(SpeciesDetails(r.value.habitat, r.value.color, r.value.isLegendary, r.value.isMythical, r.value.evolutionChain))
  {
    var typeSlots := ListOf(data.types);
    var abilitySlots := ListOf(data.abilities);
    if typeSlots.None? || abilitySlots.None? || data.species.Null? then None
    else
      assert typeSlots.value == TypeSlots(data) && abilitySlots.value == AbilitySlots(data);
      match TypeNames(typeSlots.value)
      case None => None
      case Some(types) =>
        match AbilityNames(abilitySlots.value)
        case None => None
        case Some(abilities) =>
          match ReadSpecies(SpeciesUrl(data), species)
          case None => None
          case Some(details) =>
            Some(Record(
              data.id, data.name, NthType(types, 0), NthType(types, 1),
              data.height, data.weight, Category(data), abilities,
              details.habitat, details.color, details.isLegendary, details.isMythical, details.evolutionChain))
  }

  /** `get_pokemon_data`, with the primary request's outcome and the species
      request's outcome as inputs. A primary request that raises, answers
      with a status other than 200, or whose body does not parse yields no
      record; otherwise the record is built from the parsed body. */
  function GetPokemonData(primary: Response<PokemonPayload>, species: Response<SpeciesPayload>): (r: Option<Record>)
    ensures primary.Raised? || primary.status != 200 || primary.body.None? ==> r.None?
    ensures primary.Answered? && primary.status == 200 && primary.body.Some? ==>
      r == RecordFrom(primary.body.value, species)
  {
    match primary
    case Raised => None
    case Answered(status, body) =>
      if status != 200 then None
      else match body
        case None => None
        case Some(data) => RecordFrom(data, species)
  }

  /** Without a truthy species URL the species request is never made: its
      outcome does not matter. */
  lemma SpeciesUnusedWithoutUrl(data: PokemonPayload, s1: Response<SpeciesPayload>, s2: Response<SpeciesPayload>)
    requires !Truthy(SpeciesUrl(data))
    ensures RecordFrom(data, s1) == RecordFrom(data, s2)
  {
  }

  /** The asymmetric policy across two possible species answers: a refused
      species lookup (status other than 200) never loses a record that a
      successful one would have produced, and yields that same record with
      only the five species fields reset. */
  lemma RefusedSpeciesKeepsPrimary(data: PokemonPayload, good: Response<SpeciesPayload>, refused: Response<SpeciesPayload>)
    requires refused.Answered? && refused.status != 200
    requires RecordFrom(data, good).Some?
    ensures RecordFrom(data, refused) == Some(PrimaryPart(RecordFrom(data, good).value))
  {
  }
}
