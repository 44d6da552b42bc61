/** What the upstream HTTP API answers, as values. A request either raised
    (timeout, connection error) or was answered with a status and a body; a
    body that does not parse as the expected JSON object is `None`. A key
    whose absence and `null` value the program treats alike is an `Option`
    field (`None` is either), and a key where the two differ is a `Field`;
    the one exception is the two species flags, `Option`s although the
    program stores `None` for a `null` flag and `False` for a missing one. */
module Api {
  import opened Options

  datatype Response<P> =
    | Raised
    | Answered(status: int, body: Option<P>)

  /** One key of a JSON object: absent, present with `null`, or present with
      a value. */
  datatype Field<T> = Missing | Null | Present(value: T)

  /** A nested object with optional `name` and `url` keys (a named resource:
      a type, an ability, a species, a habitat, a color, an evolution chain,
      or one entry of the listing). */
  datatype Resource = Resource(name: Field<string>, url: Option<string>)

  /** One element of `types` or `abilities`: the object under its `type`
      (respectively `ability`) key, if that key is present. Indexing raises
      on a missing key and on a `null` one alike. */
  datatype Slot = Slot(entry: Option<Resource>)

  /** The body of `GET /pokemon/{name}`. */
  datatype PokemonPayload = PokemonPayload(
    id: Option<int>,
    name: Option<string>,
    types: Field<seq<Slot>>,
    height: Option<int>,
    weight: Option<int>,
    species: Field<Resource>,
    abilities: Field<seq<Slot>>)

  /** The body of `GET {species.url}`. */
  datatype SpeciesPayload = SpeciesPayload(
    habitat: Option<Resource>,
    color: Option<Resource>,
    isLegendary: Option<bool>,
    isMythical: Option<bool>,
    evolutionChain: Option<Resource>)

  /** The body of `GET /pokemon?limit=1200`. */
  datatype ListingPayload = ListingPayload(results: Option<seq<Resource>>)

}
