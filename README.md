# PokeAPI scraper, modelled in Dafny

The program lists up to 1200 Pokémon names from PokeAPI. It looks each name
up (a primary request, then a species request when the primary payload names
a species URL) and merges the answers into one flat record. It appends every
record to an in-memory list, writes the whole list to `backup_pokemon.csv`
after every hundredth name, and writes it to `pokemon_data.csv` at the end.

This model turns every HTTP exchange into an input value:

- `Api.Response<P>` is either `Raised` (timeout or connection error) or
  `Answered(status, body)`. A body of `None` means `.json()` raised or the
  JSON is not the expected object.
- Payload keys that may be missing are `Option` fields or `Api.Field`s. An
  `Option` field is used where absent and `null` give the same result; a
  `Field` (missing, `null`, or a value) where they differ.
- A list comprehension whose element raises is `Options.AllPresent`, which
  gives all of the values or nothing.

The modules follow the script:

- `Enricher` models `get_pokemon_data` as a pure function returning
  `Option<Record>`. `None` is the `except` branch or the early `return None`.
- `Pipeline` models the listing as the function `ListNames`. The main loop is
  the method `Collect`, a `while` loop with a 1-based counter. It returns the
  accumulated list and the sequence of table writes (`Snapshot`s) in the
  order they are made. `Run` is the whole script.

The network is the parameter `upstream: string -> Exchange`. It gives, for
each name, the primary answer and the answer the species URL would give.
Only one species URL can be requested for a given primary payload, so one
species answer per name loses nothing.

Points where the code's behaviour is easy to misread:

- A species request that raises, or a species body that does not parse,
  drops the whole record. The species request and its `.json()`
  (`web_scraping/main.py:35-37`) sit inside the outer `try`
  (`web_scraping/main.py:8-69`). Only a missing or empty species URL, or a
  species status other than 200, keeps the primary data.
  `Enricher.RecordFrom` states exactly this.
- A 200 payload without `id` or `name` still gives a record. The code
  copies `poke_data.get('id')` and `.get('name')` as they are
  (`web_scraping/main.py:19-20`), so the model keeps them as `Option`s.
- The listing fails on a status only when `raise_for_status()` raises
  (`web_scraping/main.py:75`), that is, for statuses 400 to 599.
- A JSON `null` and a missing key are the same to `.get(key)` without a
  default: both give `None`. They differ under `.get(key, default)`, which
  gives `None` for a `null` and the default only for a missing key. The
  difference shows where the code then iterates or calls a method on the
  value (`types`, `abilities`, `species`), and where it stores the value (the
  two flags `is_legendary` and `is_mythical`). Indexing with `[key]` also
  tells the two apart: a missing key raises, a `null` does not. The keys
  where this matters, except the two flags, are `Field`s in the model:
  - A missing `types`, `abilities` or `species` key defaults (to `[]` or
    `{}`). A `null` one raises and drops the record.
  - A `null` type name raises at `.capitalize()`. A `null` ability name is
    kept as `None` in `abilities`.
  - A `null` entry name in the listing is kept. It then fails only its own
    lookup, at `.lower()` (`web_scraping/main.py:10`), inside the `try`. A
    missing entry name empties the whole listing.

## Model

| member | source | states |
|---|---|---|
| Options.AllPresent | web_scraping/main.py:21-27 | A comprehension gives a value exactly when every element is present. The result then has the same length and holds the elements' values in order. |
| Enricher.Capitalize | web_scraping/main.py:21 | `str.capitalize()` on ASCII. The length is kept and the result is capitalised. The string is unchanged when read case-insensitively. An already capitalised string is a fixed point, so the function is idempotent. |
| Enricher.TypeNames | web_scraping/main.py:21 | `[t['type']['name'].capitalize() for t in ...]` succeeds exactly when every slot has the `type` key and a string name. It then gives every name capitalised, in slot order. |
| Enricher.AbilityNames | web_scraping/main.py:27 | `[a['ability']['name'] for a in ...]` succeeds exactly when every slot has the `ability` key and a `name` key. It then gives every name in slot order, with `None` for a `null` name. |
| Enricher.ListOf | web_scraping/main.py:21-27 | `poke_data.get(key, [])`, then iterated: a missing key gives `[]`, a `null` one raises, and a list is itself. |
| Enricher.ReadSpecies | web_scraping/main.py:30-49 | The species step is fatal exactly when the URL is truthy and the request raises or a 200 body does not parse. A falsy URL or a non-200 status gives the defaults (None, None, False, False, None). A parsed 200 body gives habitat and color names, the two flags defaulting to False, and the evolution-chain URL. |
| Enricher.RecordFrom | web_scraping/main.py:19-65 | A record exists exactly when these all hold: `types`, `abilities` and `species` are not `null`; every types and abilities entry can be read; and the species step does not raise. id, name, height, weight and category (the species name) come from the payload. type_1/type_2 are the first and second types capitalised, else None, and later types are dropped. abilities are all the payload's ability names in order. A falsy species URL or a non-200 species status keeps the five species defaults. After a 200 species answer, the five species fields are exactly what the species step read from it. |
| Enricher.GetPokemonData | web_scraping/main.py:7-69 | A primary request that raises, a status other than 200, or an unparseable body gives no record. Otherwise the result is the extraction from the parsed body. |
| Enricher.SpeciesUnusedWithoutUrl | web_scraping/main.py:33-36 | With a missing or empty species URL, the species answer has no effect on the result. |
| Enricher.RefusedSpeciesKeepsPrimary | web_scraping/main.py:30-37 | Take a species answer that yields a record. A non-200 species answer for the same payload still yields a record: the same one with the five species fields reset. |
| Pipeline.ListNames | web_scraping/main.py:73-79 | In these cases the name list is empty: the listing raises, its status is 400-599, its body does not parse, it lacks `results`, or an entry lacks the `name` key. Otherwise it holds every entry's name, in order, with `None` for a `null` name. |
| Pipeline.Lookup | web_scraping/main.py:7-11 | A `null` listed name gives no record, because `.lower()` raises inside the `try` before any request. A string name gives the lookup of that name's upstream answers. |
| Pipeline.SuccessCount | web_scraping/main.py:85-92 | After N names with K failed lookups, the accumulated list has N - K rows. |
| Pipeline.AllRowsIffNoFailure | web_scraping/main.py:88-89 | The list never has more rows than names processed. It has as many exactly when no lookup failed. |
| Pipeline.SuccessesInOrder | web_scraping/main.py:85-89 | The list is the successful records at strictly increasing input positions, and every successful position is among them. So it holds exactly the successes, in input order. |
| Pipeline.SuccessMembers | web_scraping/main.py:86-89 | A record is in the list exactly when some lookup returned it. |
| Pipeline.SuccessesPrefix | web_scraping/main.py:82-89 | The list only grows: the list after the first i names is a prefix of the list after all of them. |
| Pipeline.BackupStep | web_scraping/main.py:94-96 | For the name at 1-based position idx, counting failures, a backup is added exactly when idx is a multiple of 100. It holds the successes among the first idx names. |
| Pipeline.RunLogUnique | web_scraping/main.py:85-103 | The description of a run's writes fixes a single log: two logs that both meet it for the same outcomes are equal. `Collect` is proved to produce such a log, so it writes the same snapshots with the same contents whenever the lookup answers are the same. |
| Pipeline.BackupsAtMultiples | web_scraping/main.py:85-103 | A backup is written after position p exactly when p is a multiple of 100. The final table is written once, as the last write. |
| Pipeline.SnapshotContents | web_scraping/main.py:95-103 | Every snapshot holds the successes among the names processed when it was written. It is a prefix of the final table. Its row count is the names processed minus the failures among them. |
| Pipeline.Collect | web_scraping/main.py:82-103 | The loop returns the successes of all lookups, in order. Its writes are one backup per multiple of 100 with the list at that moment, then the final table with the whole list. |
| Pipeline.Run | web_scraping/main.py:73-103 | The whole script writes the log of the loop over the listed names. A failed listing writes only an empty final table: no lookups and no backups. |

## Left out

- HTTP requests (`requests.get`, the 10-second timeouts, `raise_for_status`, `.json()`) are inputs. Each one is `Raised` or `Answered` with a parsed body or `None`.
- The `limit=1200` cap is applied by the server. The model takes whatever the listing returns.
- The URL strings and the `.lower()` of a string name only decide which request is sent. Requests are inputs here, so these are not modelled. The `.lower()` of a `null` name is modelled, since it raises (Pipeline.Lookup).
- The CSV serialisation by pandas (header row, empty cells for missing values) and the overwriting of files are not modelled. A snapshot is the file path plus the list at that moment. The `after` field records how many names had been processed, so that "when" can be stated.
- The progress bar, the console lines and the one-second `time.sleep` have no effect on the data and are not modelled.
- Enricher.Capitalize: handles ASCII letters only. Python's `str.capitalize()` title-cases and lower-cases the full Unicode repertoire.
- Payload values are typed. The type errors Python would raise into the `except` for values of the wrong JSON type are not modelled. Examples are a type name that is a number, a `types` value that is a non-empty object, and a truthy non-object `habitat`. Such payloads cannot be written in the model.
- Enricher.ReadSpecies: the flags are `bool` or absent. A JSON `null` `is_legendary`/`is_mythical`, which the code stores as `None`, cannot be written.
- `Option` fields merge a missing key with a JSON `null`. They are used only where the code treats both alike (`.get` followed by a truthiness test or by copying): id, name, height, weight, habitat, color, the evolution chain, the urls, the listing's `results`, and the slot entries under `type`/`ability`, where indexing raises on both. The keys where the two differ are `Field`s.
- Pipeline.Run: the network is a function of the name. A name listed twice gets the same answers both times, where the real upstream could answer differently.
