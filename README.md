# openFDA label lookup and cross-mention check

This project models the label lookup of the drug-interaction checker in
`src/openfda.py`. It covers three operations:

- **`_fetch_label(name)`**: asks the openFDA drug-label endpoint for one label.
  It searches the `openfda.generic_name` field first and the
  `openfda.brand_name` field second, with an exact-phrase search and a limit of
  one result. A 404 moves on to the next field. Any other error status raises.
  The first result of the first non-empty `results` list is returned. When no
  field gives a result, the answer is `None`.
- **`get_interaction_text(name)`**: fetches the label and copies four sections
  into a dict, in this fixed order: `drug_interactions`,
  `warnings_and_cautions`, `warnings`, `precautions`. A list value becomes its
  first two blocks joined by a blank line. A string value is kept as it is.
  Any other value is skipped.
- **`simple_crosscheck(a, b)`**: fetches both drugs' sections again. It
  lower-cases each `drug_interactions` text and the other drug's name. It
  notes each side whose non-empty text contains the other name, A's note
  first.

The HTTP endpoint becomes an *oracle*: a total function from the request
parameters (`search`, `limit`) to a response. A response is either a reply
(status code plus a decoded body) or no reply at all. Each operation is an
imperative method. `FetchLabel` loops over the two fields, `GetInteractionText`
fills the section dict in a `for` loop, and `SimpleCrosscheck` appends notes.
Each method is proved equal to a specification function (`Resolve`,
`InteractionText`, `Crosscheck`). The properties of the lookup are then proved
about those functions.

Files:

- `label.dfy` (module `Label`): decoded field values, label records,
  responses, the oracle, the lookup exceptions.
- `text.dfy` (module `Text`): `str.join`, ASCII `str.lower`, and the
  substring test `in`.
- `sections.dfy` (module `Sections`): the insertion-ordered section dict and
  the flattening of fields.
- `openfda.dfy` (module `OpenFda`): the three operations and their properties.
- `scenarios.dfy` (module `Scenarios`): lookups against small fixed databases.

Behaviours of the code worth stating outright:

- An empty string or empty list is kept as a `""` section.
- A note names the drugs as the caller typed them, as in "Label for Alpha
  mentions Beta ...". It does not use the lower-cased names.
- The lookup returns `results[0]` even when that record is empty. It does not
  go on to the brand-name field in that case. `get_interaction_text` then
  returns an empty dict.
- A 404 moves on without reading the body. A status from 400 to 599 other
  than 404 raises `raise_for_status`'s error before the body is decoded. With any
  other status (a 2xx, a 3xx, or 600 and above), a body that is not JSON
  raises `resp.json()`'s decoding error, and a JSON body that is not an
  object (such as `[]`, `null` or `"x"`) raises `AttributeError` at
  `data.get`. The model raises `Malformed` for both.

## Model

| member | source | states |
|---|---|---|
| `OpenFda.FetchLabel` | src/openfda.py:6-21 | The loop over the two fields returns exactly `Resolve(oracle, name)`: generic name first, brand name second, a 404 continues, an error status or a failed request raises, and the first result of the first non-empty list is returned. |
| `OpenFda.ResponseClasses` | src/openfda.py:13-20 | Every response either continues the lookup (404 or empty results), ends it with a result, or ends it with an exception, and never two of these. |
| `OpenFda.ResolveFromNone` | src/openfda.py:11-21 | The lookup returns no label if and only if every field's reply is a 404 or a successful reply with an empty `results` list. |
| `OpenFda.ResolveFromHit` | src/openfda.py:11-20 | If every earlier field had no match and field k has results, the lookup returns field k's first result. Later fields do not matter. |
| `OpenFda.ResolveFromFails` | src/openfda.py:13-17 | If every earlier field had no match and field k fails, the lookup raises field k's exception (transport, HTTP status, or malformed body) instead of returning no label. |
| `OpenFda.ResolveFromOnlyAsks` | src/openfda.py:11-13 | The outcome depends only on the database's answers to the searches of the listed fields for this name. |
| `OpenFda.GenericNameFirst` | src/openfda.py:11-20 | When the generic-name search has results, its first result is the label, and any database that gives the same generic-name answer gives the same outcome. The brand-name search is never needed. |
| `OpenFda.NotFoundFallsThrough` | src/openfda.py:14-15 | A 404 on the generic-name field leaves the outcome to the brand-name field alone. |
| `OpenFda.ErrorStatusStops` | src/openfda.py:14-16 | An error status other than 404 on the generic-name field raises that status. It does not return no label. |
| `OpenFda.GetInteractionText` | src/openfda.py:23-39 | The fetch and the `for` loop over the four keys return exactly `InteractionText(oracle, name)`. A failed fetch passes its exception on, and no label or an empty label gives an empty dict. |
| `OpenFda.InteractionTextShape` | src/openfda.py:33-38 | For a found label, the dict holds exactly the recognised keys whose field flattens to a text. Each key maps to that text, and the keys are in the fixed declaration order. |
| `OpenFda.InteractionTextWithoutLabel` | src/openfda.py:28-31 | No label, or an empty label, gives an empty dict. The call raises exactly when the lookup raises, with the same exception, and no partial dict is returned. |
| `OpenFda.CrossNotes` | src/openfda.py:47-52 | There is one note per side whose lower-cased non-empty text contains the other lower-cased name. So there are at most two notes, A's note first and B's note last. |
| `OpenFda.CrosscheckSections` | src/openfda.py:45-52 | Lower-casing the two `drug_interactions` texts (default `""`) and appending the guarded notes gives `CrossNotes` of those texts. |
| `OpenFda.SimpleCrosscheck` | src/openfda.py:41-52 | Fetching A's sections, then B's, then building the notes returns exactly `Crosscheck(oracle, a, b)`. A failed fetch raises its exception. |
| `OpenFda.MentionIgnoresCase` | src/openfda.py:45-48 | A name that appears in the text in any letter-casing is detected. |
| `OpenFda.CrossNotesIgnoreCase` | src/openfda.py:45-51 | Changing the letter-casing of the names or the texts changes no decision and not the number of notes. |
| `OpenFda.EmptyNameIsMentioned` | src/openfda.py:48 | Only the text is guarded. An empty name counts as mentioned by every non-empty text, and by no empty text. |
| `OpenFda.NoLabelsNoNotes` | src/openfda.py:28-52 | Two drugs without labels give empty dicts, and the cross-check returns no notes and raises nothing. |
| `OpenFda.SilentLabelNotesNothing` | src/openfda.py:45-51 | A drug with no label, or whose label has no `drug_interactions` text, gets the default `""` and is never the subject of a note. At most one note results, the other drug's. |
| `OpenFda.CrosscheckErrors` | src/openfda.py:45-46 | The cross-check raises exactly when one of the two lookups raises. A's exception takes precedence. |
| `OpenFda.RepeatedLookupsAgree` | src/openfda.py:28-52 | Against an unchanged database, repeated `get_interaction_text` and `simple_crosscheck` calls return equal results. |
| `Sections.SectionMap.Put` | src/openfda.py:36-38 | `d[key] = value` keeps the dict well formed. A new key goes last in the order, and an existing key keeps its place. |
| `Sections.FlattenCases` | src/openfda.py:34-38 | A string flattens to itself. A list flattens to `""`, to its only block, or to its first two blocks joined by `"\n\n"`. Any other value gives no section. |
| `Sections.FlattenKeepsFirstBlocks` | src/openfda.py:35-36 | Each of a list's first two blocks occurs in its flattened text. |
| `Sections.FlattenIgnoresLaterBlocks` | src/openfda.py:36 | Blocks at index 2 and beyond never reach the text: lists that agree on their first two blocks flatten alike. |
| `Sections.SectionsFrom` | src/openfda.py:33-38 | Visiting keys in order and inserting the flattened ones gives a dict whose keys are exactly the visited keys with a text. Each key maps to its flattened text, and the insertion order follows the key list. |
| `Sections.SectionKeysDistinct` | src/openfda.py:33 | The four recognised keys are distinct. |
| `Sections.NoFieldsNoSections` | src/openfda.py:30-31 | A label with no fields gives an empty dict. |
| `Text.JoinKeepsParts` | src/openfda.py:36 | Every joined block occurs in the joined text. |
| `Text.LowerChar` | src/openfda.py:45-46 | Lower-casing leaves no upper-case ASCII letter, keeps every other character, and shifts A-Z to a-z. |
| `Text.Lower` | src/openfda.py:45-46 | `s.lower()` keeps the length and leaves no upper-case letter. Every other character stays in place, and each upper-case letter becomes its lower-case partner. |
| `Text.LowerSlice` | src/openfda.py:45-48 | Lower-casing commutes with slicing. |
| `Text.ContainsEmpty` | src/openfda.py:48 | `"" in text` holds for every text. |
| `Text.ContainsIgnoringCase` | src/openfda.py:45-48 | A slice equal to the pattern up to case makes the lower-cased pattern a substring of the lower-cased text. |
| `Scenarios.AlphaBetaLookups` | src/openfda.py:28-38 | With generic-name labels for Alpha and Beta, each lookup finds its own label and its `drug_interactions` text. |
| `Scenarios.AlphaTextMentionsBeta` | src/openfda.py:48 | "Concurrent use with BETA increases risk." mentions Beta. |
| `Scenarios.BetaTextOmitsAlpha` | src/openfda.py:50 | "No significant interactions noted." does not mention Alpha. |
| `Scenarios.OneSidedMention` | src/openfda.py:45-52 | Alpha's text mentions Beta but Beta's text does not mention Alpha. Exactly one note results, "Label for Alpha mentions Beta in 'Drug Interactions'." |
| `Scenarios.NeitherLabelExists` | src/openfda.py:18-21 | A database that answers 404 to everything gives empty dicts and no notes. |
| `Scenarios.ServerErrorRaises` | src/openfda.py:16 | A status 500 raises an HTTP-status exception for the generic-name field, and no dict is returned. |
| `Scenarios.ThirdBlockDropped` | src/openfda.py:35-36 | A three-block `drug_interactions` list yields block 1, a blank line and block 2, and block 3 is dropped. |

## Left out

- The HTTP transport: the base URL, `requests.get` and the 20-second timeout. The oracle supplies each response's status and decoded body, and the model itself applies `raise_for_status`'s rule (statuses 400-599 raise) and `resp.json()`'s failure (a `NotJson` body raises). A timeout or connection error is a response with no reply. Sockets, JSON parsing and timing are not modelled.
- The oracle is a function, so one call sees an unchanging database. A remote database that changes between the two searches of one lookup, or between the two fetches of the cross-check, is not modelled.
- Text.Lower: lower-cases only the ASCII letters A-Z. Python's Unicode `str.lower()`, with its multi-character and non-ASCII mappings, is not modelled.
- JSON shapes that the decoding layer would have to reject are not modelled: a `results` member that is not a list, and a result that is not an object. A field value is either a string, a list of strings, or "other". A body that fails to decode and a decoded body that is not a JSON object are one case, `NotJson`, and both raise `Malformed`; the model does not tell the decoding error from the `AttributeError` that `data.get` raises on a non-object.
- List-valued fields with non-string elements: `join` raises `TypeError` only when one of the first two elements is not a string. The source accepts a list whose later elements are not strings, since it slices `val[:2]` before joining. The model's `Blocks` holds only strings, so it can represent neither case.
- Sequential order inside `simple_crosscheck`: the model lower-cases A's text after B's fetch rather than before. Lower-casing is pure, so the results are the same.
- `app.py` and `main.py`, the Streamlit page and the interactive command line, are presentation code that only calls `get_interaction_text` and `simple_crosscheck`. Their display truncation is not part of this model.
- Concurrency: the source runs the lookups one after another, and nothing in the model depends on parallelism.
