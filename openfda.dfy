/**
 * The label lookup and cross-mention check of `src/openfda.py`:
 * `_fetch_label` (FetchLabel), `get_interaction_text` (GetInteractionText)
 * and `simple_crosscheck` (SimpleCrosscheck). Each method is proved equal to
 * a specification function (Resolve, InteractionText, Crosscheck), and the
 * properties of the lookup are proved about those functions.
 */
module OpenFda {
  import opened Label
  import opened Text
  import opened Sections

  /** The two search fields, in the order they are tried. */
  const GenericNameField: string := "openfda.generic_name"
  const BrandNameField: string := "openfda.brand_name"
  const SearchFields: seq<string> := [GenericNameField, BrandNameField]

  /** Every request asks for at most one result. */
  const ResultLimit: nat := 1
  const NotFoundStatus: int := 404

  /** The section that the cross-check reads. */
  const DrugInteractionsKey: string := "drug_interactions"

  /** The request parameters for an exact-phrase search of `name` in `field`. */
  function Request(field: string, name: string): Query {
    Query(field + ":\"" + name + "\"", ResultLimit)
  }

  /** The statuses for which `raise_for_status` raises. */
  predicate IsErrorStatus(status: int) {
    400 <= status < 600
  }

  // ---------------------------------------------------------------------
  // _fetch_label
  // ---------------------------------------------------------------------

  /** A reply that sends the lookup on to the next field: a 404, or a
      successful reply whose `results` list is empty. */
  predicate NoMatch(resp: Response) {
    resp.Reply? &&
    (resp.status == NotFoundStatus ||
     (!IsErrorStatus(resp.status) && resp.body.Json? && resp.body.results == []))
  }

  /** A reply that ends the lookup with its first result. */
  predicate Hit(resp: Response) {
    resp.Reply? && resp.status != NotFoundStatus && !IsErrorStatus(resp.status) &&
    resp.body.Json? && resp.body.results != []
  }

  /** A response that ends the lookup with an exception. */
  predicate Fails(resp: Response) {
    resp.Unreachable? ||
    (resp.status != NotFoundStatus && (IsErrorStatus(resp.status) || resp.body.NotJson?))
  }

  /** The exception a failing response raises for `field`. */
  function FailureOf(resp: Response, field: string): LookupError
    requires Fails(resp)
  {
    if resp.Unreachable? then Transport(field)
    else if IsErrorStatus(resp.status) then HttpStatus(field, resp.status)
    else Malformed(field)
  }

  /** Every response falls in exactly one of the three classes. */
  lemma ResponseClasses(resp: Response)
    ensures NoMatch(resp) || Hit(resp) || Fails(resp)
    ensures !(NoMatch(resp) && Hit(resp)) && !(NoMatch(resp) && Fails(resp)) && !(Hit(resp) && Fails(resp))
  {
  }

  /** The outcome of trying `fields` in order. */
  function ResolveFrom(oracle: Oracle, fields: seq<string>, name: string): Outcome<Option<LabelRecord>>
    decreases |fields|
  {
    if fields == [] then Ok(None)
    else
      var resp := oracle(Request(fields[0], name));
      match resp
      case Unreachable => Err(Transport(fields[0]))
      case Reply(status, body) =>
        if status == NotFoundStatus then ResolveFrom(oracle, fields[1..], name)
        else if IsErrorStatus(status) then Err(HttpStatus(fields[0], status))
        else if body.NotJson? then Err(Malformed(fields[0]))
        else if body.results != [] then Ok(Some(body.results[0]))
        else ResolveFrom(oracle, fields[1..], name)
  }

  /** The outcome of `_fetch_label(name)`. */
  function Resolve(oracle: Oracle, name: string): Outcome<Option<LabelRecord>> {
    ResolveFrom(oracle, SearchFields, name)
  }

  /** `_fetch_label`: tries the generic-name field, then the brand-name field. */
  method FetchLabel(oracle: Oracle, name: string) returns (r: Outcome<Option<LabelRecord>>)
    ensures r == Resolve(oracle, name)
  {
    for i := 0 to |SearchFields|
      invariant ResolveFrom(oracle, SearchFields[i..], name) == Resolve(oracle, name)
    {
      var field := SearchFields[i];
      assert SearchFields[i..][1..] == SearchFields[i + 1..];
      var resp := oracle(Request(field, name));
      if resp.Unreachable? {
        return Err(Transport(field));
      }
      if resp.status == NotFoundStatus {
        continue;
      }
      if IsErrorStatus(resp.status) {
        return Err(HttpStatus(field, resp.status));
      }
      if resp.body.NotJson? {
        return Err(Malformed(field));
      }
      var results := resp.body.results;
      if results != [] {
        return Ok(Some(results[0]));
      }
    }
    return Ok(None);
  }

  /** The lookup finds no label exactly when every field's reply is a 404 or
      an empty result list. */
  lemma {:induction false} ResolveFromNone(oracle: Oracle, fields: seq<string>, name: string)
    ensures ResolveFrom(oracle, fields, name) == Ok(None) <==>
            forall i :: 0 <= i < |fields| ==> NoMatch(oracle(Request(fields[i], name)))
    decreases |fields|
  {
    if fields != [] {
      ResolveFromNone(oracle, fields[1..], name);
      assert forall i :: 1 <= i < |fields| ==> fields[i] == fields[1..][i - 1];
      ResponseClasses(oracle(Request(fields[0], name)));
    }
  }

  /** When every earlier field had no match and field `k` replies with
      results, the lookup returns that reply's first result. */
  lemma {:induction false} ResolveFromHit(oracle: Oracle, fields: seq<string>, name: string, k: nat)
    requires k < |fields|
    requires forall i :: 0 <= i < k ==> NoMatch(oracle(Request(fields[i], name)))
    requires Hit(oracle(Request(fields[k], name)))
    ensures ResolveFrom(oracle, fields, name) == Ok(Some(oracle(Request(fields[k], name)).body.results[0]))
    decreases k
  {
    if k > 0 {
      assert NoMatch(oracle(Request(fields[0], name)));
      assert forall i :: 0 <= i < k - 1 ==> fields[1..][i] == fields[i + 1];
      ResolveFromHit(oracle, fields[1..], name, k - 1);
    }
  }

  /** When every earlier field had no match and field `k` fails, the lookup
      raises that field's exception and tries no further field. */
  lemma {:induction false} ResolveFromFails(oracle: Oracle, fields: seq<string>, name: string, k: nat)
    requires k < |fields|
    requires forall i :: 0 <= i < k ==> NoMatch(oracle(Request(fields[i], name)))
    requires Fails(oracle(Request(fields[k], name)))
    ensures ResolveFrom(oracle, fields, name) == Err(FailureOf(oracle(Request(fields[k], name)), fields[k]))
    decreases k
  {
    if k > 0 {
      assert NoMatch(oracle(Request(fields[0], name)));
      assert forall i :: 0 <= i < k - 1 ==> fields[1..][i] == fields[i + 1];
      ResolveFromFails(oracle, fields[1..], name, k - 1);
    }
  }

  /** The lookup consults the database only about `fields`: two databases that
      answer those requests alike give the same outcome. */
  lemma {:induction false} ResolveFromOnlyAsks(o1: Oracle, o2: Oracle, fields: seq<string>, name: string)
    requires forall i :: 0 <= i < |fields| ==> o1(Request(fields[i], name)) == o2(Request(fields[i], name))
    ensures ResolveFrom(o1, fields, name) == ResolveFrom(o2, fields, name)
    decreases |fields|
  {
    if fields != [] {
      assert forall i :: 0 <= i < |fields| - 1 ==> fields[1..][i] == fields[i + 1];
      ResolveFromOnlyAsks(o1, o2, fields[1..], name);
    }
  }

  /** The generic-name field wins: when it replies with results, the first of
      them is the label, and the brand-name reply does not matter. */
  lemma GenericNameFirst(oracle: Oracle, other: Oracle, name: string)
    requires Hit(oracle(Request(GenericNameField, name)))
    requires other(Request(GenericNameField, name)) == oracle(Request(GenericNameField, name))
    ensures Resolve(oracle, name) == Ok(Some(oracle(Request(GenericNameField, name)).body.results[0]))
    ensures Resolve(other, name) == Resolve(oracle, name)
  {
    ResolveFromHit(oracle, SearchFields, name, 0);
    ResolveFromHit(other, SearchFields, name, 0);
  }

  /** A 404 on the generic-name field hands the lookup to the brand-name field. */
  lemma NotFoundFallsThrough(oracle: Oracle, name: string)
    requires oracle(Request(GenericNameField, name)).Reply?
    requires oracle(Request(GenericNameField, name)).status == NotFoundStatus
    ensures Resolve(oracle, name) == ResolveFrom(oracle, [BrandNameField], name)
  {
    assert SearchFields[1..] == [BrandNameField];
  }

  /** An error status on the generic-name field raises instead of returning
      no label, whatever the brand-name field would have said. */
  lemma ErrorStatusStops(oracle: Oracle, name: string)
    requires oracle(Request(GenericNameField, name)).Reply?
    requires oracle(Request(GenericNameField, name)).status != NotFoundStatus
    requires IsErrorStatus(oracle(Request(GenericNameField, name)).status)
    ensures Resolve(oracle, name) == Err(HttpStatus(GenericNameField, oracle(Request(GenericNameField, name)).status))
  {
  }

  // ---------------------------------------------------------------------
  // get_interaction_text
  // ---------------------------------------------------------------------

  /** The outcome of `get_interaction_text(name)`: the lookup's exception, or
      the section map of the label found (no sections when there is none). */
  function InteractionText(oracle: Oracle, name: string): Outcome<SectionMap> {
    SectionKeysDistinct();
    match Resolve(oracle, name)
    case Err(e) => Err(e)
    case Ok(None) => Ok(NoSections)
    case Ok(Some(record)) => Ok(SectionsOf(record))
  }

  /** `get_interaction_text`: fetch the label, then copy the four recognised
      sections, flattened, in their fixed order. */
  method GetInteractionText(oracle: Oracle, name: string) returns (r: Outcome<SectionMap>)
    ensures r == InteractionText(oracle, name)
  {
    var fetched := FetchLabel(oracle, name);
    if fetched.Err? {
      return Err(fetched.error);
    }
    var sections := NoSections;
    if fetched.value.None? || fetched.value.value == map[] {
      SectionKeysDistinct();
      NoFieldsNoSections(SectionKeys);
      return Ok(sections);
    }
    var record := fetched.value.value;
    SectionKeysDistinct();
    for i := 0 to |SectionKeys|
      invariant Distinct(SectionKeys[..i])
      invariant sections == SectionsFrom(record, SectionKeys[..i])
    {
      var key := SectionKeys[i];
      SectionsFromStep(record, SectionKeys, i);
      if key in record {
        match record[key]
        case Blocks(blocks) =>
          var kept := if |blocks| < MaxBlocks then |blocks| else MaxBlocks;
          sections := sections.Put(key, Join(BlockSeparator, blocks[..kept]));
        case Text(text) =>
          sections := sections.Put(key, text);
        case Other =>
      }
    }
    assert SectionKeys[..|SectionKeys|] == SectionKeys;
    return Ok(sections);
  }

  /** The section map holds only recognised keys, each with the flattened
      text of that field of the label found, in the fixed key order. */
  lemma InteractionTextShape(oracle: Oracle, name: string, record: LabelRecord)
    requires Resolve(oracle, name) == Ok(Some(record))
    ensures InteractionText(oracle, name).Ok?
    ensures var m := InteractionText(oracle, name).value;
      && m.Valid()
      && (forall k :: k in m.text <==> k in SectionKeys && SectionText(record, k).Some?)
      && (forall k :: k in m.text ==> Some(m.text[k]) == SectionText(record, k))
      && (forall i, j :: 0 <= i < j < |m.order| ==>
            IndexOf(SectionKeys, m.order[i]) < IndexOf(SectionKeys, m.order[j]))
  {
    SectionKeysDistinct();
  }

  /** No label, or an empty one, gives an empty section map; a failed lookup
      gives the exception and no map at all. */
  lemma InteractionTextWithoutLabel(oracle: Oracle, name: string)
    ensures Resolve(oracle, name) == Ok(None) ==> InteractionText(oracle, name) == Ok(NoSections)
    ensures Resolve(oracle, name) == Ok(Some(map[])) ==> InteractionText(oracle, name) == Ok(NoSections)
    ensures Resolve(oracle, name).Err? <==> InteractionText(oracle, name).Err?
    ensures Resolve(oracle, name).Err? ==> InteractionText(oracle, name).error == Resolve(oracle, name).error
  {
    SectionKeysDistinct();
    NoFieldsNoSections(SectionKeys);
  }

  // ---------------------------------------------------------------------
  // simple_crosscheck
  // ---------------------------------------------------------------------

  /** The note that `subject`'s label mentions `other`. */
  function Note(subject: string, other: string): string {
    "Label for " + subject + " mentions " + other + " in 'Drug Interactions'."
  }

  /** The test of `simple_crosscheck`: the lower-cased text is non-empty and
      holds the lower-cased name. */
  predicate Mentions(text: string, name: string) {
    Lower(text) != [] && Contains(Lower(text), Lower(name))
  }

  /** The notes for drugs `a` and `b` whose interaction texts are `textA` and
      `textB`: one note per side whose text mentions the other drug, A's first. */
  function CrossNotes(a: string, textA: string, b: string, textB: string): (notes: seq<string>)
    ensures |notes| == (if Mentions(textA, b) then 1 else 0) + (if Mentions(textB, a) then 1 else 0)
    ensures Mentions(textA, b) ==> notes[0] == Note(a, b)
    ensures Mentions(textB, a) ==> notes[|notes| - 1] == Note(b, a)
  {
    (if Mentions(textA, b) then [Note(a, b)] else []) +
    (if Mentions(textB, a) then [Note(b, a)] else [])
  }

  /** The outcome of `simple_crosscheck(a, b)`. */
  function Crosscheck(oracle: Oracle, a: string, b: string): Outcome<seq<string>> {
    match InteractionText(oracle, a)
    case Err(e) => Err(e)
    case Ok(sectionsA) =>
      match InteractionText(oracle, b)
      case Err(e) => Err(e)
      case Ok(sectionsB) =>
        Ok(CrossNotes(a, sectionsA.Get(DrugInteractionsKey, ""), b, sectionsB.Get(DrugInteractionsKey, "")))
  }

  /** Once both section maps are known, the cross-check is their notes. */
  lemma CrosscheckOfSections(oracle: Oracle, a: string, b: string, sectionsA: SectionMap, sectionsB: SectionMap)
    requires InteractionText(oracle, a) == Ok(sectionsA) && InteractionText(oracle, b) == Ok(sectionsB)
    ensures Crosscheck(oracle, a, b) ==
            Ok(CrossNotes(a, sectionsA.Get(DrugInteractionsKey, ""), b, sectionsB.Get(DrugInteractionsKey, "")))
  {
  }

  /** The note-building half of `simple_crosscheck`, over section maps already
      fetched: lower-case each drug's interaction text and the other drug's
      name, and note each side whose non-empty text holds the name. */
  method CrosscheckSections(a: string, sectionsA: SectionMap, b: string, sectionsB: SectionMap)
    returns (notes: seq<string>)
    ensures notes == CrossNotes(a, sectionsA.Get(DrugInteractionsKey, ""), b, sectionsB.Get(DrugInteractionsKey, ""))
  {
    var textA := Lower(sectionsA.Get(DrugInteractionsKey, ""));
    var textB := Lower(sectionsB.Get(DrugInteractionsKey, ""));
    notes := [];
    if textA != [] && Contains(textA, Lower(b)) {
      notes := notes + [Note(a, b)];
    }
    if textB != [] && Contains(textB, Lower(a)) {
      notes := notes + [Note(b, a)];
    }
  }

  /** `simple_crosscheck`: fetch both drugs' sections afresh, A's first, then
      build the notes from them. */
  method SimpleCrosscheck(oracle: Oracle, a: string, b: string) returns (r: Outcome<seq<string>>)
    ensures r == Crosscheck(oracle, a, b)
  {
    var sectionsA := GetInteractionText(oracle, a);
    if sectionsA.Err? {
      return Err(sectionsA.error);
    }
    var sectionsB := GetInteractionText(oracle, b);
    if sectionsB.Err? {
      return Err(sectionsB.error);
    }
    var notes := CrosscheckSections(a, sectionsA.value, b, sectionsB.value);
    CrosscheckOfSections(oracle, a, b, sectionsA.value, sectionsB.value);
    return Ok(notes);
  }

  /** A name is found in any letter-casing: if some slice of the text equals
      the name up to case, the text mentions the name. */
  lemma MentionIgnoresCase(text: string, name: string, i: nat)
    requires name != []
    requires i + |name| <= |text|
    requires Lower(text[i..i + |name|]) == Lower(name)
    ensures Mentions(text, name)
  {
    ContainsIgnoringCase(text, name, i);
  }

  /** Changing the letter-casing of the names or of the texts changes no
      decision, only the names as they are written in the notes. */
  lemma CrossNotesIgnoreCase(a: string, textA: string, b: string, textB: string,
                             a': string, textA': string, b': string, textB': string)
    requires Lower(a) == Lower(a') && Lower(b) == Lower(b')
    requires Lower(textA) == Lower(textA') && Lower(textB) == Lower(textB')
    ensures |CrossNotes(a, textA, b, textB)| == |CrossNotes(a', textA', b', textB')|
    ensures Mentions(textA, b) == Mentions(textA', b') && Mentions(textB, a) == Mentions(textB', a')
  {
  }

  /** Only the text is guarded: an empty name is mentioned by every non-empty
      text. */
  lemma EmptyNameIsMentioned(text: string)
    ensures Mentions(text, "") <==> text != []
  {
    ContainsEmpty(Lower(text));
  }

  /** A drug without a label has no interaction text, so it mentions nothing
      and the cross-check of two unlabelled drugs raises nothing and notes
      nothing. */
  lemma NoLabelsNoNotes(oracle: Oracle, a: string, b: string)
    requires Resolve(oracle, a) == Ok(None) && Resolve(oracle, b) == Ok(None)
    ensures InteractionText(oracle, a) == Ok(NoSections) && InteractionText(oracle, b) == Ok(NoSections)
    ensures Crosscheck(oracle, a, b) == Ok([])
  {
  }

  /** A drug whose label has no interaction text, because there is no label,
      no `drug_interactions` field or a value that is neither text nor a list,
      gets the default `""` and so is never the subject of a note: only the
      other drug's note can appear. */
  lemma SilentLabelNotesNothing(oracle: Oracle, a: string, b: string)
    requires Resolve(oracle, a).Ok? && Resolve(oracle, b).Ok?
    requires Resolve(oracle, a).value.None? ||
             SectionText(Resolve(oracle, a).value.value, DrugInteractionsKey).None?
    ensures Crosscheck(oracle, a, b).Ok?
    ensures |Crosscheck(oracle, a, b).value| <= 1
    ensures forall n :: n in Crosscheck(oracle, a, b).value ==> n == Note(b, a)
  {
    InteractionTextWithoutLabel(oracle, a);
    InteractionTextWithoutLabel(oracle, b);
    if Resolve(oracle, a).value.Some? {
      InteractionTextShape(oracle, a, Resolve(oracle, a).value.value);
    }
  }

  /** The cross-check raises exactly when one of the two lookups raises, and
      then it raises the first drug's exception first. */
  lemma CrosscheckErrors(oracle: Oracle, a: string, b: string)
    ensures Crosscheck(oracle, a, b).Err? <==> Resolve(oracle, a).Err? || Resolve(oracle, b).Err?
    ensures Resolve(oracle, a).Err? ==> Crosscheck(oracle, a, b) == Err(Resolve(oracle, a).error)
    ensures Resolve(oracle, a).Ok? && Resolve(oracle, b).Err? ==>
              Crosscheck(oracle, a, b) == Err(Resolve(oracle, b).error)
  {
    InteractionTextWithoutLabel(oracle, a);
    InteractionTextWithoutLabel(oracle, b);
  }

  /** Against an unchanged database, repeating the calls repeats the answers. */
  method RepeatedLookupsAgree(oracle: Oracle, a: string, b: string)
    returns (sections1: Outcome<SectionMap>, sections2: Outcome<SectionMap>,
             notes1: Outcome<seq<string>>, notes2: Outcome<seq<string>>)
    ensures sections1 == sections2 && notes1 == notes2
  {
    sections1 := GetInteractionText(oracle, a);
    notes1 := SimpleCrosscheck(oracle, a, b);
    sections2 := GetInteractionText(oracle, a);
    notes2 := SimpleCrosscheck(oracle, a, b);
  }
}
