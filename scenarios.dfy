/**
 * Concrete lookups against small fixed label databases.
 */
module Scenarios {
  import opened Label
  import opened Text
  import opened Sections
  import opened OpenFda

  const AlphaText: string := "Concurrent use with BETA increases risk."
  const BetaText: string := "No significant interactions noted."

  /** A database in which Alpha and Beta have generic-name labels whose
      interaction sections are AlphaText and BetaText. */
  function AlphaBetaDatabase(q: Query): Response {
    if q == Request(GenericNameField, "Alpha") then
      Reply(200, Json([map[DrugInteractionsKey := Text(AlphaText)]]))
    else if q == Request(GenericNameField, "Beta") then
      Reply(200, Json([map[DrugInteractionsKey := Text(BetaText)]]))
    else Reply(NotFoundStatus, NotJson)
  }

  /** "beta" sits in the lower-cased AlphaText at index 20. */
  lemma AlphaTextMentionsBeta()
    ensures Mentions(AlphaText, "Beta")
  {
    MentionIgnoresCase(AlphaText, "Beta", 20);
  }

  /** No "alpha" in the lower-cased BetaText: it has no letter p at all. */
  lemma BetaTextOmitsAlpha()
    ensures !Mentions(BetaText, "Alpha")
  {
    var t := Lower(BetaText);
    assert forall j :: 0 <= j < |BetaText| ==> BetaText[j] != 'p' && BetaText[j] != 'P';
    assert "Alpha"[2] == 'p' && Lower("Alpha")[2] == 'p';
    forall i | 0 <= i <= |t| - 5
      ensures !OccursAt(t, Lower("Alpha"), i)
    {
      assert t[i + 2] != 'p';
      assert t[i..i + 5][2] == t[i + 2];
    }
  }

  /** Each drug's lookup finds its generic-name label, whose interaction
      section is its text. */
  lemma AlphaBetaLookups()
    ensures InteractionText(AlphaBetaDatabase, "Alpha").Ok?
    ensures InteractionText(AlphaBetaDatabase, "Alpha").value.Get(DrugInteractionsKey, "") == AlphaText
    ensures InteractionText(AlphaBetaDatabase, "Beta").Ok?
    ensures InteractionText(AlphaBetaDatabase, "Beta").value.Get(DrugInteractionsKey, "") == BetaText
  {
    assert Request(GenericNameField, "Alpha") != Request(GenericNameField, "Beta") by {
      assert Request(GenericNameField, "Alpha").search[|GenericNameField| + 2] == 'A';
    }
    ResolveFromHit(AlphaBetaDatabase, SearchFields, "Alpha", 0);
    ResolveFromHit(AlphaBetaDatabase, SearchFields, "Beta", 0);
    InteractionTextShape(AlphaBetaDatabase, "Alpha", map[DrugInteractionsKey := Text(AlphaText)]);
    InteractionTextShape(AlphaBetaDatabase, "Beta", map[DrugInteractionsKey := Text(BetaText)]);
  }

  /** Alpha's label mentions Beta but not the other way round: exactly one
      note, about Alpha, with the names as the caller typed them. */
  lemma OneSidedMention()
    ensures Crosscheck(AlphaBetaDatabase, "Alpha", "Beta") == Ok([Note("Alpha", "Beta")])
  {
    AlphaBetaLookups();
    AlphaTextMentionsBeta();
    BetaTextOmitsAlpha();
    assert CrossNotes("Alpha", AlphaText, "Beta", BetaText) == [Note("Alpha", "Beta")];
  }

  /** A database without any label. */
  function EmptyDatabase(q: Query): Response {
    Reply(NotFoundStatus, NotJson)
  }

  /** No label on either side: empty section maps and no notes. */
  lemma NeitherLabelExists(a: string, b: string)
    ensures InteractionText(EmptyDatabase, a) == Ok(NoSections)
    ensures Crosscheck(EmptyDatabase, a, b) == Ok([])
  {
    ResolveFromNone(EmptyDatabase, SearchFields, a);
    ResolveFromNone(EmptyDatabase, SearchFields, b);
    NoLabelsNoNotes(EmptyDatabase, a, b);
  }

  /** A database whose server fails every request. */
  function FailingDatabase(q: Query): Response {
    Reply(500, NotJson)
  }

  /** A status 500 raises, and no section map comes back. */
  lemma ServerErrorRaises(name: string)
    ensures InteractionText(FailingDatabase, name) == Err(HttpStatus(GenericNameField, 500))
  {
    ErrorStatusStops(FailingDatabase, name);
  }

  /** A field of three blocks keeps only the first two, joined by a blank line. */
  lemma ThirdBlockDropped(oracle: Oracle, name: string, b1: string, b2: string, b3: string)
    requires Resolve(oracle, name) == Ok(Some(map[DrugInteractionsKey := Blocks([b1, b2, b3])]))
    ensures InteractionText(oracle, name).Ok?
    ensures InteractionText(oracle, name).value.Get(DrugInteractionsKey, "") == b1 + "\n\n" + b2
  {
    var record := map[DrugInteractionsKey := Blocks([b1, b2, b3])];
    InteractionTextShape(oracle, name, record);
    FlattenCases(Blocks([b1, b2, b3]));
  }
}
