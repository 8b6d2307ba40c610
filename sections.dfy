/**
 * Section extraction: flattening the fields of a label record into the
 * section map that `get_interaction_text` returns.
 */
module Sections {
  import opened Label
  import opened Text

  /** The recognised section keys, in the order in which they are inserted. */
  const SectionKeys: seq<string> :=
    ["drug_interactions", "warnings_and_cautions", "warnings", "precautions"]

  /** A list-valued field contributes its first `MaxBlocks` blocks, joined
      with `BlockSeparator` (a blank line). */
  const MaxBlocks: nat := 2
  const BlockSeparator: string := "\n\n"

  predicate Distinct(keys: seq<string>) {
    forall i, j :: 0 <= i < j < |keys| ==> keys[i] != keys[j]
  }

  /** The position of the first occurrence of `k` in `keys`. */
  function IndexOf(keys: seq<string>, k: string): (i: nat)
    requires k in keys
    ensures i < |keys| && keys[i] == k
    ensures forall j :: 0 <= j < i ==> keys[j] != k
    decreases |keys|
  {
    if keys[0] == k then 0 else 1 + IndexOf(keys[1..], k)
  }

  /**
   * A Python dict from section key to text. Python dicts remember the order
   * in which keys were first inserted, so the map carries that order beside
   * the key-to-text mapping.
   */
  datatype SectionMap = SectionMap(order: seq<string>, text: map<string, string>) {

    /** `order` lists every key of `text` once. */
    ghost predicate Valid() {
      && Distinct(order)
      && (forall i :: 0 <= i < |order| ==> order[i] in text)
      && (forall k :: k in text ==> k in order)
    }

    /** `d[key] = value`: a new key goes to the end of the order; an existing
        key keeps its place and gets the new value. */
    function Put(key: string, value: string): (m: SectionMap)
      ensures Valid() ==> m.Valid()
      ensures m.text == text[key := value]
      ensures key in text ==> m.order == order
      ensures key !in text ==> m.order == order + [key]
    {
      SectionMap(if key in text then order else order + [key], text[key := value])
    }

    /** `d.get(key, default)`. */
    function Get(key: string, default: string): string {
      if key in text then text[key] else default
    }
  }

  const NoSections := SectionMap([], map[])

  /** The text a field value flattens to: a list gives its first two blocks
      joined by a blank line, a string gives itself, anything else gives
      nothing. */
  function Flatten(v: FieldValue): Option<string> {
    match v
    case Blocks(blocks) =>
      Some(Join(BlockSeparator, blocks[..if |blocks| < MaxBlocks then |blocks| else MaxBlocks]))
    case Text(text) => Some(text)
    case Other => None
  }

  /** The text of section `key` of `record`, if it has one. */
  function SectionText(record: LabelRecord, key: string): Option<string> {
    if key in record then Flatten(record[key]) else None
  }

  /** How each shape of field value flattens; list elements from index 2 on
      never take part. */
  lemma FlattenCases(v: FieldValue)
    ensures v.Other? <==> Flatten(v).None?
    ensures v.Text? ==> Flatten(v) == Some(v.text)
    ensures v.Blocks? && |v.blocks| == 0 ==> Flatten(v) == Some("")
    ensures v.Blocks? && |v.blocks| == 1 ==> Flatten(v) == Some(v.blocks[0])
    ensures v.Blocks? && |v.blocks| >= 2 ==>
              Flatten(v) == Some(v.blocks[0] + BlockSeparator + v.blocks[1])
  {
    if v.Blocks? && |v.blocks| >= 2 {
      var first, second := v.blocks[0], v.blocks[1];
      assert v.blocks[..MaxBlocks] == [first, second];
      assert Join(BlockSeparator, [first, second]) == first + BlockSeparator + Join(BlockSeparator, [second]);
    }
  }

  /** Both of the first two blocks of a list reach its flattened text. */
  lemma FlattenKeepsFirstBlocks(blocks: seq<string>, k: nat)
    requires k < |blocks| && k < MaxBlocks
    ensures Flatten(Blocks(blocks)).Some?
    ensures Contains(Flatten(Blocks(blocks)).value, blocks[k])
  {
    var kept := if |blocks| < MaxBlocks then |blocks| else MaxBlocks;
    JoinKeepsParts(BlockSeparator, blocks[..kept], k);
  }

  /** Blocks after the second are ignored: two lists that agree on their
      first two blocks flatten to the same text. */
  lemma FlattenIgnoresLaterBlocks(blocks: seq<string>, more: seq<string>)
    ensures |blocks| >= MaxBlocks ==> Flatten(Blocks(blocks + more)) == Flatten(Blocks(blocks))
  {
    if |blocks| >= MaxBlocks {
      assert (blocks + more)[..MaxBlocks] == blocks[..MaxBlocks];
    }
  }

  /**
   * The section map built by visiting `keys` in order and inserting each key
   * whose field flattens to a text. Its keys are exactly the visited keys
   * that have a text, each maps to that text, and they are ordered as in
   * `keys`.
   */
  function SectionsFrom(record: LabelRecord, keys: seq<string>): (m: SectionMap)
    requires Distinct(keys)
    ensures m.Valid()
    ensures forall k :: k in m.text <==> k in keys && SectionText(record, k).Some?
    ensures forall k :: k in m.text ==> m.text[k] == SectionText(record, k).value
    ensures forall i, j :: 0 <= i < j < |m.order| ==>
              IndexOf(keys, m.order[i]) < IndexOf(keys, m.order[j])
    decreases |keys|
  {
    if keys == [] then NoSections
    else
      var last := keys[|keys| - 1];
      var prefix := keys[..|keys| - 1];
      assert keys == prefix + [last];
      var prev := SectionsFrom(record, prefix);
      assert forall k :: k in prefix ==> IndexOf(keys, k) == IndexOf(prefix, k);
      assert last !in prefix;
      match SectionText(record, last)
      case None => prev
      case Some(t) =>
        assert IndexOf(keys, last) == |keys| - 1;
        prev.Put(last, t)
  }

  /** Visiting one more key: the map built over `keys[..i + 1]` is the map
      built over `keys[..i]`, with `keys[i]` inserted when it has a text. */
  lemma SectionsFromStep(record: LabelRecord, keys: seq<string>, i: nat)
    requires Distinct(keys) && i < |keys|
    ensures Distinct(keys[..i]) && Distinct(keys[..i + 1])
    ensures SectionsFrom(record, keys[..i + 1]) ==
            match SectionText(record, keys[i])
            case None => SectionsFrom(record, keys[..i])
            case Some(t) => SectionsFrom(record, keys[..i]).Put(keys[i], t)
  {
    assert keys[..i + 1][..i] == keys[..i];
  }

  /** The section map of a label record, over the four recognised keys. */
  function SectionsOf(record: LabelRecord): SectionMap
    requires Distinct(SectionKeys)
  {
    SectionsFrom(record, SectionKeys)
  }

  lemma SectionKeysDistinct()
    ensures Distinct(SectionKeys)
  {
  }

  /** A record with no fields has no sections. */
  lemma {:induction false} NoFieldsNoSections(keys: seq<string>)
    requires Distinct(keys)
    ensures SectionsFrom(map[], keys) == NoSections
  {
    if keys != [] {
      NoFieldsNoSections(keys[..|keys| - 1]);
    }
  }
}
