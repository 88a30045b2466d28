/**
 * Extracting the installed model names from the body of a GET on the tags
 * endpoint, which the server shapes as { "models": [ { "name": ... }, ... ] }.
 *
 * As with chat responses, the JSON library is not part of this model; a
 * TagsParser says what this client's traversal meets in the document.
 */
module ModelList {

  /** The "name" field of one entry of "models", as the traversal meets it. */
  datatype NameField =
    | NoName                 // the entry has no "name" (or is not an object): skipped
    | StringName(name: string)
    | OtherName              // "name" is present but not a string: converting it throws

  /** What the traversal meets in the parsed document. */
  datatype TagsDocument =
    | Unparsable                          // json::parse throws
    | NoModels                            // the document has no "models" member
    | Models(entries: seq<NameField>)     // the elements iterated over in "models", in order

  type TagsParser = string -> TagsDocument

  /**
   * The names collected from the entries, in order: entries without a name are
   * skipped, and an entry whose name is not a string ends the collection (the
   * exception leaves the loop; the names collected before it are kept).
   */
  function CollectNames(entries: seq<NameField>): (names: seq<string>)
    ensures |names| <= |entries|
  {
    if entries == [] then []
    else
      match entries[0]
      case NoName => CollectNames(entries[1..])
      case StringName(n) => [n] + CollectNames(entries[1..])
      case OtherName => []
  }

  /** Collection over entries before any non-string name runs on into what follows. */
  lemma {:induction false} CollectNamesAppend(a: seq<NameField>, b: seq<NameField>)
    requires OtherName !in a
    ensures CollectNames(a + b) == CollectNames(a) + CollectNames(b)
  {
    if a == [] {
      assert a + b == b;
    } else {
      assert (a + b)[0] == a[0] && (a + b)[1..] == a[1..] + b;
      CollectNamesAppend(a[1..], b);
    }
  }

  /** The first non-string name ends the collection: nothing after it is collected. */
  lemma CollectNamesStops(a: seq<NameField>, b: seq<NameField>)
    requires OtherName !in a
    ensures CollectNames(a + [OtherName] + b) == CollectNames(a)
  {
    CollectNamesAppend(a, [OtherName] + b);
    assert a + [OtherName] + b == a + ([OtherName] + b);
  }

  /** Every collected name is the string name of some entry. */
  lemma {:induction false} CollectedNamesAreEntries(entries: seq<NameField>, n: string)
    requires n in CollectNames(entries)
    ensures StringName(n) in entries
  {
    if entries != [] {
      match entries[0]
      case NoName =>
        CollectedNamesAreEntries(entries[1..], n);
      case StringName(m) =>
        if n != m {
          CollectedNamesAreEntries(entries[1..], n);
        }
      case OtherName =>
    }
  }

  /** When every name is a string, no string name is lost. */
  lemma {:induction false} EntriesAreCollected(entries: seq<NameField>, n: string)
    requires OtherName !in entries
    requires StringName(n) in entries
    ensures n in CollectNames(entries)
  {
    if entries[0] != StringName(n) {
      EntriesAreCollected(entries[1..], n);
    }
  }
}
