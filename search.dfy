/** The search stage shared by the three practice views: a case-insensitive
    substring search over a fixed list of optional text fields. */
module Search {
  import opened Text
  import opened Optional

  /** `searchTerm.toLowerCase().trim()`, the text the views look for: no
      longer than what was typed, and without capital letters. */
  function SearchTerm(searchTerm: string): (r: string)
    ensures |r| <= |searchTerm|
    ensures forall i :: 0 <= i < |r| ==> !('A' <= r[i] <= 'Z')
  {
    TrimLower(searchTerm);
    LowerSpec(Trim(searchTerm));
    Trim(Lower(searchTerm))
  }

  /** `!searchTerm.trim()`: the search stage is skipped. */
  predicate IsBlank(searchTerm: string)
  {
    Trim(searchTerm) == []
  }

  /** The search is skipped exactly when the term is empty or only whitespace. */
  lemma BlankIffWhitespace(searchTerm: string)
    ensures IsBlank(searchTerm) <==> forall i :: 0 <= i < |searchTerm| ==> IsWhitespace(searchTerm[i])
  {
    TrimSpec(searchTerm);
  }

  /** `field?.toLowerCase().includes(term)`: an absent field is falsy, a
      present field matches the empty term, and a match is never shorter than the term. */
  predicate FieldMatches(field: Option<string>, term: string)
    ensures FieldMatches(field, term) ==> field.Some? && |term| <= |field.value|
    ensures field.Some? && term == [] ==> FieldMatches(field, term)
  {
    field.Some? && Contains(Lower(field.value), term)
  }

  /** The `||` chain over an item's fields. */
  predicate AnyFieldMatches(fields: seq<Option<string>>, term: string)
  {
    exists i :: 0 <= i < |fields| && FieldMatches(fields[i], term)
  }

  /** Whether the search stage keeps an item with these fields. An item whose
      fields are all absent survives only a skipped search. */
  predicate SearchKeeps(fields: seq<Option<string>>, searchTerm: string)
    ensures SearchKeeps(fields, searchTerm) && !IsBlank(searchTerm) ==>
              exists i :: 0 <= i < |fields| && fields[i].Some?
  {
    IsBlank(searchTerm) || AnyFieldMatches(fields, SearchTerm(searchTerm))
  }

  /** A search that is not skipped looks for a non-empty text, so it is
      never the trivially true `includes('')`. */
  lemma SearchTermNotEmpty(searchTerm: string)
    ensures IsBlank(searchTerm) <==> SearchTerm(searchTerm) == []
  {
    TrimLower(searchTerm);
  }

  /** The search ignores the case of the term's letters. */
  lemma SearchIgnoresTermCase(fields: seq<Option<string>>, searchTerm: string)
    ensures SearchKeeps(fields, Lower(searchTerm)) == SearchKeeps(fields, searchTerm)
  {
    LowerIdempotent(searchTerm);
    SearchTermNotEmpty(searchTerm);
    SearchTermNotEmpty(Lower(searchTerm));
  }

  /** The search ignores the case of the fields' letters. */
  lemma SearchIgnoresFieldCase(field: string, term: string)
    ensures FieldMatches(Some(Lower(field)), term) == FieldMatches(Some(field), term)
  {
    LowerIdempotent(field);
  }

  /** Whitespace around the term does not change what the search keeps. */
  lemma SearchIgnoresPadding(fields: seq<Option<string>>, w1: string, searchTerm: string, w2: string)
    requires forall i :: 0 <= i < |w1| ==> IsWhitespace(w1[i])
    requires forall i :: 0 <= i < |w2| ==> IsWhitespace(w2[i])
    ensures SearchKeeps(fields, w1 + searchTerm + w2) == SearchKeeps(fields, searchTerm)
  {
    TrimPadding(w1, searchTerm, w2);
    TrimLower(w1 + searchTerm + w2);
    TrimLower(searchTerm);
  }
}
