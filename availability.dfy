/** How the practice views and the bulk-management screen address the
    storage module. Storage itself is not part of this model: what a view
    learns from `isItemEnabled` is given as the set of keys storage reports
    disabled. */
module Availability {

  /** The content kinds storage separates (the first argument of every storage call). */
  datatype CategoryType = HSK | TOCFL | KANJI | SENTENCES

  /** An item identifier: a number (an `id` field, a sentence position) or a string (a kanji). */
  datatype ItemId = Num(n: int) | Str(s: string)

  /** The pair `(categoryType, id)` a view passes to `isItemEnabled` and `toggleItem`. */
  datatype StatusKey = StatusKey(category: CategoryType, id: ItemId)

  /** `isItemEnabled(category, id)`, given the keys storage reports disabled.
      Items are enabled unless storage says otherwise: with nothing of this
      category disabled, every item of it is enabled. */
  predicate IsItemEnabled(disabled: set<StatusKey>, category: CategoryType, id: ItemId)
    ensures (forall k :: k in disabled ==> k.category != category) ==> IsItemEnabled(disabled, category, id)
  {
    StatusKey(category, id) !in disabled
  }

  /** The values of the views' status selector: 'all', 'enabled', 'disabled'. */
  datatype StatusFilter = AllStatuses | EnabledOnly | DisabledOnly

  /** Whether the status stage keeps an item whose enabled status is `enabled`. */
  predicate StatusKeeps(sf: StatusFilter, enabled: bool)
  {
    match sf
    case AllStatuses => true
    case EnabledOnly => enabled
    case DisabledOnly => !enabled
  }

  /** The values of the character-type selector: 'all', 'single', 'multi'. */
  datatype CharacterFilter = AllCharacters | Single | Multi
}
