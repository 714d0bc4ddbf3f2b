/** The HSK vocabulary practice view: the three-stage list filter and the
    key under which an item's enabled status is looked up and toggled. */
module HskPractice {
  import opened Optional
  import opened Filtering
  import opened Availability
  import opened Search

  /** One loaded vocabulary entry; every text field may be absent. */
  datatype HskItem = HskItem(
    id: ItemId,
    traditionalChinese: Option<string>,
    simplifiedChinese: Option<string>,
    pinyin: Option<string>,
    jyutping: Option<string>,
    english: Option<string>,
    vietnamese: Option<string>,
    hanviet: Option<string>,
    characterCount: Option<int>)

  /** The seven fields the search looks at, in the order of the `||` chain. */
  function Fields(item: HskItem): (r: seq<Option<string>>)
  {
    [item.traditionalChinese, item.simplifiedChinese, item.pinyin, item.jyutping,
     item.english, item.vietnamese, item.hanviet]
  }

  /** The character stage: 'single' is `characterCount === 1`, 'multi' is
      `characterCount > 1`, anything else keeps the item. Either narrowing
      choice keeps only items whose character count is known and positive. */
  predicate CharacterKeeps(item: HskItem, cf: CharacterFilter)
    ensures CharacterKeeps(item, cf) && cf != AllCharacters ==>
              item.characterCount.Some? && item.characterCount.value >= 1
  {
    match cf
    case Single => item.characterCount == Some(1)
    case Multi => item.characterCount.Some? && item.characterCount.value > 1
    case AllCharacters => true
  }

  /** `isItemEnabled('HSK', item.id)`. */
  predicate Enabled(disabled: set<StatusKey>, item: HskItem)
  {
    IsItemEnabled(disabled, HSK, item.id)
  }

  /** An item survives all three stages. */
  predicate Visible(disabled: set<StatusKey>, cf: CharacterFilter, sf: StatusFilter, searchTerm: string, item: HskItem)
  {
    CharacterKeeps(item, cf) && StatusKeeps(sf, Enabled(disabled, item)) && SearchKeeps(Fields(item), searchTerm)
  }

  /** What `filterData` stores in `filteredData`: the items that pass every stage, in load order. */
  function FilteredData(data: seq<HskItem>, cf: CharacterFilter, sf: StatusFilter, searchTerm: string,
                        disabled: set<StatusKey>): (r: seq<HskItem>)
  {
    Filter(data, (x: HskItem) => Visible(disabled, cf, sf, searchTerm, x))
  }

  /** `filterData`: narrows a copy of `data` one stage at a time. */
  method FilterData(data: seq<HskItem>, cf: CharacterFilter, sf: StatusFilter, searchTerm: string,
                    disabled: set<StatusKey>) returns (filtered: seq<HskItem>)
    ensures filtered == FilteredData(data, cf, sf, searchTerm, disabled)
  {
    ghost var chars := (x: HskItem) => CharacterKeeps(x, cf);
    ghost var charsStatus := (x: HskItem) => CharacterKeeps(x, cf) && StatusKeeps(sf, Enabled(disabled, x));
    ghost var all := (x: HskItem) => Visible(disabled, cf, sf, searchTerm, x);

    filtered := data;
    if cf == Single {
      filtered := Filter(filtered, (x: HskItem) => x.characterCount == Some(1));
      FilterExt(data, (x: HskItem) => x.characterCount == Some(1), chars);
    } else if cf == Multi {
      filtered := Filter(filtered, (x: HskItem) => x.characterCount.Some? && x.characterCount.value > 1);
      FilterExt(data, (x: HskItem) => x.characterCount.Some? && x.characterCount.value > 1, chars);
    } else {
      FilterKeepsAll(data, chars);
    }
    assert filtered == Filter(data, chars);

    if sf == EnabledOnly {
      filtered := Filter(filtered, (x: HskItem) => IsItemEnabled(disabled, HSK, x.id));
      FilterCompose(data, chars, (x: HskItem) => IsItemEnabled(disabled, HSK, x.id), charsStatus);
    } else if sf == DisabledOnly {
      filtered := Filter(filtered, (x: HskItem) => !IsItemEnabled(disabled, HSK, x.id));
      FilterCompose(data, chars, (x: HskItem) => !IsItemEnabled(disabled, HSK, x.id), charsStatus);
    } else {
      FilterExt(data, chars, charsStatus);
    }
    assert filtered == Filter(data, charsStatus);

    if !IsBlank(searchTerm) {
      var term := SearchTerm(searchTerm);
      filtered := Filter(filtered, (x: HskItem) => AnyFieldMatches(Fields(x), term));
      FilterCompose(data, charsStatus, (x: HskItem) => AnyFieldMatches(Fields(x), term), all);
    } else {
      FilterExt(data, charsStatus, all);
    }
  }

  /** `handleToggle(id)`: toggles `('HSK', id)` in storage, then filters again.
      `disabledAfter` is what storage reports disabled once the toggle is done. */
  method HandleToggle(id: ItemId, data: seq<HskItem>, cf: CharacterFilter, sf: StatusFilter, searchTerm: string,
                      disabledAfter: set<StatusKey>) returns (toggled: StatusKey, filtered: seq<HskItem>)
    ensures toggled.category == HSK && toggled.id == id
    ensures filtered == FilteredData(data, cf, sf, searchTerm, disabledAfter)
  {
    toggled := StatusKey(HSK, id);
    filtered := FilterData(data, cf, sf, searchTerm, disabledAfter);
  }

  /** The result keeps the loaded order and is never longer than the loaded list. */
  lemma FilteredDataIsSubsequence(data: seq<HskItem>, cf: CharacterFilter, sf: StatusFilter, searchTerm: string,
                                  disabled: set<StatusKey>)
    ensures IsSubsequence(FilteredData(data, cf, sf, searchTerm, disabled), data)
    ensures |FilteredData(data, cf, sf, searchTerm, disabled)| <= |data|
  {
    FilterIsSubsequence(data, (x: HskItem) => Visible(disabled, cf, sf, searchTerm, x));
    SubsequenceLength(FilteredData(data, cf, sf, searchTerm, disabled), data);
  }

  /** An item is shown exactly when it was loaded and passes all three stages. */
  lemma FilteredDataMembership(data: seq<HskItem>, cf: CharacterFilter, sf: StatusFilter, searchTerm: string,
                               disabled: set<StatusKey>, item: HskItem)
    ensures item in FilteredData(data, cf, sf, searchTerm, disabled) <==>
            item in data && CharacterKeeps(item, cf) && StatusKeeps(sf, Enabled(disabled, item)) &&
            (IsBlank(searchTerm) || AnyFieldMatches(Fields(item), SearchTerm(searchTerm)))
  {
    var r := FilteredData(data, cf, sf, searchTerm, disabled);
    if item in r {
      var i :| 0 <= i < |r| && r[i] == item;
    }
    if item in data && Visible(disabled, cf, sf, searchTerm, item) {
      var i :| 0 <= i < |data| && data[i] == item;
    }
  }

  /** The character stage alone: 'single' keeps exactly the one-character items,
      'multi' exactly those with more, 'all' everything. */
  lemma CharacterFilterSelects(data: seq<HskItem>, disabled: set<StatusKey>)
    ensures FilteredData(data, Single, AllStatuses, "", disabled) ==
            Filter(data, (x: HskItem) => x.characterCount == Some(1))
    ensures FilteredData(data, Multi, AllStatuses, "", disabled) ==
            Filter(data, (x: HskItem) => x.characterCount.Some? && x.characterCount.value > 1)
    ensures FilteredData(data, AllCharacters, AllStatuses, "", disabled) == data
  {
    FilterExt(data, (x: HskItem) => Visible(disabled, Single, AllStatuses, "", x),
              (x: HskItem) => x.characterCount == Some(1));
    FilterExt(data, (x: HskItem) => Visible(disabled, Multi, AllStatuses, "", x),
              (x: HskItem) => x.characterCount.Some? && x.characterCount.value > 1);
    FilterKeepsAll(data, (x: HskItem) => Visible(disabled, AllCharacters, AllStatuses, "", x));
  }

  /** An item without a usable character count (absent or 0) survives only 'all'. */
  lemma UncountedOnlyUnderAll(data: seq<HskItem>, cf: CharacterFilter, disabled: set<StatusKey>, item: HskItem)
    requires item in data
    requires item.characterCount == None || item.characterCount == Some(0)
    ensures item in FilteredData(data, cf, AllStatuses, "", disabled) <==> cf == AllCharacters
  {
    FilteredDataMembership(data, cf, AllStatuses, "", disabled, item);
  }

  /** 'enabled' and 'disabled' split the 'all' result (same character filter and
      search) into two disjoint parts whose order-preserving merge is that result. */
  lemma StatusPartition(data: seq<HskItem>, cf: CharacterFilter, searchTerm: string, disabled: set<StatusKey>)
    ensures IsInterleaving(FilteredData(data, cf, AllStatuses, searchTerm, disabled),
                           FilteredData(data, cf, EnabledOnly, searchTerm, disabled),
                           FilteredData(data, cf, DisabledOnly, searchTerm, disabled))
    ensures |FilteredData(data, cf, EnabledOnly, searchTerm, disabled)| +
            |FilteredData(data, cf, DisabledOnly, searchTerm, disabled)| ==
            |FilteredData(data, cf, AllStatuses, searchTerm, disabled)|
    ensures forall x :: x in FilteredData(data, cf, EnabledOnly, searchTerm, disabled) ==>
                        x !in FilteredData(data, cf, DisabledOnly, searchTerm, disabled)
  {
    var all := (x: HskItem) => Visible(disabled, cf, AllStatuses, searchTerm, x);
    var en := (x: HskItem) => Enabled(disabled, x);
    var dis := (x: HskItem) => !Enabled(disabled, x);
    FilterCompose(data, all, en, (x: HskItem) => Visible(disabled, cf, EnabledOnly, searchTerm, x));
    FilterCompose(data, all, dis, (x: HskItem) => Visible(disabled, cf, DisabledOnly, searchTerm, x));
    FilterPartition(Filter(data, all), en, dis);
  }

  /** A search term that is empty or only whitespace changes nothing. */
  lemma BlankSearchIsNoOp(data: seq<HskItem>, cf: CharacterFilter, sf: StatusFilter, searchTerm: string,
                          disabled: set<StatusKey>)
    requires IsBlank(searchTerm)
    ensures FilteredData(data, cf, sf, searchTerm, disabled) == FilteredData(data, cf, sf, "", disabled)
  {
    FilterExt(data, (x: HskItem) => Visible(disabled, cf, sf, searchTerm, x),
              (x: HskItem) => Visible(disabled, cf, sf, "", x));
  }

  /** Status is looked up by `('HSK', item.id)` only: storage entries of other
      categories never change the result, and neither does anything but the id. */
  lemma StatusUsesOnlyHskKeys(data: seq<HskItem>, cf: CharacterFilter, sf: StatusFilter, searchTerm: string,
                              d1: set<StatusKey>, d2: set<StatusKey>)
    requires forall id :: StatusKey(HSK, id) in d1 <==> StatusKey(HSK, id) in d2
    ensures FilteredData(data, cf, sf, searchTerm, d1) == FilteredData(data, cf, sf, searchTerm, d2)
  {
    FilterExt(data, (x: HskItem) => Visible(d1, cf, sf, searchTerm, x),
              (x: HskItem) => Visible(d2, cf, sf, searchTerm, x));
  }
}
