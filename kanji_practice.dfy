/** The kanji practice view: a status filter keyed by the kanji string, then
    the search. */
module KanjiPractice {
  import opened Optional
  import opened Filtering
  import opened Availability
  import opened Search

  /** One loaded kanji entry. */
  datatype KanjiItem = KanjiItem(
    kanji: string,
    onyomi: Option<string>,
    kunyomi: Option<string>,
    english: Option<string>,
    viet: Option<string>,
    hanviet: Option<string>)

  /** The six fields the search looks at, in the order of the `||` chain. */
  function Fields(item: KanjiItem): (r: seq<Option<string>>)
  {
    [Some(item.kanji), item.onyomi, item.kunyomi, item.english, item.viet, item.hanviet]
  }

  /** `isItemEnabled('KANJI', item.kanji)`. */
  predicate Enabled(disabled: set<StatusKey>, item: KanjiItem)
  {
    IsItemEnabled(disabled, KANJI, Str(item.kanji))
  }

  predicate Visible(disabled: set<StatusKey>, sf: StatusFilter, searchTerm: string, item: KanjiItem)
  {
    StatusKeeps(sf, Enabled(disabled, item)) && SearchKeeps(Fields(item), searchTerm)
  }

  /** What `filterData` stores in `filteredData`. */
  function FilteredData(data: seq<KanjiItem>, sf: StatusFilter, searchTerm: string,
                        disabled: set<StatusKey>): (r: seq<KanjiItem>)
  {
    Filter(data, (x: KanjiItem) => Visible(disabled, sf, searchTerm, x))
  }

  /** `filterData`: the status stage, then the search stage, on a copy of `data`. */
  method FilterData(data: seq<KanjiItem>, sf: StatusFilter, searchTerm: string,
                    disabled: set<StatusKey>) returns (filtered: seq<KanjiItem>)
    ensures filtered == FilteredData(data, sf, searchTerm, disabled)
  {
    ghost var status := (x: KanjiItem) => StatusKeeps(sf, Enabled(disabled, x));
    ghost var all := (x: KanjiItem) => Visible(disabled, sf, searchTerm, x);

    filtered := data;
    if sf == EnabledOnly {
      filtered := Filter(filtered, (x: KanjiItem) => IsItemEnabled(disabled, KANJI, Str(x.kanji)));
      FilterExt(data, (x: KanjiItem) => IsItemEnabled(disabled, KANJI, Str(x.kanji)), status);
    } else if sf == DisabledOnly {
      filtered := Filter(filtered, (x: KanjiItem) => !IsItemEnabled(disabled, KANJI, Str(x.kanji)));
      FilterExt(data, (x: KanjiItem) => !IsItemEnabled(disabled, KANJI, Str(x.kanji)), status);
    } else {
      FilterKeepsAll(data, status);
    }
    assert filtered == Filter(data, status);

    if !IsBlank(searchTerm) {
      var term := SearchTerm(searchTerm);
      filtered := Filter(filtered, (x: KanjiItem) => AnyFieldMatches(Fields(x), term));
      FilterCompose(data, status, (x: KanjiItem) => AnyFieldMatches(Fields(x), term), all);
    } else {
      FilterExt(data, status, all);
    }
  }

  /** `handleToggle(kanji)`: toggles `('KANJI', kanji)` in storage, then filters
      again; `disabledAfter` is what storage reports disabled afterwards. */
  method HandleToggle(kanji: string, data: seq<KanjiItem>, sf: StatusFilter, searchTerm: string,
                      disabledAfter: set<StatusKey>) returns (toggled: StatusKey, filtered: seq<KanjiItem>)
    ensures toggled.category == KANJI && toggled.id == Str(kanji)
    ensures filtered == FilteredData(data, sf, searchTerm, disabledAfter)
  {
    toggled := StatusKey(KANJI, Str(kanji));
    filtered := FilterData(data, sf, searchTerm, disabledAfter);
  }

  /** The result keeps the loaded order and is never longer than the loaded list. */
  lemma FilteredDataIsSubsequence(data: seq<KanjiItem>, sf: StatusFilter, searchTerm: string,
                                  disabled: set<StatusKey>)
    ensures IsSubsequence(FilteredData(data, sf, searchTerm, disabled), data)
    ensures |FilteredData(data, sf, searchTerm, disabled)| <= |data|
  {
    FilterIsSubsequence(data, (x: KanjiItem) => Visible(disabled, sf, searchTerm, x));
    SubsequenceLength(FilteredData(data, sf, searchTerm, disabled), data);
  }

  /** An item is shown exactly when it was loaded and passes both stages. */
  lemma FilteredDataMembership(data: seq<KanjiItem>, sf: StatusFilter, searchTerm: string,
                               disabled: set<StatusKey>, item: KanjiItem)
    ensures item in FilteredData(data, sf, searchTerm, disabled) <==>
            item in data && StatusKeeps(sf, Enabled(disabled, item)) &&
            (IsBlank(searchTerm) || AnyFieldMatches(Fields(item), SearchTerm(searchTerm)))
  {
    var r := FilteredData(data, sf, searchTerm, disabled);
    if item in r {
      var i :| 0 <= i < |r| && r[i] == item;
    }
    if item in data && Visible(disabled, sf, searchTerm, item) {
      var i :| 0 <= i < |data| && data[i] == item;
    }
  }

  /** 'enabled' and 'disabled' partition the 'all' result for the same search. */
  lemma StatusPartition(data: seq<KanjiItem>, searchTerm: string, disabled: set<StatusKey>)
    ensures IsInterleaving(FilteredData(data, AllStatuses, searchTerm, disabled),
                           FilteredData(data, EnabledOnly, searchTerm, disabled),
                           FilteredData(data, DisabledOnly, searchTerm, disabled))
    ensures |FilteredData(data, EnabledOnly, searchTerm, disabled)| +
            |FilteredData(data, DisabledOnly, searchTerm, disabled)| ==
            |FilteredData(data, AllStatuses, searchTerm, disabled)|
    ensures forall x :: x in FilteredData(data, EnabledOnly, searchTerm, disabled) ==>
                        x !in FilteredData(data, DisabledOnly, searchTerm, disabled)
  {
    var all := (x: KanjiItem) => Visible(disabled, AllStatuses, searchTerm, x);
    var en := (x: KanjiItem) => Enabled(disabled, x);
    var dis := (x: KanjiItem) => !Enabled(disabled, x);
    FilterCompose(data, all, en, (x: KanjiItem) => Visible(disabled, EnabledOnly, searchTerm, x));
    FilterCompose(data, all, dis, (x: KanjiItem) => Visible(disabled, DisabledOnly, searchTerm, x));
    FilterPartition(Filter(data, all), en, dis);
  }

  /** A search term that is empty or only whitespace changes nothing. */
  lemma BlankSearchIsNoOp(data: seq<KanjiItem>, sf: StatusFilter, searchTerm: string, disabled: set<StatusKey>)
    requires IsBlank(searchTerm)
    ensures FilteredData(data, sf, searchTerm, disabled) == FilteredData(data, sf, "", disabled)
  {
    FilterExt(data, (x: KanjiItem) => Visible(disabled, sf, searchTerm, x),
              (x: KanjiItem) => Visible(disabled, sf, "", x));
  }

  /** Two entries with the same kanji share their status, so under a status
      filter both are shown or neither is (when both match the search). */
  lemma SameKanjiSameFate(data: seq<KanjiItem>, sf: StatusFilter, searchTerm: string, disabled: set<StatusKey>,
                          a: KanjiItem, b: KanjiItem)
    requires a in data && b in data && a.kanji == b.kanji
    requires SearchKeeps(Fields(a), searchTerm) && SearchKeeps(Fields(b), searchTerm)
    ensures a in FilteredData(data, sf, searchTerm, disabled) <==> b in FilteredData(data, sf, searchTerm, disabled)
  {
    FilteredDataMembership(data, sf, searchTerm, disabled, a);
    FilteredDataMembership(data, sf, searchTerm, disabled, b);
  }

  /** Status is looked up under 'KANJI' only: storage entries of other categories
      never change the result. */
  lemma StatusUsesOnlyKanjiKeys(data: seq<KanjiItem>, sf: StatusFilter, searchTerm: string,
                                d1: set<StatusKey>, d2: set<StatusKey>)
    requires forall id :: StatusKey(KANJI, id) in d1 <==> StatusKey(KANJI, id) in d2
    ensures FilteredData(data, sf, searchTerm, d1) == FilteredData(data, sf, searchTerm, d2)
  {
    FilterExt(data, (x: KanjiItem) => Visible(d1, sf, searchTerm, x),
              (x: KanjiItem) => Visible(d2, sf, searchTerm, x));
  }
}
