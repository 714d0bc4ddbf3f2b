/** The sentence practice view: sentences have no identifier of their own, so
    their status is kept under their position in the loaded list, and the
    render loop recovers that position with `data.indexOf(item)`. */
module SentencePractice {
  import opened Optional
  import opened Filtering
  import opened Availability
  import opened Search

  /** One loaded sentence. A class, because `indexOf` compares objects by
      identity: two sentences with the same text are still different items. */
  class Sentence {
    const traditional: Option<string>
    const simplified: Option<string>
    const pinyin: Option<string>
    const jyutping: Option<string>
    const english: Option<string>
    const viet: Option<string>
    const hanviet: Option<string>

    constructor (traditional: Option<string>, simplified: Option<string>, pinyin: Option<string>,
                 jyutping: Option<string>, english: Option<string>, viet: Option<string>,
                 hanviet: Option<string>)
      ensures this.traditional == traditional && this.simplified == simplified
      ensures this.pinyin == pinyin && this.jyutping == jyutping && this.english == english
      ensures this.viet == viet && this.hanviet == hanviet
    {
      this.traditional := traditional;
      this.simplified := simplified;
      this.pinyin := pinyin;
      this.jyutping := jyutping;
      this.english := english;
      this.viet := viet;
      this.hanviet := hanviet;
    }
  }

  /** The seven fields the search looks at, in the order of the `||` chain. */
  function Fields(s: Sentence): (r: seq<Option<string>>)
  {
    [s.traditional, s.simplified, s.pinyin, s.jyutping, s.english, s.viet, s.hanviet]
  }

  /** `isItemEnabled('SENTENCES', index)`. */
  predicate PositionEnabled(disabled: set<StatusKey>, index: int)
  {
    IsItemEnabled(disabled, SENTENCES, Num(index))
  }

  /** The sentence at position `index` of the loaded list survives both stages. */
  predicate VisibleAt(disabled: set<StatusKey>, sf: StatusFilter, searchTerm: string, s: Sentence, index: nat)
  {
    StatusKeeps(sf, PositionEnabled(disabled, index)) && SearchKeeps(Fields(s), searchTerm)
  }

  /** What `filterData` stores in `filteredData`. */
  function FilteredData(data: seq<Sentence>, sf: StatusFilter, searchTerm: string,
                        disabled: set<StatusKey>): (r: seq<Sentence>)
  {
    FilterIndexed(data, (s: Sentence, i: nat) => VisibleAt(disabled, sf, searchTerm, s, i))
  }

  /** `filterData`: the status stage runs first, on a copy of `data`, so the
      index its callback receives is the position in the loaded list. */
  method FilterData(data: seq<Sentence>, sf: StatusFilter, searchTerm: string,
                    disabled: set<StatusKey>) returns (filtered: seq<Sentence>)
    ensures filtered == FilteredData(data, sf, searchTerm, disabled)
  {
    ghost var status := (s: Sentence, i: nat) => StatusKeeps(sf, PositionEnabled(disabled, i));
    ghost var all := (s: Sentence, i: nat) => VisibleAt(disabled, sf, searchTerm, s, i);

    filtered := data;
    if sf == EnabledOnly {
      filtered := FilterIndexed(filtered, (s: Sentence, i: nat) => IsItemEnabled(disabled, SENTENCES, Num(i)));
      FilterIndexedExt(data, (s: Sentence, i: nat) => IsItemEnabled(disabled, SENTENCES, Num(i)), status);
    } else if sf == DisabledOnly {
      filtered := FilterIndexed(filtered, (s: Sentence, i: nat) => !IsItemEnabled(disabled, SENTENCES, Num(i)));
      FilterIndexedExt(data, (s: Sentence, i: nat) => !IsItemEnabled(disabled, SENTENCES, Num(i)), status);
    } else {
      FilterIndexedKeepsAll(data, status);
    }
    assert filtered == FilterIndexed(data, status);

    if !IsBlank(searchTerm) {
      var term := SearchTerm(searchTerm);
      filtered := Filter(filtered, (s: Sentence) => AnyFieldMatches(Fields(s), term));
      SearchAfterStatus(data, sf, searchTerm, disabled);
    } else {
      FilterIndexedExt(data, status, all);
    }
  }

  /** The search stage after the status stage is one indexed filter by both. */
  lemma SearchAfterStatus(data: seq<Sentence>, sf: StatusFilter, searchTerm: string, disabled: set<StatusKey>)
    requires !IsBlank(searchTerm)
    ensures Filter(FilterIndexed(data, (s: Sentence, i: nat) => StatusKeeps(sf, PositionEnabled(disabled, i))),
                   (s: Sentence) => AnyFieldMatches(Fields(s), SearchTerm(searchTerm))) ==
            FilteredData(data, sf, searchTerm, disabled)
  {
    var term := SearchTerm(searchTerm);
    FilterAfterFilterIndexed(data, (s: Sentence, i: nat) => StatusKeeps(sf, PositionEnabled(disabled, i)),
                             (s: Sentence) => AnyFieldMatches(Fields(s), term),
                             (s: Sentence, i: nat) => VisibleAt(disabled, sf, searchTerm, s, i));
  }

  /** `handleToggle(index)`: toggles `('SENTENCES', index)` in storage, then filters
      again; `disabledAfter` is what storage reports disabled afterwards. */
  method HandleToggle(index: int, data: seq<Sentence>, sf: StatusFilter, searchTerm: string,
                      disabledAfter: set<StatusKey>) returns (toggled: StatusKey, filtered: seq<Sentence>)
    ensures toggled.category == SENTENCES && toggled.id == Num(index)
    ensures filtered == FilteredData(data, sf, searchTerm, disabledAfter)
  {
    toggled := StatusKey(SENTENCES, Num(index));
    filtered := FilterData(data, sf, searchTerm, disabledAfter);
  }

  /** `data.indexOf(item)`: the first position holding this very object, or -1. */
  method IndexOf(data: seq<Sentence>, item: Sentence) returns (k: int)
    ensures -1 <= k < |data|
    ensures k == -1 <==> item !in data
    ensures 0 <= k ==> data[k] == item && forall j :: 0 <= j < k ==> data[j] != item
  {
    k := 0;
    while k < |data|
      invariant 0 <= k <= |data|
      invariant forall j :: 0 <= j < k ==> data[j] != item
    {
      if data[k] == item {
        return;
      }
      k := k + 1;
    }
    k := -1;
  }

  /** `k` is the first position of `data` holding this very object, as `indexOf` finds it. */
  predicate FirstPosition(data: seq<Sentence>, item: Sentence, k: int)
  {
    0 <= k < |data| && data[k] == item && forall m :: 0 <= m < k ==> data[m] != item
  }

  /** `originalIndex = data.indexOf(item)` for each shown sentence in turn. */
  method PositionsOf(data: seq<Sentence>, filtered: seq<Sentence>) returns (keys: seq<int>)
    requires forall i :: 0 <= i < |filtered| ==> filtered[i] in data
    ensures |keys| == |filtered|
    ensures forall j :: 0 <= j < |keys| ==> FirstPosition(data, filtered[j], keys[j])
  {
    keys := [];
    var j := 0;
    while j < |filtered|
      invariant 0 <= j <= |filtered| && |keys| == j
      invariant forall i :: 0 <= i < j ==> FirstPosition(data, filtered[i], keys[i])
    {
      var originalIndex := IndexOf(data, filtered[j]);
      keys := keys + [originalIndex];
      j := j + 1;
    }
  }

  /** The render loop over the shown list: each card's key, its `enabled`
      lookup and its toggle key are the position `indexOf` recovers. */
  method RenderKeys(data: seq<Sentence>, sf: StatusFilter, searchTerm: string, disabled: set<StatusKey>,
                    filtered: seq<Sentence>) returns (keys: seq<int>)
    requires filtered == FilteredData(data, sf, searchTerm, disabled)
    ensures |keys| == |filtered|
    ensures forall j :: 0 <= j < |keys| ==> FirstPosition(data, filtered[j], keys[j])
    ensures Distinct(data) ==>
              forall j :: 0 <= j < |keys| ==> StatusKeeps(sf, PositionEnabled(disabled, keys[j]))
  {
    FilteredDataWithinData(data, sf, searchTerm, disabled);
    keys := PositionsOf(data, filtered);
    if Distinct(data) {
      forall m | 0 <= m < |keys| ensures StatusKeeps(sf, PositionEnabled(disabled, keys[m])) {
        IndexAlignment(data, sf, searchTerm, disabled, keys[m]);
      }
    }
  }

  /** Every shown sentence is one of the loaded ones. */
  lemma FilteredDataWithinData(data: seq<Sentence>, sf: StatusFilter, searchTerm: string, disabled: set<StatusKey>)
    ensures forall j :: 0 <= j < |FilteredData(data, sf, searchTerm, disabled)| ==>
                        FilteredData(data, sf, searchTerm, disabled)[j] in data
  {
    var r := FilteredData(data, sf, searchTerm, disabled);
    forall j | 0 <= j < |r| ensures r[j] in data {
      FilteredDataMembership(data, sf, searchTerm, disabled, r[j]);
    }
  }

  /** The result keeps the loaded order and is never longer than the loaded list. */
  lemma FilteredDataIsSubsequence(data: seq<Sentence>, sf: StatusFilter, searchTerm: string,
                                  disabled: set<StatusKey>)
    ensures IsSubsequence(FilteredData(data, sf, searchTerm, disabled), data)
    ensures |FilteredData(data, sf, searchTerm, disabled)| <= |data|
  {
    FilterIndexedIsSubsequence(data, (s: Sentence, i: nat) => VisibleAt(disabled, sf, searchTerm, s, i));
    SubsequenceLength(FilteredData(data, sf, searchTerm, disabled), data);
  }

  /** A sentence is shown exactly when some position of the loaded list holds it
      and passes both stages. */
  lemma FilteredDataMembership(data: seq<Sentence>, sf: StatusFilter, searchTerm: string,
                               disabled: set<StatusKey>, s: Sentence)
    ensures s in FilteredData(data, sf, searchTerm, disabled) <==>
            exists i :: 0 <= i < |data| && data[i] == s && VisibleAt(disabled, sf, searchTerm, s, i)
  {
    FilterIndexedMembership(data, (s: Sentence, i: nat) => VisibleAt(disabled, sf, searchTerm, s, i), s);
  }

  /** When no object is loaded twice, the position `indexOf` finds for a shown
      sentence is the one the status stage consulted: the card's key, its
      `enabled` flag and its toggle all agree with the filter. */
  lemma IndexAlignment(data: seq<Sentence>, sf: StatusFilter, searchTerm: string, disabled: set<StatusKey>, k: int)
    requires Distinct(data) && 0 <= k < |data|
    requires data[k] in FilteredData(data, sf, searchTerm, disabled)
    ensures VisibleAt(disabled, sf, searchTerm, data[k], k)
  {
    FilteredDataMembership(data, sf, searchTerm, disabled, data[k]);
    var i :| 0 <= i < |data| && data[i] == data[k] && VisibleAt(disabled, sf, searchTerm, data[k], i);
    assert i == k;
  }

  /** 'enabled' and 'disabled' split the 'all' result (same search) into two
      parts whose order-preserving merge is that result; when no object is
      loaded twice the two parts share no sentence. */
  lemma StatusPartition(data: seq<Sentence>, searchTerm: string, disabled: set<StatusKey>)
    ensures IsInterleaving(FilteredData(data, AllStatuses, searchTerm, disabled),
                           FilteredData(data, EnabledOnly, searchTerm, disabled),
                           FilteredData(data, DisabledOnly, searchTerm, disabled))
    ensures |FilteredData(data, EnabledOnly, searchTerm, disabled)| +
            |FilteredData(data, DisabledOnly, searchTerm, disabled)| ==
            |FilteredData(data, AllStatuses, searchTerm, disabled)|
    ensures Distinct(data) ==>
              forall s :: s in FilteredData(data, EnabledOnly, searchTerm, disabled) ==>
                          s !in FilteredData(data, DisabledOnly, searchTerm, disabled)
  {
    FilterIndexedPartition(data,
      (s: Sentence, i: nat) => VisibleAt(disabled, AllStatuses, searchTerm, s, i),
      (s: Sentence, i: nat) => PositionEnabled(disabled, i),
      (s: Sentence, i: nat) => VisibleAt(disabled, EnabledOnly, searchTerm, s, i),
      (s: Sentence, i: nat) => VisibleAt(disabled, DisabledOnly, searchTerm, s, i));
    if Distinct(data) {
      forall s | s in FilteredData(data, EnabledOnly, searchTerm, disabled)
        ensures s !in FilteredData(data, DisabledOnly, searchTerm, disabled)
      {
        FilteredDataMembership(data, EnabledOnly, searchTerm, disabled, s);
        FilteredDataMembership(data, DisabledOnly, searchTerm, disabled, s);
      }
    }
  }

  /** Why the position-keyed filter needs each object loaded once: a list holding
      the same object twice, with position 0 disabled, shows it under both
      'enabled' and 'disabled'. */
  lemma SharedObjectCounterexample(o: Sentence)
    ensures o in FilteredData([o, o], EnabledOnly, "", {StatusKey(SENTENCES, Num(0))})
    ensures o in FilteredData([o, o], DisabledOnly, "", {StatusKey(SENTENCES, Num(0))})
  {
    var d := {StatusKey(SENTENCES, Num(0))};
    FilteredDataMembership([o, o], EnabledOnly, "", d, o);
    FilteredDataMembership([o, o], DisabledOnly, "", d, o);
    assert VisibleAt(d, EnabledOnly, "", o, 1);
    assert VisibleAt(d, DisabledOnly, "", o, 0);
  }

  /** The same list rendered under 'enabled': the card is there, but `indexOf`
      keys it by position 0, so the card shows, and toggles, the disabled position. */
  method SharedObjectRendering(o: Sentence) returns (keys: seq<int>)
    ensures |keys| >= 1
    ensures forall j :: 0 <= j < |keys| ==> keys[j] == 0 && !PositionEnabled({StatusKey(SENTENCES, Num(0))}, keys[j])
  {
    var d := {StatusKey(SENTENCES, Num(0))};
    var filtered := FilteredData([o, o], EnabledOnly, "", d);
    SharedObjectCounterexample(o);
    keys := RenderKeys([o, o], EnabledOnly, "", d, filtered);
    FilteredDataWithinData([o, o], EnabledOnly, "", d);
    forall j | 0 <= j < |keys| ensures keys[j] == 0 {
      assert filtered[j] == o;
    }
  }

  /** A search term that is empty or only whitespace changes nothing. */
  lemma BlankSearchIsNoOp(data: seq<Sentence>, sf: StatusFilter, searchTerm: string, disabled: set<StatusKey>)
    requires IsBlank(searchTerm)
    ensures FilteredData(data, sf, searchTerm, disabled) == FilteredData(data, sf, "", disabled)
  {
    FilterIndexedExt(data, (s: Sentence, i: nat) => VisibleAt(disabled, sf, searchTerm, s, i),
                     (s: Sentence, i: nat) => VisibleAt(disabled, sf, "", s, i));
  }

  /** Status is looked up under 'SENTENCES' only: storage entries of other
      categories never change the result. */
  lemma StatusUsesOnlySentenceKeys(data: seq<Sentence>, sf: StatusFilter, searchTerm: string,
                                   d1: set<StatusKey>, d2: set<StatusKey>)
    requires forall id :: StatusKey(SENTENCES, id) in d1 <==> StatusKey(SENTENCES, id) in d2
    ensures FilteredData(data, sf, searchTerm, d1) == FilteredData(data, sf, searchTerm, d2)
  {
    FilterIndexedExt(data, (s: Sentence, i: nat) => VisibleAt(d1, sf, searchTerm, s, i),
                     (s: Sentence, i: nat) => VisibleAt(d2, sf, searchTerm, s, i));
  }
}
