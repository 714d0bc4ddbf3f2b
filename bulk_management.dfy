/** The bulk-management screen: choosing a category, level, character type
    and count, asking storage to disable that many random items of the
    chosen scope, and re-enabling them again. */
module BulkManagement {
  import opened Optional
  import opened Text
  import opened JsNumber
  import opened Availability

  /** The levels offered per category; sentences have none. */
  const AvailableLevels: map<string, seq<int>> :=
    map["hsk" := [1, 2], "tocfl" := [1], "kanji" := [1, 2], "sentence" := []]

  /** The table spelled out entry by entry. */
  lemma LevelsTable()
    ensures AvailableLevels.Keys == {"hsk", "tocfl", "kanji", "sentence"}
    ensures AvailableLevels["hsk"] == [1, 2] && AvailableLevels["tocfl"] == [1]
    ensures AvailableLevels["kanji"] == [1, 2] && AvailableLevels["sentence"] == []
  {
  }

  /** `getCategoryType`: the storage category of a selector value; unknown values fall back to HSK. */
  function GetCategoryType(cat: string): (t: CategoryType)
    ensures t == HSK <==> cat == "hsk" || cat !in AvailableLevels
  {
    if cat == "hsk" then HSK
    else if cat == "tocfl" then TOCFL
    else if cat == "kanji" then KANJI
    else if cat == "sentence" then SENTENCES
    else HSK
  }

  /** The selector value that stands for a storage category. */
  function CategoryName(t: CategoryType): (cat: string)
    ensures cat in AvailableLevels
  {
    match t
    case HSK => "hsk"
    case TOCFL => "tocfl"
    case KANJI => "kanji"
    case SENTENCES => "sentence"
  }

  /** Every storage category is reached from exactly one selector value. */
  lemma CategoryTypeRoundTrip(t: CategoryType, cat: string)
    ensures GetCategoryType(CategoryName(t)) == t
    ensures cat in AvailableLevels ==> CategoryName(GetCategoryType(cat)) == cat
  {
  }

  /** On the offered categories the mapping is one-to-one. */
  lemma CategoryTypeInjective(a: string, b: string)
    requires a in AvailableLevels && b in AvailableLevels
    requires GetCategoryType(a) == GetCategoryType(b)
    ensures a == b
  {
    CategoryTypeRoundTrip(GetCategoryType(a), a);
    CategoryTypeRoundTrip(GetCategoryType(b), b);
  }

  /** `levelToUse`: no level for sentences, the selected level for the rest. */
  function LevelScope(category: string, level: int): (scope: Option<int>)
    ensures scope == None <==> category == "sentence"
    ensures scope.Some? ==> scope.value == level
  {
    if category == "sentence" then None else Some(level)
  }

  /** The (type, level) pair storage keys random disabling by. */
  datatype Scope = Scope(categoryType: CategoryType, level: Option<int>)

  /** The scope of a selection, as `(getCategoryType(category), levelToUse)`. */
  function ScopeOf(category: string, level: int): (scope: Scope)
  {
    Scope(GetCategoryType(category), LevelScope(category, level))
  }

  /** Each category and level is tracked separately: two selections share a
      scope only if they name the same category and, outside sentences, the same level. */
  lemma ScopeSeparates(c1: string, l1: int, c2: string, l2: int)
    requires c1 in AvailableLevels && c2 in AvailableLevels
    ensures ScopeOf(c1, l1) == ScopeOf(c2, l2) <==> c1 == c2 && (c1 != "sentence" ==> l1 == l2)
  {
    if ScopeOf(c1, l1) == ScopeOf(c2, l2) {
      CategoryTypeInjective(c1, c2);
    }
  }

  /** Which loader `handleRandomDisable` awaits; an unknown category loads nothing. */
  datatype Loader = LoadHsk(level: int) | LoadTocfl(level: int) | LoadKanji(level: int) | LoadSentences | NoLoader

  function LoaderFor(category: string, level: int): (loader: Loader)
    ensures loader == NoLoader <==> category !in AvailableLevels
  {
    if category == "hsk" then LoadHsk(level)
    else if category == "tocfl" then LoadTocfl(level)
    else if category == "kanji" then LoadKanji(level)
    else if category == "sentence" then LoadSentences
    else NoLoader
  }

  /** The storage category whose items a loader produces. */
  function LoaderType(loader: Loader): (t: Option<CategoryType>)
  {
    match loader
    case LoadHsk(_) => Some(HSK)
    case LoadTocfl(_) => Some(TOCFL)
    case LoadKanji(_) => Some(KANJI)
    case LoadSentences => Some(SENTENCES)
    case NoLoader => None
  }

  /** The items loaded are those of the type passed to storage, and of the scope's level. */
  lemma LoaderAgreesWithScope(category: string, level: int)
    requires category in AvailableLevels
    ensures LoaderType(LoaderFor(category, level)) == Some(GetCategoryType(category))
    ensures LoaderFor(category, level).LoadSentences? <==> LevelScope(category, level) == None
    ensures !LoaderFor(category, level).LoadSentences? ==> Some(LoaderFor(category, level).level) == LevelScope(category, level)
  {
  }

  /** How the message banner is styled; no banner for the empty message. */
  datatype Tone = ErrorTone | SuccessTone

  /** The banner's style: none for the empty message, red when the message
      has "Error" in it, which only a message of at least five characters can. */
  function MessageTone(message: string): (tone: Option<Tone>)
    ensures message != "" ==> tone.Some?
    ensures tone == Some(ErrorTone) ==> |message| >= |"Error"|
  {
    if message == "" then None
    else if Contains(message, "Error") then Some(ErrorTone)
    else Some(SuccessTone)
  }

  const DisableErrorMessage: string := "Error disabling items"
  const ReenableErrorMessage: string := "Error re-enabling items"

  /** A shown message is error-styled exactly when "Error" occurs somewhere in it. */
  lemma ErrorToneIff(message: string)
    ensures MessageTone(message) == Some(ErrorTone) <==> exists k: nat :: OccursAt(message, "Error", k)
    ensures MessageTone(message) == None <==> message == ""
  {
    ContainsIff(message, "Error");
    if message == "" {
      assert !Contains(message, "Error");
    }
  }

  /** Both failure messages are shown as errors. */
  lemma FailureMessagesAreErrors()
    ensures MessageTone(DisableErrorMessage) == Some(ErrorTone)
    ensures MessageTone(ReenableErrorMessage) == Some(ErrorTone)
  {
    assert OccursAt(DisableErrorMessage, "Error", 0);
    assert OccursAt(ReenableErrorMessage, "Error", 0);
    ContainsAt(DisableErrorMessage, "Error", 0);
    ContainsAt(ReenableErrorMessage, "Error", 0);
  }

  /** The count input's `onChange` takes the text as the new count when it is
      non-empty, a number and at least 1; so it never takes a blank text. */
  predicate ChangeAccepts(value: string)
    ensures ChangeAccepts(value) ==> Trim(value) != []
  {
    value != "" && ParseNumber(value).Some? && ParseNumber(value).value >= 1
  }

  /** The count input's `onBlur` resets to 1 when the text is empty, not a number or
      below 1; so a text it keeps is not blank and has no leading minus sign. */
  predicate BlurResets(value: string)
    ensures !BlurResets(value) ==> Trim(value) != [] && Trim(value)[0] != '-'
  {
    value == "" || ParseNumber(value).None? || ParseNumber(value).value < 1
  }

  /** The two handlers judge a text alike: blur resets exactly what change would not accept. */
  lemma BlurResetsIffChangeRejects(value: string)
    ensures BlurResets(value) <==> !ChangeAccepts(value)
  {
  }

  /** The empty text parses as 0 but is still rejected, and blank text the same way. */
  lemma BlankCountRejected(value: string)
    requires Trim(value) == []
    ensures ParseNumber(value) == Some(0)
    ensures !ChangeAccepts(value) && BlurResets(value)
  {
  }

  /** A negative count text is accepted by neither handler; blur resets it to 1. */
  lemma NegativeCountRejected(digits: string)
    requires digits != [] && AllDigits(digits)
    ensures !ChangeAccepts(['-'] + digits) && BlurResets(['-'] + digits)
  {
    ParseMinusDigits(digits);
  }

  /** `String(1)` is the text "1". */
  lemma OneText()
    ensures NatToString(1) == "1"
  {
  }

  /** A category the selector offers, and one of its levels whenever it has any. */
  predicate ValidSelection(category: string, level: int)
  {
    category in AvailableLevels &&
    (AvailableLevels[category] != [] ==> level in AvailableLevels[category])
  }

  /** The selection the screen starts with is one the selectors offer. */
  lemma InitialSelectionValid()
    ensures ValidSelection("hsk", 1)
  {
    LevelsTable();
  }

  /** What `randomlyDisableItems` is called with: type, loaded items' loader, count, level scope and character type. */
  datatype DisableRequest = DisableRequest(
    loader: Loader, categoryType: CategoryType, count: int, level: Option<int>, filter: CharacterFilter)

  /** How a storage round ended: with the message storage returned and the
      randomly disabled ids it then reports for the scope, or with an exception. */
  datatype Outcome = Completed(resultMessage: string, randomIdsAfter: seq<ItemId>) | Failed

  /** The component's state. */
  class BulkManagementScreen {
    var category: string
    var level: int
    var count: int
    var countInput: string
    var characterFilter: CharacterFilter
    var loading: bool
    var message: string
    var randomlyDisabledCount: nat

    /** The count is at least 1 and the selection is one the selectors offer. */
    ghost predicate Valid()
      reads this
    {
      count >= 1 && ValidSelection(category, level)
    }

    function CurrentScope(): (scope: Scope)
      reads this
    {
      ScopeOf(category, level)
    }

    constructor ()
      ensures Valid()
      ensures category == "hsk" && level == 1 && count == 10 && countInput == "10"
      ensures characterFilter == AllCharacters && !loading && message == "" && randomlyDisabledCount == 0
      ensures countInput == NatToString(count)
    {
      category := "hsk";
      level := 1;
      count := 10;
      countInput := "10";
      characterFilter := AllCharacters;
      loading := false;
      message := "";
      randomlyDisabledCount := 0;
      InitialSelectionValid();
      assert NatToString(10) == "10";
    }

    /** `updateRandomlyDisabledCount`: asks storage for the current scope's
        randomly disabled ids (`randomIds` is its answer) and shows how many there are. */
    method UpdateRandomlyDisabledCount(randomIds: seq<ItemId>) returns (query: Scope)
      modifies this`randomlyDisabledCount
      ensures query == CurrentScope()
      ensures query.level == None <==> category == "sentence"
      ensures randomlyDisabledCount == |randomIds|
    {
      query := Scope(GetCategoryType(category), LevelScope(category, level));
      randomlyDisabledCount := |randomIds|;
    }

    /** `handleCategoryChange`: a category with levels selects its first level,
        sentences keep the level; the message is cleared. */
    method HandleCategoryChange(newCategory: string)
      requires Valid() && newCategory in AvailableLevels
      modifies this`category, this`level, this`message
      ensures Valid()
      ensures category == newCategory
      ensures AvailableLevels[newCategory] != [] ==> level == AvailableLevels[newCategory][0]
      ensures AvailableLevels[newCategory] == [] ==> level == old(level)
      ensures message == ""
    {
      category := newCategory;
      var available := AvailableLevels[newCategory];
      if |available| > 0 {
        level := available[0];
      }
      message := "";
    }

    /** The level selector's `onChange`; it only offers the category's levels. */
    method SelectLevel(lvl: int)
      requires Valid() && lvl in AvailableLevels[category]
      modifies this`level
      ensures Valid() && level == lvl
    {
      level := lvl;
    }

    /** The character-type selector's `onChange`. The selector is hidden for
        kanji, but the value chosen before stays in state and is still sent. */
    method SelectCharacterFilter(cf: CharacterFilter)
      requires Valid()
      modifies this`characterFilter
      ensures Valid() && characterFilter == cf
    {
      characterFilter := cf;
    }

    /** The count input's `onChange`: the text is always kept; the count only
        changes to an acceptable value. */
    method OnCountChange(value: string)
      requires Valid()
      modifies this`count, this`countInput
      ensures Valid()
      ensures countInput == value
      ensures ChangeAccepts(value) ==> Some(count) == ParseNumber(value)
      ensures !ChangeAccepts(value) ==> count == old(count)
    {
      countInput := value;
      var numValue := ParseNumber(value);
      if value != "" && numValue.Some? && numValue.value >= 1 {
        count := numValue.value;
      }
    }

    /** The count input's `onBlur`: the text is normalised to the string form
        of a count of at least 1, resetting to 1 when the text is unusable. */
    method OnCountBlur(value: string)
      requires Valid()
      modifies this`count, this`countInput
      ensures Valid()
      ensures BlurResets(value) ==> count == 1 && countInput == "1"
      ensures !BlurResets(value) ==> Some(count) == ParseNumber(value)
      ensures count >= 1 && countInput == NatToString(count)
    {
      var numValue := ParseNumber(value);
      if value == "" || numValue.None? || numValue.value < 1 {
        assert BlurResets(value);
        countInput := "1";
        count := 1;
        OneText();
      } else {
        assert !BlurResets(value);
        countInput := NatToString(numValue.value);
        count := numValue.value;
      }
    }

    /** `handleRandomDisable`: loads the category's items and asks storage to
        disable `count` of them in the current scope; `request` is that call.
        On `Failed` the loader may have thrown first, so the request may never
        have reached storage. The message becomes storage's answer, or the
        error text on an exception. */
    method HandleRandomDisable(outcome: Outcome) returns (request: DisableRequest)
      requires Valid()
      modifies this`loading, this`message, this`randomlyDisabledCount
      ensures Valid()
      ensures request == DisableRequest(LoaderFor(category, level), GetCategoryType(category), count,
                                        LevelScope(category, level), characterFilter)
      ensures request.count >= 1 && request.loader != NoLoader
      ensures Scope(request.categoryType, request.level) == CurrentScope()
      ensures !loading
      ensures outcome.Completed? ==> message == outcome.resultMessage &&
                                     randomlyDisabledCount == |outcome.randomIdsAfter|
      ensures outcome.Failed? ==> message == DisableErrorMessage &&
                                  randomlyDisabledCount == old(randomlyDisabledCount)
    {
      loading := true;
      message := "";
      var categoryType := GetCategoryType(category);
      var loader := LoaderFor(category, level);
      var levelToUse := LevelScope(category, level);
      request := DisableRequest(loader, categoryType, count, levelToUse, characterFilter);
      if outcome.Completed? {
        message := outcome.resultMessage;
        var _ := UpdateRandomlyDisabledCount(outcome.randomIdsAfter);
      } else {
        message := DisableErrorMessage;
      }
      loading := false;
    }

    /** `handleReenable`: asks storage to re-enable the current scope's randomly
        disabled items; `request` is the scope of that call. */
    method HandleReenable(outcome: Outcome) returns (request: Scope)
      requires Valid()
      modifies this`loading, this`message, this`randomlyDisabledCount
      ensures Valid()
      ensures request == CurrentScope()
      ensures request.level == None <==> category == "sentence"
      ensures !loading
      ensures outcome.Completed? ==> message == outcome.resultMessage &&
                                     randomlyDisabledCount == |outcome.randomIdsAfter|
      ensures outcome.Failed? ==> message == ReenableErrorMessage &&
                                  randomlyDisabledCount == old(randomlyDisabledCount)
    {
      loading := true;
      message := "";
      request := Scope(GetCategoryType(category), LevelScope(category, level));
      if outcome.Completed? {
        message := outcome.resultMessage;
        var _ := UpdateRandomlyDisabledCount(outcome.randomIdsAfter);
      } else {
        message := ReenableErrorMessage;
      }
      loading := false;
    }
  }
}
