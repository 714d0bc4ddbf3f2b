# Chinese/Japanese study app: practice-view filtering and bulk management

This project models the decision logic of four React components of a
vocabulary study app.

- The three practice views (HSK vocabulary, kanji, sentences) narrow a
  loaded list through up to three stages:
  - a character-count filter (HSK only);
  - an enabled/disabled status filter;
  - a case-insensitive multi-field substring search.

  Each view also toggles an item's enabled status under a key:
  - `('HSK', item.id)` for HSK items;
  - `('KANJI', item.kanji)` for kanji;
  - `('SENTENCES', position)` for sentences, where the position is
    recovered at render time with `data.indexOf(item)`.
- The bulk-management screen holds:
  - a category/level selection with a fixed table of levels;
  - a character-type choice;
  - a count input whose `onChange`/`onBlur` handlers keep the count at
    least 1;
  - message and loading state around two storage calls. One disables a
    random sample of the chosen scope; the other re-enables what was so
    disabled.

Modules:

- `Text`: the JavaScript string builtins the views use. `toLowerCase`,
  `trim` (with the full ECMAScript whitespace set) and `includes`.
- `Filtering`: `Array.prototype.filter` in both its forms, `filter(item => …)`
  and `filter((item, index) => …)`. Also defines order-preserving
  subsequences and interleavings.
- `Availability`: the storage vocabulary (category types, item ids, status
  keys, the filter choices). Storage's `isItemEnabled(type, id)` is
  modelled as "`(type, id)` is not in a set of disabled keys". That set is
  a parameter.
- `Search`: the search stage the three views share.
- `HskPractice`, `KanjiPractice`, `SentencePractice`: one module per view.
  - `FilterData` is a method that reassigns its local `filtered` stage by
    stage, as the components do.
  - It is proved equal to `FilteredData`, a single filter by the
    conjunction of the stage predicates.
  - The properties are lemmas about `FilteredData`.
  - A sentence is a class. Its equality is object identity, which is what
    `indexOf` compares by.
- `JsNumber`: `Number(text)` and `String(n)` as the count input uses them.
- `BulkManagement`: the category table and its pure helpers, and the class
  `BulkManagementScreen`. The class has the component's state variables as
  fields and its handlers as methods. `Valid()` is the invariant the
  handlers keep: count at least 1, a category the selector offers, and a
  level from that category's list whenever the list is non-empty.

Storage calls are not executed. The arguments a handler passes to storage
are returned as values, and what storage answers is a parameter:

- for the practice views, the disabled set after a toggle;
- for bulk management, an `Outcome`: completed with a message and the ids
  then reported, or failed with an exception.

The bulk-management screen addresses storage by a type and a level: it
passes `(type, levelToUse)` to `getRandomlyDisabledIds`,
`randomlyDisableItems` and `reenableRandomlyDisabled`
(src/components/BulkManagement.jsx:28, 67 and 84). The practice views call
`isItemEnabled(type, id)`, so the level never enters the key they look
status up by. The model follows the views
(`HskPractice.StatusUsesOnlyHskKeys`).

The character-type selector is hidden for kanji. The value chosen earlier
stays in state and is sent with a kanji request all the same: the request
stated by `HandleRandomDisable` carries `characterFilter` whatever the
category.

## Model

| member | source | states |
|---|---|---|
| Text.LowerSpec | src/components/HSKPractice.jsx:48 | after lower-casing no capital A-Z is left; each capital becomes the same letter in lower case; every other character is unchanged |
| Text.TrimSpec | src/components/HSKPractice.jsx:47 | the trimmed text occurs in the original with only whitespace before and after it, so `trim` removes whitespace and nothing else; it neither starts nor ends with whitespace, and is empty exactly when the original is all whitespace |
| Text.Contains | src/components/HSKPractice.jsx:51-57 | the empty term is included in every text, and no term is included in a text shorter than itself |
| Text.TrimStart | src/components/HSKPractice.jsx:47 | the result is a suffix that does not start with whitespace, and everything dropped is whitespace |
| Text.TrimEnd | src/components/HSKPractice.jsx:47 | the result is a prefix that does not end with whitespace, and everything dropped is whitespace |
| Text.ContainsIff | src/components/HSKPractice.jsx:51-57 | `includes(t)` holds exactly when `t` occurs at some offset |
| Text.LowerIdempotent | src/components/HSKPractice.jsx:48-57 | lower-casing an already lower-cased text changes nothing |
| Text.TrimLower | src/components/HSKPractice.jsx:47-48 | trim and lower-case commute, so the term after `toLowerCase().trim()` is empty exactly when `trim()` is |
| Text.TrimPadding | src/components/HSKPractice.jsx:47-48 | whitespace added on either side does not change the trimmed text |
| Filtering.Filter | src/components/HSKPractice.jsx:34 | `filter` is never longer than its input, keeps only elements of the input that satisfy the predicate, and keeps every element that does |
| Filtering.FilterIsSubsequence | src/components/HSKPractice.jsx:34 | `filter` keeps the input's order: its result is a subsequence of the input |
| Filtering.SubsequenceLength | src/components/HSKPractice.jsx:129 | a subsequence is never longer than the list it comes from |
| Filtering.FilterCompose | src/components/HSKPractice.jsx:29-60 | filtering by `p` and then by `q` equals one filter by `p && q` |
| Filtering.FilterPartition | src/components/HSKPractice.jsx:40-44 | filters by `p` and by `!p` interleave to the input, their lengths add up to its length, and they share no element |
| Filtering.FilterIndexed | src/components/SentencePractice.jsx:32-38 | the indexed filter is never longer than its input and keeps only elements of the input |
| Filtering.FilterIndexedMembership | src/components/SentencePractice.jsx:32-38 | an element is kept by the indexed filter exactly when it sits at some position whose index the predicate accepts |
| Filtering.FilterIndexedIsSubsequence | src/components/SentencePractice.jsx:32-38 | the indexed filter keeps the input's order |
| Filtering.FilterAfterFilterIndexed | src/components/SentencePractice.jsx:31-54 | an indexed filter followed by a plain filter equals one indexed filter by the conjunction |
| Filtering.FilterIndexedPartition | src/components/SentencePractice.jsx:31-39 | indexed filters by `p` and by `!p` interleave to the input and their lengths add up |
| Search.SearchTerm | src/components/HSKPractice.jsx:48 | the term looked for is no longer than what was typed and has no capital letter |
| Search.BlankIffWhitespace | src/components/HSKPractice.jsx:47 | the search stage is skipped exactly when the typed term is empty or only whitespace |
| Search.FieldMatches | src/components/HSKPractice.jsx:51-57 | an absent field never matches; a present field matches the empty term; a matching field is at least as long as the term |
| Search.SearchKeeps | src/components/HSKPractice.jsx:47-58 | a search that is not skipped keeps only items with at least one present field |
| Search.SearchTermNotEmpty | src/components/HSKPractice.jsx:47-48 | the search stage runs exactly when the lower-cased, trimmed term is non-empty |
| Search.SearchIgnoresTermCase | src/components/HSKPractice.jsx:48 | lower-casing the typed term first changes nothing the search keeps |
| Search.SearchIgnoresFieldCase | src/components/HSKPractice.jsx:51-57 | a field matches exactly when its lower-cased text does |
| Search.SearchIgnoresPadding | src/components/HSKPractice.jsx:47-48 | whitespace around the typed term changes nothing the search keeps |
| HskPractice.FilterData | src/components/HSKPractice.jsx:29-63 | the three-stage narrowing yields exactly the loaded items passing the character, status and search stages, in load order; the status stage is `Availability.StatusKeeps` (lines 40-44) and the search stage the seven-field `Search.AnyFieldMatches` chain (lines 50-58) |
| HskPractice.HandleToggle | src/components/HSKPractice.jsx:65-68 | the toggled key is `('HSK', id)`, and the new list is the filter under the disabled set after the toggle |
| HskPractice.FilteredDataIsSubsequence | src/components/HSKPractice.jsx:29-62 | the shown list is an order-preserving subsequence of the loaded list, never longer |
| HskPractice.FilteredDataMembership | src/components/HSKPractice.jsx:33-59 | an item is shown exactly when it was loaded and passes all three stages: `CharacterKeeps`, the selector's choice `Availability.StatusKeeps`, and the any-field chain `Search.AnyFieldMatches` over its seven fields |
| HskPractice.CharacterKeeps | src/components/HSKPractice.jsx:33-37 | 'single' and 'multi' keep only items whose character count is known and at least 1 |
| HskPractice.CharacterFilterSelects | src/components/HSKPractice.jsx:33-37 | 'single' keeps exactly the items with count 1, 'multi' exactly those with count above 1, 'all' everything |
| HskPractice.UncountedOnlyUnderAll | src/components/HSKPractice.jsx:33-37 | an item with no character count, or count 0, survives the character stage only under 'all' |
| HskPractice.StatusPartition | src/components/HSKPractice.jsx:40-44 | the 'enabled' and 'disabled' lists are disjoint and interleave to the 'all' list for the same character filter and search |
| HskPractice.BlankSearchIsNoOp | src/components/HSKPractice.jsx:47 | an empty or whitespace-only term gives the same list as no term |
| HskPractice.StatusUsesOnlyHskKeys | src/components/HSKPractice.jsx:39-44 | status depends only on the disabled `('HSK', id)` keys; nothing else in storage, and no level, affects the list |
| KanjiPractice.FilterData | src/components/KanjiPractice.jsx:28-54 | the two-stage narrowing yields exactly the loaded entries passing the status and search stages, in load order |
| KanjiPractice.HandleToggle | src/components/KanjiPractice.jsx:56-59 | the toggled key is `('KANJI', kanji)`, and the new list is the filter under the disabled set after the toggle |
| KanjiPractice.FilteredDataIsSubsequence | src/components/KanjiPractice.jsx:28-53 | the shown list is an order-preserving subsequence of the loaded list, never longer |
| KanjiPractice.FilteredDataMembership | src/components/KanjiPractice.jsx:31-51 | an entry is shown exactly when it was loaded and passes both stages |
| KanjiPractice.StatusPartition | src/components/KanjiPractice.jsx:32-36 | the 'enabled' and 'disabled' lists are disjoint and interleave to the 'all' list |
| KanjiPractice.BlankSearchIsNoOp | src/components/KanjiPractice.jsx:39 | an empty or whitespace-only term gives the same list as no term |
| KanjiPractice.SameKanjiSameFate | src/components/KanjiPractice.jsx:32-36 | two entries with the same kanji share one status, so when both match the search a status filter shows both or neither |
| KanjiPractice.StatusUsesOnlyKanjiKeys | src/components/KanjiPractice.jsx:32-36 | status depends only on the disabled `('KANJI', kanji)` keys |
| SentencePractice.FilterData | src/components/SentencePractice.jsx:27-58 | the position-keyed status stage followed by the search yields exactly the sentences whose position and fields pass, in load order |
| SentencePractice.SearchAfterStatus | src/components/SentencePractice.jsx:41-55 | searching the status-filtered list equals one indexed filter by status and search together |
| SentencePractice.HandleToggle | src/components/SentencePractice.jsx:60-63 | the toggled key is `('SENTENCES', index)`, and the new list is the filter under the disabled set after the toggle |
| SentencePractice.IndexOf | src/components/SentencePractice.jsx:115 | `indexOf` is -1 exactly when the object is absent; otherwise it is the first position holding that very object |
| SentencePractice.PositionsOf | src/components/SentencePractice.jsx:115 | the loop gives each shown sentence the first position of the loaded list that holds that very object |
| SentencePractice.RenderKeys | src/components/SentencePractice.jsx:114-123 | each card is keyed, looked up and toggled by the first position holding its object, as `indexOf` finds it; when every object is loaded once, that position passes the status filter the list was built with |
| SentencePractice.FilteredDataIsSubsequence | src/components/SentencePractice.jsx:27-57 | the shown list is an order-preserving subsequence of the loaded list, never longer |
| SentencePractice.FilteredDataMembership | src/components/SentencePractice.jsx:30-55 | a sentence is shown exactly when it sits at some loaded position that passes the status stage and its fields pass the search |
| SentencePractice.IndexAlignment | src/components/SentencePractice.jsx:115-121 | with each object loaded once, the position `indexOf` recovers for a shown sentence is one the status filter accepted |
| SentencePractice.StatusPartition | src/components/SentencePractice.jsx:31-39 | the 'enabled' and 'disabled' lists interleave to the 'all' list; with each object loaded once they are disjoint |
| SentencePractice.SharedObjectCounterexample | src/components/SentencePractice.jsx:31-39 | one object loaded twice, with position 0 disabled, is shown under both 'enabled' and 'disabled' |
| SentencePractice.SharedObjectRendering | src/components/SentencePractice.jsx:114-121 | with one object loaded twice and position 0 disabled, the 'enabled' list renders a card, and every card it renders is keyed by the disabled position 0 |
| SentencePractice.BlankSearchIsNoOp | src/components/SentencePractice.jsx:42 | an empty or whitespace-only term gives the same list as no term |
| SentencePractice.StatusUsesOnlySentenceKeys | src/components/SentencePractice.jsx:31-39 | status depends only on the disabled `('SENTENCES', position)` keys |
| Availability.IsItemEnabled | src/components/HSKPractice.jsx:41 | an item is enabled whenever storage reports nothing of its category disabled |
| JsNumber.ParseNumber | src/components/BulkManagement.jsx:177 | blank text reads as 0; `NaN` comes only from a text that is not all digits; a negative value needs a leading minus sign, and a leading minus sign never gives a positive value; the converse is `JsNumber.ParseRejects` |
| JsNumber.ParseRejects | src/components/BulkManagement.jsx:177-185 | a text reads as a number exactly when, once trimmed, it is empty, a run of digits, or a sign followed by a run of digits; anything else (`"1a"`, `"--1"`, `"+"`) is `NaN`, which `onChange` refuses and `onBlur` resets |
| JsNumber.NatToString | src/components/BulkManagement.jsx:188 | `String(n)` is a non-empty run of digits without a leading zero |
| JsNumber.ParseDigits | src/components/BulkManagement.jsx:177 | `Number` of a run of digits is its decimal value |
| JsNumber.ParsePlusDigits | src/components/BulkManagement.jsx:177 | `Number('+' + digits)` is the digits' value |
| JsNumber.ParseMinusDigits | src/components/BulkManagement.jsx:177 | `Number('-' + digits)` is the negated value |
| JsNumber.ParseNatToString | src/components/BulkManagement.jsx:188 | `Number(String(n)) == n` for every non-negative integer |
| BulkManagement.LevelsTable | src/components/BulkManagement.jsx:5-10 | the level table offers exactly the four categories, with levels [1, 2], [1], [1, 2] and none for sentences |
| BulkManagement.InitialSelectionValid | src/components/BulkManagement.jsx:13-14 | the initial selection 'hsk', level 1 is one the selectors offer |
| BulkManagement.GetCategoryType | src/components/BulkManagement.jsx:33-41 | the result is HSK exactly for 'hsk' and for values outside the category table |
| BulkManagement.CategoryName | src/components/BulkManagement.jsx:123-126 | each storage category has a selector value in the category table |
| BulkManagement.CategoryTypeRoundTrip | src/components/BulkManagement.jsx:33-41 | the selector values and the storage categories correspond one to one through `getCategoryType` |
| BulkManagement.CategoryTypeInjective | src/components/BulkManagement.jsx:33-41 | two offered categories with the same storage type are the same category |
| BulkManagement.LevelScope | src/components/BulkManagement.jsx:28 | the level scope is absent exactly for 'sentence' and is the selected level otherwise |
| BulkManagement.ScopeSeparates | src/components/BulkManagement.jsx:26-31 | two selections share a storage scope exactly when they are the same category with, outside sentences, the same level |
| BulkManagement.LoaderFor | src/components/BulkManagement.jsx:50-65 | there is no loader exactly for categories outside the table |
| BulkManagement.LoaderAgreesWithScope | src/components/BulkManagement.jsx:47-68 | the loaded items are of the type passed to storage, and the loader's level is the level scope (none for sentences) |
| BulkManagement.MessageTone | src/components/BulkManagement.jsx:199-204 | a non-empty message always gets a banner, and a red one only if the message is at least as long as "Error" |
| BulkManagement.ErrorToneIff | src/components/BulkManagement.jsx:199-204 | no banner exactly for the empty message; a banner is red exactly when "Error" occurs in the message |
| BulkManagement.FailureMessagesAreErrors | src/components/BulkManagement.jsx:71-93 | both catch-branch messages are shown in red |
| BulkManagement.ChangeAccepts | src/components/BulkManagement.jsx:178 | `onChange` never takes a blank text as the count |
| BulkManagement.BlurResets | src/components/BulkManagement.jsx:184 | a text `onBlur` keeps is not blank and has no leading minus sign |
| BulkManagement.BlurResetsIffChangeRejects | src/components/BulkManagement.jsx:174-191 | `onBlur` resets exactly the texts `onChange` refuses to take as a count |
| BulkManagement.BlankCountRejected | src/components/BulkManagement.jsx:177-185 | blank text reads as 0 and is refused by `onChange` and reset by `onBlur` |
| BulkManagement.NegativeCountRejected | src/components/BulkManagement.jsx:177-185 | a negative integer text is refused by `onChange` and reset by `onBlur` |
| BulkManagement.BulkManagementScreen.constructor | src/components/BulkManagement.jsx:13-20 | the initial state: 'hsk', level 1, count 10 shown as '10' (which is `String(10)`), 'all', not loading, no message, nothing randomly disabled; the invariant holds |
| BulkManagement.BulkManagementScreen.UpdateRandomlyDisabledCount | src/components/BulkManagement.jsx:26-31 | storage is asked about the current scope (no level for sentences), and the shown count is the number of ids it reports |
| BulkManagement.BulkManagementScreen.HandleCategoryChange | src/components/BulkManagement.jsx:96-103 | the category is set; a category with levels selects its first level, sentences keep the old one; the message is cleared; the invariant is kept |
| BulkManagement.BulkManagementScreen.SelectLevel | src/components/BulkManagement.jsx:135-145 | the level becomes one of the category's offered levels and the invariant is kept |
| BulkManagement.BulkManagementScreen.SelectCharacterFilter | src/components/BulkManagement.jsx:154-157 | the character type is set and leaves everything else alone; the value is kept, and sent to storage, whatever the category (the selector itself is rendered only for hsk, tocfl and sentence, line 149) |
| BulkManagement.BulkManagementScreen.OnCountChange | src/components/BulkManagement.jsx:174-181 | the text is always kept; the count becomes its value when it is accepted and is unchanged otherwise; the count stays at least 1 |
| BulkManagement.BulkManagementScreen.OnCountBlur | src/components/BulkManagement.jsx:182-191 | unusable text resets count and text to 1; otherwise the count is the text's value; afterwards the text is `String(count)` (which reads back as the count by `JsNumber.ParseNatToString`) and the count is at least 1 |
| BulkManagement.BulkManagementScreen.HandleRandomDisable | src/components/BulkManagement.jsx:43-77 | the request to disable `count` (at least 1) items of the current scope is built, taken from that category's loader, with the current character type; on `Failed` it may never have reached storage, since the loader can throw first (lines 52-61). The message is storage's answer and the shown count is refreshed, or on an exception the message is the error text and the count is kept. Loading ends false |
| BulkManagement.BulkManagementScreen.HandleReenable | src/components/BulkManagement.jsx:79-94 | storage is asked to re-enable the current scope. The message is storage's answer and the shown count is refreshed, or on an exception the message is the error text and the count is kept. Loading ends false |

## Left out

- The storage module behind `isItemEnabled`, `toggleItem`, `getRandomlyDisabledIds`, `randomlyDisableItems` and `reenableRandomlyDisabled` is not part of this model. Its effects are parameters: a disabled set, and an `Outcome`.
- The data loaders (`loadHSKData` and the like) and the `useEffect` hooks that run loading and filtering after renders are left out. So is the `[category, level]` effect at src/components/BulkManagement.jsx:22-24, which reruns `updateRandomlyDisabledCount` after every category or level change: in the model, `BulkManagement.BulkManagementScreen.HandleCategoryChange` and `BulkManagement.BulkManagementScreen.SelectLevel` leave `randomlyDisabledCount` showing the previous scope's value until `UpdateRandomlyDisabledCount` is called. The loaded list is a parameter; `BulkManagement.LoaderFor` names the loader.
- The random choice of which items to disable belongs to storage and is left out.
- Rendering, CSS classes and the cards' markup are left out. What remains of the render loops is the keys and status the cards are given (`SentencePractice.RenderKeys`).
- `BulkManagement.BulkManagementScreen.HandleRandomDisable` runs as one step. In the component it awaits the loader, and the user can change the selection in the meantime. That interleaving is left out, and so is the `loading` flag's effect of disabling the buttons.
- `Text.Lower` maps only the ASCII letters A-Z. JavaScript's full Unicode case mapping is not modelled. That mapping can change a text's length (`"İ".toLowerCase()` is two code units), so the length bounds of `Search.SearchTerm` (no longer than what was typed) and `Search.FieldMatches` (a match is no shorter than the term) rest on this simplification.
- JsNumber.ParseNumber: the model reads integers exactly, over unbounded integers. JavaScript's `Number` gives a double. It also reads binary and octal prefixes: `Number("0b101")` is 5 and `Number("0o7")` is 7, where the model gives `NaN`. Fractions (`"2.5"`), exponents (`"1e3"`), hexadecimal (`"0x10"`) and `"Infinity"` are numbers to JavaScript and `NaN` here, so `JsNumber.ParseRejects`' "anything else is `NaN`" holds for integer texts only.
- JsNumber.ParseDigits: exact only below 2^53. Above that, `Number` rounds to the nearest double: `Number("9007199254740993")` is 9007199254740992. A run of about 310 or more digits is `Infinity`.
- JsNumber.ParsePlusDigits: the same rounding above 2^53 and the same overflow to `Infinity` as `JsNumber.ParseDigits`.
- JsNumber.ParseMinusDigits: the same rounding above 2^53 as `JsNumber.ParseDigits`, and overflow to `-Infinity`.
- JsNumber.NatToString: a run of decimal digits for every count. `String(n)` switches to exponent form from 1e21 up (`"1e+21"`), and for `Infinity` gives the text "Infinity". A digit run long enough to read as `Infinity` passes `onChange` (src/components/BulkManagement.jsx:178), and `onBlur` then shows "Infinity" (line 188). The model keeps the exact count instead.
- `BulkManagement.BulkManagementScreen.OnCountChange` and `BulkManagement.BulkManagementScreen.OnCountBlur` read count text only as optionally signed decimal integers. `Number` also accepts fractions, exponents, hexadecimal and `Infinity`. The model treats those as not a number, so blur resets them to 1 where the component would keep, for example, 2.5.
- `BulkManagement.BulkManagementScreen.HandleCategoryChange` requires a category from the table. The selector offers only those, and any other value would make the component throw on `available.length`.
- `console.error` in the catch branches is output only and is left out.
- `SentencePractice.IndexAlignment` and the disjointness half of `SentencePractice.StatusPartition` assume each sentence object is loaded once. `SentencePractice.SharedObjectCounterexample` shows what goes wrong otherwise.
- Kanji entries without a `kanji` field are not modelled. The kanji string is required, because the status key needs it.
