# Benchmark results visualizer: aggregation and filtering engine

This project models the part of the benchmark visualizer that turns a
result document into what a reader sees. A LoComo or LongMemEval run
writes one document. It holds a list of items (conversations or samples),
and each item holds its metrics and its graded questions. The model covers
two front ends.

- **The Python server** (`visualizer/visualizer/main.py`):
  - the two list pages, with their correctness and category filters over
    items, their category buckets, and one card per kept item (its link,
    id, numbers and colour band);
  - the two detail pages: the index lookup, the question filters, the
    per-item category buckets, and the markdown stats table offered for
    copying.
- **The web pages**:
  - the LoComo and LongMemEval overview pages, which compute their
    category statistics on the client;
  - the shared item list (search, correctness and category filters,
    category choices, cards);
  - the question list of a detail page (category choices, filters, icons,
    question numbers);
  - `getCategoryName`.

Modules:

- `Wrappers`: `Option` and `Result`.
- `Records`: the document shapes.
  - The server reads loose JSON: most missing fields get the default the
    server gives them, and the three headline numbers it indexes directly
    raise `KeyError` when missing. Two gaps are listed under "Left out".
  - The web pages read the document through the TypeScript interfaces.
- `Strings`: ASCII lower-casing and substring search, Python's `int()` on
  a string, decimal printing, character-code order, insertion sort, and
  insertion-ordered sets (`FirstSeen`).
- `Selection`: order-preserving filtering and two lookups.
  - `Select` keeps each element's position; `Filter` keeps only the element.
  - `IndexOf` is Python's `list.index`; `FindFirst` is JavaScript's `findIndex`.
- `Scoring`: counting questions into a bucket (`Tally`), accuracy with its
  zero-denominator rule, and the 70/50 colour bands.
- `CategoryNames`: the category-name table and category keys.
- `ServerFilters`, `ServerStats`, `ServerViews`, `ServerPages`: the server.
- `ItemList`, `QuestionList`, `LocomoPage`, `LongMemEvalPage`: the web pages.

The model's shape follows the source. Loops that accumulate become
methods with invariants, and each method is proved against a specification
function:

- `Select` for the filter loops;
- `LocomoBucket` and `SumFor` for the statistics loops;
- `ItemBucket` for the per-item buckets;
- `FirstSeen` and `Sort` for the category choices;
- `KeyCounts` for the client-side LongMemEval counters.

Array `filter` calls and comprehensions become functions. The
properties that relate several operations are lemmas:

- card links open the item shown;
- the bucket counts agree with the filtered card;
- the markdown table lines up when some category is exported and the
  item id holds no pipe;
- every question is counted once;
- the filters split the list.

Behaviour kept as the source has it:

- Card links on the server come from `list.index`, which compares items
  by value, so two equal items both link to the first one
  (`Selection.IndexOfSelected`).
- A negative detail index opens an item counted from the end, and the
  placeholder id is built from the negative number.
- The LoComo invalid total counts only questions of categories 1..4
  (`ServerPages.InvalidOutsideBucketsIgnored`).
- The server's item filter compares LoComo categories as integers and
  LongMemEval categories as raw strings. The web item list compares the
  string keys of both.

## Model

| member | source | states |
|---|---|---|
| Records.Classify | visualizer-web/components/question-list.tsx:104-109 | a question falls in exactly one class: invalid if flagged invalid, otherwise correct or incorrect by its flag |
| Records.AllQuestionsSkipsEmpty | visualizer/visualizer/main.py:234-236 | an item without questions adds nothing to the scanned questions |
| Records.AllQuestionsAppend | visualizer/visualizer/main.py:234-236 | scanning two runs of items one after the other concatenates their questions |
| Strings.LowerIdempotent | visualizer-web/components/item-list.tsx:37 | lower-casing twice is lower-casing once, and leaves no ASCII capital |
| Strings.Lower | visualizer-web/components/item-list.tsx:37 | defines `toLowerCase` letter by letter on ASCII; `Strings.LowerIdempotent` proves it idempotent and free of capitals |
| Strings.ContainsIffOccurs | visualizer-web/components/item-list.tsx:37 | `includes` holds exactly when the term occurs at some position |
| Strings.Contains | visualizer-web/components/item-list.tsx:37 | defines `includes`: the term is a prefix of the string or of one of its suffixes; `Strings.ContainsIffOccurs` ties it to an occurrence at a position |
| Strings.NatToDecimal | visualizer-web/components/item-list.tsx:26 | `toString` of a count is a non-empty string of digits |
| Strings.IntToDecimal | visualizer-web/components/item-list.tsx:26 | defines printing an integer: a minus sign before the digits of a negative number; `Strings.IntToDecimalInjective` and `Strings.ParseIntRoundTrip` give it meaning |
| Strings.ParseInt | visualizer/visualizer/main.py:219 | `int()` succeeds exactly on an optionally signed, non-empty run of ASCII digits |
| Strings.DecimalRoundTrip | visualizer-web/components/item-list.tsx:26 | reading back a printed natural number gives the number |
| Strings.ParseIntRoundTrip | visualizer/visualizer/main.py:469 | `int()` of a printed integer gives that integer back |
| Strings.IntToDecimalInjective | visualizer-web/components/item-list.tsx:26 | two integers print the same only when they are equal |
| Strings.LexLeTotal | visualizer-web/components/item-list.tsx:30 | any two keys are comparable by the sort order |
| Strings.LexLeAntisymmetric | visualizer-web/components/item-list.tsx:30 | keys that each sort before the other are equal |
| Strings.LexLeTransitive | visualizer-web/components/item-list.tsx:30 | the sort order is transitive |
| Strings.LexLe | visualizer/app/longmemeval/page.tsx:73 | defines the key order as character-code order, the empty string first; `Strings.LexLeTotal`, `Strings.LexLeAntisymmetric` and `Strings.LexLeTransitive` make it a total order |
| Strings.FirstSeen | visualizer-web/components/item-list.tsx:23-29 | defines the `Set` contents: each key at its first occurrence, later repeats skipped; `Strings.FirstSeenMembers` and `Strings.FirstSeenSnoc` state what it holds |
| Strings.Sort | visualizer-web/components/item-list.tsx:30 | defines `sort()` as insertion sort under `LexLe`; `Strings.SortCorrect` proves the result a sorted permutation |
| Strings.FirstSeenMembers | visualizer-web/components/item-list.tsx:23-29 | a `Set` built by adding keys holds exactly the keys added, each once |
| Strings.FirstSeenSnoc | visualizer-web/components/item-list.tsx:27 | adding a key appends it unless it is already present |
| Strings.FirstSeenPrefix | visualizer/visualizer/main.py:753-757 | keys seen later never reorder the keys seen earlier |
| Strings.InsertMultiset | visualizer-web/components/item-list.tsx:30 | inserting into a sorted list adds exactly that element |
| Strings.InsertElements | visualizer-web/components/item-list.tsx:30 | an inserted-into list holds only the new element and the old ones |
| Strings.InsertSorted | visualizer-web/components/item-list.tsx:30 | insertion keeps a sorted list sorted |
| Strings.SortCorrect | visualizer-web/components/item-list.tsx:30 | `sort()` yields a sorted permutation of its input |
| Strings.SortDistinct | visualizer-web/components/item-list.tsx:30 | sorting the set's contents gives a sorted list without duplicates, with the same members |
| Strings.SortMembers | visualizer-web/components/item-list.tsx:30 | sorting keeps exactly the input's elements, and as many of them |
| Strings.InsertDistinct | visualizer-web/components/item-list.tsx:30 | inserting a new element into a duplicate-free list keeps it duplicate-free |
| Strings.SortKeepsDistinct | visualizer-web/components/item-list.tsx:30 | sorting a duplicate-free list gives a duplicate-free list |
| Selection.Select | visualizer/visualizer/main.py:195-223 | the kept items never outnumber the items |
| Selection.Filter | visualizer-web/components/question-list.tsx:28-45 | the filtered list never outnumbers the list |
| Selection.FilterSnoc | visualizer-web/components/question-list.tsx:29 | filtering one more element appends it exactly when it passes |
| Selection.SelectSound | visualizer/visualizer/main.py:434-458 | every kept pair holds the element at its carried position, and that element passes |
| Selection.SelectIncreasing | visualizer/visualizer/main.py:433-458 | kept positions strictly increase, so the source order is kept |
| Selection.SelectComplete | visualizer/visualizer/main.py:433-458 | every passing position is kept |
| Selection.SelectKeepsExactly | visualizer/visualizer/main.py:433-458 | a position is kept if and only if its element passes |
| Selection.SelectValues | visualizer/visualizer/main.py:195-223 | dropping the positions gives the plain filtered list |
| Selection.SelectAll | visualizer/visualizer/main.py:201-202 | when everything passes, every element is kept at its own position |
| Selection.FilterMembers | visualizer-web/components/item-list.tsx:34-61 | an element is in the filtered list if and only if it is in the list and passes |
| Selection.FilterAll | visualizer-web/components/item-list.tsx:34-61 | when everything passes, filtering changes nothing |
| Selection.IndexOf | visualizer/visualizer/main.py:332 | `list.index` returns the first position holding an equal element |
| Selection.FindFirst | visualizer-web/components/item-list.tsx:144 | `findIndex` returns the first passing position, or -1 exactly when none passes |
| Selection.IndexOfSelected | visualizer/visualizer/main.py:330-332 | looking a kept item up with `list.index` lands at or before its own position, exactly on it when no earlier item is equal |
| Selection.IndexOfDistinct | visualizer/visualizer/main.py:332 | on a list without duplicates, `list.index` gives every element's own position |
| Scoring.TallySnoc | visualizer/visualizer/main.py:239-244 | counting one more question applies that question's increments |
| Scoring.TallyCounts | visualizer/visualizer/main.py:239-244 | a bucket counts every question once, `invalid` counts exactly the invalid questions, `correct` exactly the valid correct ones, and correct plus invalid never exceeds total |
| Scoring.TallyAppend | visualizer/visualizer/main.py:234-244 | counting two runs of questions adds their counters |
| Scoring.Accuracy | visualizer/app/locomo/page.tsx:76-77 | accuracy is 0 when no question is valid, lies in 0..100 when correct answers are at most the valid ones, and is 100 when every valid answer is correct |
| Scoring.AccuracyBound | visualizer/app/locomo/page.tsx:77 | a ratio of at most one, as a percentage, lies in 0..100 |
| Scoring.TallyAccuracyBounded | visualizer/app/locomo/page.tsx:76-77 | a counted bucket's accuracy always lies in 0..100 |
| Scoring.BucketCardOf | visualizer/app/locomo/page.tsx:75-84 | defines a web-page category card: name, accuracy under the zero-denominator rule, correct and total; `LocomoPage.PageMeaning` and `LongMemEvalPage.KeyCardMeaning` bound it |
| Scoring.BandOf | visualizer/visualizer/main.py:350 | green exactly when accuracy ≥ 70, yellow exactly when 50 ≤ accuracy < 70, red exactly when accuracy < 50 |
| Scoring.BandMonotone | visualizer-web/components/item-list.tsx:133-141 | a higher accuracy never gets a worse band |
| CategoryNames.CategoryName | visualizer/lib/utils.ts:1-11 | a string category names itself; a number outside 1..4 is "Unknown" |
| CategoryNames.NamesDistinct | visualizer/visualizer/main.py:112-123 | the four LoComo categories have four different names, none of them "Unknown" |
| CategoryNames.NamesTable | visualizer/visualizer/main.py:117-122 | categories 1..4 are Multi-hop, Single-hop, Temporal and Open-domain |
| CategoryNames.CategoryKey | visualizer-web/components/item-list.tsx:26 | a numbered category's key reads back as its number |
| CategoryNames.CategoryKeyCollisions | visualizer/app/longmemeval/page.tsx:18 | numbered keys collide only for equal numbers, and a number shares its key with the tag spelling it |
| CategoryNames.QuestionKeysAppend | visualizer-web/components/item-list.tsx:24-29 | keys of two runs of questions are the two key lists concatenated |
| CategoryNames.KeySetSnoc | visualizer-web/components/item-list.tsx:26-27 | one more question adds its key to the key set exactly when the key is new |
| ServerFilters.FilterLocomoItems | visualizer/visualizer/main.py:195-223 | raises `ValueError` exactly when there is an item and the category filter is neither "all" nor an integer; otherwise keeps exactly the items passing both filters, in order, with their positions |
| ServerFilters.FilterLongMemEvalItems | visualizer/visualizer/main.py:720-747 | keeps exactly the items passing the correctness filter and the raw-string category filter, in order, with their positions |
| ServerFilters.ItemPassesCorrectness | visualizer/visualizer/main.py:199-211 | defines the item correctness filter: `correct` needs questions all correct and valid, `incorrect` one valid wrong answer, `invalid` one invalid answer, an unknown value keeps nothing; `ServerFilters.ItemFilterAgreesWithTally` restates it through the counters |
| ServerFilters.ItemPassesCategory | visualizer/visualizer/main.py:213-220 | defines the item category filter: any, or some question of the chosen category; `ServerFilters.FilterLocomoItems` and `ServerFilters.FilterLongMemEvalItems` state what it keeps |
| ServerFilters.ItemFilterAgreesWithTally | visualizer/visualizer/main.py:203-211 | `correct` keeps an item exactly when it has questions and all are correct; `incorrect` exactly when some answer is neither correct nor invalid; `invalid` exactly when the item's invalid count is positive |
| ServerFilters.AllCorrectIsTally | visualizer/visualizer/main.py:205 | every question is correct and valid exactly when the correct counter equals the total |
| ServerFilters.SomeIncorrectIsTally | visualizer/visualizer/main.py:208 | some answer is neither correct nor invalid exactly when correct plus invalid falls short of the total |
| ServerFilters.SomeInvalidIsTally | visualizer/visualizer/main.py:211 | some answer is invalid exactly when the invalid counter is positive |
| ServerFilters.EmptyItem | visualizer/visualizer/main.py:205 | an item without questions passes only the `all` filter |
| ServerFilters.IncorrectAndInvalidOverlap | visualizer/visualizer/main.py:206-211 | one item can pass both `incorrect` and `invalid` while failing `correct` |
| ServerFilters.AllAllIsIdentity | visualizer/visualizer/main.py:201-216 | with both filters at "all", every item is kept at its own position |
| ServerFilters.LongMemEvalCategoryIsRaw | visualizer/visualizer/main.py:744 | the raw string comparison never matches a numbered category |
| ServerFilters.FilterLocomoQuestions | visualizer/visualizer/main.py:433-458 | keeps exactly the questions passing both question filters, with their positions |
| ServerFilters.FilterLongMemEvalQuestions | visualizer/visualizer/main.py:940-952 | keeps exactly the questions passing the correctness filter, with their positions |
| ServerFilters.QuestionPassesCorrectness | visualizer/visualizer/main.py:440-448 | defines the question correctness filter: `correct` valid and correct, `incorrect` valid and wrong, `invalid` invalid, an unknown value nothing; `ServerFilters.ExactlyOneClass` states that the classes split the questions |
| ServerFilters.LocomoQuestionCategory | visualizer/visualizer/main.py:450-455 | defines the question category filter: "all", or an all-digits value equal to the question's numeric category; `ServerFilters.NonDigitCategorySelectsNothing` covers other values |
| ServerFilters.ExactlyOneClass | visualizer/visualizer/main.py:443-448 | every question passes exactly the question filter its class names |
| ServerFilters.ItemLevelIsExistential | visualizer/visualizer/main.py:206-211 | an item passes `incorrect` or `invalid` exactly when one of its questions passes the same question filter |
| ServerFilters.NonDigitCategorySelectsNothing | visualizer/visualizer/main.py:454 | on a detail page, a category filter that is neither "all" nor digits lists no question |
| ServerFilters.KeptItemsMeaning | visualizer/visualizer/main.py:330-333 | each kept item is the item at its position and passes both filters, positions increase, and `list.index` finds the position unless an equal item comes earlier |
| ServerStats.CountLocomoQuestion | visualizer/visualizer/main.py:237-244 | a question of category 1..4 updates its own bucket only, and the invalid total grows with the buckets' invalid counters |
| ServerStats.LocomoBucketSnoc | visualizer/visualizer/main.py:238-244 | one more question changes its own category's bucket only |
| ServerStats.CountLocomoItem | visualizer/visualizer/main.py:235-244 | after an item's questions, the buckets are those of all questions scanned so far |
| ServerStats.LocomoCategoryStats | visualizer/visualizer/main.py:226-244 | bucket k is the count of every question of category k across all items, and the invalid total is the sum of the buckets' invalid counters |
| ServerStats.LocomoBucketBounded | visualizer/visualizer/main.py:239-244 | a bucket never holds more correct and invalid answers than questions, and its accuracy lies in 0..100 |
| ServerStats.LocomoBucketNames | visualizer/visualizer/main.py:226-231 | the fixed bucket names are `get_category_name`'s names for 1..4 |
| ServerStats.InvalidCorrectCountsAsInvalid | visualizer/visualizer/main.py:240-244 | a question flagged both correct and invalid counts as invalid, not correct |
| ServerStats.BucketsInOrder | visualizer/visualizer/main.py:750-760 | one bucket per key, in key order, each holding that key's counters |
| ServerStats.MergeSnoc | visualizer/visualizer/main.py:755-760 | merging one more entry appends its key when new and adds its counters to that key only |
| ServerStats.MergeEntry | visualizer/visualizer/main.py:755-760 | after one entry, keys are in first-seen order and each key holds the sum of its entries |
| ServerStats.MergeItemStats | visualizer/visualizer/main.py:754-760 | after an item's entries, keys are in first-seen order and each key holds the sum of its entries so far |
| ServerStats.CountInvalid | visualizer/visualizer/main.py:762-765 | the invalid total counts every invalid question scanned |
| ServerStats.LongMemEvalCategoryStats | visualizer/visualizer/main.py:750-765 | one bucket per question type in first-seen order, each summing all items' entries for it; the invalid total counts all invalid questions |
| ServerStats.MergedKeySums | visualizer/visualizer/main.py:756-760 | two items reporting the same type are summed into one bucket added once |
| ServerStats.SumForAbsent | visualizer/visualizer/main.py:756-757 | a type that no item reports has zero counters |
| ServerViews.PlaceholderInjective | visualizer/visualizer/main.py:333 | different positions get different placeholder ids |
| ServerViews.LocomoItemId | visualizer/visualizer/main.py:333 | defines the LoComo id: `item_id`, else `sample_id`, else the placeholder for the position; `ServerViews.IdFallback` states the fallbacks |
| ServerViews.LongMemEvalItemId | visualizer/visualizer/main.py:856 | defines the LongMemEval id: `item_id`, else the placeholder for the position; `ServerViews.IdFallback` states the fallback |
| ServerViews.IdFallback | visualizer/visualizer/main.py:333 | without `item_id`, the id is `sample_id` (LoComo only) and otherwise the placeholder |
| ServerViews.DetailLookup | visualizer/visualizer/main.py:418-423 | redirect exactly when the index is too large, `IndexError` exactly when it is below -length, otherwise the item at the index, counted from the end when negative |
| ServerViews.LinkOpensItem | visualizer/visualizer/main.py:929-934 | the position carried with a kept item opens that item |
| ServerViews.CardNumbers | visualizer/visualizer/main.py:336-348 | defines a card's numbers: under a category filter the valid correct and valid answers of that category with the zero-denominator rule, otherwise the item's metrics or 0; `ServerViews.FilteredCardIsBucketAccuracy` ties it to the buckets |
| ServerViews.CategoryCountsAgree | visualizer/visualizer/main.py:340-341 | the card's per-category counts equal the bucket counts for that category |
| ServerViews.FilteredCardIsBucketAccuracy | visualizer/visualizer/main.py:336-344 | a category-filtered card shows the bucket's accuracy, correct and scored counts, with correct ≤ scored and accuracy in 0..100 |
| ServerViews.LastFor | visualizer/visualizer/main.py:468-473 | defines the entry that survives for a category: the last one whose key parses to it; `ServerViews.LaterEntryOverwrites` states it |
| ServerViews.ItemBucket | visualizer/visualizer/main.py:461-473 | defines bucket k: its fixed name with the last entry for k, or zeros; `ServerViews.ItemBuckets` and `ServerViews.ItemBucketSnoc` state how it is built |
| ServerViews.ItemBuckets | visualizer/visualizer/main.py:461-473 | fails exactly when some key does not parse as an integer; otherwise bucket k holds the last entry reported for k, or zeros |
| ServerViews.ItemBucketSnoc | visualizer/visualizer/main.py:468-473 | one more entry overwrites its own bucket and leaves the others |
| ServerViews.LaterEntryOverwrites | visualizer/visualizer/main.py:471-473 | the last entry for a category wins |
| ServerViews.OtherKeyIgnored | visualizer/visualizer/main.py:470 | an entry for a number outside 1..4 changes nothing |
| ServerViews.ExportCells | visualizer/visualizer/main.py:520-523 | one cell per bucket that has questions |
| ServerViews.ExportCellsSnoc | visualizer/visualizer/main.py:520-523 | one more bucket adds a cell exactly when it has questions |
| ServerViews.RowsJoin | visualizer/visualizer/main.py:527 | joining the row pieces gives the whole row line |
| ServerViews.BuildMarkdownRows | visualizer/visualizer/main.py:519-523 | the row pieces are the head cell and one piece per exported bucket, and they join to the row line |
| ServerViews.HeaderLine | visualizer/visualizer/main.py:525 | defines the header as written: the fixed start, the names joined by the pipe separator, and a closing pipe; `ServerViews.HeaderPipes` and `ServerViews.EmptyExportMisaligned` count its columns |
| ServerViews.SeparatorLine | visualizer/visualizer/main.py:526 | defines the separator as written: the fixed start, one `---` per column joined by the pipe separator, and a closing pipe; `ServerViews.SeparatorPipes` counts its columns |
| ServerViews.MarkdownTable | visualizer/visualizer/main.py:519-527 | defines the copied table as written: header, separator and the joined row on three lines; `ServerPages.LocomoDetailMeaning` counts its columns |
| ServerViews.PipeCountAppend | visualizer/visualizer/main.py:525-527 | the pipes in a concatenation are the pipes of its parts |
| ServerViews.NoPipeCount | visualizer/visualizer/main.py:525 | a string without a pipe adds no column |
| ServerViews.PipeCountZero | visualizer/visualizer/main.py:519 | a string adds no column exactly when it holds no pipe |
| ServerViews.HeadPipes | visualizer/visualizer/main.py:525 | the fixed header start has three pipes |
| ServerViews.SeparatorHeadPipes | visualizer/visualizer/main.py:526 | the fixed separator start has three pipes |
| ServerViews.LiteralPipes | visualizer/visualizer/main.py:519-526 | each literal piece of the table has the pipes it shows |
| ServerViews.JoinPipes | visualizer/visualizer/main.py:525 | joining n pipe-free names with the pipe separator adds n-1 pipes |
| ServerViews.CellsPipes | visualizer/visualizer/main.py:523 | n pipe-free cells add n pipes |
| ServerViews.RowColumns | visualizer/visualizer/main.py:519-527 | the row has 2 + n columns for n cells, plus one for every pipe inside the item id |
| ServerViews.HeaderPipes | visualizer/visualizer/main.py:525 | with n > 0 names the header has 2 + n columns |
| ServerViews.SeparatorPipes | visualizer/visualizer/main.py:526 | with n > 0 columns the separator has 2 + n columns |
| ServerViews.ExportAligned | visualizer/visualizer/main.py:518-527 | with n ≥ 1 exported categories the header and separator have 2 + n columns and the row 2 + n plus the pipes inside the item id, so the row lines up exactly when the id holds no pipe |
| ServerViews.EmptyExportMisaligned | visualizer/visualizer/main.py:525-527 | with no exported category the header and separator have 3 columns, and the row has 2 plus the pipes inside the item id: 2 for a pipe-free id |
| ServerViews.FixedExportAligned | visualizer/visualizer/main.py:525-527 | the corrected header and separator have 2 + n columns for every n, zero included, so the row lines up with them exactly when the item id holds no pipe |
| ServerViews.FixedMarkdownTable | visualizer/visualizer/main.py:525-527 | defines the corrected table: the same lines with the corrected header and separator; `ServerViews.FixedExportAligned` counts its columns |
| ServerViews.FixedTableDiffersOnlyWhenEmpty | visualizer/visualizer/main.py:525-527 | the corrected table is the written one exactly when some category is exported |
| ServerViews.EmptyTablesDiffer | visualizer/visualizer/main.py:525-527 | with no exported category, the written table and the corrected one differ whatever the row, since the written header has an extra " |" |
| ServerPages.LocomoCards | visualizer/visualizer/main.py:330-350 | one card per kept item, in order, each with its `list.index` link, id, numbers and band |
| ServerPages.LongMemEvalCards | visualizer/visualizer/main.py:853-860 | one card per kept item, in order, each with its `list.index` link, id, numbers and band |
| ServerPages.LocomoCardOf | visualizer/visualizer/main.py:330-350 | defines a LoComo card: link from `list.index`, the id for that position, the card numbers for the category filter, and their band; `ServerPages.CardLinkOpensItem` states what the link opens |
| ServerPages.LongMemEvalCardOf | visualizer/visualizer/main.py:853-862 | defines a LongMemEval card: link from `list.index`, the id for that position, the item's metrics and their band; `ServerPages.LongMemEvalCards` lists them |
| ServerPages.KeptAreMembers | visualizer/visualizer/main.py:332 | every kept item is in the full list, so `list.index` does not raise |
| ServerPages.HeadlineOf | visualizer/visualizer/main.py:254-259 | `data[...]` in the order the page reads them: `KeyError` names the first of `overall_accuracy`, `total_correct`, `total_questions` that is missing, and otherwise the three values |
| ServerPages.LocomoListPage | visualizer/visualizer/main.py:168-400 | not found without a document; raises `ValueError` exactly when an item meets a non-integer category filter, otherwise `KeyError` for the first missing headline number; otherwise the headline numbers, "Showing kept of all", one card per kept item, the four buckets of all questions, and the invalid filter offered exactly when the invalid total is positive |
| ServerPages.LongMemEvalListPage | visualizer/visualizer/main.py:696-911 | not found without a document; `KeyError` for the first missing headline number; otherwise the headline numbers, "Showing kept of all", one card per kept item, one bucket per reported type in first-seen order, and the invalid total counting all invalid questions |
| ServerPages.CardLinkOpensItem | visualizer/visualizer/main.py:330-333 | a card's link opens an item equal to the card's own, and the card's id is that item's id |
| ServerPages.InvalidOutsideBucketsIgnored | visualizer/visualizer/main.py:238-242 | an invalid question of a category outside 1..4 is left out of the LoComo invalid total but counted by a plain tally |
| ServerPages.LocomoDetailPage | visualizer/visualizer/main.py:412-545 | redirects home without a document, to the list past the end; raises `IndexError` below -length; raises `ValueError` exactly when a `category_stats` key is not an integer; otherwise shows the item's detail, its table built from the header and separator as written |
| ServerPages.LocomoDetailOf | visualizer/visualizer/main.py:422-545 | defines the LoComo detail data: id, metrics, the filtered questions with their positions, `has_invalid`, the four buckets and the table as written; `ServerPages.LocomoDetailMeaning` states its properties |
| ServerPages.LongMemEvalDetailPage | visualizer/visualizer/main.py:923-955 | redirects home without a document, to the list past the end, raises `IndexError` below -length, otherwise shows the item's detail |
| ServerPages.LongMemEvalDetailOf | visualizer/visualizer/main.py:933-955 | defines the LongMemEval detail data: id, accuracy, the questions passing the correctness filter with their positions, and `has_invalid`; `ServerFilters.FilterLongMemEvalQuestions` states which questions it lists |
| ServerPages.LocomoDetailMeaning | visualizer/visualizer/main.py:433-545 | the listed questions are the item's own and pass the filters; the table is the written header, separator and row; with n ≥ 1 exported categories header and separator have 2 + n columns and the row 2 + n plus the id's pipes, with none they have 3 and the row 2 plus the id's pipes; the invalid filter is offered exactly when some question is invalid |
| ServerPages.AnyInvalidIsTally | visualizer/visualizer/main.py:545 | `has_invalid` holds exactly when some question is invalid |
| ServerPages.ColumnNamesHaveNoPipe | visualizer/visualizer/main.py:525 | the exported column names contain no pipe |
| QuestionList.Categories | visualizer-web/components/question-list.tsx:18-25 | the offered categories are sorted, each once, and exactly the display names of the questions |
| QuestionList.PassesCorrectness | visualizer-web/components/question-list.tsx:31-35 | defines the correctness filter on one question: `invalid` keeps invalid ones, `correct` valid correct ones, `incorrect` valid incorrect ones; `QuestionList.CorrectnessIsClass` ties it to the question classes |
| QuestionList.PassesCategory | visualizer-web/components/question-list.tsx:37-41 | defines the category filter: "all" or the question's display name; `QuestionList.FilteredMeaning` and `QuestionList.OfferedCategoryListsSomething` state what it keeps |
| QuestionList.CorrectnessIsClass | visualizer-web/components/question-list.tsx:31-35 | each correctness filter keeps exactly the questions of its class |
| QuestionList.FilteredMeaning | visualizer-web/components/question-list.tsx:28-45 | a question is listed exactly when it is one of the questions and passes both filters |
| QuestionList.OfferedCategoryListsSomething | visualizer-web/components/question-list.tsx:38-41 | choosing an offered category lists at least one question |
| QuestionList.FiltersPartition | visualizer-web/components/question-list.tsx:31-35 | the invalid, correct and incorrect lists together are exactly as long as the unfiltered list |
| QuestionList.IconOf | visualizer-web/components/question-list.tsx:104 | the warning, check and cross icons mark exactly the invalid, correct and incorrect questions |
| QuestionList.FilteredIcons | visualizer-web/components/question-list.tsx:100-109 | under a class filter every listed question shows that class's icon |
| QuestionList.QuestionNumberAsWritten | visualizer-web/components/question-list.tsx:112 | defines the number shown as written: one more than the first position holding the same question text; `QuestionList.DuplicateTextMisnumbers` shows it wrong on repeated texts |
| QuestionList.DuplicateTextMisnumbers | visualizer-web/components/question-list.tsx:112-118 | two questions with the same text: filtering for incorrect lists only the second, and numbers it 1 |
| QuestionList.NumberedQuestions | visualizer-web/components/question-list.tsx:28-45 | defines the corrected numbering: each listed question paired with its own position; `QuestionList.NumberedQuestionsCorrect` proves each number right |
| QuestionList.NumberedQuestionsCorrect | visualizer-web/components/question-list.tsx:112-118 | numbering by position gives each listed question its own number, and agrees with the source when texts are distinct |
| ItemList.NoFilterShowsAll | visualizer-web/components/item-list.tsx:34-61 | with no search term and both filters at "all", every item is shown |
| ItemList.PassesSearch | visualizer-web/components/item-list.tsx:36-39 | defines the search: an empty term keeps everything, otherwise the lower-cased id must contain the lower-cased term; `ItemList.SearchMeaning` states its meaning |
| ItemList.PassesCorrectness | visualizer-web/components/item-list.tsx:41-48 | defines the item correctness filter: `invalid` needs an invalid count above 0, `correct` accuracy of at least 100, `incorrect` neither; `ItemList.CorrectnessCover` states how the choices overlap |
| ItemList.PassesCategory | visualizer-web/components/item-list.tsx:50-57 | defines the category filter: "all", or some question whose key is the choice, none for an item without `detailed_results`; `ItemList.CategoryMeaning` states it |
| ItemList.SearchMeaning | visualizer-web/components/item-list.tsx:37 | search ignores ASCII case, finds every item by its own id, and matches exactly when the term occurs in the id |
| ItemList.CorrectnessCover | visualizer-web/components/item-list.tsx:42-48 | every item passes a non-"all" correctness filter; `incorrect` excludes the other two; one item can pass both `correct` and `invalid` |
| ItemList.CategoryMeaning | visualizer-web/components/item-list.tsx:51-57 | a category choice keeps exactly the items with a question of that key |
| ItemList.AddKeys | visualizer-web/components/item-list.tsx:25-28 | after an item's questions, the set holds the first-seen keys of all questions so far |
| ItemList.Categories | visualizer-web/components/item-list.tsx:21-31 | none when categories are hidden; otherwise sorted, each once, and exactly the keys of all questions |
| ItemList.OfferedCategoryKeepsAnItem | visualizer-web/components/item-list.tsx:21-57 | choosing an offered category keeps at least one item |
| ItemList.OwnerOf | visualizer-web/components/item-list.tsx:24-25 | every scanned question belongs to some item |
| ItemList.CardAsWritten | visualizer-web/components/item-list.tsx:144 | defines the card link as written: the first item with the same `item_id`; `ItemList.DuplicateIdMisroutes` shows it wrong on repeated ids |
| ItemList.DuplicateIdMisroutes | visualizer-web/components/item-list.tsx:144-149 | two items with the same id: the invalid filter shows only the second, but its card links to position 0 |
| ItemList.Cards | visualizer-web/components/item-list.tsx:131-149 | one card per shown item |
| ItemList.CardsCorrect | visualizer-web/components/item-list.tsx:131-149 | each corrected card links to the item it shows, with its id and band, and agrees with the source when ids are distinct |
| LocomoPage.CategoryStats | visualizer/app/locomo/page.tsx:13-34 | bucket k counts every question with numeric category k; the invalid total is the buckets' invalid sum |
| LocomoPage.Page | visualizer/app/locomo/page.tsx:5-108 | not found exactly without data; otherwise four bucket cards for categories 1..4, the invalid total as the sum of those four buckets' invalid counters, the invalid card exactly when that total is positive, and the item cards |
| LocomoPage.PageMeaning | visualizer/app/locomo/page.tsx:75-87 | every bucket card's accuracy lies in 0..100 with correct ≤ total, and the names are the four category names in order |
| LocomoPage.ItemCardsAreUnfilteredCards | visualizer/app/locomo/page.tsx:93-108 | the item grid is the item list's grid with no search and no filter, and each card's link opens the item whose id and band it shows |
| LongMemEvalPage.KeyCounts | visualizer/app/longmemeval/page.tsx:17-27 | defines a key's counters: the tally of the questions whose key it is; `LongMemEvalPage.CategoryStats` proves the loop computes it |
| LongMemEvalPage.KeyCountsSnoc | visualizer/app/longmemeval/page.tsx:17-27 | one more question updates only its own key's counters |
| LongMemEvalPage.AbsentKeyCountsNothing | visualizer/app/longmemeval/page.tsx:19-21 | a key no question has selects no question |
| LongMemEvalPage.CountStep | visualizer/app/longmemeval/page.tsx:18-27 | creating the counter when missing and incrementing it keeps the counters equal to the per-key counts |
| LongMemEvalPage.CountStepValues | visualizer/app/longmemeval/page.tsx:19-27 | after counting a question, every counter, a newly created one included, is its key's count |
| LongMemEvalPage.CountQuestion | visualizer/app/longmemeval/page.tsx:18-27 | after one question, the counters are the per-key counts of the questions seen |
| LongMemEvalPage.CountItem | visualizer/app/longmemeval/page.tsx:17-28 | after an item's questions, the counters are the per-key counts of the questions seen |
| LongMemEvalPage.CategoryStats | visualizer/app/longmemeval/page.tsx:14-29 | one counter per key in first-seen order, holding exactly the counts of the questions with that key |
| LongMemEvalPage.SortedBuckets | visualizer/app/longmemeval/page.tsx:72-76 | one card per listed key and every listed key carded, each with its own key's counters, in key order |
| LongMemEvalPage.Page | visualizer/app/longmemeval/page.tsx:8-88 | not found exactly without data; the section shows exactly when there is a question; its cards show the per-key counters of the keys first seen, sorted by key, each with its accuracy under the zero-denominator rule |
| LongMemEvalPage.SectionMeaning | visualizer/app/longmemeval/page.tsx:72-73 | the section's keys are sorted, each once, and exactly the keys of the questions |
| LongMemEvalPage.KeyCardMeaning | visualizer/app/longmemeval/page.tsx:75-85 | a key's card shows accuracy 0 when none of its questions is valid, otherwise an accuracy in 0..100, and never more correct answers than questions |
| LongMemEvalPage.SumTotalsSnoc | visualizer/app/longmemeval/page.tsx:22 | one more question adds one to the total of the listed keys exactly when its key is listed |
| LongMemEvalPage.EveryQuestionCountedOnce | visualizer/app/longmemeval/page.tsx:16-29 | the section's totals add up to the number of questions |
| LongMemEvalPage.NewKeyTotal | visualizer/app/longmemeval/page.tsx:19-22 | a newly created counter holds exactly the question that created it |

## Left out

- Rendering: HTML, styling, page titles and texts, button hrefs, the copy
  button's script, and the category filter buttons. The model stops at the
  values these would show.
- Data loading and routing: loading and decoding the JSON files, the
  `mode` path parameter, and Next.js routing and `notFound()`. A missing
  or undecodable document is the `None` document.
- The empty document: a document that loads but is empty (`not data`) is
  treated like a non-empty one. Where the server shows its not-found page,
  the model's list pages raise `KeyError` for the missing headline numbers.
- Headline numbers on the web pages: `overall_accuracy`, `total_correct`,
  `total_questions`, `num_items` and the LongMemEval page's `total_invalid`
  come straight from the document and are not modelled there. On the server
  the first three are copied into the list view (`ServerPages.HeadlineOf`),
  and its Items card is `len(all_results)`, the modelled `outOf`.
- A question without `category`: the server reads it as `None`, which
  never equals a filter value and is not a key 1..4. The model's
  `Category` has no absent case.
- An explicit JSON `null`: the model reads it like a missing field. The
  server's `.get` returns `None` for it instead of the default, so for
  example `"item_id": null` shows the text "None" where
  `ServerViews.LocomoItemId` falls back to `sample_id`.
- Retrieved memories: their captions on the question cards are not modelled.
- Float formatting (`:.1f`, `toFixed`, `%` signs on numbers): this is the
  `format` parameter of the markdown export. The model assumes only that
  a formatted number contains no pipe.
- Pipes inside an item id: `ServerViews.RowColumns`, `ServerViews.ExportAligned`,
  `ServerViews.EmptyExportMisaligned`, `ServerViews.FixedExportAligned` and
  `ServerPages.LocomoDetailMeaning` admit any id and count each pipe in it
  as one more row column. Escaping such a pipe is not in the source, so the
  table lines up only for pipe-free ids.
- String order: `localeCompare` and the default `sort()` both become
  character-code order (`LexLe`). Locale collation is not modelled.
- Lower-casing: `toLowerCase` is ASCII-only here.
- Python `int()`: it takes an optional sign and ASCII digits. Surrounding
  whitespace, underscores and non-ASCII digits are not modelled, and
  neither is `isdigit` on non-ASCII digits.
- JavaScript object keys: the insertion order for integer-like keys, which
  the later sort erases, and keys that clash with `Object.prototype` names.

## Findings

| source | as written | input that shows it | evidently intended | confidence | as-written member | corrected member |
|---|---|---|---|---|---|---|
| visualizer/visualizer/main.py:525-527 | the header closes with a pipe after the joined names even when no category has questions | an item with a pipe-free id and an empty `category_stats`: the header gets four pipes (3 columns) while the row gets three (2 columns) | header and separator with exactly the row's columns | not executed | ServerViews.EmptyExportMisaligned | ServerViews.FixedExportAligned |
| visualizer-web/components/question-list.tsx:112 | a listed question's number is found by `findIndex` on its text | two questions "When?", the first correct and the second incorrect, under the incorrect filter: the second is listed as Question 1 | each question numbered by its own position | not executed | QuestionList.DuplicateTextMisnumbers | QuestionList.NumberedQuestionsCorrect |
| visualizer-web/components/item-list.tsx:144 | a card's link is found by `findIndex` on its `item_id` | two items with id "q-7", only the second with invalid questions, under the invalid filter: its card links to item 0 | each card linked to the position of the item it shows | not executed | ItemList.DuplicateIdMisroutes | ItemList.CardsCorrect |
