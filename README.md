# ARC Raiders item helper: a verified model of its core

The program reads the ARC Raiders game data (item files, hideout modules, projects and
quests), finds a picture for every item and sorts the catalog by name. It scans the
projects and quests for the items they mention, works out each item's one-level recycle
value, and sorts every item into one of five lists: weapons, blueprints, keep, sell and
recycle. A web page shows these lists in sections and offers a type filter, a text search
and collapsible sections. Cards, a detail window and mini cards show each item with its
rarity colours, its fallback labels, what it recycles into and what crafts it.

This project models that core in Dafny.

- `lib/getItems.tsx` is modelled in `slug.dfy`, `images.dfy` and `catalog.dfy`:
  - the candidate-name slug;
  - the choice of an item's picture: the explicit image fields, the base-name match, the
    sub-folder search, and the prefix and substring heuristics;
  - the expansion of each data file into items;
  - the stable sort by display name.
- `lib/categorizeItems.tsx` is modelled in `localize.dfy`, `heuristics.dfy`,
  `reference_index.dfy`, `classify.dfy` and `categorize.dfy`:
  - the localized-string resolver and the item-kind tests;
  - the recursive id search and the reference index built from the projects and quests;
  - the recycle value, the keep set and the five-way decision;
  - the loops that fill the lists.
- `app/page.tsx` is modelled in `page.dfy`:
  - the section lists;
  - the type and text filter;
  - the type toggle and the section toggle;
  - the slug of a section title;
  - the page state as a class whose methods change its fields.
- The three item components are modelled in `cards.dfy`:
  - the rarity key, with and without the roman-numeral fallback;
  - the colour classes;
  - the name, label, type and description fallbacks;
  - the recycle and recipe lists;
  - the craft-bench label and the reference counts.
- Shared modules:
  - `basics.dfy`: option and result types, filtering and subsequences;
  - `js_strings.dfy`: ASCII string operations as JavaScript performs them;
  - `js_values.dfy`: parsed JSON values with JavaScript truthiness, `??`, `||`,
    `String()` and `Number()`;
  - `items.dfy`: the catalog item, whose `_sourceFile`, `_image` and `_recycleValue`
    fields the program sets in place.

File listings and file contents arrive as parameters. The collation used by the sort
(`localeCompare`) is a parameter assumed to be a total preorder.

Points where the code's behaviour differs from what its own comments or a first reading
suggest; the model follows the code:

- "Pulse Rifle Mk III" slugs to `pulse_rifle_mk`. The comment at
  `lib/getItems.tsx:30` announces the removal of "mk" marks with their numeral, but the
  roman tail is cut first (`lib/getItems.tsx:31-32`), so the mark rewrite (line 33) finds
  a bare "mk" with no numeral and keeps it (`Slug.RomanMarkKept`).
- A failed picture copy still records the picture path. `fs.copyFile(...).catch(() => {})`
  swallows the copy error (`lib/getItems.tsx:77`, `98`, `153`) and `_image` is assigned
  on the next line whatever the copy did (lines 79, 99, 155).
- The page repeats `isWeapon` and `isBlueprint` word for word from the categorizer, so
  one definition serves both.
- The card resolver `getLocalizedString` uses `||`, while the `??` pick of
  `lib/getItems.tsx` keeps an empty English entry. `Localize.EmptyEnglishDiffers` shows an
  input where the two differ.
- Calling a string method on a value that is not a string throws in JavaScript. The
  model keeps those throws as error results where they change what the program does:
  - the name read of `isBlueprint` (`lib/categorizeItems.tsx:60`) and of the page's
    `isWeaponMod`, `isAugment` and `isQuickUse` throws for an item whose `name.en` is
    truthy and not a string (`Heuristics.NameText` returns no text, `Heuristics.NameThrows`
    holds). The categorizer loop then stops at the first such item that is not a weapon
    (`Classify.ClassifyItems`, `Categorize.CategorizeAllItems`), and the page sections
    that run these tests fail (`Page.MainSectionMeans`, `Page.WeaponSectionsFail`);
  - the search reads `it.type.toLowerCase()` (`app/page.tsx:148`) when the name does not
    match, and throws for a truthy type that is not a string, for instance a localized
    object (`Page.Search`, `Page.LocaleTypeThrows`);
  - the picture heuristic (`lib/getItems.tsx:120`), which an object carrying its own
    truthy `_image` never reaches (line 113, `Images.CarriedImageKept`).

## Model

| member | source | states |
|---|---|---|
| Localize.FirstString | lib/categorizeItems.tsx:12 | the result is the first string among an object's values, and there is none exactly when no value is a string |
| Localize.GetLocalizedString | lib/categorizeItems.tsx:5-17 | a falsy value gives "", a string gives itself, another non-object value gives its `String()` text; for an object a truthy `en` gives its text, else a truthy `en-US` gives its text, else the first string value, or "" when no value is a string |
| Localize.LocalizedResolutionOrder | lib/categorizeItems.tsx:8-13 | for an object given as its members: a truthy `en` wins; a falsy or missing `en` falls through to a truthy `en-US`; then the first member whose value is a string gives that string; with no string member the result is "" |
| Localize.ArrayResolution | lib/categorizeItems.tsx:12 | an array has no `en` or `en-US` entry, so it resolves to its first string element, or "" when it has none |
| Localize.PickLocalized | lib/getItems.tsx:25 | the `??` pick returns `en` unchanged whenever it is not null or undefined (so an empty string is kept), otherwise a non-nullish `en-US` unchanged, otherwise the first string value, and nothing exactly when no value is a string |
| Localize.PickAgreesWithResolver | lib/getItems.tsx:25 | the `??` pick and the `||` resolver give the same text whenever `en` and `en-US` are missing or non-empty strings |
| Localize.EmptyEnglishDiffers | lib/getItems.tsx:25 | for `{fr: "x", en: ""}` the `??` pick gives "" where the resolver gives "x" |
| Localize.LocalizedExamples | lib/categorizeItems.tsx:5-17 | English wins over French, a lone French entry is used, null and undefined give "", a number gives its decimal text |
| Heuristics.FieldText | lib/categorizeItems.tsx:49 | a falsy field reads as "", a string field reads lower-cased |
| Heuristics.NameText | app/page.tsx:147 | a string `name` reads lower-cased; otherwise a string `name.en` reads lower-cased; a falsy `name.en` reads as ""; a truthy non-string `name.en` gives no text, because `.toLowerCase()` throws on it |
| Heuristics.SpaceSplits | app/page.tsx:112-120 | a keyword without a space occurs in `a + " " + b` exactly when it occurs in `a` or in `b` |
| Heuristics.CoreOf | app/page.tsx:114 | every quick-use keyword contains one of the eight decisive keywords |
| Heuristics.QuickUseByCore | app/page.tsx:112-120 | an item is quick use exactly when it is truthy and one of the eight decisive keywords occurs in its name, type or category |
| Heuristics.SubtypeOrClassMakesWeapon | lib/categorizeItems.tsx:47-55 | a truthy `subtype` or `class` makes any truthy item a weapon |
| Heuristics.ModsAreNotWeaponItems | app/page.tsx:58-120 | a modification is never in the weapon-item list, and every page test is false for a falsy item |
| Heuristics.StimPackIsQuickUse | app/page.tsx:112-120 | an item named "Stim Pack" is quick use |
| Heuristics.ModificationCategoryIsBoth | app/page.tsx:58-83 | an item whose category is "Weapon Modification" is both a modification and a weapon |
| Items.Item.constructor | lib/getItems.tsx:43-44 | a new item holds the parsed object, its picture is the `_image` member the object carries, and it has no source file or recycle value yet |
| ReferenceIndex.ObjectContainsId | lib/categorizeItems.tsx:19-36 | the recursive walk finds the id exactly when the recursive definition `ContainsId` does |
| ReferenceIndex.ExcludingMoreFindsLess | lib/categorizeItems.tsx:19-36 | skipping more keys can only lose matches |
| ReferenceIndex.ExcludedSubtreeIgnored | lib/categorizeItems.tsx:30 | whatever sits under an excluded key can be replaced without changing the answer |
| ReferenceIndex.ContainsIdExamples | lib/categorizeItems.tsx:19-36 | a reward list is skipped for quests, an objective is found, a key equal to the id counts, a number matches its decimal text |
| ReferenceIndex.DocCandidates | lib/categorizeItems.tsx:84-92 | a falsy document adds nothing, an array adds one candidate per element named `file[i]`, anything else adds itself |
| ReferenceIndex.DirCandidates | lib/categorizeItems.tsx:96-100 | every candidate is truthy and of the folder's kind, and every truthy `.json` entry of the listing becomes one |
| ReferenceIndex.InitIndex | lib/categorizeItems.tsx:124-125 | the index holds exactly the catalog's ids, each with empty quest and project lists |
| ReferenceIndex.NonEmpty | lib/categorizeItems.tsx:143-144 | `s \|\| undefined` is absent exactly for the empty string |
| ReferenceIndex.ObjectivesText | lib/categorizeItems.tsx:167-186 | without an array or object of objectives the quest's text is its description |
| ReferenceIndex.AddProject | lib/categorizeItems.tsx:140-149 | one project entry is appended to a known id's list and nothing else changes |
| ReferenceIndex.AddQuest | lib/categorizeItems.tsx:190-199 | one quest entry is appended to the id's list and nothing else changes |
| ReferenceIndex.LevelRequirements | lib/categorizeItems.tsx:136 | the requirement list fails exactly when it is truthy and neither an array nor a string; a falsy list is empty |
| ReferenceIndex.Chars | lib/categorizeItems.tsx:137 | iterating a string gives its one-character strings in order |
| ReferenceIndex.RequirementQty | lib/categorizeItems.tsx:139 | `Number(q) \|\| 1` is never 0, and a missing or zero quantity counts as 1 |
| ReferenceIndex.ApplyRequirements | lib/categorizeItems.tsx:137-150 | the ids are unchanged, and the level fails exactly when one requirement is null |
| ReferenceIndex.LevelEntry | lib/categorizeItems.tsx:141-147 | a leveled entry records the file, the title, the description, the level and the quantity |
| ReferenceIndex.RequirementsAppend | lib/categorizeItems.tsx:137-150 | a level keeps every quest list, and appends to each known item's project list, after its old entries, exactly the leveled entries (file, title, description, level, quantity) of the requirements naming it, in requirement order |
| ReferenceIndex.AddProjectAt | lib/categorizeItems.tsx:147-148 | one push adds the entry at the end of the named item's project list and changes no other item's lists |
| ReferenceIndex.AddQuestAt | lib/categorizeItems.tsx:198-199 | one push adds the entry at the end of the named item's quest list and changes no other item's lists |
| ReferenceIndex.ApplyLevels | lib/categorizeItems.tsx:132-151 | scanning the levels keeps the set of ids |
| ReferenceIndex.LevelsKeepQuests | lib/categorizeItems.tsx:132-151 | a leveled project adds project entries only |
| ReferenceIndex.ApplyFlat | lib/categorizeItems.tsx:152-164 | a project without levels keeps every item's id set and quest list |
| ReferenceIndex.FlatAppends | lib/categorizeItems.tsx:152-164 | a project without levels appends to each known item it mentions, after its old entries, one entry carrying its file, title and description per catalog item holding that id, and nothing to items it does not mention |
| ReferenceIndex.ApplyQuest | lib/categorizeItems.tsx:165-201 | a quest keeps every item's id set and project list |
| ReferenceIndex.QuestAppends | lib/categorizeItems.tsx:165-201 | a quest appends to each known item it mentions outside its reward sections, after its old entries, one entry carrying its file, title, description and objectives text per catalog item holding that id, and nothing to the other items |
| ReferenceIndex.ApplyCandidate | lib/categorizeItems.tsx:128-203 | one document keeps the ids, and a quest never fails and never touches project lists |
| ReferenceIndex.ProjectsKeepQuests | lib/categorizeItems.tsx:128-164 | a project document adds project entries only |
| ReferenceIndex.ScanAll | lib/categorizeItems.tsx:128-203 | the whole scan keeps the set of ids |
| ReferenceIndex.LevelErrorPersists | lib/categorizeItems.tsx:132-151 | once a prefix of the levels fails, the whole scan fails with that error |
| ReferenceIndex.RequirementErrorPersists | lib/categorizeItems.tsx:137-150 | once a prefix of the requirements fails, the level fails with that error |
| ReferenceIndex.ScanErrorPersists | lib/categorizeItems.tsx:128-203 | once a prefix of the documents fails, the run fails with that error |
| ReferenceIndex.ScanLevels | lib/categorizeItems.tsx:132-151 | the level loop computes `ApplyLevels` |
| ReferenceIndex.ScanFlat | lib/categorizeItems.tsx:152-164 | the loop over the catalog computes `ApplyFlat` |
| ReferenceIndex.ScanQuest | lib/categorizeItems.tsx:165-201 | the loop over the catalog computes `ApplyQuest` |
| ReferenceIndex.InitReferences | lib/categorizeItems.tsx:124-125 | the initial loop computes `InitIndex` |
| ReferenceIndex.ScanCandidate | lib/categorizeItems.tsx:128-203 | one document's scan computes `ApplyCandidate` |
| ReferenceIndex.BuildReferences | lib/categorizeItems.tsx:124-203 | the whole scan computes `BuildIndex` |
| Classify.ById | lib/categorizeItems.tsx:74 | the lookup's keys are exactly the catalog's ids |
| Classify.ByIdLastWins | lib/categorizeItems.tsx:74 | an id maps to the last item that carries it |
| Classify.AddNum | lib/categorizeItems.tsx:219 | a sum is NaN exactly when an operand is, and integer addition otherwise |
| Classify.MulNum | lib/categorizeItems.tsx:219 | a product is NaN exactly when an operand is, and integer multiplication otherwise |
| Classify.ComponentValue | lib/categorizeItems.tsx:216-217 | an unknown component or one without a value is worth 0 |
| Classify.Shares | lib/categorizeItems.tsx:215-218 | one (value, count) pair per recycle entry, in order |
| Classify.TotalNaN | lib/categorizeItems.tsx:213-219 | the recycle value is NaN exactly when some component value is NaN |
| Classify.TotalNonNegative | lib/categorizeItems.tsx:213-219 | non-negative values and counts give a non-negative integer total |
| Classify.RecycleValueNaN | lib/categorizeItems.tsx:211-223 | an item's recycle value is NaN exactly when one of its components' values is |
| Classify.UnknownComponentAddsNothing | lib/categorizeItems.tsx:216-219 | a component the catalog does not hold leaves the total unchanged |
| Classify.ComputeRecycleInfo | lib/categorizeItems.tsx:211-223 | the method returns the recycle value and the component ids in map order |
| Classify.SumShares | lib/categorizeItems.tsx:213-221 | the loop's sum is the total of the shares, and its id list is the entries' keys |
| Classify.ShareOf | lib/categorizeItems.tsx:216-218 | one entry's share is the component's value (0 when unknown) and its count (0 when not a number) |
| Classify.SumStep | lib/categorizeItems.tsx:219 | the total of the first `i + 1` shares adds share `i`'s value times its count to the total of the first `i` |
| Classify.OneComponentValue | lib/categorizeItems.tsx:211-223 | a single component's share is its value times its count |
| Classify.RecycleValueExample | lib/categorizeItems.tsx:211-223 | `{B: 2}` with `B.value = 3` is worth 6 |
| Classify.RecycleValueWithoutMap | lib/categorizeItems.tsx:212 | an item without a recycle map is worth 0 |
| Classify.KeepSetOf | lib/categorizeItems.tsx:206-209 | the keep set is exactly the ids that some project requires |
| Classify.KeepMeans | lib/categorizeItems.tsx:253-259 | an item is kept exactly when it is neither weapon nor blueprint, and a project requires it or both its values are 0 |
| Classify.OwnQuestsNeverKeep | lib/categorizeItems.tsx:205-209 | quests referring to an item never make it kept |
| Classify.RecycleMeans | lib/categorizeItems.tsx:262-283 | an item is recycled exactly when it is not kept and either a component is needed or the recycle value beats the sell value |
| Classify.BlueprintSubtypeNeverDecides | lib/categorizeItems.tsx:235-245 | a truthy subtype or class sends an item to weapons, and a blueprint mentions "blueprint" in its type, category or name |
| Classify.Select | lib/categorizeItems.tsx:231-284 | the items sent to one bucket, in input order, all of them and only them |
| Classify.ClassesAt | lib/categorizeItems.tsx:231-284 | the bucket of item `i` is the decision for that item |
| Classify.InBucketMeans | lib/categorizeItems.tsx:231-284 | an item is in a bucket exactly when the decision sends it there |
| Classify.BucketsPartition | lib/categorizeItems.tsx:231-286 | the five buckets together hold every item exactly as often as the catalog does |
| Classify.DistributePartition | lib/categorizeItems.tsx:231-284 | filling the buckets loses no item and invents none |
| Classify.DistributeSelects | lib/categorizeItems.tsx:231-284 | the loop's buckets are the five selections |
| Classify.ClassifyItems | lib/categorizeItems.tsx:225-286 | the loop fails exactly when some non-weapon item's name throws, at the first such item, with the recycle values of the items before it set and the rest untouched; otherwise each bucket holds the items the decision sends there in order and every item's recycle value is set; pictures and files never change |
| Classify.ClassifyLoop | lib/categorizeItems.tsx:231-284 | the loop stops at the first item whose name read throws; otherwise it fills the buckets by the decision list and sets every recycle value |
| Classify.ClassifyOne | lib/categorizeItems.tsx:231-284 | item `i` fails exactly when it is not a weapon and its name throws, and then keeps its recycle value; otherwise its bucket is the decision for its data and items up to `i` carry their recycle values |
| Classify.Annotate | lib/categorizeItems.tsx:238-250 | writing item `i`'s recycle value leaves the values already written on earlier items, and the item's file and image, as they were |
| Classify.Decide | lib/categorizeItems.tsx:235-283 | the branch chain fails exactly when the item is not a weapon and its name throws (the blueprint test reads the name), and otherwise computes the decision `ClassOf` |
| Classify.AnyNeeded | lib/categorizeItems.tsx:262-271 | the loop answers whether some component is needed |
| Categorize.PushDoc | lib/categorizeItems.tsx:84-92 | one data file's candidates are appended |
| Categorize.PushDir | lib/categorizeItems.tsx:96-100 | one folder's candidates are appended in listing order |
| Categorize.CollectCandidates | lib/categorizeItems.tsx:79-121 | the candidate list is gathered in the program's order |
| Categorize.CategorizeAllItems | lib/categorizeItems.tsx:72-286 | a failing scan aborts the run with every recycle value untouched; a non-weapon item whose name throws aborts it at the first such item; otherwise the five buckets and the index are returned; the items' pictures are never touched |
| Scenarios.NumericEnglishNameThrows | lib/categorizeItems.tsx:57-66 | `{id: "x", name: {en: 5}}` is not a weapon and its name read throws, so the categorizer stops at it |
| Slug.RunTo | lib/getItems.tsx:31-36 | the run is the longest suffix whose characters all satisfy the test |
| Slug.RunAll | lib/getItems.tsx:31-36 | every character of the run satisfies the test |
| Slug.StripDashedNumeral | lib/getItems.tsx:31 | the rewrite only cuts text off the end |
| Slug.StripRomanTail | lib/getItems.tsx:32 | the rewrite only cuts text off the end |
| Slug.StripMark | lib/getItems.tsx:33 | the rewrite only cuts text off the end |
| Slug.StripNumeralWord | lib/getItems.tsx:34 | the rewrite only cuts text off the end |
| Slug.Underscored | lib/getItems.tsx:35 | the result holds only lower-case letters, digits and single underscores, with an underscore at an end exactly where the input ends in another character |
| Slug.TrimUnderscores | lib/getItems.tsx:36 | the result neither starts nor ends with an underscore |
| Slug.SlugOfAnyText | lib/getItems.tsx:35-36 | the last two rewrites turn any text into a slug |
| Slug.NormalizeIsSlug | lib/getItems.tsx:20-38 | every result is a slug, and a falsy input gives "" |
| Slug.UnderscoredOfSlugChars | lib/getItems.tsx:35 | the underscore step leaves slug text unchanged |
| Slug.TrimUnderscoresOfSlug | lib/getItems.tsx:36 | the trim leaves slug text unchanged |
| Slug.SlugStepIdempotent | lib/getItems.tsx:35-36 | the last two rewrites are idempotent |
| Slug.StripTiersKeepsPrefix | lib/getItems.tsx:31-34 | the tier rewrites only cut text off the end |
| Slug.UnderscoredAppendAlnum | lib/getItems.tsx:35 | letters and digits pass through the underscore step unchanged |
| Slug.PlainWordSlug | lib/getItems.tsx:35-36 | a lower-case word is its own slug |
| Slug.TrimEndOfPadded | lib/getItems.tsx:28 | trailing blanks after a text are trimmed off |
| Slug.UndashedNumeralKept | lib/getItems.tsx:31 | a roman tail without a dash before it is not cut by the dashed rewrite |
| Slug.RomanTailCut | lib/getItems.tsx:32 | one to five roman letters at the end are cut with the blanks before them |
| Slug.RomanLettersDropped | lib/getItems.tsx:31-32 | a word followed directly by roman letters loses them |
| Slug.BareMarkKept | lib/getItems.tsx:33-34 | a text ending in "mk" has no mark numeral and no numeral word to cut |
| Slug.RomanMarkKept | lib/getItems.tsx:31-34 | "mk" followed by a roman numeral keeps the "mk" |
| Slug.DigitMarkCut | lib/getItems.tsx:33 | "mk" followed by digits is cut with the white space around it |
| Slug.ArabicMarkCut | lib/getItems.tsx:31-33 | "mk 3" at the end is cut by the first three rewrites |
| Images.FieldPick | lib/getItems.tsx:50-58 | an image field contributes only a truthy value |
| Images.ExplicitImageIsFirstField | lib/getItems.tsx:47-59 | the explicit image is the pick of the first field that gives one, and there is none exactly when no field gives one |
| Images.FindExplicitImage | lib/getItems.tsx:47-59 | the field loop computes the explicit image |
| Images.FirstPick | lib/getItems.tsx:48-59 | the loop over any list of field names computes the first pick |
| Images.Basename | lib/getItems.tsx:64 | a base name holds no slash |
| Images.BasenameOfJoin | lib/getItems.tsx:64 | the base name of `dir/name` is `name`, trailing slashes ignored |
| Images.ItemsFolderMatch | lib/getItems.tsx:66 | the match is the first item image whose lower-cased name ends with the base name, and there is none when no file does |
| Images.FolderMatch | lib/getItems.tsx:90 | the match is the first file of a folder whose lower-cased name is the base name |
| Images.SubfolderMatchFinds | lib/getItems.tsx:84-106 | a sub-folder match is a listed file with that name in a listable folder, and there is none exactly when no such file exists |
| Images.FindInSubfolders | lib/getItems.tsx:84-106 | the folder loop computes the sub-folder match |
| Images.ResolveExplicitImage | lib/getItems.tsx:61-110 | the method resolves the explicit image as `ResolveExplicit` does |
| Images.FileBase | lib/getItems.tsx:115 | stripping `.json` never lengthens the name |
| Basics.Dedup | lib/getItems.tsx:114 | `new Set` order: every stem once, no repeats, in the order of first occurrence |
| Images.Candidates | lib/getItems.tsx:114-127 | the candidate set always holds the file's base name |
| Images.PassFinds | lib/getItems.tsx:129-140 | a pass finds a file matching a non-empty candidate, and finds none exactly when no file matches any |
| Images.HeuristicIndexMeaning | lib/getItems.tsx:129-141 | a prefix match wins when one exists, a found file contains some candidate, and none is found exactly when no file contains any |
| Images.RunPass | lib/getItems.tsx:130-140 | the candidate loop computes the pass |
| Images.Lowered | lib/getItems.tsx:15 | every listed name lower-cased, in order |
| Images.ImageIsListed | lib/getItems.tsx:61-160 | the resulting `_image` is either the one the object carried or a listed file of the item folder or of a listable sub-folder; every truthy picture is a listed file when the object carried none; a truthy carried `_image` is kept whenever no explicit image resolves |
| Images.CarriedImageKept | lib/getItems.tsx:113-120 | an item with a numeric English name and its own `_image` keeps that picture instead of throwing |
| Images.ExplicitIsListed | lib/getItems.tsx:61-110 | an explicit picture is a listed file of the item folder or of a sub-folder |
| Images.ImageErrorMeaning | lib/getItems.tsx:113-123 | the picture lookup fails exactly when no explicit image resolves, the object carries no truthy `_image`, and the English name is truthy but not a string |
| Images.ResolveImage | lib/getItems.tsx:43-160 | the method computes `ImageFor`, including the `if (!p._image)` guard on a carried picture |
| Catalog.Views | lib/getItems.tsx:162 | the views of a list of items, in order |
| Catalog.PicturesResolve | lib/getItems.tsx:43-160 | the program's picture resolution agrees with `ImageFor` everywhere |
| Catalog.FileElements | lib/getItems.tsx:168-175 | an array contributes its elements, an object itself, anything else nothing |
| Catalog.ElementRecordsAreResolved | lib/getItems.tsx:169-172 | every loaded record is an object-shaped element of its file with that file and its resolved picture |
| Catalog.AllRecordsAreResolved | lib/getItems.tsx:165-179 | every loaded record comes from a `.json` file and carries its resolved picture |
| Catalog.ErrorDropsRestOfFile | lib/getItems.tsx:176-178 | an error drops the rest of its file only |
| Catalog.PushItem | lib/getItems.tsx:43-163 | a new item with its source file and picture, or the error, exactly when the picture lookup fails |
| Catalog.PushElements | lib/getItems.tsx:169-172 | the items pushed for one file are that file's records |
| Catalog.PushFile | lib/getItems.tsx:166-178 | the items pushed for one file are that file's records |
| Catalog.LoadFiles | lib/getItems.tsx:165-179 | the file loop pushes the records of every `.json` file in listing order |
| Catalog.InsertPermutes | lib/getItems.tsx:181-185 | one insertion adds exactly that element |
| Catalog.SortByPermutes | lib/getItems.tsx:181-185 | the sort keeps every element as often as it occurs |
| Catalog.InsertSorted | lib/getItems.tsx:181-185 | inserting into a sorted list keeps it sorted |
| Catalog.SortBySorted | lib/getItems.tsx:181-185 | the result is in key order under any total preorder |
| Catalog.InsertPoint | lib/getItems.tsx:181-185 | the insertion point follows every key not above the new one |
| Catalog.InsertKeepsTies | lib/getItems.tsx:181-185 | an insertion places the new element after those tied with it |
| Catalog.SortByStable | lib/getItems.tsx:181-185 | elements with tied keys come out in their input order |
| Catalog.GetAllItems | lib/getItems.tsx:5-187 | the result is the loaded records sorted by name |
| Catalog.GetAllItemsMeaning | lib/getItems.tsx:181-185 | the catalog is a permutation of the loaded records, sorted by name and stable on ties |
| Basics.FilterOrThrowMeaning | app/page.tsx:123-137 | a filter whose test can throw fails exactly when the test throws on some element, and otherwise equals the plain filter by the test |
| Page.MainSectionMeans | app/page.tsx:123-125 | a main section fails exactly when some item of its bucket has a name that throws; otherwise it keeps, in order, exactly the bucket's items that are no modification, quick-use item or augment |
| Page.WeaponSectionsSplit | app/page.tsx:128-129 | when neither list fails, no item is both a weapon item and a modification, and every weapon is in one of the two lists |
| Page.WeaponSectionsFail | app/page.tsx:128-129 | the modification list fails exactly when some item's name throws, the weapon-item list exactly when some weapon's does, since `&&` keeps other items from the modification test |
| Page.KindListMeans | app/page.tsx:132-137 | a list built from one name-reading test fails exactly when some item's name throws, and otherwise keeps in order exactly the items that pass |
| Page.KindListsFailTogether | app/page.tsx:128-137 | the blueprint, quick-use, augment and modification lists fail on exactly the same catalogs |
| Page.FilterItemsMeans | app/page.tsx:139-152 | with a non-blank query the filter fails exactly when a type-selected item's search throws; otherwise it keeps, in order, exactly the type-selected items whose name or string type contains the lower-cased query; no types and a blank query keep all |
| Page.Search | app/page.tsx:146-149 | the search throws exactly when the name throws, or the name misses and the type is truthy but not a string; it matches exactly when the name contains the query or a string type does |
| Page.LocaleTypeThrows | app/page.tsx:148 | an item whose name misses the query and whose type is a localized object makes the search throw |
| Page.ByTypeExists | app/page.tsx:141-143 | an item of the type-filtered list has a property exactly when some type-selected item of the input has it |
| Page.NoSpaceNoMatch | app/page.tsx:144-149 | a query ending in a space never occurs in text without spaces |
| Page.UntrimmedQueryMisses | app/page.tsx:144-149 | the search uses the untrimmed query, so a trailing space misses names and types without spaces |
| Page.ToggledTypesMeans | app/page.tsx:154-158 | the toggled type's membership flips, other types are unaffected, removal keeps order and addition appends |
| Page.ToggleTwice | app/page.tsx:154-158 | toggling twice restores the set of types, and the exact list when the type was absent |
| Page.DashRunsOfSpaceless | app/page.tsx:166 | text without white space passes the dash rewrite unchanged |
| Page.Slugify | app/page.tsx:165-167 | a slug holds only lower-case letters, digits, dashes and underscores |
| Page.SlugifyOfSlug | app/page.tsx:165-167 | a slug is its own slug |
| Page.SlugifyIdempotent | app/page.tsx:165-167 | slugging twice is slugging once |
| Page.BuildLookup | app/page.tsx:54-55 | the lookup loop builds the id map of the catalog |
| Page.ToggledSection | app/page.tsx:169-171 | the section's open flag flips and every other section keeps its flag |
| Page.SectionId | app/page.tsx:186 | a section with a non-empty key is identified by it; one without a key, or with an empty one, by a slug |
| Page.PageState.constructor | app/page.tsx:20-33 | no type is selected, the query is empty, and keep, sell and recycle start open while the others start closed |
| Page.PageState.ToggleType | app/page.tsx:154-158 | the selected types become the toggled list, nothing else changes |
| Page.PageState.SetSearchQuery | app/page.tsx:21 | the query is replaced, nothing else changes |
| Page.PageState.ClearFilters | app/page.tsx:160-163 | types and query are cleared, sections untouched, and every list is then shown in full without failing |
| Page.PageState.ToggleSection | app/page.tsx:169-171 | the section flags become the toggled map, nothing else changes |
| Page.PageState.RevealSection | app/page.tsx:173-180 | a mounted section is opened, an unmounted one changes nothing |
| Cards.TierOfCount | components/item-card.tsx:33-38 | two or more roman ones never give the common tier |
| Cards.BlankRarityIsCommon | components/item-card.tsx:24-25 | a blank rarity text is common on every card |
| Cards.UncommonBeatsCommon | components/item-card.tsx:26-30 | "uncommon" contains "common", yet is decided as uncommon on every card |
| Cards.CardAndMiniDiffer | components/item-mini-card.tsx:15-24 | the card and the mini card differ exactly when no keyword matches and the roman fallback gives a non-common tier |
| Cards.NoKeywordLetters | components/item-card.tsx:26-30 | text without any of the letters u, g, a, b, p, y, c matches no colour or tier keyword |
| Cards.RomanTier | components/item-card.tsx:31-39 | with no keyword, one to five roman ones give the tier of their count on the card and common on the mini card |
| Cards.RomanSpoiled | components/item-card.tsx:31-40 | with no keyword, a `v` or `x` among the roman letters gives common |
| Cards.TierTwoIsRare | components/item-card.tsx:23-41 | "Tier II" is rare on the card (three roman ones, counting the i of "tier") and common on the mini card |
| Cards.RomanFourIsCommon | components/item-card.tsx:23-41 | "IV" is common, since the fallback only counts ones |
| Cards.RarityNameRoundTrip | components/item-card.tsx:26-30 | every tier's own name is decided as that tier on every card |
| Cards.RarityClassesFor | components/item-card.tsx:43-82 | an unknown key gets the gray classes and each known tier gets other ones |
| Cards.RarityAccent | components/item-mini-card.tsx:26-35 | an unknown key gets the gray ring and each known tier gets another one |
| Cards.CardNameFallback | components/item-card.tsx:85 | the name is the name, else the id, else "Unknown" |
| Cards.RarityLabel | components/item-card.tsx:88 | the label is never empty, and is the rarity's own text when that is non-empty |
| Cards.TypeLabel | components/item-card.tsx:89 | the type label is the type's text, and "" when type and item type are both missing |
| Cards.CardDescriptionFallback | components/item-card.tsx:90 | without a description, the first three effect names joined by ", " |
| Cards.ShowsRecycle | components/item-card.tsx:136 | the recycle value is shown when it is truthy: hidden when missing, null, 0, false or the empty string, shown for any other number, a non-empty string, `true`, an array or an object |
| Cards.ModalFallbacks | components/item-modal.tsx:101-128 | the modal name is the name or its English text, else the id, else "Item"; the description falls back to `desc` |
| Cards.EntriesOf | components/item-modal.tsx:110-122 | one list entry per map entry |
| Cards.ModalListsMatchClassifier | components/item-modal.tsx:103-122 | the recycle list has the classifier's components with their quantities and looked-up items, and a missing recipe gives no entries |
| Cards.Rendered | components/item-modal.tsx:192-224 | at most the first six entries are rendered, and all of a short list |
| Cards.SpaceUnderscores | components/item-modal.tsx:207 | replacing underscores keeps the length |
| Cards.CapitalizeWords | components/item-modal.tsx:208 | capitalising keeps the length |
| Cards.BenchNameMeans | components/item-modal.tsx:205-215 | a bench name has the resolved text's length, no underscore, no lower-case letter at a word start, and the same lower-case form |
| Cards.CapitalizeIdempotent | components/item-modal.tsx:208 | capitalising twice is capitalising once |
| Cards.BenchNames | components/item-modal.tsx:204-210 | one bench name per bench, in order |
| Cards.TwoBenches | components/item-modal.tsx:203-218 | two benches are labelled by their names joined by ", " |
| Cards.RefCountOfList | components/item-modal.tsx:241-264 | a list of references is counted by its length |
| Cards.RefCountAbsent | components/item-modal.tsx:241-264 | missing references count "0" |
| Cards.DefaultReferencesCountZero | app/page.tsx:218 | an item absent from the index shows zero projects and zero quests |

## Left out

- Reading directories and files, `stat`, `mkdir` and `copyFile` are left out. Listings and parsed contents are parameters. A copy is not modelled, and its failure is swallowed as in the code.
- `JSON.parse` is left out: the model starts from parsed values, and an unparsable file contributes nothing. Duplicate keys in an object are out of scope: `JSON.parse` keeps the last one, while a lookup here takes the first member.
- An object's members are kept in the order JavaScript enumerates them after parsing. JavaScript lists integer-like keys first, in ascending order, and then the other keys in insertion order. The model takes its member list to be already in that order. This matters for `Object.values(...).find(...)` in `getLocalizedString`, for the recycle map, and for the id search.
- Item ids that name members every JavaScript object inherits, such as "constructor" or "toString", are out of scope. For those, `itemReferences[itemId]` is truthy even without a catalog entry, and the `.projects.push` of lib/categorizeItems.tsx:148 would throw. The model's index holds only catalog ids.
- `path.basename` is modelled as the text after the last slash, and `path.join` as joining with "/".
- `localeCompare` is a parameter assumed to be a total preorder. Its locale rules are not modelled.
- Numbers are integers plus NaN. Fractions, exponents and hexadecimal text are out of scope.
- Upper- and lower-casing are ASCII only. `Page.Slugify` therefore keeps only ASCII letters, digits, `-` and `_`.
- Calling string methods on a non-string throws in JavaScript. Where the program applies `.toString()` or `String()` first, the model does the same. The throws that remain are modelled as error results: the picture heuristic (lib/getItems.tsx:120), which runs only when the object carries no truthy `_image` of its own (line 113), the name read of `isBlueprint`, `isWeaponMod`, `isAugment` and `isQuickUse` (`Heuristics.NameThrows`), and the search's `it.type.toLowerCase()` (app/page.tsx:148). A throw aborts the whole computation it happens in: `Categorize.CategorizeAllItems` and the page lists return an error instead of a partial result. What the page shows after such an error is left out.
- The regular expressions are written out as explicit functions over characters.
- Page.TypeSelected: the selected types are strings. `selectedTypes.includes(it.type)` (app/page.tsx:142) compares raw values, and the type list the page receives is built from the items' raw `type` values, which may be numbers or booleans. Selecting such a non-string type is out of scope.
- React rendering, effects and the fetch of the data are left out. So are theme, animation, modal open and close, and the element references used for scrolling. `Page.PageState.RevealSection` takes whether the section is mounted as a parameter.
- Image `src` and `alt` choice, and the hiding of an empty section, are left out.
- The API route (app/api/items/route.ts) and next.config.ts are not part of this model.
- Localize.GetLocalizedString: a truthy `en` or `en-US` entry that is not a string is returned by the program as it is (a number, an object). The model returns its `String()` text. The modal's bench label then calls `.replace` on it (components/item-modal.tsx:206-214), which throws for such a value. That throw is not modelled.
- Cards.RefCount: an object with a `length` member is read through `Cards.LengthOf`. Its count carries no contract of its own beyond `RefCountOfList` and `RefCountAbsent`.
