/** What the three item components (components/item-card.tsx, item-modal.tsx and
    item-mini-card.tsx) compute from an item before rendering it: the rarity tier and its
    colours, the name, label and description fallbacks, the recycle and recipe lists, the
    craft-bench label and the reference counts. Their `getLocalizedString` copies are
    identical to module Localize's. */
module Cards {
  import opened Basics
  import opened JsStrings
  import opened JsValues
  import opened Localize
  import opened Items
  import opened Classify

  // ----- rarity -----

  /** The five rarity keys. */
  datatype Rarity = Common | Uncommon | Rare | Epic | Legendary

  function RarityName(r: Rarity): string
  {
    match r
    case Common => "common"
    case Uncommon => "uncommon"
    case Rare => "rare"
    case Epic => "epic"
    case Legendary => "legendary"
  }

  /** `String(getLocalizedString(raw || "")).trim().toLowerCase()`; `raw || ""` changes
      nothing, because every falsy value already resolves to "". */
  function RarityText(raw: Value): string
  {
    ToLower(Trim(GetLocalizedString(raw)))
  }

  /** The keyword chain, first match wins: "uncommon" is tested before "common". */
  function KeywordRarity(s: string): Option<Rarity>
  {
    if Contains(s, "uncommon") || Contains(s, "green") then Some(Uncommon)
    else if Contains(s, "rare") || Contains(s, "blue") then Some(Rare)
    else if Contains(s, "epic") || Contains(s, "purple") then Some(Epic)
    else if Contains(s, "legendary") || Contains(s, "yellow") || Contains(s, "gold") then Some(Legendary)
    else if Contains(s, "common") || Contains(s, "gray") || Contains(s, "grey") then Some(Common)
    else None
  }

  predicate IsRomanLetter(c: char)
  {
    c == 'i' || c == 'v' || c == 'x'
  }

  function RomanPass(): char -> bool
  {
    c => IsRomanLetter(c)
  }

  /** `s.replace(/[^ivx]/g, "")`: every `i`, `v` and `x` of the whole text, in order. */
  function RomanLetters(s: string): string
  {
    Filter(s, RomanPass())
  }

  predicate AllI(r: string)
  {
    forall k :: 0 <= k < |r| ==> r[k] == 'i'
  }

  /** One to five `i`s name the tiers from common to legendary. */
  function TierOfCount(n: int): (r: Rarity)
    requires 1 <= n <= 5
    ensures n >= 2 ==> r != Common
  {
    if n == 1 then Common
    else if n == 2 then Uncommon
    else if n == 3 then Rare
    else if n == 4 then Epic
    else Legendary
  }

  /** The roman fallback: `/^i{1,5}$/` on the letters kept, else common. */
  function RomanRarity(s: string): Rarity
  {
    var r := RomanLetters(s);
    if 1 <= |r| <= 5 && AllI(r) then TierOfCount(|r|) else Common
  }

  /** `normalizeRarityKey` of item-card.tsx and item-modal.tsx, on the prepared text. */
  function RarityOfText(s: string): Rarity
  {
    if s == [] then Common
    else match KeywordRarity(s)
      case Some(k) => k
      case None => RomanRarity(s)
  }

  /** `normalizeRarityKey` of item-mini-card.tsx: the same chain without the roman fallback. */
  function MiniRarityOfText(s: string): Rarity
  {
    if s == [] then Common
    else match KeywordRarity(s)
      case Some(k) => k
      case None => Common
  }

  function RarityKey(raw: Value): Rarity
  {
    RarityOfText(RarityText(raw))
  }

  function MiniRarityKey(raw: Value): Rarity
  {
    MiniRarityOfText(RarityText(raw))
  }

  /** A blank or falsy rarity is common in every copy. */
  lemma BlankRarityIsCommon(raw: Value)
    requires forall k :: 0 <= k < |GetLocalizedString(raw)| ==> IsSpace(GetLocalizedString(raw)[k])
    ensures RarityKey(raw) == Common && MiniRarityKey(raw) == Common
  {
    TrimFacts(GetLocalizedString(raw));
  }

  /** "uncommon" contains "common", and still gives uncommon. */
  lemma UncommonBeatsCommon(s: string)
    requires Contains(s, "uncommon")
    ensures Contains(s, "common")
    ensures RarityOfText(s) == Uncommon && MiniRarityOfText(s) == Uncommon
  {
    assert OccursAt("uncommon", "common", 2);
    ContainsTransitive(s, "uncommon", "common");
  }

  /** The card and the mini card disagree exactly on keyword-free texts whose `i`/`v`/`x`
      letters are two to five `i`s: there the card reads a tier and the mini card says
      common. */
  lemma CardAndMiniDiffer(s: string)
    ensures RarityOfText(s) != MiniRarityOfText(s) <==>
      s != [] && KeywordRarity(s).None? && 2 <= |RomanLetters(s)| <= 5 && AllI(RomanLetters(s))
  {
  }

  /** A text without any of the letters u, g, a, b, p, y, c holds no colour or tier
      keyword: each keyword has one of them. */
  lemma NoKeywordLetters(s: string)
    requires forall k :: 0 <= k < |s| ==> s[k] !in "ugabpyc"
    ensures KeywordRarity(s).None?
  {
    MissingLetter(s, "uncommon", 0);
    MissingLetter(s, "green", 0);
    MissingLetter(s, "rare", 1);
    MissingLetter(s, "blue", 0);
    MissingLetter(s, "epic", 1);
    MissingLetter(s, "purple", 1);
    MissingLetter(s, "legendary", 2);
    MissingLetter(s, "yellow", 0);
    MissingLetter(s, "gold", 0);
    MissingLetter(s, "common", 0);
    MissingLetter(s, "gray", 0);
    MissingLetter(s, "grey", 0);
  }

  /** A word with a letter the text lacks does not occur in it. */
  lemma MissingLetter(s: string, w: string, j: int)
    requires 0 <= j < |w|
    requires forall k :: 0 <= k < |s| ==> s[k] !in "ugabpyc"
    requires w[j] in "ugabpyc"
    ensures !Contains(s, w)
  {
    forall i | 0 <= i <= |s| - |w|
      ensures !OccursAt(s, w, i)
    {
      assert s[i..i + |w|][j] == s[i + j] != w[j];
    }
  }

  /** A keyword-free text whose roman letters are `n` `i`s, one to five, has tier `n` on
      the card and is common on the mini card. */
  lemma RomanTier(s: string, n: int)
    requires 1 <= n <= 5 && |RomanLetters(s)| == n && AllI(RomanLetters(s))
    requires forall k :: 0 <= k < |s| ==> s[k] !in "ugabpyc"
    ensures RarityOfText(s) == TierOfCount(n) && MiniRarityOfText(s) == Common
  {
    NoKeywordLetters(s);
  }

  /** A keyword-free text with a `v` or an `x` is common on every card. */
  lemma RomanSpoiled(s: string, k: int)
    requires 0 <= k < |RomanLetters(s)| && RomanLetters(s)[k] != 'i'
    requires forall k :: 0 <= k < |s| ==> s[k] !in "ugabpyc"
    ensures RarityOfText(s) == Common && MiniRarityOfText(s) == Common
  {
    NoKeywordLetters(s);
  }

  lemma TierText()
    ensures RarityText(Some(JStr("Tier II"))) == "tier ii"
  {
    assert GetLocalizedString(Some(JStr("Tier II"))) == "Tier II";
    assert Trim("Tier II") == "Tier II" by {
      TrimOfUnpadded("Tier II");
    }
    assert ToLower("Tier II") == "tier ii" by {
      assert LowerChar('T') == 't' && LowerChar('I') == 'i';
    }
  }

  /** The `i` of "tier" counts: "Tier II" has three `i`s and is rare on the card, common on
      the mini card. */
  lemma TierTwoIsRare()
    ensures RarityKey(Some(JStr("Tier II"))) == Rare
    ensures MiniRarityKey(Some(JStr("Tier II"))) == Common
  {
    TierText();
    TierIsRare();
  }

  lemma TierIsRare()
    ensures RarityOfText("tier ii") == Rare && MiniRarityOfText("tier ii") == Common
  {
    RomanLettersOfTier();
    TierLetters();
    RomanTier("tier ii", 3);
  }

  lemma TierLetters()
    ensures forall k :: 0 <= k < |"tier ii"| ==> "tier ii"[k] !in "ugabpyc"
  {
  }

  lemma RomanLettersOfTier()
    ensures RomanLetters("tier ii") == "iii"
  {
    var s := "tier ii";
    assert s == ['t'] + (['i'] + (['e', 'r', ' '] + ['i', 'i']));
    FilterConcat(['t'], ['i'] + (['e', 'r', ' '] + ['i', 'i']), RomanPass());
    FilterConcat(['i'], ['e', 'r', ' '] + ['i', 'i'], RomanPass());
    FilterConcat(['e', 'r', ' '], ['i', 'i'], RomanPass());
    FilterSingle('t', RomanPass());
    FilterSingle('i', RomanPass());
    assert Filter(['e', 'r', ' '], RomanPass()) == [];
    FilterAll(['i', 'i'], RomanPass());
  }

  lemma FourText()
    ensures RarityText(Some(JStr("IV"))) == "iv"
  {
    assert GetLocalizedString(Some(JStr("IV"))) == "IV";
    assert Trim("IV") == "IV" by {
      TrimOfUnpadded("IV");
    }
    assert ToLower("IV") == "iv" by {
      assert LowerChar('V') == 'v' && LowerChar('I') == 'i';
    }
  }

  /** A `v` spoils the numeral: "IV" is common on every card. */
  lemma RomanFourIsCommon()
    ensures RarityKey(Some(JStr("IV"))) == Common
  {
    FourText();
    assert RomanLetters("iv") == "iv" by {
      FilterAll("iv", RomanPass());
    }
    RomanSpoiled("iv", 1);
  }

  /** A key's own name normalises back to it, on every card. */
  lemma RarityNameRoundTrip(r: Rarity)
    ensures RarityOfText(RarityName(r)) == r && MiniRarityOfText(RarityName(r)) == r
  {
    match r
    case Common => CommonRoundTrip();
    case Uncommon => assert OccursAt("uncommon", "uncommon", 0);
    case Rare => RareRoundTrip();
    case Epic => EpicRoundTrip();
    case Legendary => LegendaryRoundTrip();
  }

  lemma CommonRoundTrip()
    ensures KeywordRarity("common") == Some(Common)
  {
    assert OccursAt("common", "common", 0);
    NameHasNoWord("common", "uncommon", 0);
    NameHasNoWord("common", "green", 0);
    NameHasNoWord("common", "rare", 1);
    NameHasNoWord("common", "blue", 0);
    NameHasNoWord("common", "epic", 0);
    NameHasNoWord("common", "purple", 0);
    NameHasNoWord("common", "legendary", 0);
    NameHasNoWord("common", "yellow", 0);
    NameHasNoWord("common", "gold", 0);
  }

  lemma RareRoundTrip()
    ensures KeywordRarity("rare") == Some(Rare)
  {
    assert OccursAt("rare", "rare", 0);
    NameHasNoWord("rare", "uncommon", 0);
    NameHasNoWord("rare", "green", 0);
  }

  lemma EpicRoundTrip()
    ensures KeywordRarity("epic") == Some(Epic)
  {
    assert OccursAt("epic", "epic", 0);
    NameHasNoWord("epic", "uncommon", 0);
    NameHasNoWord("epic", "green", 0);
    NameHasNoWord("epic", "rare", 1);
    NameHasNoWord("epic", "blue", 0);
  }

  lemma LegendaryRoundTrip()
    ensures KeywordRarity("legendary") == Some(Legendary)
  {
    assert OccursAt("legendary", "legendary", 0);
    NameHasNoWord("legendary", "uncommon", 0);
    NoWordAt("legendary", "rare", 0);
    NameHasNoWord("legendary", "blue", 0);
    NameHasNoWord("legendary", "epic", 2);
    NameHasNoWord("legendary", "purple", 0);
    NoWordAt("legendary", "green", 1);
  }

  /** `w` does not occur in `s` when its letter `j` is nowhere in `s`. */
  lemma NameHasNoWord(s: string, w: string, j: int)
    requires 0 <= j < |w| && w[j] !in s
    ensures !Contains(s, w)
  {
    forall i | 0 <= i <= |s| - |w|
      ensures !OccursAt(s, w, i)
    {
      assert s[i..i + |w|][j] == s[i + j];
    }
  }

  /** `w` does not occur in `s` when no place it could start at has its letter `j` there. */
  lemma NoWordAt(s: string, w: string, j: int)
    requires 0 <= j < |w|
    requires forall i :: j <= i <= |s| - |w| + j ==> s[i] != w[j]
    ensures !Contains(s, w)
  {
    forall i | 0 <= i <= |s| - |w|
      ensures !OccursAt(s, w, i)
    {
      assert s[i..i + |w|][j] == s[i + j];
    }
  }

  /** The class strings of one colour scheme. */
  datatype Classes = Classes(wrapper: string, bg: string, badgeBg: string, badgeText: string)

  const GrayClasses := Classes("border-gray-600 dark:border-gray-500", "bg-gray-100 dark:bg-gray-800",
    "bg-gray-200 dark:bg-gray-700", "text-gray-800 dark:text-gray-100")

  /** `rarityClassesFor(key)`: total; any other key gets the gray scheme. */
  function RarityClassesFor(key: string): (c: Classes)
    ensures key !in {"uncommon", "rare", "epic", "legendary"} ==> c == GrayClasses
    ensures key in {"uncommon", "rare", "epic", "legendary"} ==> c != GrayClasses
  {
    match key
    case "uncommon" => Classes("border-green-600 dark:border-green-500", "bg-green-50 dark:bg-green-950",
      "bg-green-100 dark:bg-green-800", "text-green-800 dark:text-green-200")
    case "rare" => Classes("border-blue-600 dark:border-blue-500", "bg-blue-50 dark:bg-blue-950",
      "bg-blue-100 dark:bg-blue-800", "text-blue-800 dark:text-blue-200")
    case "epic" => Classes("border-purple-600 dark:border-purple-500", "bg-purple-50 dark:bg-purple-950",
      "bg-purple-100 dark:bg-purple-800", "text-purple-800 dark:text-purple-200")
    case "legendary" => Classes("border-yellow-600 dark:border-yellow-500", "bg-yellow-50 dark:bg-yellow-950",
      "bg-yellow-100 dark:bg-yellow-800", "text-yellow-800 dark:text-yellow-100")
    case _ => GrayClasses
  }

  const GrayRing := "ring-gray-200 dark:ring-zinc-800"

  /** `rarityAccent(key)`: total; any other key gets the gray ring. */
  function RarityAccent(key: string): (a: string)
    ensures key !in {"uncommon", "rare", "epic", "legendary"} ==> a == GrayRing
    ensures key in {"uncommon", "rare", "epic", "legendary"} ==> a != GrayRing
  {
    match key
    case "uncommon" => "ring-emerald-300 dark:ring-emerald-700"
    case "rare" => "ring-sky-300 dark:ring-sky-700"
    case "epic" => "ring-violet-300 dark:ring-violet-700"
    case "legendary" => "ring-yellow-300 dark:ring-yellow-600"
    case _ => GrayRing
  }

  // ----- the item card -----

  function Field(it: Json, key: string): Value
  {
    Get(Some(it), key)
  }

  /** `getLocalizedString(item.name ?? item.id ?? "Unknown")`, on the card and the mini card. */
  function CardName(it: Json): string
  {
    GetLocalizedString(Coalesce(Coalesce(Field(it, "name"), Field(it, "id")), Some(JStr("Unknown"))))
  }

  /** The card name is the name when there is one, the id when there is no name, and
      "Unknown" when there is neither; a present empty name stays empty. */
  lemma CardNameFallback(it: Json)
    ensures forall n :: Field(it, "name") == Some(JStr(n)) ==> CardName(it) == n
    ensures forall d :: IsNullish(Field(it, "name")) && Field(it, "id") == Some(JStr(d)) ==> CardName(it) == d
    ensures IsNullish(Field(it, "name")) && IsNullish(Field(it, "id")) ==> CardName(it) == "Unknown"
  {
  }

  /** `item.rarity ?? item.tier ?? item.tierName ?? ""` (card and modal). */
  function RawRarity(it: Json): Value
  {
    Coalesce(Coalesce(Coalesce(Field(it, "rarity"), Field(it, "tier")), Field(it, "tierName")), Some(JStr("")))
  }

  /** `item.rarity ?? item.tier ?? ""` (mini card: no `tierName`). */
  function MiniRawRarity(it: Json): Value
  {
    Coalesce(Coalesce(Field(it, "rarity"), Field(it, "tier")), Some(JStr("")))
  }

  /** The badge text: the resolved rarity, else the resolved tier, else "Common"; never empty. */
  function RarityLabel(it: Json): (r: string)
    ensures r != ""
    ensures GetLocalizedString(RawRarity(it)) != "" ==> r == GetLocalizedString(RawRarity(it))
  {
    var a := GetLocalizedString(RawRarity(it));
    if a != "" then a
    else
      var b := GetLocalizedString(Field(it, "tier"));
      if b != "" then b else "Common"
  }

  /** The type chip: `getLocalizedString(item.type ?? item.itemType ?? "")`; `itemType`
      is read only when `type` is missing or null. */
  function TypeLabel(it: Json): (r: string)
    ensures !IsNullish(Field(it, "type")) ==> r == GetLocalizedString(Field(it, "type"))
    ensures IsNullish(Field(it, "type")) && IsNullish(Field(it, "itemType")) ==> r == ""
  {
    GetLocalizedString(Coalesce(Coalesce(Field(it, "type"), Field(it, "itemType")), Some(JStr(""))))
  }

  /** The card's description: the resolved `description ?? desc`, else the first three
      `effects` keys joined with ", ". */
  function CardDescription(it: Json): string
  {
    var d := GetLocalizedString(Coalesce(Field(it, "description"), Field(it, "desc")));
    var effects := Field(it, "effects");
    if d != "" then d
    else if Truthy(effects) then Join(Take(Keys(effects.value), 3), ", ")
    else ""
  }

  /** Without a description the card lists at most three effect names, the first ones. */
  lemma CardDescriptionFallback(it: Json, fs: seq<(string, Json)>)
    requires IsNullish(Field(it, "description")) && IsNullish(Field(it, "desc"))
    requires Field(it, "effects") == Some(JObj(fs))
    ensures CardDescription(it) == Join(Take(Keys(JObj(fs)), 3), ", ")
    ensures |Take(Keys(JObj(fs)), 3)| <= 3
    ensures forall i :: 0 <= i < |Take(Keys(JObj(fs)), 3)| ==> Take(Keys(JObj(fs)), 3)[i] == fs[i].0
  {
  }

  /** `item._recycleValue ? … : null`: the recycle value is shown only when truthy. */
  function ShowsRecycle(it: Json): (shown: bool)
    ensures Field(it, "_recycleValue") == Some(JNum(0)) ==> !shown
    ensures IsNullish(Field(it, "_recycleValue")) ==> !shown
    ensures forall n :: Field(it, "_recycleValue") == Some(JNum(n)) && n != 0 ==> shown
    ensures forall s :: Field(it, "_recycleValue") == Some(JStr(s)) ==> (shown <==> s != "")
    ensures forall b :: Field(it, "_recycleValue") == Some(JBool(b)) ==> shown == b
    ensures var v := Field(it, "_recycleValue"); v.Some? && (v.value.JArr? || v.value.JObj?) ==> shown
  {
    Truthy(Field(it, "_recycleValue"))
  }

  // ----- the item modal -----

  /** `(typeof v === "string" ? v : v?.en)`. */
  function StringOrEnglish(v: Value): Value
  {
    if v.Some? && v.value.JStr? then v else Get(v, "en")
  }

  /** The modal's name: string name, else `name.en`, else `id`, else "Item"; `||` skips
      empty texts. */
  function ModalName(it: Json): string
  {
    ToStrOpt(Or(Or(StringOrEnglish(Field(it, "name")), Field(it, "id")), Some(JStr("Item"))))
  }

  /** The modal's description: string description, else `description.en`, else `desc`,
      else "". */
  function ModalDescription(it: Json): string
  {
    ToStrOpt(Or(Or(StringOrEnglish(Field(it, "description")), Field(it, "desc")), Some(JStr(""))))
  }

  /** The modal's fallbacks, and where they part from the card's: an empty name stays empty
      on the card but gives way to the id in the modal. */
  lemma ModalFallbacks(it: Json)
    ensures forall n :: Field(it, "name") == Some(JStr(n)) && n != "" ==> ModalName(it) == n
    ensures forall n :: Field(it, "name") == Some(JObj([("en", JStr(n))])) && n != "" ==> ModalName(it) == n
    ensures IsNullish(Field(it, "name")) && IsNullish(Field(it, "id")) ==> ModalName(it) == "Item"
    ensures forall d :: Field(it, "name") == Some(JStr("")) && Field(it, "id") == Some(JStr(d)) && d != "" ==>
      ModalName(it) == d && CardName(it) == ""
    ensures forall e :: IsNullish(Field(it, "description")) && Field(it, "desc") == Some(JStr(e)) ==> ModalDescription(it) == e
    ensures forall e :: Field(it, "description") == Some(JStr(e)) && e != "" ==> ModalDescription(it) == e
  {
    forall n | Field(it, "name") == Some(JObj([("en", JStr(n))])) && n != ""
      ensures ModalName(it) == n
    {
      assert Get(Field(it, "name"), "en") == Some(JStr(n));
    }
  }

  /** One rendered list entry: the key, `Number(v) || 0`, and the catalog item the key names. */
  datatype Entry = Entry(id: string, qty: int, itemObj: Option<Json>)

  function EntryOf(pair: (string, Json), lookup: map<string, Json>): Entry
  {
    Entry(pair.0, NumberOr(Some(pair.1), 0), if pair.0 in lookup then Some(lookup[pair.0]) else None)
  }

  /** `Object.entries(m).map(([k, v]) => ({id: String(k), qty: Number(v) || 0, itemObj: lookup?.[String(k)]}))`. */
  function EntriesOf(m: Json, lookup: map<string, Json>): (r: seq<Entry>)
    ensures |r| == |Entries(m)|
  {
    var es := Entries(m);
    seq(|es|, i requires 0 <= i < |es| => EntryOf(es[i], lookup))
  }

  /** `recyclesList`: over `recyclesInto ?? salvagesInto ?? {}`. */
  function RecyclesList(it: Json, lookup: map<string, Json>): seq<Entry>
  {
    EntriesOf(RecycleMap(it), lookup)
  }

  /** `recipeList`: empty unless the recipe is truthy. */
  function RecipeList(it: Json, lookup: map<string, Json>): seq<Entry>
  {
    var recipe := Coalesce(Field(it, "recipe"), Some(JNull));
    if Truthy(recipe) then EntriesOf(recipe.value, lookup) else []
  }

  /** The modal lists the very components the classifier sums, in the same order and with
      the same quantities; a missing or null recipe lists nothing. */
  lemma ModalListsMatchClassifier(it: Json, lookup: map<string, Json>, byId: map<string, Json>)
    ensures |RecyclesList(it, lookup)| == |Components(it)|
    ensures forall i :: 0 <= i < |Components(it)| ==>
      RecyclesList(it, lookup)[i].id == Components(it)[i].0 &&
      RecyclesList(it, lookup)[i].qty == Share(byId, Components(it)[i]).1
    ensures forall i :: 0 <= i < |Components(it)| && Components(it)[i].0 in lookup ==>
      RecyclesList(it, lookup)[i].itemObj == Some(lookup[Components(it)[i].0])
    ensures IsNullish(Field(it, "recipe")) ==> RecipeList(it, lookup) == []
  {
  }

  /** `list.slice(0, 6)`: the entries shown, the first six at most. */
  function Rendered(list: seq<Entry>): (r: seq<Entry>)
    ensures |r| <= 6 && r <= list
    ensures |list| <= 6 ==> r == list
  {
    Take(list, 6)
  }

  // ----- the craft-bench label -----

  /** `.replace(/_/g, " ")`. */
  function SpaceUnderscores(s: string): (r: string)
    ensures |r| == |s|
  {
    seq(|s|, k requires 0 <= k < |s| => if s[k] == '_' then ' ' else s[k])
  }

  /** `\b\w`: a word character at the start of the text or after a non-word character. */
  predicate WordStart(s: string, k: int)
    requires 0 <= k < |s|
  {
    IsWordChar(s[k]) && (k == 0 || !IsWordChar(s[k - 1]))
  }

  /** `.replace(/\b\w/g, c => c.toUpperCase())`. */
  function CapitalizeWords(s: string): (r: string)
    ensures |r| == |s|
  {
    seq(|s|, k requires 0 <= k < |s| => if WordStart(s, k) then UpperChar(s[k]) else s[k])
  }

  /** One bench's label. */
  function BenchName(b: Value): string
  {
    CapitalizeWords(SpaceUnderscores(GetLocalizedString(b)))
  }

  /** A bench label has no underscore left, starts every word with a non-lower-case
      character, and differs from the bench name with underscores spaced only in case. */
  lemma BenchNameMeans(b: Value)
    ensures var t := SpaceUnderscores(GetLocalizedString(b)); var r := BenchName(b);
      |r| == |GetLocalizedString(b)| &&
      (forall k :: 0 <= k < |r| ==> r[k] != '_') &&
      (forall k :: 0 <= k < |r| && WordStart(t, k) ==> !IsLowerLetter(r[k])) &&
      ToLower(r) == ToLower(t)
  {
    var t := SpaceUnderscores(GetLocalizedString(b));
    var r := BenchName(b);
    forall k | 0 <= k < |r|
      ensures r[k] != '_' && LowerChar(r[k]) == LowerChar(t[k])
    {
      assert t[k] != '_';
    }
  }

  /** Capitalising keeps every word where it was, so a second pass changes nothing. */
  lemma CapitalizeIdempotent(s: string)
    ensures CapitalizeWords(CapitalizeWords(s)) == CapitalizeWords(s)
  {
    var r := CapitalizeWords(s);
    forall k | 0 <= k < |s|
      ensures IsWordChar(r[k]) == IsWordChar(s[k])
    {
    }
    forall k | 0 <= k < |s|
      ensures WordStart(r, k) == WordStart(s, k)
    {
      if k > 0 {
        assert IsWordChar(r[k - 1]) == IsWordChar(s[k - 1]);
      }
    }
  }

  function BenchNames(es: seq<Json>): (r: seq<string>)
    ensures |r| == |es| && forall i :: 0 <= i < |es| ==> r[i] == BenchName(Some(es[i]))
  {
    seq(|es|, i requires 0 <= i < |es| => BenchName(Some(es[i])))
  }

  /** The heading's bench part: nothing without a truthy bench, else " (…)" around one
      label, or around every label of an array joined with ", ". */
  function CraftBenchLabel(it: Json): string
  {
    var cb := Field(it, "craftBench");
    if !Truthy(cb) then ""
    else if cb.value.JArr? then
      " (" + Join(BenchNames(cb.value.elems), ", ") + ")"
    else " (" + BenchName(cb) + ")"
  }

  /** Two benches are labelled one after the other, separated by ", ". */
  lemma TwoBenches(a: Json, b: Json)
    ensures Join(BenchNames([a, b]), ", ") == BenchName(Some(a)) + ", " + BenchName(Some(b))
  {
    var names := BenchNames([a, b]);
    assert names[1..] == [BenchName(Some(b))];
  }

  // ----- the reference counts -----

  /** `v?.length`: arrays and strings have one; an object only if it has that member. */
  function LengthOf(v: Value): Value
  {
    if v.Some? && v.value.JArr? then Some(JNum(|v.value.elems|))
    else if v.Some? && v.value.JStr? then Some(JNum(|v.value.s|))
    else Get(v, "length")
  }

  /** `String((references?.projects?.length) ?? 0)` and the same for quests. */
  function RefCount(refs: Value, key: string): string
  {
    var n := Coalesce(LengthOf(Get(refs, key)), Some(JNum(0)));
    ToStr(n.value)
  }

  /** The page's `itemReferences[String(it.id)] ?? {quests: [], projects: []}`. */
  function CardReferences(itemReferences: Value, it: Json): Value
  {
    Coalesce(Get(itemReferences, IdOf(it)), Some(JObj([("quests", JArr([])), ("projects", JArr([]))])))
  }

  /** A list of `n` references counts `n`. */
  lemma RefCountOfList(refs: Value, key: string, es: seq<Json>)
    requires Get(refs, key) == Some(JArr(es))
    ensures RefCount(refs, key) == IntToString(|es|)
  {
  }

  /** Missing references count 0. */
  lemma RefCountAbsent(refs: Value, key: string)
    requires IsNullish(refs)
    ensures RefCount(refs, key) == "0"
  {
    assert IntToString(0) == "0";
  }

  /** An item the page finds no references for counts 0 projects and 0 quests. */
  lemma DefaultReferencesCountZero(itemReferences: Value, it: Json)
    requires IsNullish(Get(itemReferences, IdOf(it)))
    ensures RefCount(CardReferences(itemReferences, it), "projects") == "0"
    ensures RefCount(CardReferences(itemReferences, it), "quests") == "0"
  {
    var d := CardReferences(itemReferences, it);
    assert Get(d, "quests") == Some(JArr([]));
    assert Get(d, "projects") == Some(JArr([]));
    RefCountOfList(d, "projects", []);
    RefCountOfList(d, "quests", []);
    assert IntToString(0) == "0";
  }
}
