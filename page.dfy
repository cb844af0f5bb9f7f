/** The items page (app/page.tsx): the section lists it derives from the categorised
    data, the type and search filter applied to every section, `slugify`, the id →
    item lookup it fills in a loop, and the filter and section state its buttons update.
    The item-kind tests themselves are in module Heuristics. */
module Page {
  import opened Basics
  import opened JsStrings
  import opened JsValues
  import opened Heuristics
  import opened Items
  import opened Classify

  // ----- the section lists -----

  /** Neither a modification, nor quick use, nor an augment: what the keep, sell and
      recycle sections still show. */
  predicate MainListed(it: Json)
  {
    !IsWeaponMod(it) && !IsQuickUse(it) && !IsAugment(it)
  }

  /** The filter test of the main sections; it throws where the modification test does. */
  function MainTest(): Json -> Option<bool>
  {
    it => if NameThrows(it) then None else Some(MainListed(it))
  }

  /** `bucket.filter(it => !isWeaponMod(it) && !isQuickUse(it) && !isAugment(it))`; `None`
      when the test throws. */
  function MainSection(bucket: seq<Json>): Option<seq<Json>>
  {
    FilterOrThrow(bucket, MainTest())
  }

  function ModTest(): Json -> Option<bool>
  {
    it => if NameThrows(it) then None else Some(IsWeaponMod(it))
  }

  /** `isWeapon(it) && !isWeaponMod(it)`: only a weapon reaches the modification test. */
  function WeaponTest(): Json -> Option<bool>
  {
    it => if !IsWeapon(it) then Some(false) else if NameThrows(it) then None else Some(!IsWeaponMod(it))
  }

  /** `weaponMods`: every item of the catalog that is a modification. */
  function WeaponMods(all: seq<Json>): Option<seq<Json>>
  {
    FilterOrThrow(all, ModTest())
  }

  /** `weaponItems`: the weapons that are not modifications. */
  function WeaponItems(all: seq<Json>): Option<seq<Json>>
  {
    FilterOrThrow(all, WeaponTest())
  }

  /** A main section fails exactly when some item of its bucket has a name that throws;
      otherwise it is its bucket in the same order, less exactly the modification,
      quick-use and augment items. */
  lemma MainSectionMeans(bucket: seq<Json>)
    ensures MainSection(bucket).None? <==> exists i :: 0 <= i < |bucket| && NameThrows(bucket[i])
    ensures MainSection(bucket).Some? ==> IsSubsequence(MainSection(bucket).value, bucket)
    ensures MainSection(bucket).Some? ==> forall x :: x in MainSection(bucket).value ==> x in bucket && MainListed(x)
    ensures MainSection(bucket).Some? ==>
      forall i :: 0 <= i < |bucket| && MainListed(bucket[i]) ==> bucket[i] in MainSection(bucket).value
  {
    FilterOrThrowMeaning(bucket, MainTest());
    assert forall i :: 0 <= i < |bucket| ==> (MainTest()(bucket[i]).None? <==> NameThrows(bucket[i]));
    if MainSection(bucket).Some? {
      var r := MainSection(bucket).value;
      FilterMeaning(bucket, Passes(MainTest()));
      forall x | x in r
        ensures x in bucket && MainListed(x)
      {
        var i :| 0 <= i < |r| && r[i] == x;
      }
      forall i | 0 <= i < |bucket| && MainListed(bucket[i])
        ensures bucket[i] in r
      {
        assert Passes(MainTest())(bucket[i]);
      }
    }
  }

  /** The two weapon sections fail exactly when a weapon, or for the modifications any
      item, has a name that throws. */
  lemma WeaponSectionsFail(all: seq<Json>)
    ensures WeaponMods(all).None? <==> exists i :: 0 <= i < |all| && NameThrows(all[i])
    ensures WeaponItems(all).None? <==> exists i :: 0 <= i < |all| && IsWeapon(all[i]) && NameThrows(all[i])
  {
    FilterOrThrowMeaning(all, ModTest());
    FilterOrThrowMeaning(all, WeaponTest());
    assert forall i :: 0 <= i < |all| ==> (ModTest()(all[i]).None? <==> NameThrows(all[i]));
    assert forall i :: 0 <= i < |all| ==> (WeaponTest()(all[i]).None? <==> IsWeapon(all[i]) && NameThrows(all[i]));
  }

  /** When neither weapon section fails, no item is in both, and every weapon of the
      catalog is in one of the two. */
  lemma WeaponSectionsSplit(all: seq<Json>)
    ensures WeaponMods(all).Some? && WeaponItems(all).Some? ==>
      forall x :: x in WeaponItems(all).value ==> x !in WeaponMods(all).value
    ensures WeaponMods(all).Some? && WeaponItems(all).Some? ==>
      forall i :: 0 <= i < |all| && IsWeapon(all[i]) ==> all[i] in WeaponItems(all).value || all[i] in WeaponMods(all).value
  {
    FilterOrThrowMeaning(all, ModTest());
    FilterOrThrowMeaning(all, WeaponTest());
    if WeaponMods(all).Some? && WeaponItems(all).Some? {
      var mods, weapons := WeaponMods(all).value, WeaponItems(all).value;
      FilterMeaning(all, Passes(ModTest()));
      FilterMeaning(all, Passes(WeaponTest()));
      forall x | x in mods
        ensures IsWeaponMod(x)
      {
        var j :| 0 <= j < |mods| && mods[j] == x;
      }
      forall x | x in weapons
        ensures !IsWeaponMod(x)
      {
        var i :| 0 <= i < |weapons| && weapons[i] == x;
      }
      forall i | 0 <= i < |all| && IsWeapon(all[i])
        ensures all[i] in weapons || all[i] in mods
      {
        assert Passes(ModTest())(all[i]) || Passes(WeaponTest())(all[i]);
      }
    }
  }

  /** The filter test of a list built from one name-reading item test; it throws where
      the name read does. */
  function KindTest(kind: Json -> bool): Json -> Option<bool>
  {
    it => if NameThrows(it) then None else Some(kind(it))
  }

  /** `blueprintAll`: `allItems.filter(isBlueprint)`. */
  function Blueprints(all: seq<Json>): Option<seq<Json>>
  {
    FilterOrThrow(all, KindTest(IsBlueprint))
  }

  /** `quickUseAll`: `allItems.filter(isQuickUse)`. */
  function QuickUses(all: seq<Json>): Option<seq<Json>>
  {
    FilterOrThrow(all, KindTest(IsQuickUse))
  }

  /** `augmentAll`: `allItems.filter(isAugment)`. */
  function Augments(all: seq<Json>): Option<seq<Json>>
  {
    FilterOrThrow(all, KindTest(IsAugment))
  }

  /** A list built from one name-reading test fails exactly when some item's name throws;
      otherwise it keeps, in catalog order, exactly the items that pass the test. */
  lemma KindListMeans(all: seq<Json>, kind: Json -> bool)
    ensures FilterOrThrow(all, KindTest(kind)).None? <==> exists i :: 0 <= i < |all| && NameThrows(all[i])
    ensures FilterOrThrow(all, KindTest(kind)).Some? ==> IsSubsequence(FilterOrThrow(all, KindTest(kind)).value, all)
    ensures FilterOrThrow(all, KindTest(kind)).Some? ==>
      forall x :: x in FilterOrThrow(all, KindTest(kind)).value ==> x in all && kind(x)
    ensures FilterOrThrow(all, KindTest(kind)).Some? ==>
      forall i :: 0 <= i < |all| && kind(all[i]) ==> all[i] in FilterOrThrow(all, KindTest(kind)).value
  {
    FilterOrThrowMeaning(all, KindTest(kind));
    assert forall i :: 0 <= i < |all| ==> (KindTest(kind)(all[i]).None? <==> NameThrows(all[i]));
    if FilterOrThrow(all, KindTest(kind)).Some? {
      var r := FilterOrThrow(all, KindTest(kind)).value;
      FilterMeaning(all, Passes(KindTest(kind)));
      forall x | x in r
        ensures x in all && kind(x)
      {
        var i :| 0 <= i < |r| && r[i] == x;
      }
      forall i | 0 <= i < |all| && kind(all[i])
        ensures all[i] in r
      {
        assert Passes(KindTest(kind))(all[i]);
      }
    }
  }

  /** The blueprint, quick-use and augment lists all fail on the same catalogs: those
      holding an item whose name throws. */
  lemma KindListsFailTogether(all: seq<Json>)
    ensures Blueprints(all).None? <==> exists i :: 0 <= i < |all| && NameThrows(all[i])
    ensures QuickUses(all).None? <==> Blueprints(all).None?
    ensures Augments(all).None? <==> Blueprints(all).None?
    ensures Blueprints(all).None? <==> WeaponMods(all).None?
  {
    KindListMeans(all, IsBlueprint);
    KindListMeans(all, IsQuickUse);
    KindListMeans(all, IsAugment);
    WeaponSectionsFail(all);
  }

  // ----- the type and search filter -----

  /** `selectedTypes.includes(it.type)`: the selected types are strings, so only a string
      type that equals one of them exactly is selected. */
  predicate TypeSelected(it: Json, types: seq<string>)
  {
    var t := Get(Some(it), "type");
    t.Some? && t.value.JStr? && t.value.s in types
  }

  /** The search test for an already lower-cased query: `None` when it throws. The name's
      `.toLowerCase()` throws as `NameText` says; when the name does not contain the
      query, a truthy type is read with `it.type.toLowerCase()`, which throws unless the
      type is a string. */
  function Search(it: Json, query: string): (r: Option<bool>)
    ensures var t := Get(Some(it), "type");
      r.None? <==> NameText(it).None? || (!Contains(ReadName(it), query) && Truthy(t) && !t.value.JStr?)
    ensures var t := Get(Some(it), "type");
      r == Some(true) <==>
        (NameText(it).Some? &&
         (Contains(ReadName(it), query) || (Truthy(t) && t.value.JStr? && Contains(ToLower(t.value.s), query))))
  {
    match NameText(it)
    case None => None
    case Some(n) =>
      if Contains(n, query) then Some(true)
      else
        var t := Get(Some(it), "type");
        if !Truthy(t) then Some(false)
        else if t.value.JStr? then Some(Contains(ToLower(t.value.s), query))
        else None
  }

  /** The search finds the item without throwing. */
  predicate Matches(it: Json, query: string)
  {
    Search(it, query) == Some(true)
  }

  function TypePass(types: seq<string>): Json -> bool
  {
    it => TypeSelected(it, types)
  }

  function SearchTest(query: string): Json -> Option<bool>
  {
    it => Search(it, query)
  }

  /** The type filter: applied only when some type is selected. */
  function ByType(items: seq<Json>, types: seq<string>): seq<Json>
  {
    if |types| > 0 then Filter(items, TypePass(types)) else items
  }

  /** `filterItems(items)`: the type filter when some type is selected, then the search
      filter when the query is not blank. The query is lower-cased but not trimmed. `None`
      when the search throws. */
  function FilterItems(items: seq<Json>, types: seq<string>, query: string): Option<seq<Json>>
  {
    var byType := ByType(items, types);
    if Trim(query) != [] then FilterOrThrow(byType, SearchTest(ToLower(query))) else Some(byType)
  }

  /** What the filter lets through, stated item by item. */
  predicate Shown(it: Json, types: seq<string>, query: string)
  {
    (|types| == 0 || TypeSelected(it, types)) && (Trim(query) == [] || Matches(it, ToLower(query)))
  }

  lemma ByTypeMeans(items: seq<Json>, types: seq<string>)
    ensures forall x :: x in ByType(items, types) ==> x in items && (|types| == 0 || TypeSelected(x, types))
    ensures forall i :: 0 <= i < |items| && (|types| == 0 || TypeSelected(items[i], types)) ==> items[i] in ByType(items, types)
  {
    if |types| > 0 {
      FilterMeaning(items, TypePass(types));
      forall x | x in ByType(items, types)
        ensures x in items && TypeSelected(x, types)
      {
        var i :| 0 <= i < |ByType(items, types)| && ByType(items, types)[i] == x;
      }
    }
  }

  /** Some item the type filter lets through is `bad` exactly when some item of the list
      that the type filter selects is. */
  lemma ByTypeExists(items: seq<Json>, types: seq<string>, bad: Json -> bool)
    ensures (exists i :: 0 <= i < |ByType(items, types)| && bad(ByType(items, types)[i])) <==>
      exists i :: 0 <= i < |items| && (|types| == 0 || TypeSelected(items[i], types)) && bad(items[i])
  {
    var byType := ByType(items, types);
    ByTypeMeans(items, types);
    if exists i :: 0 <= i < |byType| && bad(byType[i]) {
      var i :| 0 <= i < |byType| && bad(byType[i]);
      assert byType[i] in byType;
      var k :| 0 <= k < |items| && items[k] == byType[i];
    }
    if exists i :: 0 <= i < |items| && (|types| == 0 || TypeSelected(items[i], types)) && bad(items[i]) {
      var i :| 0 <= i < |items| && (|types| == 0 || TypeSelected(items[i], types)) && bad(items[i]);
      var k :| 0 <= k < |byType| && byType[k] == items[i];
    }
  }

  function SearchThrows(q: string): Json -> bool
  {
    it => Search(it, q).None?
  }

  /** Without a throw, the search filter after the type filter is one filter by both. */
  lemma SearchKeeps(items: seq<Json>, types: seq<string>, query: string)
    requires Trim(query) != [] && FilterItems(items, types, query).Some?
    ensures IsSubsequence(FilterItems(items, types, query).value, items)
    ensures forall x :: x in FilterItems(items, types, query).value ==> x in items && Shown(x, types, query)
    ensures forall i :: 0 <= i < |items| && Shown(items[i], types, query) ==> items[i] in FilterItems(items, types, query).value
  {
    var q := ToLower(query);
    var r := FilterItems(items, types, query).value;
    var pass := Passes(SearchTest(q));
    FilterOrThrowMeaning(ByType(items, types), SearchTest(q));
    assert r == Filter(ByType(items, types), pass);
    if |types| > 0 {
      FilterFilter(items, TypePass(types), pass);
      FilterMeaning(items, Both(TypePass(types), pass));
    } else {
      FilterMeaning(items, pass);
    }
    forall x | x in r
      ensures x in items && Shown(x, types, query)
    {
      var i :| 0 <= i < |r| && r[i] == x;
    }
  }

  /** With a non-blank query, the filter fails exactly when the search throws on an item
      of a selected type. */
  lemma FilterItemsFail(items: seq<Json>, types: seq<string>, query: string)
    requires Trim(query) != []
    ensures FilterItems(items, types, query).None? <==>
      exists i :: 0 <= i < |items| && (|types| == 0 || TypeSelected(items[i], types)) && Search(items[i], ToLower(query)).None?
  {
    FilterOrThrowMeaning(ByType(items, types), SearchTest(ToLower(query)));
    ByTypeExists(items, types, SearchThrows(ToLower(query)));
  }

  /** The filter fails exactly when the query is not blank and the search throws on an
      item the type filter lets through. Otherwise it keeps, in order, exactly the items
      that pass both tests, and with no type selected and a blank query it is the
      identity. */
  lemma FilterItemsMeans(items: seq<Json>, types: seq<string>, query: string)
    ensures FilterItems(items, types, query).None? <==>
      (Trim(query) != [] &&
       exists i :: 0 <= i < |items| && (|types| == 0 || TypeSelected(items[i], types)) && Search(items[i], ToLower(query)).None?)
    ensures FilterItems(items, types, query).Some? ==> IsSubsequence(FilterItems(items, types, query).value, items)
    ensures FilterItems(items, types, query).Some? ==>
      forall x :: x in FilterItems(items, types, query).value ==> x in items && Shown(x, types, query)
    ensures FilterItems(items, types, query).Some? ==>
      forall i :: 0 <= i < |items| && Shown(items[i], types, query) ==> items[i] in FilterItems(items, types, query).value
    ensures |types| == 0 && Trim(query) == [] ==> FilterItems(items, types, query) == Some(items)
  {
    if Trim(query) != [] {
      FilterItemsFail(items, types, query);
      if FilterItems(items, types, query).Some? {
        SearchKeeps(items, types, query);
      }
    } else if |types| > 0 {
      FilterMeaning(items, TypePass(types));
      ByTypeMeans(items, types);
    } else {
      SubsequenceOfSelf(items);
    }
  }

  /** A type written as a locale object, `{en: "Weapon"}`, makes the search throw once the
      name does not contain the query. */
  lemma LocaleTypeThrows()
    ensures Search(JObj([("name", JStr("Rifle")), ("type", JObj([("en", JStr("Weapon"))]))]), "object").None?
  {
    var it := JObj([("name", JStr("Rifle")), ("type", JObj([("en", JStr("Weapon"))]))]);
    assert Get(Some(it), "name") == Some(JStr("Rifle"));
    assert Get(Some(it), "type") == Some(JObj([("en", JStr("Weapon"))]));
    assert |ReadName(it)| == 5;
  }

  /** A text without spaces contains no text that ends in one. */
  lemma NoSpaceNoMatch(n: string, q: string)
    requires q != [] && q[|q| - 1] == ' '
    requires forall k :: 0 <= k < |n| ==> n[k] != ' '
    ensures !Contains(n, q)
  {
    forall i | 0 <= i <= |n| - |q|
      ensures !OccursAt(n, q, i)
    {
      assert n[i..i + |q|][|q| - 1] == n[i + |q| - 1] != ' ';
    }
  }

  /** The query is not trimmed: a query ending in a space never finds an item whose name
      and type have no space, even where the trimmed query would. */
  lemma UntrimmedQueryMisses(it: Json, q: string)
    requires q != [] && q[|q| - 1] == ' '
    requires forall k :: 0 <= k < |ReadName(it)| ==> ReadName(it)[k] != ' '
    requires forall k :: 0 <= k < |FieldText(it, "type")| ==> FieldText(it, "type")[k] != ' '
    ensures !Matches(it, ToLower(q))
  {
    NoSpaceNoMatch(ReadName(it), ToLower(q));
    NoSpaceNoMatch(FieldText(it, "type"), ToLower(q));
  }

  // ----- the selected types -----

  function Unequal(t: string): string -> bool
  {
    u => u != t
  }

  /** `prev.includes(type) ? prev.filter(t => t !== type) : [...prev, type]`. */
  function ToggledTypes(prev: seq<string>, t: string): seq<string>
  {
    if t in prev then Filter(prev, Unequal(t)) else prev + [t]
  }

  /** Toggling a type flips its membership, removing every occurrence when present, and
      leaves every other type's membership and order alone. */
  lemma ToggledTypesMeans(prev: seq<string>, t: string)
    ensures t in ToggledTypes(prev, t) <==> t !in prev
    ensures forall u :: u != t ==> (u in ToggledTypes(prev, t) <==> u in prev)
    ensures t in prev ==> IsSubsequence(ToggledTypes(prev, t), prev)
    ensures t !in prev ==> ToggledTypes(prev, t) == prev + [t]
  {
    var r := ToggledTypes(prev, t);
    if t in prev {
      FilterMeaning(prev, Unequal(t));
      forall u | u in r
        ensures u in prev && u != t
      {
        var i :| 0 <= i < |r| && r[i] == u;
      }
      forall u | u != t && u in prev
        ensures u in r
      {
        var i :| 0 <= i < |prev| && prev[i] == u;
      }
    }
  }

  /** Toggling the same type twice restores every membership; an absent type comes back
      to exactly the list it started from, a present one ends up once, at the end. */
  lemma ToggleTwice(prev: seq<string>, t: string)
    ensures forall u :: u in ToggledTypes(ToggledTypes(prev, t), t) <==> u in prev
    ensures t !in prev ==> ToggledTypes(ToggledTypes(prev, t), t) == prev
    ensures t in prev ==> ToggledTypes(ToggledTypes(prev, t), t) == Filter(prev, Unequal(t)) + [t]
  {
    var once := ToggledTypes(prev, t);
    ToggledTypesMeans(prev, t);
    ToggledTypesMeans(once, t);
    if t !in prev {
      FilterConcat(prev, [t], Unequal(t));
      FilterSingle(t, Unequal(t));
      forall i | 0 <= i < |prev|
        ensures Unequal(t)(prev[i])
      {
      }
      FilterAll(prev, Unequal(t));
    }
  }

  // ----- slugify -----

  /** The class `[a-z0-9-_]`. */
  predicate IsSlugChar(c: char)
  {
    IsLowerAlnum(c) || c == '-' || c == '_'
  }

  /** `s.replace(/\s+/g, "-")`: every run of white space becomes one dash. */
  function DashRuns(s: string): (r: string)
    decreases |s|
  {
    if s == [] then []
    else if IsSpace(s[0]) then "-" + DashRuns(TrimStart(s[1..]))
    else [s[0]] + DashRuns(s[1..])
  }

  /** A text without white space has no run to replace. */
  lemma {:induction false} DashRunsOfSpaceless(s: string)
    requires forall k :: 0 <= k < |s| ==> !IsSpace(s[k])
    ensures DashRuns(s) == s
    decreases |s|
  {
    if s != [] {
      DashRunsOfSpaceless(s[1..]);
    }
  }

  function SlugPass(): char -> bool
  {
    c => IsSlugChar(c)
  }

  /** `slugify(s)`: lower-case, dash the white-space runs, drop every character outside
      `[a-z0-9-_]`. */
  function Slugify(s: string): (r: string)
    ensures forall k :: 0 <= k < |r| ==> IsSlugChar(r[k])
  {
    var d := DashRuns(ToLower(s));
    FilterMeaning(d, SlugPass());
    Filter(d, SlugPass())
  }

  /** A text made of slug characters is its own slug. */
  lemma SlugifyOfSlug(s: string)
    requires forall k :: 0 <= k < |s| ==> IsSlugChar(s[k])
    ensures Slugify(s) == s
  {
    ToLowerOfLower(s);
    DashRunsOfSpaceless(s);
    FilterAll(s, SlugPass());
  }

  /** Slugifying twice is slugifying once. */
  lemma SlugifyIdempotent(s: string)
    ensures Slugify(Slugify(s)) == Slugify(s)
  {
    SlugifyOfSlug(Slugify(s));
  }

  // ----- the lookup -----

  /** `for (const it of allItems) itemsLookup[String(it.id)] = it`. */
  method BuildLookup(all: seq<Json>) returns (m: map<string, Json>)
    ensures m == ById(all)
  {
    m := map[];
    var i := 0;
    while i < |all|
      invariant 0 <= i <= |all|
      invariant m == ById(all[..i])
    {
      assert all[..i + 1][..i] == all[..i];
      m := m[IdOf(all[i]) := all[i]];
      i := i + 1;
    }
    assert all[..i] == all;
  }

  // ----- the page state -----

  /** `!prev[key]` reads a missing key as `undefined`, so a section is open only when its
      key is present and true. */
  function IsOpen(m: map<string, bool>, key: string): bool
  {
    key in m && m[key]
  }

  /** `{...prev, [key]: !prev[key]}`: that one section flips and its key is now defined;
      every other key keeps its presence and its value. */
  function ToggledSection(m: map<string, bool>, key: string): (r: map<string, bool>)
    ensures key in r && IsOpen(r, key) == !IsOpen(m, key)
    ensures forall k :: k != key ==> (k in r <==> k in m)
    ensures forall k :: k != key && k in m ==> r[k] == m[k]
  {
    m[key := !IsOpen(m, key)]
  }

  /** `sectionKey ? … : …`: a missing or empty key counts as no key. */
  predicate HasKey(sectionKey: Option<string>)
  {
    sectionKey.Some? && sectionKey.value != ""
  }

  /** A section without a key is never collapsed; one with a key is collapsed while closed. */
  function IsCollapsed(m: map<string, bool>, sectionKey: Option<string>): bool
  {
    HasKey(sectionKey) && !IsOpen(m, sectionKey.value)
  }

  /** The section element's id: its key, or else its slugified title. */
  function SectionId(title: string, sectionKey: Option<string>): (r: string)
    ensures HasKey(sectionKey) ==> r == sectionKey.value
    ensures !HasKey(sectionKey) ==> forall k :: 0 <= k < |r| ==> IsSlugChar(r[k])
  {
    if HasKey(sectionKey) then sectionKey.value else Slugify(title)
  }

  /** The page's filter and section state. */
  class PageState {
    var selectedTypes: seq<string>
    var searchQuery: string
    var expanded: map<string, bool>

    /** The initial state: nothing selected, an empty query, the three main sections open
        and the five others closed. */
    constructor ()
      ensures selectedTypes == [] && searchQuery == ""
      ensures expanded == map["keep" := true, "sell" := true, "recycle" := true,
        "blueprints" := false, "weapons" := false, "weapons-mods" := false,
        "quickuse" := false, "augments" := false]
    {
      selectedTypes := [];
      searchQuery := "";
      expanded := map["keep" := true, "sell" := true, "recycle" := true,
        "blueprints" := false, "weapons" := false, "weapons-mods" := false,
        "quickuse" := false, "augments" := false];
    }

    /** What a section with this key and these items shows under the current filter. */
    function Visible(items: seq<Json>): Option<seq<Json>>
      reads this
    {
      FilterItems(items, selectedTypes, searchQuery)
    }

    /** `toggleType(type)`. */
    method ToggleType(t: string)
      modifies this
      ensures selectedTypes == ToggledTypes(old(selectedTypes), t)
      ensures searchQuery == old(searchQuery) && expanded == old(expanded)
    {
      selectedTypes := ToggledTypes(selectedTypes, t);
    }

    /** The search box's change handler. */
    method SetSearchQuery(q: string)
      modifies this
      ensures searchQuery == q
      ensures selectedTypes == old(selectedTypes) && expanded == old(expanded)
    {
      searchQuery := q;
    }

    /** `clearFilters()`: afterwards every section shows its whole list. */
    method ClearFilters()
      modifies this
      ensures selectedTypes == [] && searchQuery == ""
      ensures expanded == old(expanded)
      ensures forall items :: Visible(items) == Some(items)
    {
      selectedTypes := [];
      searchQuery := "";
      forall items: seq<Json>
        ensures Visible(items) == Some(items)
      {
        FilterItemsMeans(items, selectedTypes, searchQuery);
      }
    }

    /** `toggleSection(key)`. */
    method ToggleSection(key: string)
      modifies this
      ensures expanded == ToggledSection(old(expanded), key)
      ensures selectedTypes == old(selectedTypes) && searchQuery == old(searchQuery)
    {
      expanded := ToggledSection(expanded, key);
    }

    /** The state half of `scrollToSection(key)`: a section whose element is mounted is
        opened; otherwise nothing happens. */
    method RevealSection(key: string, mounted: bool)
      modifies this
      ensures mounted ==> expanded == old(expanded)[key := true]
      ensures !mounted ==> expanded == old(expanded)
      ensures selectedTypes == old(selectedTypes) && searchQuery == old(searchQuery)
    {
      if mounted {
        expanded := expanded[key := true];
      }
    }
  }
}
