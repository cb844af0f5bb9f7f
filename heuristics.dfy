/** The item-kind tests. `isWeapon` and `isBlueprint` appear word for word in both
    lib/categorizeItems.tsx and app/page.tsx and are defined once here; `isWeaponMod`,
    `isAugment` and `isQuickUse` belong to the page. Each test reads a few fields of the
    item's JSON, coerces them to lower-case text and looks for a keyword. */
module Heuristics {
  import opened Basics
  import opened JsStrings
  import opened JsValues

  /** `(it[key] || "").toString().toLowerCase()`. */
  function FieldText(it: Json, key: string): (r: string)
    ensures !Truthy(Get(Some(it), key)) ==> r == ""
    ensures forall s :: Get(Some(it), key) == Some(JStr(s)) ==> r == ToLower(s)
  {
    var v := Get(Some(it), key);
    if Truthy(v) then ToLower(ToStr(v.value)) else ""
  }

  /** `(typeof it.name === "string" ? it.name : it.name?.en || "").toLowerCase()`: `None`
      when `.toLowerCase()` throws, because `name.en` is truthy but not a string. */
  function NameText(it: Json): (r: Option<string>)
    ensures forall s :: Get(Some(it), "name") == Some(JStr(s)) ==> r == Some(ToLower(s))
    ensures forall s :: Get(Get(Some(it), "name"), "en") == Some(JStr(s)) ==> r == Some(ToLower(s))
    ensures var name := Get(Some(it), "name");
      (name.None? || !name.value.JStr?) && !Truthy(Get(name, "en")) ==> r == Some("")
    ensures var en := Get(Get(Some(it), "name"), "en");
      r.None? <==> Truthy(en) && !en.value.JStr?
  {
    var name := Get(Some(it), "name");
    if name.Some? && name.value.JStr? then Some(ToLower(name.value.s))
    else
      var en := Get(name, "en");
      if !Truthy(en) then Some("")
      else if en.value.JStr? then Some(ToLower(en.value.s))
      else None
  }

  /** The lower-cased name the tests go on to read, once reading it has not thrown. */
  function ReadName(it: Json): string
  {
    match NameText(it)
    case Some(s) => s
    case None => ""
  }

  /** `isBlueprint`, `isWeaponMod`, `isAugment` and `isQuickUse` return false for a falsy
      item and otherwise read the name first: they throw exactly for these items. The
      predicates below give their answer where they do not throw. */
  predicate NameThrows(it: Json)
  {
    Truthy(Some(it)) && NameText(it).None?
  }

  /** `isWeapon(it)`. */
  predicate IsWeapon(it: Json)
  {
    Truthy(Some(it)) &&
    (Contains(FieldText(it, "type"), "weapon")
     || Get(Some(it), "isWeapon") == Some(JBool(true))
     || Contains(FieldText(it, "category"), "weapon")
     || Truthy(Get(Some(it), "weapon"))
     || Truthy(Get(Some(it), "weaponType"))
     || Truthy(Get(Some(it), "subtype"))
     || Truthy(Get(Some(it), "class")))
  }

  /** `isBlueprint(it)`. */
  predicate IsBlueprint(it: Json)
  {
    Truthy(Some(it)) &&
    (Contains(FieldText(it, "type"), "blueprint")
     || Contains(FieldText(it, "subtype"), "blueprint")
     || Contains(FieldText(it, "category"), "blueprint")
     || Contains(ReadName(it), "blueprint"))
  }

  /** The page's shared shape of `isWeaponMod` and `isAugment`: the keyword in the type,
      category, subtype or name. */
  predicate MentionsKind(it: Json, word: string)
  {
    Truthy(Some(it)) &&
    (Contains(FieldText(it, "type"), word)
     || Contains(FieldText(it, "category"), word)
     || Contains(FieldText(it, "subtype"), word)
     || Contains(ReadName(it), word))
  }

  /** `isWeaponMod(it)`: only the word "modification" counts. */
  predicate IsWeaponMod(it: Json)
  {
    MentionsKind(it, "modification")
  }

  /** `isAugment(it)`. */
  predicate IsAugment(it: Json)
  {
    MentionsKind(it, "augment")
  }

  /** The page's quick-use keywords, in their declared order. */
  const QuickKeywords: seq<string> :=
    ["quick-use", "quick use", "quickuse", "quick", "consumable", "usable", "instant",
     "medkit", "stim", "grenade", "throwable", "consumables"]

  /** The keywords that decide: every other one contains one of these. */
  const QuickCore: seq<string> :=
    ["quick", "consumable", "usable", "instant", "medkit", "stim", "grenade", "throwable"]

  /** `${name} ${type} ${cat}`. */
  function Combined(it: Json): string
  {
    ReadName(it) + " " + FieldText(it, "type") + " " + FieldText(it, "category")
  }

  /** `isQuickUse(it)`. */
  predicate IsQuickUse(it: Json)
  {
    Truthy(Some(it)) && exists i :: 0 <= i < |QuickKeywords| && Contains(Combined(it), QuickKeywords[i])
  }

  /** An occurrence of a word without a space does not cover a space of `s`. */
  lemma SpaceOutside(s: string, w: string, i: int, p: int)
    requires OccursAt(s, w, i) && 0 <= p < |s| && s[p] == ' '
    requires forall k :: 0 <= k < |w| ==> w[k] != ' '
    ensures p < i || i + |w| <= p
  {
    assert forall k :: i <= k < i + |w| ==> s[k] == s[i..i + |w|][k - i];
  }

  /** A word without a space cannot straddle the space that joins two texts. */
  lemma SpaceSplits(a: string, b: string, w: string)
    requires w != [] && forall k :: 0 <= k < |w| ==> w[k] != ' '
    ensures Contains(a + " " + b, w) <==> Contains(a, w) || Contains(b, w)
  {
    var s := a + " " + b;
    if Contains(s, w) {
      var i :| 0 <= i <= |s| - |w| && OccursAt(s, w, i);
      SpaceOutside(s, w, i, |a|);
      if i + |w| <= |a| {
        assert s[..|a|] == a;
        assert s[i..i + |w|] == s[..|a|][i..i + |w|];
        assert OccursAt(a, w, i);
      } else {
        var j := i - |a| - 1;
        assert s[|a| + 1..] == b;
        assert s[i..i + |w|] == s[|a| + 1..][j..j + |w|];
        assert OccursAt(b, w, j);
      }
    }
    if Contains(a, w) {
      ContainsAppend(a, " " + b, w);
      assert a + (" " + b) == s;
    }
    if Contains(b, w) {
      ContainsAppend(b, a + " ", w);
      assert (a + " ") + b == s;
    }
  }

  /** One of the core keywords, number `j`, occurs in the name, the type or the category. */
  predicate CoreHit(it: Json, j: int)
    requires 0 <= j < |QuickCore|
  {
    Contains(ReadName(it), QuickCore[j]) || Contains(FieldText(it, "type"), QuickCore[j])
    || Contains(FieldText(it, "category"), QuickCore[j])
  }

  lemma CoreHasNoSpace(j: int)
    requires 0 <= j < |QuickCore|
    ensures QuickCore[j] != [] && forall k :: 0 <= k < |QuickCore[j]| ==> QuickCore[j][k] != ' '
  {
  }

  /** Keyword `i` contains core keyword `CoreOf(i)`. */
  function CoreOf(i: int): (j: int)
    requires 0 <= i < |QuickKeywords|
    ensures 0 <= j < |QuickCore| && Contains(QuickKeywords[i], QuickCore[j])
  {
    var j := [0, 0, 0, 0, 1, 2, 3, 4, 5, 6, 7, 1][i];
    ContainsPrefix(QuickKeywords[i], QuickCore[j]);
    j
  }

  /** Core keyword `j` is keyword `j + 3`. */
  lemma CoreIsKeyword(j: int)
    requires 0 <= j < |QuickCore|
    ensures QuickKeywords[j + 3] == QuickCore[j]
  {
  }

  /** `isQuickUse` holds exactly when one of the eight core keywords occurs in the name,
      the type or the category on its own: the three "quick…" variants are subsumed by
      "quick", "consumables" by "consumable", and no keyword of the core list can straddle
      the spaces that join the three texts. */
  lemma QuickUseByCore(it: Json)
    ensures IsQuickUse(it) <==> Truthy(Some(it)) && exists j :: 0 <= j < |QuickCore| && CoreHit(it, j)
  {
    var n, t, c := ReadName(it), FieldText(it, "type"), FieldText(it, "category");
    var s := Combined(it);
    assert s == n + " " + (t + " " + c);
    forall j | 0 <= j < |QuickCore|
      ensures Contains(s, QuickCore[j]) <==> CoreHit(it, j)
    {
      CoreHasNoSpace(j);
      SpaceSplits(n, t + " " + c, QuickCore[j]);
      SpaceSplits(t, c, QuickCore[j]);
    }
    if IsQuickUse(it) {
      var i :| 0 <= i < |QuickKeywords| && Contains(s, QuickKeywords[i]);
      ContainsTransitive(s, QuickKeywords[i], QuickCore[CoreOf(i)]);
      assert CoreHit(it, CoreOf(i));
    }
    if Truthy(Some(it)) && exists j :: 0 <= j < |QuickCore| && CoreHit(it, j) {
      var j :| 0 <= j < |QuickCore| && CoreHit(it, j);
      CoreIsKeyword(j);
      assert Contains(s, QuickKeywords[j + 3]);
    }
  }

  /** A truthy `subtype` or `class` makes any item a weapon. */
  lemma SubtypeOrClassMakesWeapon(it: Json)
    requires Truthy(Some(it))
    requires Truthy(Get(Some(it), "subtype")) || Truthy(Get(Some(it), "class"))
    ensures IsWeapon(it)
  {
  }

  /** Every page test is false for a falsy item, and a modification is never one of the
      page's weapon items. */
  lemma ModsAreNotWeaponItems(it: Json)
    ensures IsWeaponMod(it) ==> !(IsWeapon(it) && !IsWeaponMod(it))
    ensures !Truthy(Some(it)) ==> !IsWeapon(it) && !IsBlueprint(it) && !IsWeaponMod(it) && !IsAugment(it) && !IsQuickUse(it)
  {
  }

  /** A "Stim Pack" is quick use by its name. */
  lemma StimPackIsQuickUse()
    ensures IsQuickUse(JObj([("name", JStr("Stim Pack"))]))
  {
    var q := JObj([("name", JStr("Stim Pack"))]);
    assert ReadName(q) == "stim pack";
    assert FieldText(q, "type") == "" && FieldText(q, "category") == "";
    assert OccursAt(Combined(q), QuickKeywords[8], 0);
  }

  /** An item whose category is "Weapon Modification" is both a modification and, through
      its category, a weapon. */
  lemma ModificationCategoryIsBoth()
    ensures var it := JObj([("category", JStr("Weapon Modification"))]);
      IsWeaponMod(it) && IsWeapon(it)
  {
    var it := JObj([("category", JStr("Weapon Modification"))]);
    assert Get(Some(it), "category") == Some(JStr("Weapon Modification"));
    var c := FieldText(it, "category");
    LowerWeaponModification();
    ContainsPrefix("weapon", "weapon");
    ContainsAppend("weapon", " modification", "weapon");
    ContainsPrefix("modification", "modification");
    ContainsAppend("modification", "weapon ", "modification");
  }

  lemma LowerWeaponModification()
    ensures ToLower("Weapon Modification") == "weapon" + " modification" == "weapon " + "modification"
  {
  }
}
