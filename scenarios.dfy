/** Whole-pipeline scenarios for `categorizeAllItems` (lib/categorizeItems.tsx): a small
    catalog and a few project and quest documents, carried through the reference scan and
    the decision list. */
module Scenarios {
  import opened Basics
  import opened JsStrings
  import opened JsValues
  import opened Heuristics
  import opened Items
  import opened ReferenceIndex
  import opened Classify

  /** A plain catalog item: an id and a sell value, nothing that marks it a weapon or a
      blueprint. */
  function Plain(id: string, value: int): Json
  {
    JObj([("id", JStr(id)), ("value", JNum(value))])
  }

  /** A plain item with a recycle map naming one component. */
  function Recyclable(id: string, value: int, comp: string, count: int): Json
  {
    JObj([("id", JStr(id)), ("value", JNum(value)), ("recyclesInto", JObj([(comp, JNum(count))]))])
  }

  /** A quest that asks for `id` in its objectives. */
  function AskingQuest(id: string): Json
  {
    JObj([("objectives", JArr([JObj([("itemId", JStr(id))])]))])
  }

  /** A member the object does not have reads as `undefined`. */
  lemma Absent(it: Json, key: string)
    requires it.JObj? && forall i :: 0 <= i < |it.fields| ==> it.fields[i].0 != key
    ensures Get(Some(it), key).None?
  {
    LookupFinds(it.fields, key);
  }

  /** The first member with a name is what reading that name gives. */
  lemma Present(it: Json, i: int)
    requires it.JObj? && 0 <= i < |it.fields|
    requires forall j :: 0 <= j < i ==> it.fields[j].0 != it.fields[i].0
    ensures Get(Some(it), it.fields[i].0) == Some(it.fields[i].1)
  {
    var fs := it.fields;
    LookupFinds(fs, fs[i].0);
    var k :| 0 <= k < |fs| && fs[k] == (fs[i].0, Lookup(fs, fs[i].0).value) &&
      forall j :: 0 <= j < k ==> fs[j].0 != fs[i].0;
    assert k == i;
  }

  /** `{id: "x", name: {en: 5}}`: not a weapon, so the loop reaches `isBlueprint`, whose
      `(5).toLowerCase()` throws. */
  lemma NumericEnglishNameThrows()
    ensures var it := JObj([("id", JStr("x")), ("name", JObj([("en", JNum(5))]))]);
      NameText(it).None? && ThrowsAt(it)
  {
    var it := JObj([("id", JStr("x")), ("name", JObj([("en", JNum(5))]))]);
    Absent(it, "type");
    Absent(it, "category");
    Absent(it, "subtype");
    Absent(it, "isWeapon");
    Absent(it, "weapon");
    Absent(it, "weaponType");
    Absent(it, "class");
    Present(it, 1);
    assert !Contains("", "weapon");
  }

  /** An object without any of the members the kind tests read is neither a weapon nor a
      blueprint. */
  lemma NeitherKind(it: Json)
    requires it.JObj?
    requires forall i :: 0 <= i < |it.fields| ==> it.fields[i].0 in {"id", "value", "recyclesInto"}
    ensures !IsWeapon(it) && !IsBlueprint(it)
  {
    Absent(it, "type");
    Absent(it, "category");
    Absent(it, "subtype");
    Absent(it, "name");
    Absent(it, "isWeapon");
    Absent(it, "weapon");
    Absent(it, "weaponType");
    Absent(it, "class");
    assert !Contains("", "weapon") && !Contains("", "blueprint");
  }

  /** An object with neither recycle member has nothing to recycle. */
  lemma NoRecycleMap(it: Json)
    requires it.JObj? && forall i :: 0 <= i < |it.fields| ==> it.fields[i].0 in {"id", "value"}
    ensures Components(it) == []
  {
    Absent(it, "recyclesInto");
    Absent(it, "salvagesInto");
  }

  /** The leveled project of the keep-precedence scenario: level 2 requires one "A". */
  function LeveledProject(): Candidate
  {
    var level := JObj([("level", JNum(2)), ("requirementItemIds", JArr([JObj([("itemId", JStr("A"))])]))]);
    Candidate("projects.json[0]", JObj([("levels", JArr([level]))]), Project)
  }

  /** Scanning that project records one project entry for "A", at level 2. */
  lemma LeveledProjectIndex()
    ensures var r := BuildIndex([Plain("A", 50)], [LeveledProject()]);
      r.Ok? && "A" in r.value && |r.value["A"].projects| == 1 &&
      r.value["A"].projects[0].LeveledRef? && r.value["A"].projects[0].level == Some(JNum(2))
  {
    var a := Plain("A", 50);
    var project := LeveledProject();
    var level := project.json.fields[0].1.elems[0];
    var req := level.fields[1].1.elems[0];
    var init := InitIndex([a]);
    assert IdOf(a) == "A";
    assert init == map["A" := Refs([], [])];
    Present(project.json, 0);
    Present(level, 0);
    Present(level, 1);
    assert LevelRequirements(project, level) == Ok([req]);
    Present(req, 0);
    assert RequirementId(req) == "A";
    var reqs := [req];
    assert reqs[..0] == [];
    var entry := LevelEntry(project, Some(JNum(2)), req);
    assert ApplyRequirements(init, project, Some(JNum(2)), reqs) == Ok(AddProject(init, "A", entry));
    var levels := [level];
    assert levels[..0] == [];
    assert ApplyLevels(init, project, levels) == Ok(AddProject(init, "A", entry));
    assert ApplyCandidate(init, project, [a]) == Ok(AddProject(init, "A", entry));
    OneCandidate([a], project);
  }

  /** Keep precedence: an item worth 50 with nothing to recycle is sold, until a leveled
      project lists it among its level-2 requirements; then it is kept. */
  lemma KeepPrecedence()
    ensures var r := BuildIndex([Plain("A", 50)], [LeveledProject()]);
      ClassOf(Plain("A", 50), ById([Plain("A", 50)]), InitIndex([Plain("A", 50)])) == Sell &&
      r.Ok? && ClassOf(Plain("A", 50), ById([Plain("A", 50)]), r.value) == Keep
  {
    PlainSoldUnreferenced();
    PlainKeptWhenRequired();
  }

  /** `A`, worth 50 and recycling into nothing, is unreferenced and sold. */
  lemma PlainSoldUnreferenced()
    ensures ClassOf(Plain("A", 50), ById([Plain("A", 50)]), InitIndex([Plain("A", 50)])) == Sell
  {
    var a := Plain("A", 50);
    NeitherKind(a);
    NoRecycleMap(a);
    assert IdOf(a) == "A";
    Present(a, 1);
    assert SellValue(a) == 50;
  }

  /** Once the leveled project requires `A`, it is kept. */
  lemma PlainKeptWhenRequired()
    ensures var r := BuildIndex([Plain("A", 50)], [LeveledProject()]);
      r.Ok? && ClassOf(Plain("A", 50), ById([Plain("A", 50)]), r.value) == Keep
  {
    var a := Plain("A", 50);
    NeitherKind(a);
    LeveledProjectIndex();
    assert IdOf(a) == "A";
  }

  /** Zero-value keep: an item worth nothing with nothing to recycle is kept, whatever the
      index says. */
  lemma ZeroValueKeep(idx: Index)
    ensures ClassOf(Plain("Z", 0), ById([Plain("Z", 0)]), idx) == Keep
  {
    NeitherKind(Plain("Z", 0));
    NoRecycleMap(Plain("Z", 0));
    assert RecycleValue(ById([Plain("Z", 0)]), Plain("Z", 0)) == Int(0);
  }

  /** With nothing to scan, the index is the catalog's ids with empty lists. */
  lemma NoCandidates(items: seq<Json>)
    ensures BuildIndex(items, []) == Ok(InitIndex(items))
  {
  }

  /** The catalog of the component scenarios: `C` (worth 10, recycles into one `D`) and
      `D` (worth 5). */
  function ComponentCatalog(): seq<Json>
  {
    [Recyclable("C", 10, "D", 1), Plain("D", 5)]
  }

  /** A quest asking for `D` records one quest entry for it and no project entry at all. */
  lemma AskingQuestIndex()
    ensures var r := BuildIndex(ComponentCatalog(), [Candidate("quests/q.json", AskingQuest("D"), Quest)]);
      r.Ok? && "C" in r.value && "D" in r.value &&
      r.value["C"].projects == [] && r.value["D"].quests != []
  {
    var items := ComponentCatalog();
    var c := Candidate("quests/q.json", AskingQuest("D"), Quest);
    AskingQuestContains("D");
    ComponentCatalogIds();
    OneCandidate(items, c);
  }

  /** A quest asking for an id mentions it outside its reward sections. */
  lemma AskingQuestContains(id: string)
    ensures ContainsId(AskingQuest(id), id, QuestExcluded)
  {
    var asked := [("itemId", JStr(id))];
    assert MemberContainsId(asked[0], id, QuestExcluded);
    var list := [JObj(asked)];
    assert ContainsId(list[0], id, QuestExcluded);
    var quest := [("objectives", JArr(list))];
    assert MemberContainsId(quest[0], id, QuestExcluded);
  }

  /** The component catalog holds `C` and `D`, each once. */
  lemma ComponentCatalogIds()
    ensures var items := ComponentCatalog();
      IdOf(items[0]) == "C" && IdOf(items[1]) == "D" && CountWithId(items, "D") == 1 &&
      "C" in InitIndex(items) && "D" in InitIndex(items)
  {
    var items := ComponentCatalog();
    assert IdOf(items[0]) == "C" && IdOf(items[1]) == "D";
    assert items[..1][..0] == [];
  }

  /** Scanning one document applies it to the initial index. */
  lemma OneCandidate(items: seq<Json>, c: Candidate)
    ensures BuildIndex(items, [c]) == ApplyCandidate(InitIndex(items), c, items)
  {
    var cands := [c];
    assert cands[..0] == [];
    assert ScanAll(InitIndex(items), cands[..0], items) == Ok(InitIndex(items));
  }

  /** `C` sells for 10, recycles into one `D` alone, and is worth 5 recycled. */
  lemma ComponentFacts()
    ensures var items := ComponentCatalog();
      IdOf(items[0]) == "C" && SellValue(items[0]) == 10 && Keys(RecycleMap(items[0])) == ["D"] &&
      RecycleValue(ById(items), items[0]) == Int(5)
  {
    var items := ComponentCatalog();
    var it := items[0];
    assert IdOf(items[0]) == "C" && IdOf(items[1]) == "D";
    Present(it, 1);
    Present(it, 2);
    Present(items[1], 1);
    var byId := ById(items);
    assert byId["D"] == items[1];
    var ss := Shares(byId, [("D", JNum(1))]);
    assert ss == [(Int(5), 1)];
    assert ss[..0] == [];
    assert Total(ss) == AddNum(Total(ss[..0]), MulNum(Int(5), Int(1)));
  }

  /** Without any reference, `C`'s recycle value of 5 loses to its sell value of 10. */
  lemma ComponentSoldUnreferenced()
    ensures var items := ComponentCatalog();
      ClassOf(items[0], ById(items), InitIndex(items)) == Sell
  {
    var items := ComponentCatalog();
    NeitherKind(items[0]);
    ComponentFacts();
    assert IdOf(items[1]) == "D";
  }

  /** Component protection: `C` recycles into something worth 5 and sells for 10, so it is
      sold; once a quest asks for `D`, recycling `C` yields a needed component and `C` is
      recycled instead. */
  lemma ComponentProtection()
    ensures var items := ComponentCatalog();
      var r := BuildIndex(items, [Candidate("quests/q.json", AskingQuest("D"), Quest)]);
      ClassOf(items[0], ById(items), InitIndex(items)) == Sell &&
      r.Ok? && ClassOf(items[0], ById(items), r.value) == Recycle
  {
    ComponentSoldUnreferenced();
    ComponentRecycledWhenAsked();
  }

  /** Once a quest asks for `D`, `C` is recycled. */
  lemma ComponentRecycledWhenAsked()
    ensures var items := ComponentCatalog();
      var r := BuildIndex(items, [Candidate("quests/q.json", AskingQuest("D"), Quest)]);
      r.Ok? && ClassOf(items[0], ById(items), r.value) == Recycle
  {
    var items := ComponentCatalog();
    NeitherKind(items[0]);
    ComponentFacts();
    AskingQuestIndex();
    var r := BuildIndex(items, [Candidate("quests/q.json", AskingQuest("D"), Quest)]).value;
    assert Needed(r, Keys(RecycleMap(items[0]))[0]);
  }

  /** The catalog of the value-fallback scenario: `E` (worth 5, recycles into three `F`)
      and `F` (worth 3). */
  function FallbackCatalog(): seq<Json>
  {
    [Recyclable("E", 5, "F", 3), Plain("F", 3)]
  }

  /** `E` sells for 5, recycles into `F` alone, and is worth 9 recycled. */
  lemma FallbackFacts()
    ensures var items := FallbackCatalog();
      IdOf(items[0]) == "E" && IdOf(items[1]) == "F" && SellValue(items[0]) == 5 &&
      Keys(RecycleMap(items[0])) == ["F"] && RecycleValue(ById(items), items[0]) == Int(9)
  {
    var items := FallbackCatalog();
    var it := items[0];
    assert IdOf(items[0]) == "E" && IdOf(items[1]) == "F";
    Present(it, 1);
    Present(it, 2);
    Present(items[1], 1);
    var byId := ById(items);
    assert byId["F"] == items[1];
    var ss := Shares(byId, [("F", JNum(3))]);
    assert ss == [(Int(3), 3)];
    assert ss[..0] == [];
    assert Product(3, 3) == 9;
    assert Total(ss) == AddNum(Total(ss[..0]), MulNum(Int(3), Int(3)));
  }

  /** Value fallback: `E` sells for 5 and recycles into three `F` worth 3 each; nothing
      references `F`, and 9 > 5 sends `E` to recycling. */
  lemma ValueFallback()
    ensures var items := FallbackCatalog();
      var r := BuildIndex(items, []);
      r.Ok? && ClassOf(items[0], ById(items), r.value) == Recycle
  {
    var items := FallbackCatalog();
    NeitherKind(items[0]);
    FallbackFacts();
    NoCandidates(items);
  }

  /** Reward exclusion: a quest that mentions `G` only among its reward ids records no
      quest entry for `G`. */
  lemma RewardExclusion()
    ensures var items := [Plain("G", 1)];
      var quest := Candidate("quests/q.json", JObj([("rewardItemIds", JArr([JStr("G")]))]), Quest);
      var r := BuildIndex(items, [quest]);
      r.Ok? && "G" in r.value && r.value["G"].quests == []
  {
    var items := [Plain("G", 1)];
    var c := Candidate("quests/q.json", JObj([("rewardItemIds", JArr([JStr("G")]))]), Quest);
    assert IdOf(items[0]) == "G";
    assert !MemberContainsId(c.json.fields[0], "G", QuestExcluded);
    assert !ContainsId(c.json, "G", QuestExcluded);
    var cands := [c];
    assert cands[..0] == [];
    assert ScanAll(InitIndex(items), cands[..0], items) == Ok(InitIndex(items));
    assert BuildIndex(items, cands) == Ok(ApplyQuest(InitIndex(items), c, items));
  }
}
