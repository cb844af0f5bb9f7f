/** The reference index of lib/categorizeItems.tsx: which projects and quests mention each
    catalog item. Projects come from `projects.json` and the `hideout` folder, quests from
    the `quests` folder and `deprecated/quests.json`. A project with a `levels` array lists
    its requirements explicitly; any other project, and every quest, is searched for item
    ids anywhere in its tree (quests skipping their reward sections). */
module ReferenceIndex {
  import opened Basics
  import opened JsStrings
  import opened JsValues
  import opened Localize
  import opened Items

  /** `objectContainsId(obj, id, excludeKeys)`: a string, number or boolean matches when its
      text is the id; an array when an element does; an object when a key outside
      `excl` is the id or its value contains it. */
  predicate ContainsId(j: Json, id: string, excl: seq<string>)
  {
    match j
    case JNull => false
    case JStr(s) => s == id
    case JNum(_) => ToStr(j) == id
    case JBool(_) => ToStr(j) == id
    case JArr(es) => exists i :: 0 <= i < |es| && ContainsId(es[i], id, excl)
    case JObj(fs) => exists i :: 0 <= i < |fs| && MemberContainsId(fs[i], id, excl)
  }

  predicate MemberContainsId(m: (string, Json), id: string, excl: seq<string>)
  {
    m.0 !in excl && (m.0 == id || ContainsId(m.1, id, excl))
  }

  /** The walk itself: scalars compared by their text, arrays element by element, objects
      key by key with excluded keys skipped before they are compared. */
  method ObjectContainsId(obj: Json, id: string, excl: seq<string>) returns (found: bool)
    ensures found == ContainsId(obj, id, excl)
    decreases obj
  {
    match obj {
      case JNull =>
        return false;
      case JArr(es) =>
        var i := 0;
        while i < |es|
          invariant 0 <= i <= |es|
          invariant forall k :: 0 <= k < i ==> !ContainsId(es[k], id, excl)
        {
          var hit := ObjectContainsId(es[i], id, excl);
          if hit {
            return true;
          }
          i := i + 1;
        }
        return false;
      case JObj(fs) =>
        var i := 0;
        while i < |fs|
          invariant 0 <= i <= |fs|
          invariant forall k :: 0 <= k < i ==> !MemberContainsId(fs[k], id, excl)
        {
          var (key, value) := fs[i];
          if key !in excl {
            if key == id {
              return true;
            }
            var hit := ObjectContainsId(value, id, excl);
            if hit {
              return true;
            }
          }
          i := i + 1;
        }
        return false;
      case _ =>
        return ToStr(obj) == id;
    }
  }

  /** Skipping more keys can only lose matches. */
  lemma {:induction false} ExcludingMoreFindsLess(j: Json, id: string, excl: seq<string>, more: seq<string>)
    requires forall k :: k in excl ==> k in more
    ensures ContainsId(j, id, more) ==> ContainsId(j, id, excl)
    decreases j
  {
    match j {
      case JArr(es) =>
        if ContainsId(j, id, more) {
          var i :| 0 <= i < |es| && ContainsId(es[i], id, more);
          ExcludingMoreFindsLess(es[i], id, excl, more);
        }
      case JObj(fs) =>
        if ContainsId(j, id, more) {
          var i :| 0 <= i < |fs| && MemberContainsId(fs[i], id, more);
          if fs[i].0 != id {
            ExcludingMoreFindsLess(fs[i].1, id, excl, more);
          }
          assert MemberContainsId(fs[i], id, excl);
        }
      case _ =>
    }
  }

  /** Whatever sits under an excluded key is never looked at: replacing it changes nothing. */
  lemma ExcludedSubtreeIgnored(fs: seq<(string, Json)>, i: nat, x: Json, id: string, excl: seq<string>)
    requires i < |fs| && fs[i].0 in excl
    ensures ContainsId(JObj(fs), id, excl) == ContainsId(JObj(fs[i := (fs[i].0, x)]), id, excl)
  {
    var gs := fs[i := (fs[i].0, x)];
    assert forall k :: 0 <= k < |fs| ==> MemberContainsId(fs[k], id, excl) == MemberContainsId(gs[k], id, excl);
  }

  /** The quest scan's excluded keys: everything a quest hands out rather than asks for. */
  const QuestExcluded: seq<string> :=
    ["rewardItemIds", "rewardItems", "rewards", "reward", "loot", "drops", "prize", "prizes"]

  /** A quest that only hands an item out does not reference it; asking for it does. A key
      that is the id counts, and so does a number whose text is the id. */
  lemma ContainsIdExamples()
    ensures !ContainsId(JObj([("rewards", JArr([JStr("A")]))]), "A", QuestExcluded)
    ensures ContainsId(JObj([("rewards", JArr([JStr("A")]))]), "A", [])
    ensures ContainsId(JObj([("objectives", JArr([JObj([("itemId", JStr("A"))])])), ("rewards", JArr([JStr("A")]))]), "A", QuestExcluded)
    ensures ContainsId(JObj([("A", JNum(2))]), "A", [])
    ensures ContainsId(JArr([JNum(42)]), "42", [])
  {
    var asked := [("itemId", JStr("A"))];
    assert MemberContainsId(asked[0], "A", QuestExcluded);
    var list := [JObj(asked)];
    assert ContainsId(list[0], "A", QuestExcluded);
    var quest := [("objectives", JArr(list)), ("rewards", JArr([JStr("A")]))];
    assert MemberContainsId(quest[0], "A", QuestExcluded);
    var given := [JStr("A")];
    assert ContainsId(given[0], "A", []);
    var rewards := [("rewards", JArr(given))];
    assert MemberContainsId(rewards[0], "A", []);
    var keyed := [("A", JNum(2))];
    assert MemberContainsId(keyed[0], "A", []);
    var nums := [JNum(42)];
    assert ToStr(nums[0]) == "42";
    assert ContainsId(nums[0], "42", []);
  }

  // ----- candidate documents -----

  datatype Kind = Project | Quest

  /** One document to scan, with the label its references carry. */
  datatype Candidate = Candidate(file: string, json: Json, kind: Kind)

  /** A single data file (`projects.json`, `deprecated/quests.json`): nothing when the file is
      missing or falsy (a failed read gives `null`), one candidate per element, labelled
      `file[i]`, when it is an array, otherwise the document itself. Array elements are
      taken whatever they are, `null` included. */
  function DocCandidates(doc: Json, fileName: string, kind: Kind): (r: seq<Candidate>)
    ensures !Truthy(Some(doc)) ==> r == []
    ensures doc.JArr? ==> |r| == |doc.elems|
    ensures doc.JArr? ==> forall i :: 0 <= i < |r| ==> r[i] == Candidate(fileName + "[" + IntToString(i) + "]", doc.elems[i], kind)
    ensures Truthy(Some(doc)) && !doc.JArr? ==> r == [Candidate(fileName, doc, kind)]
  {
    if !Truthy(Some(doc)) then []
    else if doc.JArr? then
      seq(|doc.elems|, i requires 0 <= i < |doc.elems| => Candidate(fileName + "[" + IntToString(i) + "]", doc.elems[i], kind))
    else [Candidate(fileName, doc, kind)]
  }

  /** A folder (`hideout`, `quests`): its `.json` entries in listing order whose parse is
      truthy, labelled `folder/name`. Each entry pairs a file name with its parse. */
  function DirCandidates(folder: string, files: seq<(string, Json)>, kind: Kind): (r: seq<Candidate>)
    ensures |r| <= |files|
    ensures forall i :: 0 <= i < |r| ==> r[i].kind == kind && Truthy(Some(r[i].json))
    ensures forall i :: 0 <= i < |files| && EndsWith(files[i].0, ".json") && Truthy(Some(files[i].1)) ==>
      Candidate(folder + "/" + files[i].0, files[i].1, kind) in r
    decreases |files|
  {
    if files == [] then []
    else
      var n := |files| - 1;
      var rest := DirCandidates(folder, files[..n], kind);
      assert forall i :: 0 <= i < n ==> files[..n][i] == files[i];
      if EndsWith(files[n].0, ".json") && Truthy(Some(files[n].1)) then
        rest + [Candidate(folder + "/" + files[n].0, files[n].1, kind)]
      else rest
  }

  /** Every candidate in scan order: projects first, then the hideout, the quests folder and
      the deprecated quest list. */
  function AllCandidates(projects: Json, hideout: seq<(string, Json)>, quests: seq<(string, Json)>, deprecated: Json): seq<Candidate>
  {
    DocCandidates(projects, "projects.json", Project) + DirCandidates("hideout", hideout, Project)
    + DirCandidates("quests", quests, Quest) + DocCandidates(deprecated, "deprecated/quests.json", Quest)
  }

  // ----- the index -----

  /** A project entry: from a level's requirement list (with level and quantity), or from a
      project document that merely mentions the item. */
  datatype ProjectRef =
    | LeveledRef(file: string, name: Option<string>, description: Option<string>, level: Value, qty: int)
    | FlatRef(file: string, name: Option<string>, description: Option<string>)

  datatype QuestRef = QuestRef(file: string, name: Option<string>, description: Option<string>, objectives: Option<string>)

  datatype Refs = Refs(quests: seq<QuestRef>, projects: seq<ProjectRef>)

  /** `itemReferences`, keyed by `String(item.id)`. */
  type Index = map<string, Refs>

  /** The ways the scan throws: reading `levels` of a `null` project, `level` of a `null`
      level, iterating a requirement list that is not iterable, or reading `itemId` of a
      `null` requirement. Any of these aborts the whole categorisation. */
  datatype ScanError =
    | NullProject(file: string)
    | NullLevel(file: string)
    | NotIterable(file: string)
    | NullRequirement(file: string)

  /** Every catalog id with empty lists. */
  function InitIndex(items: seq<Json>): (r: Index)
    ensures forall id :: id in r <==> exists i :: 0 <= i < |items| && IdOf(items[i]) == id
    ensures forall id :: id in r ==> r[id] == Refs([], [])
    decreases |items|
  {
    if items == [] then map[]
    else
      var init := InitIndex(items[..|items| - 1]);
      assert forall i :: 0 <= i < |items| - 1 ==> items[..|items| - 1][i] == items[i];
      init[IdOf(items[|items| - 1]) := Refs([], [])]
  }

  /** `s || undefined` for a display string. */
  function NonEmpty(s: string): (r: Option<string>)
    ensures r.None? <==> s == ""
    ensures r.Some? ==> r.value == s
  {
    if s == "" then None else Some(s)
  }

  /** `getLocalizedString(json?.name ?? json?.title ?? json?.label ?? "")`. */
  function Title(json: Json): string
  {
    var v := Some(json);
    GetLocalizedString(Coalesce(Coalesce(Coalesce(Get(v, "name"), Get(v, "title")), Get(v, "label")), Some(JStr(""))))
  }

  /** `getLocalizedString(json?.description ?? json?.desc ?? json?.summary ?? "")`. */
  function Description(json: Json): string
  {
    var v := Some(json);
    GetLocalizedString(Coalesce(Coalesce(Coalesce(Get(v, "description"), Get(v, "desc")), Get(v, "summary")), Some(JStr(""))))
  }

  /** One element of an objectives array. */
  function ObjectiveLine(o: Json): string
  {
    var v := Some(o);
    if !Truthy(v) then ""
    else match o
      case JStr(s) => s
      case JObj(_) => GetLocalizedString(Coalesce(Coalesce(Coalesce(Get(v, "description"), Get(v, "title")), Get(v, "text")), v))
      case JArr(_) => GetLocalizedString(v)
      case _ => ToStr(o)
  }

  /** One value of an objectives object (no `text` fallback here). */
  function ObjectiveValue(o: Json): string
  {
    var v := Some(o);
    if o.JStr? then o.s
    else GetLocalizedString(Coalesce(Coalesce(Get(v, "description"), Get(v, "title")), v))
  }

  const Bullet: string := " \U{2022} "

  /** A quest's objectives as one line: `objectives ?? tasks ?? steps ?? objectivesList`,
      each entry rendered, blanks dropped, joined with " • "; the description when the
      field is neither an array nor an object. */
  function ObjectivesText(json: Json): (r: string)
    ensures var o := ObjectivesField(json); !(o.Some? && (o.value.JArr? || o.value.JObj?)) ==> r == Description(json)
  {
    match ObjectivesField(json)
    case Some(JArr(os)) =>
      Join(Filter(seq(|os|, i requires 0 <= i < |os| => ObjectiveLine(os[i])), (s: string) => s != ""), Bullet)
    case Some(JObj(fs)) =>
      var vs := Values(JObj(fs));
      Join(Filter(seq(|vs|, i requires 0 <= i < |vs| => ObjectiveValue(vs[i])), (s: string) => s != ""), Bullet)
    case _ => Description(json)
  }

  function ObjectivesField(json: Json): Value
  {
    var v := Some(json);
    Coalesce(Coalesce(Coalesce(Get(v, "objectives"), Get(v, "tasks")), Get(v, "steps")), Get(v, "objectivesList"))
  }

  /** `itemReferences[id].projects.push(e)`, only for a known id. */
  function AddProject(idx: Index, id: string, e: ProjectRef): (r: Index)
    ensures r.Keys == idx.Keys
    ensures forall k :: k in idx && k != id ==> r[k] == idx[k]
    ensures id in idx ==> r[id] == idx[id].(projects := idx[id].projects + [e])
  {
    if id in idx then idx[id := idx[id].(projects := idx[id].projects + [e])] else idx
  }

  /** `itemReferences[id].quests.push(e)`; the id is always known here. */
  function AddQuest(idx: Index, id: string, e: QuestRef): (r: Index)
    ensures r.Keys == idx.Keys
    ensures forall k :: k in idx && k != id ==> r[k] == idx[k]
    ensures id in idx ==> r[id] == idx[id].(quests := idx[id].quests + [e])
  {
    if id in idx then idx[id := idx[id].(quests := idx[id].quests + [e])] else idx
  }

  /** The requirement list of one level: `levelObj.requirementItemIds || []`. An array is
      its elements; a string is iterated character by character; any other truthy value
      is not iterable and throws. */
  function LevelRequirements(c: Candidate, levelObj: Json): (r: Result<seq<Json>, ScanError>)
    ensures var v := Get(Some(levelObj), "requirementItemIds");
      r.Err? <==> Truthy(v) && !(v.value.JArr? || v.value.JStr?)
    ensures !Truthy(Get(Some(levelObj), "requirementItemIds")) ==> r == Ok([])
  {
    var v := Get(Some(levelObj), "requirementItemIds");
    if !Truthy(v) then Ok([])
    else
      match v.value
      case JArr(es) => Ok(es)
      case JStr(s) => Ok(Chars(s))
      case _ => Err(NotIterable(c.file))
  }

  /** Iterating a string: one one-character string per position. */
  function Chars(s: string): (r: seq<Json>)
    ensures |r| == |s| && forall i :: 0 <= i < |s| ==> r[i] == JStr([s[i]])
  {
    seq(|s|, i requires 0 <= i < |s| => JStr([s[i]]))
  }

  /** The id a requirement names: `String(req.itemId)`. */
  function RequirementId(req: Json): string
  {
    ToStrOpt(Get(Some(req), "itemId"))
  }

  /** `Number(req.quantity) || 1`. */
  function RequirementQty(req: Json): (q: int)
    ensures q != 0
    ensures Get(Some(req), "quantity").None? || Get(Some(req), "quantity") == Some(JNum(0)) ==> q == 1
  {
    NumberOr(Get(Some(req), "quantity"), 1)
  }

  /** The requirement names `id`. */
  function Naming(id: string): Json -> bool
  {
    req => RequirementId(req) == id
  }

  /** The leveled entry a requirement of this level adds. */
  function LevelEntryOf(c: Candidate, level: Value): Json -> ProjectRef
  {
    req => LevelEntry(c, level, req)
  }

  /** The requirements of one level, in order: each names an item, and a known item gets one
      leveled entry per occurrence. */
  function ApplyRequirements(idx: Index, c: Candidate, level: Value, reqs: seq<Json>): (r: Result<Index, ScanError>)
    ensures r.Ok? ==> r.value.Keys == idx.Keys
    ensures r.Err? <==> exists i :: 0 <= i < |reqs| && reqs[i].JNull?
    decreases |reqs|
  {
    if reqs == [] then Ok(idx)
    else
      var init := reqs[..|reqs| - 1];
      var req := reqs[|reqs| - 1];
      assert forall i :: 0 <= i < |init| ==> init[i] == reqs[i];
      match ApplyRequirements(idx, c, level, init)
      case Err(e) => Err(e)
      case Ok(acc) =>
        if req.JNull? then Err(NullRequirement(c.file))
        else Ok(AddProject(acc, RequirementId(req), LevelEntry(c, level, req)))
  }

  /** The leveled entry one requirement adds. */
  function LevelEntry(c: Candidate, level: Value, req: Json): (e: ProjectRef)
    ensures e.LeveledRef? && e.file == c.file && e.level == level && e.qty == RequirementQty(req)
    ensures e.name == NonEmpty(Title(c.json)) && e.description == NonEmpty(Description(c.json))
  {
    LeveledRef(c.file, NonEmpty(Title(c.json)), NonEmpty(Description(c.json)), level, RequirementQty(req))
  }

  /** A level's requirements leave quest entries alone and append to each known item,
      after the entries it already had, the leveled entries of the requirements naming it,
      in their order. */
  lemma {:induction false} RequirementsAppend(idx: Index, c: Candidate, level: Value, reqs: seq<Json>)
    requires ApplyRequirements(idx, c, level, reqs).Ok?
    ensures var r := ApplyRequirements(idx, c, level, reqs).value;
      forall id :: id in idx ==> r[id].quests == idx[id].quests
    ensures var r := ApplyRequirements(idx, c, level, reqs).value;
      forall id :: id in idx ==> r[id].projects == idx[id].projects + Map(LevelEntryOf(c, level), Filter(reqs, Naming(id)))
    decreases |reqs|
  {
    if reqs != [] {
      var init := reqs[..|reqs| - 1];
      var req := reqs[|reqs| - 1];
      RequirementsLast(idx, c, level, reqs);
      RequirementsAppend(idx, c, level, init);
      AppendStep(idx, ApplyRequirements(idx, c, level, init).value, c, level, reqs);
    }
  }

  /** If the entries of all but the last requirement are in place, adding the last one's
      entry puts those of all of them in place. */
  lemma AppendStep(idx: Index, acc: Index, c: Candidate, level: Value, reqs: seq<Json>)
    requires reqs != [] && acc.Keys == idx.Keys
    requires forall id :: id in idx ==> acc[id].quests == idx[id].quests
    requires forall id :: id in idx ==>
      acc[id].projects == idx[id].projects + Map(LevelEntryOf(c, level), Filter(reqs[..|reqs| - 1], Naming(id)))
    ensures var req := reqs[|reqs| - 1];
      var r := AddProject(acc, RequirementId(req), LevelEntryOf(c, level)(req));
      forall id :: id in idx ==>
        (r[id].quests == idx[id].quests &&
         r[id].projects == idx[id].projects + Map(LevelEntryOf(c, level), Filter(reqs, Naming(id))))
  {
    var req := reqs[|reqs| - 1];
    var e := LevelEntryOf(c, level)(req);
    var r := AddProject(acc, RequirementId(req), e);
    forall id | id in idx
      ensures r[id].quests == idx[id].quests
      ensures r[id].projects == idx[id].projects + Map(LevelEntryOf(c, level), Filter(reqs, Naming(id)))
    {
      AddProjectAt(acc, RequirementId(req), e, id);
      MapFilterLast(LevelEntryOf(c, level), reqs, Naming(id));
      assert Naming(id)(req) == (RequirementId(req) == id);
      var before := Map(LevelEntryOf(c, level), Filter(reqs[..|reqs| - 1], Naming(id)));
      var added := if RequirementId(req) == id then [e] else [];
      assert r[id].projects == (idx[id].projects + before) + added;
      assert Map(LevelEntryOf(c, level), Filter(reqs, Naming(id))) == before + added;
      ConcatAssoc(idx[id].projects, before, added);
    }
  }

  /** A successful run over the requirements is the run over all but the last, plus the
      last one's entry. */
  lemma RequirementsLast(idx: Index, c: Candidate, level: Value, reqs: seq<Json>)
    requires reqs != [] && ApplyRequirements(idx, c, level, reqs).Ok?
    ensures var init := reqs[..|reqs| - 1];
      ApplyRequirements(idx, c, level, init).Ok? &&
      ApplyRequirements(idx, c, level, reqs).value ==
        AddProject(ApplyRequirements(idx, c, level, init).value, RequirementId(reqs[|reqs| - 1]), LevelEntryOf(c, level)(reqs[|reqs| - 1]))
  {
  }

  /** What one appended project entry does to the entries of a given known id. */
  lemma AddProjectAt(acc: Index, target: string, e: ProjectRef, id: string)
    requires id in acc
    ensures AddProject(acc, target, e)[id].quests == acc[id].quests
    ensures AddProject(acc, target, e)[id].projects == acc[id].projects + (if target == id then [e] else [])
  {
    if target != id {
      assert acc[id].projects + [] == acc[id].projects;
    }
  }

  /** The levels of a leveled project, in order. */
  function ApplyLevels(idx: Index, c: Candidate, levels: seq<Json>): (r: Result<Index, ScanError>)
    ensures r.Ok? ==> r.value.Keys == idx.Keys
    decreases |levels|
  {
    if levels == [] then Ok(idx)
    else
      var levelObj := levels[|levels| - 1];
      match ApplyLevels(idx, c, levels[..|levels| - 1])
      case Err(e) => Err(e)
      case Ok(acc) =>
        if levelObj.JNull? then Err(NullLevel(c.file))
        else
          match LevelRequirements(c, levelObj)
          case Err(e) => Err(e)
          case Ok(reqs) => ApplyRequirements(acc, c, Get(Some(levelObj), "level"), reqs)
  }

  /** A leveled project adds project entries only. */
  lemma {:induction false} LevelsKeepQuests(idx: Index, c: Candidate, levels: seq<Json>)
    requires ApplyLevels(idx, c, levels).Ok?
    ensures forall id :: id in idx ==> ApplyLevels(idx, c, levels).value[id].quests == idx[id].quests
    decreases |levels|
  {
    if levels != [] {
      var levelObj := levels[|levels| - 1];
      LevelsKeepQuests(idx, c, levels[..|levels| - 1]);
      var acc := ApplyLevels(idx, c, levels[..|levels| - 1]).value;
      var reqs := LevelRequirements(c, levelObj).value;
      RequirementsAppend(acc, c, Get(Some(levelObj), "level"), reqs);
    }
  }

  /** How many of `items` carry `id`. */
  function CountWithId(items: seq<Json>, id: string): nat
    decreases |items|
  {
    if items == [] then 0
    else CountWithId(items[..|items| - 1], id) + (if IdOf(items[|items| - 1]) == id then 1 else 0)
  }

  /** The entry a project without levels adds: its file, title and description. */
  function FlatEntry(c: Candidate): (e: ProjectRef)
    ensures e.FlatRef? && e.file == c.file && e.name == NonEmpty(Title(c.json)) && e.description == NonEmpty(Description(c.json))
  {
    FlatRef(c.file, NonEmpty(Title(c.json)), NonEmpty(Description(c.json)))
  }

  /** The entry a quest adds: its file, title, description and objectives text. */
  function QuestEntry(c: Candidate): (e: QuestRef)
    ensures e.file == c.file && e.name == NonEmpty(Title(c.json)) && e.description == NonEmpty(Description(c.json))
    ensures e.objectives == NonEmpty(ObjectivesText(c.json))
  {
    QuestRef(c.file, NonEmpty(Title(c.json)), NonEmpty(Description(c.json)), NonEmpty(ObjectivesText(c.json)))
  }

  /** A project without levels: every catalog item it mentions anywhere gets one entry. */
  function ApplyFlat(idx: Index, c: Candidate, items: seq<Json>): (r: Index)
    ensures r.Keys == idx.Keys
    ensures forall id :: id in idx ==> r[id].quests == idx[id].quests
    decreases |items|
  {
    if items == [] then idx
    else
      var acc := ApplyFlat(idx, c, items[..|items| - 1]);
      var id := IdOf(items[|items| - 1]);
      if ContainsId(c.json, id, []) then AddProject(acc, id, FlatEntry(c))
      else acc
  }

  /** A quest: every catalog item it mentions outside its reward sections gets one entry. */
  function ApplyQuest(idx: Index, c: Candidate, items: seq<Json>): (r: Index)
    ensures r.Keys == idx.Keys
    ensures forall id :: id in idx ==> r[id].projects == idx[id].projects
    decreases |items|
  {
    if items == [] then idx
    else
      var acc := ApplyQuest(idx, c, items[..|items| - 1]);
      var id := IdOf(items[|items| - 1]);
      if ContainsId(c.json, id, QuestExcluded) then AddQuest(acc, id, QuestEntry(c))
      else acc
  }

  /** A project without levels appends to each known id it mentions one entry per catalog
      item carrying that id, after the entries the id already had, and nothing to the
      others. */
  lemma {:induction false} FlatAppends(idx: Index, c: Candidate, items: seq<Json>)
    ensures var r := ApplyFlat(idx, c, items);
      forall id :: id in idx ==>
        r[id].projects == idx[id].projects + Repeat(FlatEntry(c), if ContainsId(c.json, id, []) then CountWithId(items, id) else 0)
    decreases |items|
  {
    if items != [] {
      var init := items[..|items| - 1];
      var last := IdOf(items[|items| - 1]);
      FlatAppends(idx, c, init);
      var acc := ApplyFlat(idx, c, init);
      forall id | id in idx
        ensures ApplyFlat(idx, c, items)[id].projects ==
          idx[id].projects + Repeat(FlatEntry(c), if ContainsId(c.json, id, []) then CountWithId(items, id) else 0)
      {
        RepeatOneMore(FlatEntry(c), CountWithId(init, id));
        if ContainsId(c.json, last, []) {
          AddProjectAt(acc, last, FlatEntry(c), id);
        }
      }
    }
  }

  /** A quest appends to each known id it mentions outside its reward sections one entry per
      catalog item carrying that id, after the entries the id already had, and nothing to
      the others. */
  lemma {:induction false} QuestAppends(idx: Index, c: Candidate, items: seq<Json>)
    ensures var r := ApplyQuest(idx, c, items);
      forall id :: id in idx ==>
        r[id].quests == idx[id].quests + Repeat(QuestEntry(c), if ContainsId(c.json, id, QuestExcluded) then CountWithId(items, id) else 0)
    decreases |items|
  {
    if items != [] {
      var init := items[..|items| - 1];
      var last := IdOf(items[|items| - 1]);
      QuestAppends(idx, c, init);
      var acc := ApplyQuest(idx, c, init);
      forall id | id in idx
        ensures ApplyQuest(idx, c, items)[id].quests ==
          idx[id].quests + Repeat(QuestEntry(c), if ContainsId(c.json, id, QuestExcluded) then CountWithId(items, id) else 0)
      {
        RepeatOneMore(QuestEntry(c), CountWithId(init, id));
        if ContainsId(c.json, last, QuestExcluded) {
          AddQuestAt(acc, last, QuestEntry(c), id);
        }
      }
    }
  }

  lemma RepeatOneMore<T>(e: T, n: nat)
    ensures Repeat(e, n + 1) == Repeat(e, n) + [e]
  {
  }

  /** What one appended quest entry does to the entries of a given known id. */
  lemma AddQuestAt(acc: Index, target: string, e: QuestRef, id: string)
    requires id in acc
    ensures AddQuest(acc, target, e)[id].projects == acc[id].projects
    ensures AddQuest(acc, target, e)[id].quests == acc[id].quests + (if target == id then [e] else [])
  {
    if target != id {
      assert acc[id].quests + [] == acc[id].quests;
    }
  }

  /** One candidate document. */
  function ApplyCandidate(idx: Index, c: Candidate, items: seq<Json>): (r: Result<Index, ScanError>)
    ensures r.Ok? ==> r.value.Keys == idx.Keys
    ensures c.kind == Quest ==> r.Ok? && forall id :: id in idx ==> r.value[id].projects == idx[id].projects
  {
    match c.kind
    case Quest => Ok(ApplyQuest(idx, c, items))
    case Project =>
      if c.json.JNull? then Err(NullProject(c.file))
      else
        match Get(Some(c.json), "levels")
        case Some(JArr(levels)) => ApplyLevels(idx, c, levels)
        case _ => Ok(ApplyFlat(idx, c, items))
  }

  /** A project document, leveled or not, adds project entries only. */
  lemma ProjectsKeepQuests(idx: Index, c: Candidate, items: seq<Json>)
    requires c.kind == Project && ApplyCandidate(idx, c, items).Ok?
    ensures forall id :: id in idx ==> ApplyCandidate(idx, c, items).value[id].quests == idx[id].quests
  {
    match Get(Some(c.json), "levels")
    case Some(JArr(levels)) => LevelsKeepQuests(idx, c, levels);
    case _ =>
  }

  /** The whole scan: every candidate in order over the initial index. */
  function ScanAll(idx: Index, cands: seq<Candidate>, items: seq<Json>): (r: Result<Index, ScanError>)
    ensures r.Ok? ==> r.value.Keys == idx.Keys
    decreases |cands|
  {
    if cands == [] then Ok(idx)
    else
      match ScanAll(idx, cands[..|cands| - 1], items)
      case Err(e) => Err(e)
      case Ok(acc) => ApplyCandidate(acc, cands[|cands| - 1], items)
  }

  function BuildIndex(items: seq<Json>, cands: seq<Candidate>): Result<Index, ScanError>
  {
    ScanAll(InitIndex(items), cands, items)
  }

  // ----- the scan as the program runs it -----

  /** Once a prefix of the levels fails, the whole list fails with the same error. */
  lemma {:induction false} LevelErrorPersists(idx: Index, c: Candidate, levels: seq<Json>, k: nat)
    requires k <= |levels| && ApplyLevels(idx, c, levels[..k]).Err?
    ensures ApplyLevels(idx, c, levels) == ApplyLevels(idx, c, levels[..k])
    decreases |levels| - k
  {
    if k < |levels| {
      assert levels[..k + 1][..k] == levels[..k];
      LevelErrorPersists(idx, c, levels, k + 1);
    } else {
      assert levels[..k] == levels;
    }
  }

  lemma {:induction false} RequirementErrorPersists(idx: Index, c: Candidate, level: Value, reqs: seq<Json>, k: nat)
    requires k <= |reqs| && ApplyRequirements(idx, c, level, reqs[..k]).Err?
    ensures ApplyRequirements(idx, c, level, reqs) == ApplyRequirements(idx, c, level, reqs[..k])
    decreases |reqs| - k
  {
    if k < |reqs| {
      assert reqs[..k + 1][..k] == reqs[..k];
      RequirementErrorPersists(idx, c, level, reqs, k + 1);
    } else {
      assert reqs[..k] == reqs;
    }
  }

  /** The requirements up to and including the `i`-th, from those before it. */
  lemma RequirementStep(idx: Index, c: Candidate, level: Value, reqs: seq<Json>, i: nat, acc: Index)
    requires i < |reqs| && ApplyRequirements(idx, c, level, reqs[..i]) == Ok(acc)
    ensures ApplyRequirements(idx, c, level, reqs[..i + 1]) ==
      if reqs[i].JNull? then Err(NullRequirement(c.file))
      else Ok(AddProject(acc, RequirementId(reqs[i]), LevelEntry(c, level, reqs[i])))
  {
    assert reqs[..i + 1][..i] == reqs[..i];
  }

  /** The levels up to and including the `i`-th, from those before it. */
  lemma LevelStep(idx: Index, c: Candidate, levels: seq<Json>, i: nat, acc: Index)
    requires i < |levels| && ApplyLevels(idx, c, levels[..i]) == Ok(acc)
    ensures ApplyLevels(idx, c, levels[..i + 1]) ==
      if levels[i].JNull? then Err(NullLevel(c.file))
      else match LevelRequirements(c, levels[i])
        case Err(e) => Err(e)
        case Ok(reqs) => ApplyRequirements(acc, c, Get(Some(levels[i]), "level"), reqs)
  {
    assert levels[..i + 1][..i] == levels[..i];
  }

  lemma {:induction false} ScanErrorPersists(idx: Index, cands: seq<Candidate>, items: seq<Json>, k: nat)
    requires k <= |cands| && ScanAll(idx, cands[..k], items).Err?
    ensures ScanAll(idx, cands, items) == ScanAll(idx, cands[..k], items)
    decreases |cands| - k
  {
    if k < |cands| {
      assert cands[..k + 1][..k] == cands[..k];
      ScanErrorPersists(idx, cands, items, k + 1);
    } else {
      assert cands[..k] == cands;
    }
  }

  /** The levels of one leveled project, requirement by requirement, stopping at the first
      `null` level, non-iterable requirement list or `null` requirement. */
  method ScanLevels(idx: Index, c: Candidate, levels: seq<Json>) returns (r: Result<Index, ScanError>)
    ensures r == ApplyLevels(idx, c, levels)
  {
    var title := NonEmpty(Title(c.json));
    var description := NonEmpty(Description(c.json));
    var acc := idx;
    var li := 0;
    while li < |levels|
      invariant 0 <= li <= |levels|
      invariant ApplyLevels(idx, c, levels[..li]) == Ok(acc)
    {
      var levelObj := levels[li];
      LevelStep(idx, c, levels, li, acc);
      if levelObj.JNull? {
        LevelErrorPersists(idx, c, levels, li + 1);
        return Err(NullLevel(c.file));
      }
      var reqs := LevelRequirements(c, levelObj);
      if reqs.Err? {
        LevelErrorPersists(idx, c, levels, li + 1);
        return Err(reqs.error);
      }
      var level := Get(Some(levelObj), "level");
      var rs := reqs.value;
      var start := acc;
      var ri := 0;
      while ri < |rs|
        invariant 0 <= ri <= |rs|
        invariant ApplyRequirements(start, c, level, rs[..ri]) == Ok(acc)
      {
        var req := rs[ri];
        RequirementStep(start, c, level, rs, ri, acc);
        if req.JNull? {
          RequirementErrorPersists(start, c, level, rs, ri + 1);
          LevelErrorPersists(idx, c, levels, li + 1);
          return Err(NullRequirement(c.file));
        }
        acc := AddProject(acc, RequirementId(req), LeveledRef(c.file, title, description, level, RequirementQty(req)));
        ri := ri + 1;
      }
      assert rs[..ri] == rs;
      li := li + 1;
    }
    assert levels[..li] == levels;
    return Ok(acc);
  }

  /** A project without levels: each catalog item, in order, searched for with nothing
      excluded. */
  method ScanFlat(idx: Index, c: Candidate, items: seq<Json>) returns (r: Index)
    ensures r == ApplyFlat(idx, c, items)
  {
    var entry := FlatEntry(c);
    r := idx;
    var k := 0;
    while k < |items|
      invariant 0 <= k <= |items|
      invariant r == ApplyFlat(idx, c, items[..k])
    {
      assert items[..k + 1][..k] == items[..k];
      var id := IdOf(items[k]);
      var hit := ObjectContainsId(c.json, id, []);
      if hit {
        r := AddProject(r, id, entry);
      }
      k := k + 1;
    }
    assert items[..k] == items;
  }

  /** A quest: each catalog item, in order, searched for outside the reward sections. */
  method ScanQuest(idx: Index, c: Candidate, items: seq<Json>) returns (r: Index)
    ensures r == ApplyQuest(idx, c, items)
  {
    var entry := QuestEntry(c);
    r := idx;
    var k := 0;
    while k < |items|
      invariant 0 <= k <= |items|
      invariant r == ApplyQuest(idx, c, items[..k])
    {
      assert items[..k + 1][..k] == items[..k];
      var id := IdOf(items[k]);
      var hit := ObjectContainsId(c.json, id, QuestExcluded);
      if hit {
        r := AddQuest(r, id, entry);
      }
      k := k + 1;
    }
    assert items[..k] == items;
  }

  /** Every catalog id with empty lists, in catalog order. */
  method InitReferences(items: seq<Json>) returns (idx: Index)
    ensures idx == InitIndex(items)
  {
    idx := map[];
    var n := 0;
    while n < |items|
      invariant 0 <= n <= |items|
      invariant idx == InitIndex(items[..n])
    {
      assert items[..n + 1][..n] == items[..n];
      idx := idx[IdOf(items[n]) := Refs([], [])];
      n := n + 1;
    }
    assert items[..n] == items;
  }

  /** One candidate document: a quest, a `null` project, a leveled project or a flat
      project. */
  method ScanCandidate(idx: Index, c: Candidate, items: seq<Json>) returns (step: Result<Index, ScanError>)
    ensures step == ApplyCandidate(idx, c, items)
  {
    if c.kind == Quest {
      var next := ScanQuest(idx, c, items);
      step := Ok(next);
    } else if c.json.JNull? {
      step := Err(NullProject(c.file));
    } else {
      var levels := Get(Some(c.json), "levels");
      if levels.Some? && levels.value.JArr? {
        step := ScanLevels(idx, c, levels.value.elems);
      } else {
        var next := ScanFlat(idx, c, items);
        step := Ok(next);
      }
    }
  }

  /** `itemReferences` as built by `categorizeAllItems`: every catalog id with empty lists,
      then every candidate in order; the first failure aborts. */
  method BuildReferences(items: seq<Json>, cands: seq<Candidate>) returns (r: Result<Index, ScanError>)
    ensures r == BuildIndex(items, cands)
  {
    var init := InitReferences(items);
    var idx := init;
    var ci := 0;
    while ci < |cands|
      invariant 0 <= ci <= |cands|
      invariant ScanAll(init, cands[..ci], items) == Ok(idx)
    {
      assert cands[..ci + 1][..ci] == cands[..ci];
      var step := ScanCandidate(idx, cands[ci], items);
      if step.Err? {
        ScanErrorPersists(init, cands, items, ci + 1);
        return step;
      }
      idx := step.value;
      ci := ci + 1;
    }
    assert cands[..ci] == cands;
    return Ok(idx);
  }
}
