/** `categorizeAllItems` (lib/categorizeItems.tsx) from end to end: gather the candidate
    documents, build the reference index, then classify every catalog item. The data
    files and folders arrive already read and parsed; a file that could not be read or
    parsed is `null`, a folder that could not be listed is empty. */
module Categorize {
  import opened Basics
  import opened JsStrings
  import opened JsValues
  import opened Items
  import opened ReferenceIndex
  import opened Classify

  /** One data file onto the candidate list: nothing for a falsy parse, each element of
      an array under `file[i]`, anything else as itself. */
  method PushDoc(cands: seq<Candidate>, doc: Json, fileName: string, kind: Kind) returns (r: seq<Candidate>)
    ensures r == cands + DocCandidates(doc, fileName, kind)
  {
    r := cands;
    if !Truthy(Some(doc)) {
      return;
    }
    if doc.JArr? {
      var i := 0;
      while i < |doc.elems|
        invariant 0 <= i <= |doc.elems|
        invariant r == cands + DocCandidates(doc, fileName, kind)[..i]
      {
        assert DocCandidates(doc, fileName, kind)[..i + 1] == DocCandidates(doc, fileName, kind)[..i] + [DocCandidates(doc, fileName, kind)[i]];
        r := r + [Candidate(fileName + "[" + IntToString(i) + "]", doc.elems[i], kind)];
        i := i + 1;
      }
      assert DocCandidates(doc, fileName, kind)[..i] == DocCandidates(doc, fileName, kind);
    } else {
      r := r + [Candidate(fileName, doc, kind)];
    }
  }

  /** One folder onto the candidate list: its `.json` entries in listing order, each whose
      parse is truthy. */
  method PushDir(cands: seq<Candidate>, folder: string, files: seq<(string, Json)>, kind: Kind) returns (r: seq<Candidate>)
    ensures r == cands + DirCandidates(folder, files, kind)
  {
    r := cands;
    var i := 0;
    while i < |files|
      invariant 0 <= i <= |files|
      invariant r == cands + DirCandidates(folder, files[..i], kind)
    {
      assert files[..i + 1][..i] == files[..i];
      var (name, json) := files[i];
      if EndsWith(name, ".json") && Truthy(Some(json)) {
        r := r + [Candidate(folder + "/" + name, json, kind)];
      }
      i := i + 1;
    }
    assert files[..i] == files;
  }

  /** The candidate list in the order the program fills it. */
  method CollectCandidates(projects: Json, hideout: seq<(string, Json)>, quests: seq<(string, Json)>, deprecated: Json)
    returns (cands: seq<Candidate>)
    ensures cands == AllCandidates(projects, hideout, quests, deprecated)
  {
    cands := PushDoc([], projects, "projects.json", Project);
    cands := PushDir(cands, "hideout", hideout, Project);
    cands := PushDir(cands, "quests", quests, Quest);
    cands := PushDoc(cands, deprecated, "deprecated/quests.json", Quest);
  }

  /** What a run that gets through the scan returns: the five buckets and the index. */
  datatype Outcome = Outcome(buckets: Buckets, references: Index)

  /** Why `categorizeAllItems()` throws: the reference scan fails, or the blueprint test
      reads a name that is not text (the position of that item in the catalog). */
  datatype Failure = ScanFailed(scan: ScanError) | NameNotText(position: nat)

  /** `categorizeAllItems()` over an already loaded catalog. A scan error aborts before
      any item is touched. A name that is not text aborts the loop at that item, after the
      recycle values of the items before it are written. Otherwise the index is the scan's,
      the buckets are the decision list's, and every item carries its recycle value. */
  method CategorizeAllItems(items: seq<Item>, projects: Json, hideout: seq<(string, Json)>,
                            quests: seq<(string, Json)>, deprecated: Json)
    returns (r: Result<Outcome, Failure>)
    modifies set it | it in items
    ensures var scan := BuildIndex(PropsOf(items), AllCandidates(projects, hideout, quests, deprecated));
      scan.Err? ==> r == Err(ScanFailed(scan.error)) && forall it :: it in items ==> it.recycleValue == old(it.recycleValue)
    ensures var scan := BuildIndex(PropsOf(items), AllCandidates(projects, hideout, quests, deprecated));
      scan.Ok? && (exists k :: 0 <= k < |items| && ThrowsAt(items[k].props)) ==>
        r.Err? && r.error.NameNotText? && r.error.position < |items| && ThrowsAt(items[r.error.position].props) &&
        (forall k :: 0 <= k < r.error.position ==>
          !ThrowsAt(items[k].props) && items[k].recycleValue == Some(RecycleValue(ById(PropsOf(items)), items[k].props))) &&
        forall it :: it in items && it !in items[..r.error.position] ==> it.recycleValue == old(it.recycleValue)
    ensures var scan := BuildIndex(PropsOf(items), AllCandidates(projects, hideout, quests, deprecated));
      scan.Ok? && (forall k :: 0 <= k < |items| ==> !ThrowsAt(items[k].props)) ==>
        (r.Ok? && r.value.references == scan.value &&
        r.value.buckets.weapons == InBucket(items, ById(PropsOf(items)), scan.value, Weapons) &&
        r.value.buckets.blueprints == InBucket(items, ById(PropsOf(items)), scan.value, Blueprints) &&
        r.value.buckets.keep == InBucket(items, ById(PropsOf(items)), scan.value, Keep) &&
        r.value.buckets.shouldSell == InBucket(items, ById(PropsOf(items)), scan.value, Sell) &&
        r.value.buckets.safeToRecycle == InBucket(items, ById(PropsOf(items)), scan.value, Recycle) &&
        forall it :: it in items ==> it.recycleValue == Some(RecycleValue(ById(PropsOf(items)), it.props)))
    ensures forall it :: it in items ==> it.sourceFile == old(it.sourceFile) && it.image == old(it.image)
  {
    var cands := CollectCandidates(projects, hideout, quests, deprecated);
    var scan := BuildReferences(PropsOf(items), cands);
    if scan.Err? {
      return Err(ScanFailed(scan.error));
    }
    var buckets := ClassifyItems(items, scan.value);
    if buckets.Err? {
      return Err(NameNotText(buckets.error));
    }
    return Ok(Outcome(buckets.value, scan.value));
  }
}
