/** `getAllItems` (lib/getItems.tsx): every `.json` file of the item folder is parsed, each
    object it holds becomes a catalog item tagged with its file and its picture, and the
    list is sorted by display name. Directory listings and parsed file contents arrive as
    parameters; a file that cannot be read or parsed is `None`. */
module Catalog {
  import opened Basics
  import opened JsStrings
  import opened JsValues
  import opened Items
  import opened Images

  /** What the catalog keeps of one item: the parsed object, `_sourceFile` and `_image`. */
  datatype Record = Record(props: Json, sourceFile: Option<string>, image: Value)

  function View(it: Item): Record
    reads it
  {
    Record(it.props, it.sourceFile, it.image)
  }

  function Views(items: seq<Item>): (r: seq<Record>)
    reads set it | it in items
    ensures |r| == |items| && forall i :: 0 <= i < |items| ==> r[i] == View(items[i])
  {
    seq(|items|, i reads set it | it in items requires 0 <= i < |items| => View(items[i]))
  }

  // ---------------------------------------------------------------------------------
  // Expanding the data files

  /** The picture `pushItem` gives an object read from a file, or the error it throws. The
      loading functions take it as a parameter; `Pictures` is the one the program uses. */
  type Resolution = (string, Json) -> Result<Value, LoadError>

  function Pictures(images: seq<string>, folders: seq<Folder>): Resolution
  {
    (file: string, p: Json) => ImageFor(p, file, images, folders)
  }

  /** `pictures` agrees with the program's picture resolution on every object and file. */
  ghost predicate Resolves(pictures: Resolution, images: seq<string>, folders: seq<Folder>)
  {
    forall file, p {:trigger ImageFor(p, file, images, folders)} :: pictures(file, p) == ImageFor(p, file, images, folders)
  }

  lemma PicturesResolve(images: seq<string>, folders: seq<Folder>)
    ensures Resolves(Pictures(images, folders), images, folders)
  {
  }

  /** `p && typeof p === "object"`: a non-null object or an array. */
  predicate IsItemShaped(j: Json)
  {
    j.JObj? || j.JArr?
  }

  /** The records pushed for the values `pushItem` is tried on, in order. A value that is
      not an object is skipped; a picture error throws, and the program drops that value
      together with every value after it in the same file. */
  function ElementRecords(es: seq<Json>, file: string, pictures: Resolution): seq<Record>
    decreases |es|
  {
    if es == [] then []
    else if !IsItemShaped(es[0]) then ElementRecords(es[1..], file, pictures)
    else
      match pictures(file, es[0])
      case Err(_) => []
      case Ok(img) => [Record(es[0], Some(file), img)] + ElementRecords(es[1..], file, pictures)
  }

  /** The values of a parsed data file that `pushItem` is tried on: the elements of an
      array, the object itself, nothing for an unreadable file or any other JSON value. */
  function FileElements(parsed: Option<Json>): (r: seq<Json>)
    ensures parsed.Some? && parsed.value.JObj? ==> r == [parsed.value]
    ensures parsed.Some? && parsed.value.JArr? ==> r == parsed.value.elems
    ensures parsed.None? || !IsItemShaped(parsed.value) ==> r == []
  {
    if parsed.None? then []
    else
      match parsed.value
      case JArr(es) => es
      case JObj(_) => [parsed.value]
      case _ => []
  }

  /** The records pushed for one data file. */
  function FileRecords(file: string, parsed: Option<Json>, pictures: Resolution): seq<Record>
  {
    ElementRecords(FileElements(parsed), file, pictures)
  }

  /** The records of every listed `.json` file, in listing order. */
  function AllRecords(files: seq<(string, Option<Json>)>, pictures: Resolution): seq<Record>
    decreases |files|
  {
    if files == [] then []
    else
      (if EndsWith(files[0].0, ".json") then FileRecords(files[0].0, files[0].1, pictures) else []) +
      AllRecords(files[1..], pictures)
  }

  /** Every record comes from the file it names and carries the picture resolved for it;
      no record is a scalar. */
  lemma {:induction false} ElementRecordsAreResolved(es: seq<Json>, file: string, pictures: Resolution)
    ensures forall r :: r in ElementRecords(es, file, pictures) ==>
      r.props in es && IsItemShaped(r.props) && r.sourceFile == Some(file) && pictures(file, r.props) == Ok(r.image)
    decreases |es|
  {
    if es != [] {
      ElementRecordsAreResolved(es[1..], file, pictures);
    }
  }

  /** Every loaded record was read from a listed `.json` file and carries the picture the
      program resolves for it there. */
  lemma {:induction false} AllRecordsAreResolved(files: seq<(string, Option<Json>)>, images: seq<string>, folders: seq<Folder>)
    ensures forall r :: r in AllRecords(files, Pictures(images, folders)) ==>
      exists i :: 0 <= i < |files| && EndsWith(files[i].0, ".json") && r.sourceFile == Some(files[i].0) &&
        IsItemShaped(r.props) && ImageFor(r.props, files[i].0, images, folders) == Ok(r.image)
    decreases |files|
  {
    if files != [] {
      AllRecordsAreResolved(files[1..], images, folders);
      ElementRecordsAreResolved(FileElements(files[0].1), files[0].0, Pictures(images, folders));
      forall r | r in AllRecords(files, Pictures(images, folders))
        ensures exists i :: (0 <= i < |files| && EndsWith(files[i].0, ".json") && r.sourceFile == Some(files[i].0) &&
          IsItemShaped(r.props) && ImageFor(r.props, files[i].0, images, folders) == Ok(r.image))
      {
        if r !in AllRecords(files[1..], Pictures(images, folders)) {
          assert EndsWith(files[0].0, ".json");
        } else {
          var i :| 0 <= i < |files[1..]| && EndsWith(files[1..][i].0, ".json") && r.sourceFile == Some(files[1..][i].0) &&
            IsItemShaped(r.props) && ImageFor(r.props, files[1..][i].0, images, folders) == Ok(r.image);
          assert files[1..][i] == files[i + 1];
        }
      }
    }
  }

  /** An error drops the rest of its file only: the values before it are kept. */
  lemma {:induction false} ErrorDropsRestOfFile(es: seq<Json>, k: nat, file: string, pictures: Resolution)
    requires k < |es| && IsItemShaped(es[k]) && pictures(file, es[k]).Err?
    ensures ElementRecords(es, file, pictures) == ElementRecords(es[..k], file, pictures)
    decreases k
  {
    if k == 0 {
      assert es[..k] == [];
    } else {
      assert es[1..][..k - 1] == es[..k][1..];
      ErrorDropsRestOfFile(es[1..], k - 1, file, pictures);
    }
  }

  /** `pushItem(p, srcFile)`: a new item for `p`, tagged with its file and its picture, or
      the error that aborts the file. */
  method PushItem(p: Json, file: string, images: seq<string>, folders: seq<Folder>, ghost pictures: Resolution)
    returns (r: Result<Item, LoadError>)
    requires Resolves(pictures, images, folders)
    ensures r.Err? <==> pictures(file, p).Err?
    ensures r.Ok? ==> fresh(r.value) && View(r.value) == Record(p, Some(file), pictures(file, p).value)
  {
    var image := ResolveImage(p, file, images, folders);
    if image.Err? {
      return Err(image.error);
    }
    var it := new Item(p);
    it.sourceFile := Some(file);
    it.image := image.value;
    return Ok(it);
  }

  /** `pushItem` over the values of one file, in order. An error leaves the loop, as the
      program's exception leaves the file. */
  method PushElements(es: seq<Json>, file: string, images: seq<string>, folders: seq<Folder>, ghost pictures: Resolution)
    returns (batch: seq<Item>)
    requires Resolves(pictures, images, folders)
    ensures Views(batch) == ElementRecords(es, file, pictures)
    ensures forall it :: it in batch ==> fresh(it)
  {
    batch := [];
    var i := 0;
    ghost var done: seq<Record> := [];
    while i < |es|
      invariant 0 <= i <= |es|
      invariant |batch| == |done| && forall j :: 0 <= j < |batch| ==> View(batch[j]) == done[j]
      invariant ElementRecords(es, file, pictures) == done + ElementRecords(es[i..], file, pictures)
      invariant forall it :: it in batch ==> fresh(it)
    {
      assert es[i..][1..] == es[i + 1..];
      if IsItemShaped(es[i]) {
        var pushed := PushItem(es[i], file, images, folders, pictures);
        if pushed.Err? {
          assert ElementRecords(es[i..], file, pictures) == [];
          assert done + [] == done;
          break;
        }
        done := done + [View(pushed.value)];
        batch := batch + [pushed.value];
      }
      i := i + 1;
    }
    assert i == |es| ==> es[i..] == [];
    assert ElementRecords(es, file, pictures) == done;
    assert Views(batch) == done;
  }

  /** One data file: the items pushed for its elements when it is an array, for itself when
      it is an object, none otherwise. */
  method PushFile(file: string, parsed: Option<Json>, images: seq<string>, folders: seq<Folder>, ghost pictures: Resolution)
    returns (batch: seq<Item>)
    requires Resolves(pictures, images, folders)
    ensures Views(batch) == FileRecords(file, parsed, pictures)
    ensures forall it :: it in batch ==> fresh(it)
  {
    batch := [];
    if parsed.None? {
      return;
    }
    var json := parsed.value;
    if json.JArr? {
      batch := PushElements(json.elems, file, images, folders, pictures);
    } else if json.JObj? {
      var pushed := PushItem(json, file, images, folders, pictures);
      assert [json][1..] == [] && ElementRecords([], file, pictures) == [];
      if pushed.Ok? {
        batch := [pushed.value];
        assert Views(batch) == [View(pushed.value)];
      }
    }
  }

  /** The file loop over the item folder's listing, skipping names without `.json`. */
  method LoadFiles(files: seq<(string, Option<Json>)>, images: seq<string>, folders: seq<Folder>, ghost pictures: Resolution)
    returns (items: seq<Item>)
    requires Resolves(pictures, images, folders)
    ensures Views(items) == AllRecords(files, pictures)
    ensures forall it :: it in items ==> fresh(it)
  {
    items := [];
    var i := 0;
    ghost var done: seq<Record> := [];
    while i < |files|
      invariant 0 <= i <= |files|
      invariant |items| == |done| && forall j :: 0 <= j < |items| ==> View(items[j]) == done[j]
      invariant AllRecords(files, pictures) == done + AllRecords(files[i..], pictures)
      invariant forall it :: it in items ==> fresh(it)
    {
      RecordsAdvance(files, i, pictures, done);
      var (name, parsed) := files[i];
      if EndsWith(name, ".json") {
        var batch := PushFile(name, parsed, images, folders, pictures);
        AppendViews(items, batch, done, FileRecords(name, parsed, pictures));
        items := items + batch;
        done := done + FileRecords(name, parsed, pictures);
      } else {
        assert done + [] == done;
      }
      i := i + 1;
    }
    assert files[i..] == [];
    assert done + [] == done;
    assert Views(items) == done;
  }

  /** The records still to come start with those of file `i`. */
  lemma RecordsAdvance(files: seq<(string, Option<Json>)>, i: nat, pictures: Resolution, done: seq<Record>)
    requires i < |files| && AllRecords(files, pictures) == done + AllRecords(files[i..], pictures)
    ensures var add := if EndsWith(files[i].0, ".json") then FileRecords(files[i].0, files[i].1, pictures) else [];
      AllRecords(files, pictures) == (done + add) + AllRecords(files[i + 1..], pictures)
  {
    AllRecordsStep(files, i, pictures);
    var add := if EndsWith(files[i].0, ".json") then FileRecords(files[i].0, files[i].1, pictures) else [];
    ConcatAssoc(done, add, AllRecords(files[i + 1..], pictures));
  }

  lemma AllRecordsStep(files: seq<(string, Option<Json>)>, i: nat, pictures: Resolution)
    requires i < |files|
    ensures AllRecords(files[i..], pictures) ==
      (if EndsWith(files[i].0, ".json") then FileRecords(files[i].0, files[i].1, pictures) else []) +
      AllRecords(files[i + 1..], pictures)
  {
    assert files[i..][1..] == files[i + 1..];
  }

  lemma AppendViews(items: seq<Item>, batch: seq<Item>, done: seq<Record>, recs: seq<Record>)
    requires |items| == |done| && forall j :: 0 <= j < |items| ==> View(items[j]) == done[j]
    requires Views(batch) == recs
    ensures |items + batch| == |done + recs|
    ensures forall j :: 0 <= j < |items + batch| ==> View((items + batch)[j]) == (done + recs)[j]
  {
    forall j | 0 <= j < |items + batch|
      ensures View((items + batch)[j]) == (done + recs)[j]
    {
      if j >= |items| {
        assert (items + batch)[j] == batch[j - |items|];
        assert View(batch[j - |items|]) == recs[j - |items|];
      }
    }
  }

  // ---------------------------------------------------------------------------------
  // The sort

  /** The sort key: the display name when it is a string, otherwise
      `name.en ?? id ?? ""` as a string, lower-cased. */
  function NameKey(p: Json): string
  {
    var name := Get(Some(p), "name");
    if name.Some? && name.value.JStr? then ToLower(name.value.s)
    else ToLower(ToStrOpt(Coalesce(Coalesce(Get(name, "en"), Get(Some(p), "id")), Some(JStr("")))))
  }

  /** The key `getAllItems` sorts its items by. */
  const ByName: Item -> string := (it: Item) => NameKey(it.props)

  /** `localeCompare(a, b) <= 0` is a total preorder on strings; the model takes it as a
      parameter. */
  ghost predicate TotalPreorder(le: (string, string) -> bool)
  {
    (forall a, b :: le(a, b) || le(b, a)) &&
    (forall a, b, c :: le(a, b) && le(b, c) ==> le(a, c))
  }

  /** `x` goes after every element whose key is not greater than its own. */
  function Insert<T>(x: T, s: seq<T>, key: T -> string, le: (string, string) -> bool): seq<T>
    decreases |s|
  {
    if s == [] then [x]
    else if !le(key(s[0]), key(x)) then [x] + s
    else [s[0]] + Insert(x, s[1..], key, le)
  }

  /** `Array.prototype.sort` with a key comparator, which is stable: an insertion sort. */
  function SortBy<T>(s: seq<T>, key: T -> string, le: (string, string) -> bool): seq<T>
    decreases |s|
  {
    if s == [] then []
    else Insert(s[|s| - 1], SortBy(s[..|s| - 1], key, le), key, le)
  }

  lemma {:induction false} InsertPermutes<T>(x: T, s: seq<T>, key: T -> string, le: (string, string) -> bool)
    ensures multiset(Insert(x, s, key, le)) == multiset(s) + multiset{x}
    decreases |s|
  {
    if s != [] && le(key(s[0]), key(x)) {
      InsertPermutes(x, s[1..], key, le);
      assert s == [s[0]] + s[1..];
    }
  }

  /** The sort only reorders: it keeps every element, as often as it occurs. */
  lemma {:induction false} SortByPermutes<T>(s: seq<T>, key: T -> string, le: (string, string) -> bool)
    ensures multiset(SortBy(s, key, le)) == multiset(s)
    decreases |s|
  {
    if s != [] {
      SortByPermutes(s[..|s| - 1], key, le);
      InsertPermutes(s[|s| - 1], SortBy(s[..|s| - 1], key, le), key, le);
      assert s == s[..|s| - 1] + [s[|s| - 1]];
    }
  }

  ghost predicate SortedBy<T>(s: seq<T>, key: T -> string, le: (string, string) -> bool)
  {
    forall i, j :: 0 <= i < j < |s| ==> le(key(s[i]), key(s[j]))
  }

  lemma {:induction false} InsertSorted<T>(x: T, s: seq<T>, key: T -> string, le: (string, string) -> bool)
    requires TotalPreorder(le) && SortedBy(s, key, le)
    ensures SortedBy(Insert(x, s, key, le), key, le)
    decreases |s|
  {
    if s != [] && le(key(s[0]), key(x)) {
      InsertSorted(x, s[1..], key, le);
      var r := Insert(x, s, key, le);
      var t := Insert(x, s[1..], key, le);
      assert r == [s[0]] + t;
      InsertPermutes(x, s[1..], key, le);
      forall j | 0 < j < |r|
        ensures le(key(s[0]), key(r[j]))
      {
        assert r[j] in multiset(t);
        assert r[j] in multiset(s[1..]) + multiset{x};
        if r[j] != x {
          var k :| 0 <= k < |s[1..]| && s[1..][k] == r[j];
          assert s[k + 1] == r[j];
        }
      }
    }
  }

  /** The result is in key order under any total preorder. */
  lemma {:induction false} SortBySorted<T>(s: seq<T>, key: T -> string, le: (string, string) -> bool)
    requires TotalPreorder(le)
    ensures SortedBy(SortBy(s, key, le), key, le)
    decreases |s|
  {
    if s != [] {
      SortBySorted(s[..|s| - 1], key, le);
      InsertSorted(s[|s| - 1], SortBy(s[..|s| - 1], key, le), key, le);
    }
  }

  /** Two keys the comparator ranks equal. */
  predicate Tied(le: (string, string) -> bool, a: string, b: string)
  {
    le(a, b) && le(b, a)
  }

  /** The elements whose key ties with `k`. */
  function TiesWith<T>(key: T -> string, le: (string, string) -> bool, k: string): T -> bool
  {
    (x: T) => Tied(le, key(x), k)
  }

  /** Where `Insert` puts `x`: after the leading elements whose keys are not greater than
      its own. */
  function InsertPoint<T>(x: T, s: seq<T>, key: T -> string, le: (string, string) -> bool): (m: nat)
    ensures m <= |s|
    ensures forall i :: 0 <= i < m ==> le(key(s[i]), key(x))
    ensures m < |s| ==> !le(key(s[m]), key(x))
    decreases |s|
  {
    if s == [] || !le(key(s[0]), key(x)) then 0 else 1 + InsertPoint(x, s[1..], key, le)
  }

  lemma {:induction false} InsertAt<T>(x: T, s: seq<T>, key: T -> string, le: (string, string) -> bool)
    ensures Insert(x, s, key, le) == s[..InsertPoint(x, s, key, le)] + [x] + s[InsertPoint(x, s, key, le)..]
    decreases |s|
  {
    if s != [] && le(key(s[0]), key(x)) {
      InsertAt(x, s[1..], key, le);
      var m := InsertPoint(x, s[1..], key, le);
      assert s[..m + 1] == [s[0]] + s[1..][..m];
      assert s[m + 1..] == s[1..][m..];
    }
  }

  /** In a sorted list, nothing from the first element whose key is greater than `x`'s on
      ties with a key `x` ties with. */
  lemma NoTiesAbove<T>(x: T, s: seq<T>, key: T -> string, le: (string, string) -> bool, k: string)
    requires TotalPreorder(le) && SortedBy(s, key, le)
    requires s != [] && !le(key(s[0]), key(x)) && Tied(le, key(x), k)
    ensures forall i :: 0 <= i < |s| ==> !TiesWith(key, le, k)(s[i])
  {
    forall i | 0 <= i < |s|
      ensures !Tied(le, key(s[i]), k)
    {
      if i > 0 {
        assert le(key(s[0]), key(s[i]));
      }
    }
  }

  lemma SortedSuffix<T>(s: seq<T>, m: nat, key: T -> string, le: (string, string) -> bool)
    requires m <= |s| && SortedBy(s, key, le)
    ensures SortedBy(s[m..], key, le)
  {
    forall i, j | 0 <= i < j < |s[m..]|
      ensures le(key(s[m..][i]), key(s[m..][j]))
    {
      assert s[m..][i] == s[m + i] && s[m..][j] == s[m + j];
    }
  }

  lemma SwapEmpty<T>(a: seq<T>, b: seq<T>, c: seq<T>)
    requires b == [] || c == []
    ensures a + c + b == a + b + c
  {
    if b == [] {
      assert a + c + b == a + c && a + b == a;
    } else {
      assert a + c == a;
    }
  }

  /** Putting `x` at `m` keeps the order of the selected elements when none of them
      follows `m` or `x` is not selected itself. */
  lemma SelectedAroundPoint<T>(x: T, s: seq<T>, m: nat, p: T -> bool)
    requires m <= |s| && (p(x) ==> Filter(s[m..], p) == [])
    ensures Filter(s[..m] + [x] + s[m..], p) == Filter(s, p) + Filter([x], p)
  {
    FilterConcat(s[..m] + [x], s[m..], p);
    FilterConcat(s[..m], [x], p);
    FilterSplit(s, m, p);
    FilterSingle(x, p);
    SwapEmpty(Filter(s[..m], p), Filter(s[m..], p), Filter([x], p));
  }

  /** Inserting into a sorted list puts `x` after every element it ties with, so the
      elements tied with a key keep the order they had. */
  lemma InsertKeepsTies<T>(x: T, s: seq<T>, key: T -> string, le: (string, string) -> bool, k: string)
    requires TotalPreorder(le) && SortedBy(s, key, le)
    ensures Filter(Insert(x, s, key, le), TiesWith(key, le, k)) ==
      Filter(s, TiesWith(key, le, k)) + Filter([x], TiesWith(key, le, k))
  {
    var tie := TiesWith(key, le, k);
    var m := InsertPoint(x, s, key, le);
    InsertAt(x, s, key, le);
    if tie(x) {
      if m < |s| {
        SortedSuffix(s, m, key, le);
        NoTiesAbove(x, s[m..], key, le, k);
        FilterNone(s[m..], tie);
      } else {
        assert s[m..] == [];
      }
    }
    SelectedAroundPoint(x, s, m, tie);
  }

  lemma {:induction false} FilterNone<T>(s: seq<T>, p: T -> bool)
    requires forall i :: 0 <= i < |s| ==> !p(s[i])
    ensures Filter(s, p) == []
    decreases |s|
  {
    if s != [] {
      FilterNone(s[1..], p);
    }
  }

  /** The sort is stable: the elements tied with any key come out in their input order. */
  lemma {:induction false} SortByStable<T>(s: seq<T>, key: T -> string, le: (string, string) -> bool, k: string)
    requires TotalPreorder(le)
    ensures Filter(SortBy(s, key, le), TiesWith(key, le, k)) == Filter(s, TiesWith(key, le, k))
    decreases |s|
  {
    if s != [] {
      var n := |s| - 1;
      SortByStable(s[..n], key, le, k);
      SortBySorted(s[..n], key, le);
      InsertKeepsTies(s[n], SortBy(s[..n], key, le), key, le, k);
      assert s == s[..n] + [s[n]];
      FilterConcat(s[..n], [s[n]], TiesWith(key, le, k));
    }
  }

  // ---------------------------------------------------------------------------------
  // The whole load

  /** `getAllItems()`: `loaded` is the list in push order, `items` the same objects sorted
      by name. */
  method GetAllItems(files: seq<(string, Option<Json>)>, images: seq<string>, folders: seq<Folder>,
                     le: (string, string) -> bool)
    returns (loaded: seq<Item>, items: seq<Item>)
    ensures Views(loaded) == AllRecords(files, Pictures(images, folders))
    ensures items == SortBy(loaded, ByName, le)
    ensures forall it :: it in loaded ==> fresh(it)
  {
    PicturesResolve(images, folders);
    loaded := LoadFiles(files, images, folders, Pictures(images, folders));
    items := SortBy(loaded, ByName, le);
  }

  /** What the load promises under a total preorder: the sorted list holds exactly the
      loaded items, in name order, items with tied names in load order. */
  lemma GetAllItemsMeaning(loaded: seq<Item>, le: (string, string) -> bool, k: string)
    requires TotalPreorder(le)
    ensures multiset(SortBy(loaded, ByName, le)) == multiset(loaded)
    ensures SortedBy(SortBy(loaded, ByName, le), ByName, le)
    ensures Filter(SortBy(loaded, ByName, le), TiesWith(ByName, le, k)) == Filter(loaded, TiesWith(ByName, le, k))
  {
    SortByPermutes(loaded, ByName, le);
    SortBySorted(loaded, ByName, le);
    SortByStable(loaded, ByName, le, k);
  }
}
