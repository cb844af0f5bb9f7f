/** How lib/getItems.tsx picks the picture of one catalog item. An image the item's JSON
    names explicitly wins: its base name is looked up in the item image folder, then, by
    exact name, in each sub-folder of the image root. Without one, a truthy `_image` the
    item's JSON already carries is kept. Failing both, a set of candidate
    stems built from the data file name, the id and the display name is tried against the
    item image folder, first as file-name prefixes and then as substrings. Folder listings
    arrive as parameters; copying the picture into the public folder is not modelled. */
module Images {
  import opened Basics
  import opened JsStrings
  import opened JsValues
  import opened Localize
  import opened Slug

  /** The JSON fields that may name a picture, in the order they are consulted. */
  const ImageFields: seq<string> := ["image", "icon", "sprite", "imagePath", "iconPath", "texture", "imageUrl", "thumbnail", "imageFilename"]

  /** Public path of the item image folder. */
  const ItemsImagePrefix: string := "/arcraiders-data/images/items/"

  /** Public path of the image root. */
  const ImagesPrefix: string := "/arcraiders-data/images/"

  /** A sub-folder of the image root: its name and its listing, `None` when it cannot be
      listed (a plain file, say). */
  type Folder = (string, Option<seq<string>>)

  /** The program throws while resolving the heuristic image: the display name's English
      text is truthy but not a string, so `toLowerCase` is not a function. */
  datatype LoadError = NameNotText

  // ---------------------------------------------------------------------------------
  // The explicit image

  /** What one image field contributes: a non-blank string trimmed, the localized text of
      an object when it is truthy, and nothing for anything else. */
  function FieldPick(v: Value): (r: Option<Json>)
    ensures r.Some? ==> Truthy(Some(r.value))
  {
    if !Truthy(v) then None
    else if v.value.JStr? then
      var t := Trim(v.value.s);
      if t != "" then Some(JStr(t)) else None
    else if IsObjectLike(v) then
      var e := PickLocalized(v);
      if Truthy(e) then Some(e.value) else None
    else None
  }

  /** The contribution of the first of `keys` that contributes anything. */
  function ExplicitImageFrom(p: Json, keys: seq<string>): Option<Json>
    decreases |keys|
  {
    if keys == [] then None
    else
      var pick := FieldPick(Get(Some(p), keys[0]));
      if pick.Some? then pick else ExplicitImageFrom(p, keys[1..])
  }

  /** The explicit image of an item, before it is resolved to a file. */
  function ExplicitImage(p: Json): Option<Json>
  {
    ExplicitImageFrom(p, ImageFields)
  }

  /** The explicit image is the contribution of one image field, every field before which
      contributes nothing; and there is none exactly when no field contributes. */
  lemma {:induction false} ExplicitImageIsFirstField(p: Json, keys: seq<string>)
    ensures ExplicitImageFrom(p, keys).None? <==> forall k :: 0 <= k < |keys| ==> FieldPick(Get(Some(p), keys[k])).None?
    ensures ExplicitImageFrom(p, keys).Some? ==>
      exists i :: 0 <= i < |keys| && FieldPick(Get(Some(p), keys[i])) == ExplicitImageFrom(p, keys) &&
        forall k :: 0 <= k < i ==> FieldPick(Get(Some(p), keys[k])).None?
    decreases |keys|
  {
    if keys != [] && FieldPick(Get(Some(p), keys[0])).None? {
      ExplicitImageIsFirstField(p, keys[1..]);
      if ExplicitImageFrom(p, keys).Some? {
        var i :| 0 <= i < |keys[1..]| && FieldPick(Get(Some(p), keys[1..][i])) == ExplicitImageFrom(p, keys[1..]) &&
          forall k :: 0 <= k < i ==> FieldPick(Get(Some(p), keys[1..][k])).None?;
        assert FieldPick(Get(Some(p), keys[i + 1])) == ExplicitImageFrom(p, keys);
      }
    } else if keys != [] {
      assert FieldPick(Get(Some(p), keys[0])) == ExplicitImageFrom(p, keys);
    }
  }

  lemma FromStep(p: Json, keys: seq<string>, i: nat)
    requires i < |keys|
    ensures ExplicitImageFrom(p, keys[i..]) ==
      var pick := FieldPick(Get(Some(p), keys[i]));
      if pick.Some? then pick else ExplicitImageFrom(p, keys[i + 1..])
  {
    assert keys[i..][1..] == keys[i + 1..];
  }

  /** The field loop: each field in order, skipping falsy values and blank strings, stopping
      at the first string or at the first object whose localized text is truthy. */
  method FindExplicitImage(p: Json) returns (e: Option<Json>)
    ensures e == ExplicitImage(p)
  {
    e := FirstPick(p, ImageFields);
  }

  /** The field loop over any list of field names. */
  method FirstPick(p: Json, keys: seq<string>) returns (e: Option<Json>)
    ensures e == ExplicitImageFrom(p, keys)
  {
    var i := 0;
    while i < |keys|
      invariant 0 <= i <= |keys|
      invariant ExplicitImageFrom(p, keys[i..]) == ExplicitImageFrom(p, keys)
    {
      FromStep(p, keys, i);
      var v := Get(Some(p), keys[i]);
      if !Truthy(v) {
      } else if v.value.JStr? && Trim(v.value.s) != "" {
        return Some(JStr(Trim(v.value.s)));
      } else if IsObjectLike(v) {
        var candidate := PickLocalized(v);
        if Truthy(candidate) {
          return Some(candidate.value);
        }
      }
      i := i + 1;
    }
    return None;
  }

  // ---------------------------------------------------------------------------------
  // Resolving the explicit image to a file

  predicate IsSlash(c: char)
  {
    c == '/'
  }

  predicate NotSlash(c: char)
  {
    c != '/'
  }

  /** `path.basename(s)` on POSIX paths: trailing slashes are dropped, then the text after
      the last remaining slash is kept. */
  function Basename(s: string): (r: string)
    ensures forall k :: 0 <= k < |r| ==> r[k] != '/'
  {
    var t := s[..|s| - Run(s, IsSlash)];
    RunAll(t, NotSlash);
    t[|t| - Run(t, NotSlash)..]
  }

  /** A base name is the final segment of a path: it is recovered from a path that joins a
      directory to it, with or without a trailing slash. */
  lemma BasenameOfJoin(dir: string, name: string, slashes: nat)
    requires name != [] && forall k :: 0 <= k < |name| ==> name[k] != '/'
    ensures Basename(dir + "/" + name + seq(slashes, _ => '/')) == name
  {
    var tail := seq(slashes, _ => '/');
    var s := dir + "/" + name + tail;
    RunOfAppend(dir + "/" + name, tail, IsSlash);
    assert s[..|s| - slashes] == (dir + "/") + name;
    RunOfAppend(dir + "/", name, NotSlash);
  }

  /** `imageFilesLower.findIndex(f => f === b || f.endsWith(b))` with `b` the lower-cased
      base name; equality is a case of ending with. */
  function ItemsFolderMatch(lower: seq<string>, b: string): (r: Option<nat>)
    ensures r.Some? ==> r.value < |lower| && EndsWith(lower[r.value], b)
    ensures r.Some? ==> forall j :: 0 <= j < r.value ==> !EndsWith(lower[j], b)
    ensures r.None? ==> forall j :: 0 <= j < |lower| ==> !EndsWith(lower[j], b)
  {
    FirstIndexWhere(lower, f => EndsWith(f, b))
  }

  /** The first listed file of a folder whose lower-cased name is `b`. */
  function FolderMatch(files: seq<string>, b: string): (r: Option<nat>)
    ensures r.Some? ==> r.value < |files| && ToLower(files[r.value]) == b
    ensures r.None? ==> forall j :: 0 <= j < |files| ==> ToLower(files[j]) != b
  {
    FirstIndexWhere(files, f => ToLower(f) == b)
  }

  /** The sub-folder walk: the first folder, in listing order, that can be listed and holds
      the file, and that file's public path. */
  function SubfolderMatch(folders: seq<Folder>, b: string): Option<string>
    decreases |folders|
  {
    if folders == [] then None
    else
      var (sub, listing) := folders[0];
      var idx := if listing.Some? then FolderMatch(listing.value, b) else None;
      if idx.Some? then Some(ImagesPrefix + sub + "/" + listing.value[idx.value])
      else SubfolderMatch(folders[1..], b)
  }

  /** A sub-folder match names a file of a listable folder whose name equals the lower-cased base name
      up to case; no match means no listable folder holds one. */
  lemma {:induction false} SubfolderMatchFinds(folders: seq<Folder>, b: string)
    ensures SubfolderMatch(folders, b).Some? ==>
      exists i, j :: 0 <= i < |folders| && folders[i].1.Some? && 0 <= j < |folders[i].1.value| &&
        ToLower(folders[i].1.value[j]) == b &&
        SubfolderMatch(folders, b) == Some(ImagesPrefix + folders[i].0 + "/" + folders[i].1.value[j])
    ensures SubfolderMatch(folders, b).None? ==>
      forall i, j :: 0 <= i < |folders| && folders[i].1.Some? && 0 <= j < |folders[i].1.value| ==>
        ToLower(folders[i].1.value[j]) != b
    decreases |folders|
  {
    if folders != [] {
      SubfolderMatchFinds(folders[1..], b);
      var (sub, listing) := folders[0];
      var idx := if listing.Some? then FolderMatch(listing.value, b) else None;
      if idx.Some? {
        assert SubfolderMatch(folders, b) == Some(ImagesPrefix + folders[0].0 + "/" + folders[0].1.value[idx.value]);
      } else if SubfolderMatch(folders, b).Some? {
        var i, j :| 0 <= i < |folders[1..]| && folders[1..][i].1.Some? && 0 <= j < |folders[1..][i].1.value| &&
          ToLower(folders[1..][i].1.value[j]) == b &&
          SubfolderMatch(folders[1..], b) == Some(ImagesPrefix + folders[1..][i].0 + "/" + folders[1..][i].1.value[j]);
        assert folders[1..][i] == folders[i + 1];
      } else {
        forall i, j | 0 <= i < |folders| && folders[i].1.Some? && 0 <= j < |folders[i].1.value|
          ensures ToLower(folders[i].1.value[j]) != b
        {
          if i > 0 {
            assert folders[i] == folders[1..][i - 1];
          }
        }
      }
    }
  }

  /** The sub-folder loop: folders that cannot be listed are skipped, the first folder with
      the file ends the walk. */
  method FindInSubfolders(folders: seq<Folder>, b: string) returns (image: Option<string>)
    ensures image == SubfolderMatch(folders, b)
  {
    var i := 0;
    while i < |folders|
      invariant 0 <= i <= |folders|
      invariant SubfolderMatch(folders[i..], b) == SubfolderMatch(folders, b)
    {
      assert folders[i..][1..] == folders[i + 1..];
      var (sub, listing) := folders[i];
      if listing.Some? {
        var idx := FolderMatch(listing.value, b);
        if idx.Some? {
          return Some(ImagesPrefix + sub + "/" + listing.value[idx.value]);
        }
      }
      i := i + 1;
    }
    return None;
  }

  /** The explicit image resolved to a public path. A value that is not a string makes
      `path.basename` throw, which the program swallows. */
  function ResolveExplicit(e: Json, images: seq<string>, folders: seq<Folder>): Option<string>
  {
    if !e.JStr? then None
    else
      var b := ToLower(Basename(e.s));
      var idx := ItemsFolderMatch(Lowered(images), b);
      if idx.Some? then Some(ItemsImagePrefix + images[idx.value])
      else SubfolderMatch(folders, b)
  }

  method ResolveExplicitImage(e: Json, images: seq<string>, folders: seq<Folder>) returns (image: Option<string>)
    ensures image == ResolveExplicit(e, images, folders)
  {
    if !e.JStr? {
      return None;
    }
    var b := ToLower(Basename(e.s));
    var idx := ItemsFolderMatch(Lowered(images), b);
    if idx.Some? {
      image := Some(ItemsImagePrefix + images[idx.value]);
    } else {
      image := FindInSubfolders(folders, b);
    }
  }

  // ---------------------------------------------------------------------------------
  // The heuristic image

  /** `f.replace(/\.json$/i, "").toLowerCase()`. */
  function FileBase(file: string): (r: string)
    ensures |r| <= |file|
  {
    var stem := if |file| >= 5 && ToLower(file[|file| - 5..]) == ".json" then file[..|file| - 5] else file;
    ToLower(stem)
  }

  /** `typeof p.name === "string" ? p.name : (p.name?.en ?? "")`, and the error of calling
      `toLowerCase` on what that gives when it is truthy and not a string. */
  function RawName(p: Json): Result<string, LoadError>
  {
    var name := Get(Some(p), "name");
    if name.Some? && name.value.JStr? then Ok(name.value.s)
    else
      var en := Coalesce(Get(name, "en"), Some(JStr("")));
      if !Truthy(en) then Ok("")
      else if en.value.JStr? then Ok(en.value.s)
      else Err(NameNotText)
  }

  /** The stems in the order they are added to the candidate set, duplicates included. */
  function CandidateStems(p: Json, file: string, name: string): seq<string>
  {
    var id := Get(Some(p), "id");
    (if file != "" then [FileBase(file)] else []) +
    (if Truthy(id) then [ToLower(ToStr(id.value))] else []) +
    (if name != "" then [ToLower(name), Underscored(ToLower(name)), NormalizeCandidateBase(Some(JStr(name)))] else []) +
    [FileBase(file), NormalizeCandidateBase(Some(JStr(FileBase(file))))]
  }

  /** The candidate set in its iteration order: each stem once, where it was first added. */
  function Candidates(p: Json, file: string): (r: Result<seq<string>, LoadError>)
    ensures r.Ok? ==> FileBase(file) in r.value
  {
    match RawName(p)
    case Err(e) => Err(e)
    case Ok(name) =>
      var stems := CandidateStems(p, file, name);
      assert stems[|stems| - 2] == FileBase(file);
      Ok(Dedup(stems))
  }

  /** A candidate matches a lower-cased image file name as its prefix in the first pass and
      as a substring in the second. */
  predicate Matches(f: string, c: string, byPrefix: bool)
  {
    if byPrefix then StartsWith(f, c) else Contains(f, c)
  }

  /** One pass: the image index found for the first non-empty candidate that matches any
      image file. */
  function Pass(cands: seq<string>, lower: seq<string>, byPrefix: bool): (r: Option<nat>)
    ensures r.Some? ==> r.value < |lower|
    decreases |cands|
  {
    if cands == [] then None
    else if cands[0] == "" then Pass(cands[1..], lower, byPrefix)
    else
      var c := cands[0];
      var idx := FirstIndexWhere(lower, f => Matches(f, c, byPrefix));
      if idx.Some? then idx else Pass(cands[1..], lower, byPrefix)
  }

  /** The prefix pass, then the substring pass when the first finds nothing. */
  function HeuristicIndex(cands: seq<string>, lower: seq<string>): (r: Option<nat>)
    ensures r.Some? ==> r.value < |lower|
  {
    var first := Pass(cands, lower, true);
    if first.Some? then first else Pass(cands, lower, false)
  }

  /** A pass finds an image exactly when some non-empty candidate matches some image, and
      what it finds is the first image matched by such a candidate. */
  lemma {:induction false} PassFinds(cands: seq<string>, lower: seq<string>, byPrefix: bool)
    ensures Pass(cands, lower, byPrefix).Some? ==>
      exists c :: c in cands && c != "" && Matches(lower[Pass(cands, lower, byPrefix).value], c, byPrefix)
    ensures Pass(cands, lower, byPrefix).None? <==>
      forall c, j :: c in cands && c != "" && 0 <= j < |lower| ==> !Matches(lower[j], c, byPrefix)
    decreases |cands|
  {
    if cands != [] {
      PassFinds(cands[1..], lower, byPrefix);
      var c := cands[0];
      if c != "" {
        var idx := FirstIndexWhere(lower, f => Matches(f, c, byPrefix));
        if idx.Some? {
          assert Matches(lower[idx.value], c, byPrefix);
        }
      }
      forall c', j | c' in cands && c' != "" && 0 <= j < |lower| && Pass(cands, lower, byPrefix).None?
        ensures !Matches(lower[j], c', byPrefix)
      {
        if c' != cands[0] {
          assert c' in cands[1..];
        }
      }
      if Pass(cands, lower, byPrefix).Some? && Pass(cands, lower, byPrefix) == Pass(cands[1..], lower, byPrefix) {
        var d :| d in cands[1..] && d != "" && Matches(lower[Pass(cands[1..], lower, byPrefix).value], d, byPrefix);
        assert d in cands;
      }
    }
  }

  /** The second pass looks only when no candidate starts any image name, and nothing is
      found exactly when no candidate occurs in any image name. */
  lemma HeuristicIndexMeaning(cands: seq<string>, lower: seq<string>)
    ensures (exists c, j :: c in cands && c != "" && 0 <= j < |lower| && StartsWith(lower[j], c)) ==>
      Pass(cands, lower, true).Some? && HeuristicIndex(cands, lower) == Pass(cands, lower, true) &&
      exists c :: c in cands && c != "" && StartsWith(lower[Pass(cands, lower, true).value], c)
    ensures HeuristicIndex(cands, lower).Some? ==>
      exists c :: c in cands && c != "" && Contains(lower[HeuristicIndex(cands, lower).value], c)
    ensures HeuristicIndex(cands, lower).None? <==>
      forall c, j :: c in cands && c != "" && 0 <= j < |lower| ==> !Contains(lower[j], c)
  {
    PassFinds(cands, lower, true);
    PassFinds(cands, lower, false);
    var first := Pass(cands, lower, true);
    if first.Some? {
      var c :| c in cands && c != "" && Matches(lower[first.value], c, true);
      assert StartsWith(lower[first.value], c);
      ContainsPrefix(lower[first.value], c);
    } else {
      forall c, j | c in cands && c != "" && 0 <= j < |lower|
        ensures !StartsWith(lower[j], c)
      {
        assert !Matches(lower[j], c, true);
      }
      forall c, j | c in cands && c != "" && 0 <= j < |lower| && Contains(lower[j], c)
        ensures Pass(cands, lower, false).Some?
      {
        assert Matches(lower[j], c, false);
      }
    }
  }

  /** A candidate loop: empty candidates are skipped, the first one that matches ends it. */
  method RunPass(cands: seq<string>, lower: seq<string>, byPrefix: bool) returns (found: Option<nat>)
    ensures found == Pass(cands, lower, byPrefix)
  {
    var i := 0;
    while i < |cands|
      invariant 0 <= i <= |cands|
      invariant Pass(cands[i..], lower, byPrefix) == Pass(cands, lower, byPrefix)
    {
      assert cands[i..][1..] == cands[i + 1..];
      var c := cands[i];
      if c != "" {
        var idx := FirstIndexWhere(lower, f => Matches(f, c, byPrefix));
        if idx.Some? {
          return idx;
        }
      }
      i := i + 1;
    }
    return None;
  }

  /** `imageList.map(f => f.toLowerCase())`. */
  function Lowered(images: seq<string>): (r: seq<string>)
    ensures |r| == |images| && forall j :: 0 <= j < |r| ==> r[j] == ToLower(images[j])
  {
    seq(|images|, j requires 0 <= j < |images| => ToLower(images[j]))
  }

  /** The `_image` member the parsed object already carries, if any. */
  function CarriedImage(p: Json): Value
  {
    Get(Some(p), "_image")
  }

  /** `p._image` once `pushItem` is done with an item read from `file`: the resolved explicit
      image when there is one; otherwise a truthy `_image` the object already carried, which
      skips the heuristic; otherwise the heuristic match in the item image folder, or the
      carried (falsy or missing) value when nothing matches. The heuristic can throw on the
      display name, which aborts the rest of the file. */
  function ImageFor(p: Json, file: string, images: seq<string>, folders: seq<Folder>): Result<Value, LoadError>
  {
    var explicit := ExplicitImage(p);
    var resolved := if explicit.Some? then ResolveExplicit(explicit.value, images, folders) else None;
    if resolved.Some? then Ok(Some(JStr(resolved.value)))
    else if Truthy(CarriedImage(p)) then Ok(CarriedImage(p))
    else
      match Candidates(p, file)
      case Err(e) => Err(e)
      case Ok(cands) =>
        var idx := HeuristicIndex(cands, Lowered(images));
        if idx.Some? then Ok(Some(JStr(ItemsImagePrefix + images[idx.value]))) else Ok(CarriedImage(p))
  }

  /** A public path of a listed file: a file of the item image folder, or a file of a
      listable sub-folder of the image root. */
  ghost predicate Listed(path: string, images: seq<string>, folders: seq<Folder>)
  {
    (exists j :: 0 <= j < |images| && path == ItemsImagePrefix + images[j]) ||
    (exists i, j :: 0 <= i < |folders| && folders[i].1.Some? && 0 <= j < |folders[i].1.value| &&
      path == ImagesPrefix + folders[i].0 + "/" + folders[i].1.value[j])
  }

  /** Every picture the lookup writes is a listed file; any other outcome leaves the
      object's own `_image`. A truthy carried `_image` stays when no explicit image
      resolves, and the name heuristic is then never run. */
  lemma ImageIsListed(p: Json, file: string, images: seq<string>, folders: seq<Folder>)
    ensures ImageFor(p, file, images, folders).Ok? ==>
      ImageFor(p, file, images, folders).value == CarriedImage(p) ||
      (ImageFor(p, file, images, folders).value.Some? && ImageFor(p, file, images, folders).value.value.JStr? &&
       Listed(ImageFor(p, file, images, folders).value.value.s, images, folders))
    ensures !Truthy(CarriedImage(p)) && ImageFor(p, file, images, folders).Ok? && Truthy(ImageFor(p, file, images, folders).value) ==>
      Listed(ImageFor(p, file, images, folders).value.value.s, images, folders)
    ensures Truthy(CarriedImage(p)) && (ExplicitImage(p).None? || ResolveExplicit(ExplicitImage(p).value, images, folders).None?) ==>
      ImageFor(p, file, images, folders) == Ok(CarriedImage(p))
  {
    var r := ImageFor(p, file, images, folders);
    var explicit := ExplicitImage(p);
    var resolved := if explicit.Some? then ResolveExplicit(explicit.value, images, folders) else None;
    if resolved.Some? {
      ExplicitIsListed(explicit.value, images, folders);
    } else if !Truthy(CarriedImage(p)) && r.Ok? && r.value != CarriedImage(p) {
      var idx := HeuristicIndex(Candidates(p, file).value, Lowered(images));
      assert r.value.value.s == ItemsImagePrefix + images[idx.value];
    }
  }

  /** An item whose English name is a number, which would make the heuristic throw, but
      which carries its own `_image` and names no image field: it keeps that picture and
      loads, whatever the folders hold. */
  lemma CarriedImageKept(images: seq<string>, folders: seq<Folder>)
    ensures var p := JObj([("id", JStr("x")), ("name", JObj([("en", JNum(5))])), ("_image", JStr("/a.png"))]);
      RawName(p).Err? && ImageFor(p, "x.json", images, folders) == Ok(Some(JStr("/a.png")))
  {
    var p := JObj([("id", JStr("x")), ("name", JObj([("en", JNum(5))])), ("_image", JStr("/a.png"))]);
    forall k | 0 <= k < |ImageFields|
      ensures FieldPick(Get(Some(p), ImageFields[k])).None?
    {
      assert ImageFields[k] !in {"id", "name", "_image"};
    }
    ExplicitImageIsFirstField(p, ImageFields);
  }

  lemma ExplicitIsListed(e: Json, images: seq<string>, folders: seq<Folder>)
    ensures ResolveExplicit(e, images, folders).Some? ==> Listed(ResolveExplicit(e, images, folders).value, images, folders)
  {
    if e.JStr? {
      SubfolderMatchFinds(folders, ToLower(Basename(e.s)));
    }
  }

  /** Only the heuristic path can fail: it runs when no explicit image resolves and the
      object carries no truthy `_image`, and it fails exactly on a display name whose
      English text is truthy and not a string. */
  lemma ImageErrorMeaning(p: Json, file: string, images: seq<string>, folders: seq<Folder>)
    ensures ImageFor(p, file, images, folders).Err? <==>
      (var explicit := ExplicitImage(p);
       (explicit.None? || ResolveExplicit(explicit.value, images, folders).None?) &&
       !Truthy(CarriedImage(p)) && RawName(p).Err?)
  {
  }

  /** `pushItem`'s picture resolution as the program runs it: the field loop, the explicit
      lookup, and, when neither that nor the object itself gives a truthy `_image`, the
      two candidate passes. The result is the object's `_image` afterwards. */
  method ResolveImage(p: Json, file: string, images: seq<string>, folders: seq<Folder>)
    returns (r: Result<Value, LoadError>)
    ensures r == ImageFor(p, file, images, folders)
  {
    var explicit := FindExplicitImage(p);
    var image: Option<string> := None;
    if explicit.Some? {
      image := ResolveExplicitImage(explicit.value, images, folders);
    }
    if image.Some? {
      return Ok(Some(JStr(image.value)));
    }
    var carried := Get(Some(p), "_image");
    if Truthy(carried) {
      return Ok(carried);
    }
    var cands := Candidates(p, file);
    if cands.Err? {
      return Err(cands.error);
    }
    var lower := Lowered(images);
    var found := RunPass(cands.value, lower, true);
    if found.None? {
      found := RunPass(cands.value, lower, false);
    }
    if found.Some? {
      return Ok(Some(JStr(ItemsImagePrefix + images[found.value])));
    }
    return Ok(carried);
  }
}
