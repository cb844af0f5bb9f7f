/** Picking one display string out of a value that is either plain text or a
    locale → text mapping. The program has two variants: `getLocalizedString`
    (lib/categorizeItems.tsx and the three card components, all identical), which
    chains with `||`, and the candidate pick in lib/getItems.tsx, which chains with `??`. */
module Localize {
  import opened Basics
  import opened JsStrings
  import opened JsValues

  /** Value `i` is a string and none before it is. */
  predicate FirstStringAt(vals: seq<Json>, i: int)
  {
    0 <= i < |vals| && vals[i].JStr? && forall j :: 0 <= j < i ==> !vals[j].JStr?
  }

  /** `Object.values(v).find(x => typeof x === "string")`. */
  function FirstString(vals: seq<Json>): (r: Option<string>)
    ensures r.Some? ==> exists i :: FirstStringAt(vals, i) && vals[i] == JStr(r.value)
    ensures forall i :: FirstStringAt(vals, i) ==> r == Some(vals[i].s)
    ensures r.None? <==> forall i :: 0 <= i < |vals| ==> !vals[i].JStr?
  {
    match FirstIndexWhere(vals, (x: Json) => x.JStr?)
    case None => None
    case Some(k) => Some(vals[k].s)
  }

  /** `getLocalizedString(value)`: falsy gives "", a string is itself, an object (or array)
      gives `en || en-US || first string value || ""`, anything else is `String(value)`. */
  function GetLocalizedString(v: Value): (r: string)
    ensures !Truthy(v) ==> r == ""
    ensures v.Some? && v.value.JStr? ==> r == v.value.s
    ensures IsObjectLike(v) ==> r == "" || exists i :: 0 <= i < |Values(v.value)| && r == ToStr(Values(v.value)[i])
    ensures IsObjectLike(v) && Truthy(Get(v, "en")) ==> r == ToStr(Get(v, "en").value)
    ensures IsObjectLike(v) && !Truthy(Get(v, "en")) && Truthy(Get(v, "en-US")) ==> r == ToStr(Get(v, "en-US").value)
    ensures IsObjectLike(v) && !Truthy(Get(v, "en")) && !Truthy(Get(v, "en-US")) ==>
      (forall i :: FirstStringAt(Values(v.value), i) ==> r == Values(v.value)[i].s) &&
      ((forall i :: 0 <= i < |Values(v.value)| ==> !Values(v.value)[i].JStr?) ==> r == "")
    ensures Truthy(v) && !v.value.JStr? && !IsObjectLike(v) ==> r == ToStr(v.value)
  {
    if !Truthy(v) then ""
    else
      var j := v.value;
      match j
      case JStr(s) => s
      case JObj(fs) =>
        var en := Get(v, "en");
        var enUS := Get(v, "en-US");
        if Truthy(en) then
          MemberIsValue(fs, "en");
          ToStr(en.value)
        else if Truthy(enUS) then
          MemberIsValue(fs, "en-US");
          ToStr(enUS.value)
        else
          (match FirstString(Values(v.value))
           case Some(s) => s
           case None => "")
      case JArr(es) =>
        (match FirstString(Values(v.value))
         case Some(s) => s
         case None => "")
      case _ => ToStr(j)
  }

  lemma MemberIsValue(fs: seq<(string, Json)>, key: string)
    requires Lookup(fs, key).Some?
    ensures exists i :: 0 <= i < |Values(JObj(fs))| && Values(JObj(fs))[i] == Lookup(fs, key).value
  {
    LookupFinds(fs, key);
    var i :| 0 <= i < |fs| && fs[i] == (key, Lookup(fs, key).value) && forall j :: 0 <= j < i ==> fs[j].0 != key;
    assert Values(JObj(fs))[i] == fs[i].1;
  }

  /** The resolution order over an object's members: a truthy English entry wins, then a
      truthy `en-US` entry, then the first member whose value is a string, then "". */
  lemma {:induction false} LocalizedResolutionOrder(fs: seq<(string, Json)>)
    ensures Truthy(Lookup(fs, "en")) ==> GetLocalizedString(Some(JObj(fs))) == ToStr(Lookup(fs, "en").value)
    ensures !Truthy(Lookup(fs, "en")) && Truthy(Lookup(fs, "en-US")) ==>
      GetLocalizedString(Some(JObj(fs))) == ToStr(Lookup(fs, "en-US").value)
    ensures forall i ::
      (!Truthy(Lookup(fs, "en")) && !Truthy(Lookup(fs, "en-US")) && 0 <= i < |fs| &&
       fs[i].1.JStr? && (forall j :: 0 <= j < i ==> !fs[j].1.JStr?))
      ==> GetLocalizedString(Some(JObj(fs))) == fs[i].1.s
    ensures !Truthy(Lookup(fs, "en")) && !Truthy(Lookup(fs, "en-US")) && (forall i :: 0 <= i < |fs| ==> !fs[i].1.JStr?) ==>
      GetLocalizedString(Some(JObj(fs))) == ""
  {
    var vals := Values(JObj(fs));
    assert forall i :: 0 <= i < |fs| ==> vals[i] == fs[i].1;
    forall i | !Truthy(Lookup(fs, "en")) && !Truthy(Lookup(fs, "en-US")) && 0 <= i < |fs| &&
      fs[i].1.JStr? && (forall j :: 0 <= j < i ==> !fs[j].1.JStr?)
      ensures GetLocalizedString(Some(JObj(fs))) == fs[i].1.s
    {
      assert FirstStringAt(vals, i);
    }
  }

  /** Arrays have no `en` or `en-US` entry: the first string element, or "". */
  lemma ArrayResolution(es: seq<Json>)
    ensures forall i :: 0 <= i < |es| && es[i].JStr? && (forall j :: 0 <= j < i ==> !es[j].JStr?) ==>
      GetLocalizedString(Some(JArr(es))) == es[i].s
    ensures (forall i :: 0 <= i < |es| ==> !es[i].JStr?) ==> GetLocalizedString(Some(JArr(es))) == ""
  {
    var vals := Values(JArr(es));
    assert forall i :: 0 <= i < |es| ==> vals[i] == es[i];
    forall i | 0 <= i < |es| && es[i].JStr? && (forall j :: 0 <= j < i ==> !es[j].JStr?)
      ensures GetLocalizedString(Some(JArr(es))) == es[i].s
    {
      assert FirstStringAt(vals, i);
    }
  }

  /** `obj.en ?? obj["en-US"] ?? Object.values(obj).find(x => typeof x === "string")`
      (lib/getItems.tsx): a present but empty English entry is kept. */
  function PickLocalized(v: Value): (r: Value)
    requires IsObjectLike(v)
    ensures !IsNullish(Get(v, "en")) ==> r == Get(v, "en")
    ensures IsNullish(Get(v, "en")) && !IsNullish(Get(v, "en-US")) ==> r == Get(v, "en-US")
    ensures IsNullish(Get(v, "en")) && IsNullish(Get(v, "en-US")) ==>
      (forall i :: FirstStringAt(Values(v.value), i) ==> r == Some(Values(v.value)[i])) &&
      (r.None? <==> forall i :: 0 <= i < |Values(v.value)| ==> !Values(v.value)[i].JStr?)
  {
    var first: Value := match FirstString(Values(v.value)) case Some(s) => Some(JStr(s)) case None => None;
    Coalesce(Coalesce(Get(v, "en"), Get(v, "en-US")), first)
  }

  /** The `??` pick and the `||` resolver agree unless an English entry is present but falsy
      (the empty string, 0, false): then the `??` pick keeps it and the resolver skips it. */
  lemma PickAgreesWithResolver(v: Value)
    requires IsObjectLike(v)
    requires var en := Get(v, "en"); IsNullish(en) || (en.value.JStr? && en.value.s != "")
    requires var us := Get(v, "en-US"); IsNullish(us) || (us.value.JStr? && us.value.s != "")
    ensures ToStrOpt(Coalesce(PickLocalized(v), Some(JStr("")))) == GetLocalizedString(v)
  {
  }

  /** `{fr: "x", en: ""}`: the `??` pick keeps the empty English entry where the resolver
      skips it. With the members the other way round both give "", because the resolver's
      fallback is the first string member, which is then the empty English entry itself. */
  lemma EmptyEnglishDiffers()
    ensures var v := Some(JObj([("fr", JStr("x")), ("en", JStr(""))]));
      PickLocalized(v) == Some(JStr("")) && GetLocalizedString(v) == "x"
    ensures var v := Some(JObj([("en", JStr("")), ("fr", JStr("x"))]));
      PickLocalized(v) == Some(JStr("")) && GetLocalizedString(v) == ""
  {
    var fs := [("fr", JStr("x")), ("en", JStr(""))];
    assert Values(JObj(fs))[0] == JStr("x");
    var gs := [("en", JStr("")), ("fr", JStr("x"))];
    assert Values(JObj(gs))[0] == JStr("");
  }

  /** The resolver's documented examples: `{en: "Stim", fr: …}`, `{fr: "Seulement"}`, null. */
  lemma LocalizedExamples()
    ensures GetLocalizedString(Some(JObj([("en", JStr("Stim")), ("fr", JStr("Stim FR"))]))) == "Stim"
    ensures GetLocalizedString(Some(JObj([("fr", JStr("Seulement"))]))) == "Seulement"
    ensures GetLocalizedString(Some(JNull)) == "" && GetLocalizedString(None) == ""
    ensures GetLocalizedString(Some(JNum(5))) == "5"
  {
    assert Values(JObj([("fr", JStr("Seulement"))]))[0] == JStr("Seulement");
  }
}
