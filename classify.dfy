/** The classification half of `categorizeAllItems` (lib/categorizeItems.tsx): the one-level
    recycle value of an item, the set of items some project requires, and the first-match
    decision list that puts every item into exactly one of five buckets. */
module Classify {
  import opened Basics
  import opened JsStrings
  import opened JsValues
  import opened Heuristics
  import opened Items
  import opened ReferenceIndex

  datatype Bucket = Weapons | Blueprints | Keep | Sell | Recycle

  /** `new Map(items.map(it => [String(it.id), it]))`: the ids of the items are the keys. */
  function ById(items: seq<Json>): (m: map<string, Json>)
    ensures forall i :: 0 <= i < |items| ==> IdOf(items[i]) in m
    ensures forall id :: id in m ==> exists i :: 0 <= i < |items| && IdOf(items[i]) == id
    decreases |items|
  {
    if items == [] then map[]
    else
      var init := items[..|items| - 1];
      assert forall i :: 0 <= i < |init| ==> init[i] == items[i];
      ById(init)[IdOf(items[|items| - 1]) := items[|items| - 1]]
  }

  /** A later item with the same id replaces an earlier one: an id maps to the last item
      that carries it. */
  lemma {:induction false} ByIdLastWins(items: seq<Json>, i: int)
    requires 0 <= i < |items|
    requires forall j :: i < j < |items| ==> IdOf(items[j]) != IdOf(items[i])
    ensures ById(items)[IdOf(items[i])] == items[i]
    decreases |items|
  {
    if i < |items| - 1 {
      var init := items[..|items| - 1];
      assert forall j :: i < j < |init| ==> init[j] == items[j];
      ByIdLastWins(init, i);
    }
  }

  // ----- recycle value -----

  /** `NaN` absorbs; otherwise integer arithmetic. */
  function AddNum(a: Num, b: Num): (r: Num)
    ensures r.NaN? <==> a.NaN? || b.NaN?
    ensures a.Int? && b.Int? ==> r == Int(a.n + b.n)
  {
    if a.NaN? || b.NaN? then NaN else Int(a.n + b.n)
  }

  function MulNum(a: Num, b: Num): (r: Num)
    ensures r.NaN? <==> a.NaN? || b.NaN?
    ensures a.Int? && b.Int? ==> r == Int(Product(a.n, b.n))
  {
    if a.NaN? || b.NaN? then NaN else Int(Product(a.n, b.n))
  }

  /** Integer multiplication by repeated addition, which keeps the solver's reasoning
      about the recycle sum linear; `ProductIsMul` shows it is `a * b`. */
  function Product(a: int, b: int): int
    decreases if b < 0 then -b else b
  {
    if b == 0 then 0
    else if b > 0 then Product(a, b - 1) + a
    else Product(a, b + 1) - a
  }

  lemma {:induction false} ProductIsMul(a: int, b: int)
    ensures Product(a, b) == a * b
    decreases if b < 0 then -b else b
  {
    if b > 0 {
      ProductIsMul(a, b - 1);
    } else if b < 0 {
      ProductIsMul(a, b + 1);
    }
  }

  /** `item.recyclesInto ?? item.salvagesInto ?? {}`. */
  function RecycleMap(it: Json): Json
  {
    var v := Some(it);
    Coalesce(Coalesce(Get(v, "recyclesInto"), Get(v, "salvagesInto")), Some(JObj([]))).value
  }

  /** `Object.entries` of the recycle map: (component id, count) pairs in order. */
  function Components(it: Json): seq<(string, Json)>
  {
    Entries(RecycleMap(it))
  }

  /** `Number(itemsById.get(comp)?.value ?? 0)`: an unknown component, or one without a
      value, is worth 0. */
  function ComponentValue(byId: map<string, Json>, comp: string): (r: Num)
    ensures comp !in byId ==> r == Int(0)
    ensures comp in byId && IsNullish(Get(Some(byId[comp]), "value")) ==> r == Int(0)
  {
    if comp in byId then NumberOf(Coalesce(Get(Some(byId[comp]), "value"), Some(JNum(0)))) else Int(0)
  }

  /** One component of the recycle map as the loop sees it: the component's value and
      `Number(count) || 0`. */
  function Share(byId: map<string, Json>, e: (string, Json)): (Num, int)
  {
    (ComponentValue(byId, e.0), NumberOr(Some(e.1), 0))
  }

  function Shares(byId: map<string, Json>, comps: seq<(string, Json)>): (r: seq<(Num, int)>)
    ensures |r| == |comps| && forall i :: 0 <= i < |comps| ==> r[i] == Share(byId, comps[i])
  {
    seq(|comps|, i requires 0 <= i < |comps| => Share(byId, comps[i]))
  }

  /** The sum of value times count, from the left. */
  function Total(shares: seq<(Num, int)>): Num
    decreases |shares|
  {
    if shares == [] then Int(0)
    else
      var last := shares[|shares| - 1];
      AddNum(Total(shares[..|shares| - 1]), MulNum(last.0, Int(last.1)))
  }

  /** The recycle value of an item. */
  function RecycleValue(byId: map<string, Json>, it: Json): Num
  {
    Total(Shares(byId, Components(it)))
  }

  /** The sum is `NaN` exactly when some value in it is. */
  lemma {:induction false} TotalNaN(shares: seq<(Num, int)>)
    ensures Total(shares).NaN? <==> exists i :: 0 <= i < |shares| && shares[i].0.NaN?
    decreases |shares|
  {
    if shares != [] {
      var n := |shares| - 1;
      var init := shares[..n];
      TotalNaN(init);
      assert Total(shares) == AddNum(Total(init), MulNum(shares[n].0, Int(shares[n].1)));
      if Total(shares).NaN? {
        if Total(init).NaN? {
          var i :| 0 <= i < |init| && init[i].0.NaN?;
          assert shares[i] == init[i];
        } else {
          assert shares[n].0.NaN?;
        }
      } else {
        forall i | 0 <= i < |shares|
          ensures !shares[i].0.NaN?
        {
          if i < n {
            assert shares[i] == init[i];
          }
        }
      }
    }
  }

  /** With non-negative values and counts the sum is a non-negative integer. */
  lemma {:induction false} TotalNonNegative(shares: seq<(Num, int)>)
    requires forall i :: 0 <= i < |shares| ==> shares[i].0.Int? && shares[i].0.n >= 0 && shares[i].1 >= 0
    ensures Total(shares).Int? && Total(shares).n >= 0
    decreases |shares|
  {
    if shares != [] {
      var n := |shares| - 1;
      var init := shares[..n];
      assert forall i :: 0 <= i < |init| ==> init[i] == shares[i];
      TotalNonNegative(init);
      ProductIsMul(shares[n].0.n, shares[n].1);
    }
  }

  /** The recycle value is `NaN` exactly when some listed component's value is: a
      component's count can never make the sum `NaN`, since `Number(count) || 0` is a
      number. */
  lemma RecycleValueNaN(byId: map<string, Json>, it: Json)
    ensures RecycleValue(byId, it).NaN? <==>
      exists i :: 0 <= i < |Components(it)| && ComponentValue(byId, Components(it)[i].0).NaN?
  {
    var comps := Components(it);
    var ss := Shares(byId, comps);
    TotalNaN(ss);
    if Total(ss).NaN? {
      var i :| 0 <= i < |ss| && ss[i].0.NaN?;
      assert ComponentValue(byId, comps[i].0).NaN?;
    } else {
      forall i | 0 <= i < |comps|
        ensures !ComponentValue(byId, comps[i].0).NaN?
      {
        assert ss[i].0 == ComponentValue(byId, comps[i].0);
      }
    }
  }

  /** A component the catalog does not know contributes nothing: appending it leaves the
      sum unchanged. */
  lemma UnknownComponentAddsNothing(byId: map<string, Json>, comps: seq<(string, Json)>, e: (string, Json))
    requires e.0 !in byId
    ensures Total(Shares(byId, comps + [e])) == Total(Shares(byId, comps))
  {
    var ss := Shares(byId, comps + [e]);
    assert ss[..|comps|] == Shares(byId, comps);
    ProductIsMul(0, ss[|comps|].1);
  }

  /** `computeRecycleInfo(item)`: walks the recycle map once, adding each share and
      collecting each component id. */
  method ComputeRecycleInfo(byId: map<string, Json>, it: Json) returns (value: Num, components: seq<string>)
    ensures value == RecycleValue(byId, it)
    ensures components == Keys(RecycleMap(it))
  {
    var m := RecycleMap(it);
    value, components := SumShares(byId, Entries(m));
    KeysOfEntries(m, components);
  }

  /** A list holding the first part of every entry, in order, is the list of keys. */
  lemma KeysOfEntries(j: Json, ks: seq<string>)
    requires |ks| == |Entries(j)| && forall i :: 0 <= i < |ks| ==> ks[i] == Entries(j)[i].0
    ensures ks == Keys(j)
  {
  }

  lemma TotalStep(shares: seq<(Num, int)>, i: nat, v: Num, q: int)
    requires i < |shares| && shares[i] == (v, q)
    ensures Total(shares[..i + 1]) == AddNum(Total(shares[..i]), MulNum(v, Int(q)))
  {
    assert shares[..i + 1][..i] == shares[..i];
  }

  /** The loop of `computeRecycleInfo` over the entries of the recycle map. */
  method SumShares(byId: map<string, Json>, entries: seq<(string, Json)>) returns (value: Num, components: seq<string>)
    ensures value == Total(Shares(byId, entries))
    ensures |components| == |entries| && forall i :: 0 <= i < |entries| ==> components[i] == entries[i].0
  {
    ghost var shares := Shares(byId, entries);
    value := Int(0);
    components := [];
    var i := 0;
    while i < |entries|
      invariant 0 <= i <= |entries|
      invariant value == Total(shares[..i])
      invariant |components| == i && forall k :: 0 <= k < i ==> components[k] == entries[k].0
    {
      var compValue, qty := ShareOf(byId, entries[i]);
      SumStep(byId, entries, i);
      value := AddNum(value, MulNum(compValue, Int(qty)));
      PushId(components, entries, i);
      components := components + [entries[i].0];
      i := i + 1;
    }
    assert shares[..i] == shares;
  }

  /** Appending entry `i`'s id extends the list of the ids before it. */
  lemma PushId(ids: seq<string>, entries: seq<(string, Json)>, i: nat)
    requires i < |entries| && |ids| == i && forall k :: 0 <= k < i ==> ids[k] == entries[k].0
    ensures |ids + [entries[i].0]| == i + 1 && forall k :: 0 <= k < i + 1 ==> (ids + [entries[i].0])[k] == entries[k].0
  {
  }

  /** `Number(itemsById.get(comp)?.value ?? 0)` and `Number(count) || 0` for one entry. */
  method ShareOf(byId: map<string, Json>, e: (string, Json)) returns (compValue: Num, qty: int)
    ensures (compValue, qty) == Share(byId, e)
  {
    compValue := ComponentValue(byId, e.0);
    qty := NumberOr(Some(e.1), 0);
  }

  /** One step of the loop: the share of entry `i` added to the sum of those before it. */
  lemma SumStep(byId: map<string, Json>, entries: seq<(string, Json)>, i: nat)
    requires i < |entries|
    ensures Total(Shares(byId, entries)[..i + 1]) ==
      AddNum(Total(Shares(byId, entries)[..i]), MulNum(Share(byId, entries[i]).0, Int(Share(byId, entries[i]).1)))
  {
    var shares := Shares(byId, entries);
    TotalStep(shares, i, shares[i].0, shares[i].1);
  }

  /** The value of an item with a single listed component. */
  lemma OneComponentValue(byId: map<string, Json>, it: Json, comp: string, count: Json, v: int, n: int)
    requires Components(it) == [(comp, count)]
    requires ComponentValue(byId, comp) == Int(v) && NumberOr(Some(count), 0) == n
    ensures RecycleValue(byId, it) == Int(Product(v, n))
  {
    var ss := Shares(byId, Components(it));
    assert ss == [(Int(v), n)] by {
      assert |ss| == 1 && ss[0] == Share(byId, (comp, count));
    }
    assert Total(ss) == AddNum(Total([]), MulNum(Int(v), Int(n))) by {
      assert ss[..0] == [];
    }
  }

  lemma ExampleComponents()
    ensures Components(JObj([("id", JStr("A")), ("recyclesInto", JObj([("B", JNum(2))]))])) == [("B", JNum(2))]
  {
  }

  lemma ExampleComponentValue()
    ensures ComponentValue(map["B" := JObj([("id", JStr("B")), ("value", JNum(3))])], "B") == Int(3)
  {
  }

  /** `{B: 2}` with `B.value = 3` is worth 6. */
  lemma RecycleValueExample()
    ensures RecycleValue(map["B" := JObj([("id", JStr("B")), ("value", JNum(3))])],
                         JObj([("id", JStr("A")), ("recyclesInto", JObj([("B", JNum(2))]))])) == Int(6)
  {
    ExampleComponents();
    ExampleComponentValue();
    assert NumberOr(Some(JNum(2)), 0) == 2;
    OneComponentValue(map["B" := JObj([("id", JStr("B")), ("value", JNum(3))])],
                      JObj([("id", JStr("A")), ("recyclesInto", JObj([("B", JNum(2))]))]), "B", JNum(2), 3, 2);
    ProductIsMul(3, 2);
  }

  /** An item without a recycle map is worth 0, whatever the catalog holds. */
  lemma RecycleValueWithoutMap(byId: map<string, Json>)
    ensures RecycleValue(byId, JObj([("id", JStr("A"))])) == Int(0)
  {
    assert Components(JObj([("id", JStr("A"))])) == [];
  }

  // ----- the keep set -----

  /** Some project lists the item. */
  predicate ProjectRequired(idx: Index, id: string)
  {
    id in idx && |idx[id].projects| > 0
  }

  /** `keepSet`: built by walking the index's entries. */
  method KeepSetOf(idx: Index) returns (keep: set<string>)
    ensures keep == set id | id in idx && ProjectRequired(idx, id)
  {
    keep := {};
    var todo := idx.Keys;
    while todo != {}
      invariant todo <= idx.Keys
      invariant keep == set id | id in idx.Keys - todo && ProjectRequired(idx, id)
      decreases todo
    {
      var id :| id in todo;
      if |idx[id].projects| > 0 {
        keep := keep + {id};
      }
      todo := todo - {id};
    }
  }

  // ----- the decision list -----

  /** Some component has a project or quest entry of its own. */
  predicate Needed(idx: Index, comp: string)
  {
    comp in idx && (|idx[comp].projects| > 0 || |idx[comp].quests| > 0)
  }

  predicate ProducesNeeded(idx: Index, comps: seq<string>)
  {
    exists i :: 0 <= i < |comps| && Needed(idx, comps[i])
  }

  /** `Number(it.value) || 0`. */
  function SellValue(it: Json): int
  {
    NumberOr(Get(Some(it), "value"), 0)
  }

  /** The bucket of one item: the first rule that applies wins. */
  function ClassOf(it: Json, byId: map<string, Json>, idx: Index): Bucket
  {
    if IsWeapon(it) then Weapons
    else if IsBlueprint(it) then Blueprints
    else
      var sell := SellValue(it);
      var rec := RecycleValue(byId, it);
      if ProjectRequired(idx, IdOf(it)) then Keep
      else if sell == 0 && rec == Int(0) then Keep
      else if ProducesNeeded(idx, Keys(RecycleMap(it))) then Recycle
      else if rec.Int? && rec.n > sell then Recycle
      else Sell
  }

  /** The loop throws at this item: it is not a weapon, so `isBlueprint` runs, and reading
      its name throws (`Heuristics.NameThrows`). */
  predicate ThrowsAt(it: Json)
  {
    !IsWeapon(it) && NameThrows(it)
  }

  /** No item before position `n` makes the loop throw. */
  predicate NoThrowBefore(items: seq<Item>, n: int)
    requires n <= |items|
  {
    forall k :: 0 <= k < n ==> !ThrowsAt(items[k].props)
  }

  /** Keep is reached through a project entry of the item or through worthlessness; quest
      entries of the item itself never keep it. */
  lemma KeepMeans(it: Json, byId: map<string, Json>, idx: Index)
    ensures ClassOf(it, byId, idx) == Keep <==>
      !IsWeapon(it) && !IsBlueprint(it) &&
      (ProjectRequired(idx, IdOf(it)) || (SellValue(it) == 0 && RecycleValue(byId, it) == Int(0)))
  {
  }

  /** The quest entries of an item play no part in keeping it: clearing them changes the
      bucket only through rule 5, when the item lists itself as a component. */
  lemma OwnQuestsNeverKeep(it: Json, byId: map<string, Json>, idx: Index)
    requires IdOf(it) in idx
    ensures var cleared := idx[IdOf(it) := idx[IdOf(it)].(quests := [])];
      ClassOf(it, byId, idx) == Keep <==> ClassOf(it, byId, cleared) == Keep
  {
  }

  /** Recycle is reached through a needed component or a better recycle value, never for a
      project-required or worthless item. */
  lemma RecycleMeans(it: Json, byId: map<string, Json>, idx: Index)
    ensures ClassOf(it, byId, idx) == Recycle <==>
      !IsWeapon(it) && !IsBlueprint(it) && !ProjectRequired(idx, IdOf(it)) &&
      !(SellValue(it) == 0 && RecycleValue(byId, it) == Int(0)) &&
      (ProducesNeeded(idx, Keys(RecycleMap(it))) ||
       (RecycleValue(byId, it).Int? && RecycleValue(byId, it).n > SellValue(it)))
  {
  }

  /** A truthy `subtype` or `class` always decides "weapon", so the blueprint test's
      `subtype` clause never decides a bucket: a blueprint is one by its type, category or
      name. */
  lemma BlueprintSubtypeNeverDecides(it: Json, byId: map<string, Json>, idx: Index)
    ensures Truthy(Some(it)) && (Truthy(Get(Some(it), "subtype")) || Truthy(Get(Some(it), "class"))) ==>
      ClassOf(it, byId, idx) == Weapons
    ensures ClassOf(it, byId, idx) == Blueprints ==>
      Contains(FieldText(it, "type"), "blueprint") || Contains(FieldText(it, "category"), "blueprint")
      || Contains(ReadName(it), "blueprint")
  {
    assert !Contains("", "blueprint");
  }

  /** The items whose entry in the parallel list `bs` is `b`, in input order. */
  function Select(items: seq<Item>, bs: seq<Bucket>, b: Bucket): (r: seq<Item>)
    requires |bs| == |items|
    ensures IsSubsequence(r, items)
    ensures forall i :: 0 <= i < |items| && bs[i] == b ==> items[i] in r
    ensures forall x :: x in r ==> exists i :: 0 <= i < |items| && items[i] == x && bs[i] == b
    decreases |items|
  {
    if items == [] then []
    else
      var n := |items| - 1;
      var init := items[..n];
      var rest := Select(init, bs[..n], b);
      assert init + [items[n]] == items;
      if bs[n] == b then
        SubsequenceAppendBoth(rest, init, items[n]);
        rest + [items[n]]
      else
        SubsequenceAppend(rest, init, items[n]);
        rest
  }

  /** The bucket of every item, in input order. */
  function Classes(items: seq<Item>, byId: map<string, Json>, idx: Index): (bs: seq<Bucket>)
    ensures |bs| == |items|
  {
    seq(|items|, i requires 0 <= i < |items| => ClassOf(items[i].props, byId, idx))
  }

  lemma ClassesAt(items: seq<Item>, byId: map<string, Json>, idx: Index, i: int)
    requires 0 <= i < |items|
    ensures Classes(items, byId, idx)[i] == ClassOf(items[i].props, byId, idx)
  {
  }

  /** The items of one bucket, in input order. */
  function InBucket(items: seq<Item>, byId: map<string, Json>, idx: Index, b: Bucket): seq<Item>
  {
    Select(items, Classes(items, byId, idx), b)
  }

  /** An item is in a bucket exactly when the decision list sends it there. */
  lemma InBucketMeans(items: seq<Item>, byId: map<string, Json>, idx: Index, b: Bucket)
    ensures forall x :: x in InBucket(items, byId, idx, b) <==> x in items && ClassOf(x.props, byId, idx) == b
  {
    var bs := Classes(items, byId, idx);
    forall x | x in items && ClassOf(x.props, byId, idx) == b
      ensures x in InBucket(items, byId, idx, b)
    {
      var i :| 0 <= i < |items| && items[i] == x;
      ClassesAt(items, byId, idx, i);
    }
  }

  /** The five buckets are a partition: every item lands in exactly one of them, and
      together they hold every item as often as the input does. */
  lemma BucketsPartition(items: seq<Item>, byId: map<string, Json>, idx: Index)
    ensures multiset(InBucket(items, byId, idx, Weapons)) + multiset(InBucket(items, byId, idx, Blueprints))
      + multiset(InBucket(items, byId, idx, Keep)) + multiset(InBucket(items, byId, idx, Sell))
      + multiset(InBucket(items, byId, idx, Recycle)) == multiset(items)
  {
    var bs := Classes(items, byId, idx);
    DistributeSelects(items, bs);
    DistributePartition(items, bs);
  }

  /** The buckets and the recycle values written onto the items. */
  datatype Buckets = Buckets(shouldSell: seq<Item>, safeToRecycle: seq<Item>, keep: seq<Item>, weapons: seq<Item>, blueprints: seq<Item>)

  function PropsOf(items: seq<Item>): (r: seq<Json>)
    ensures |r| == |items| && forall i :: 0 <= i < |items| ==> r[i] == items[i].props
  {
    seq(|items|, i requires 0 <= i < |items| => items[i].props)
  }

  /** Appending an item to the list of its bucket. */
  function AddTo(b: Buckets, k: Bucket, it: Item): Buckets
  {
    match k
    case Weapons => b.(weapons := b.weapons + [it])
    case Blueprints => b.(blueprints := b.blueprints + [it])
    case Keep => b.(keep := b.keep + [it])
    case Sell => b.(shouldSell := b.shouldSell + [it])
    case Recycle => b.(safeToRecycle := b.safeToRecycle + [it])
  }

  /** The buckets of a list, filled in input order from the parallel list of decisions. */
  function Distribute(items: seq<Item>, bs: seq<Bucket>): Buckets
    requires |bs| == |items|
    decreases |items|
  {
    if items == [] then Buckets([], [], [], [], [])
    else AddTo(Distribute(items[..|items| - 1], bs[..|items| - 1]), bs[|items| - 1], items[|items| - 1])
  }

  lemma DistributeStep(items: seq<Item>, bs: seq<Bucket>, i: nat)
    requires |bs| == |items| && i < |items|
    ensures Distribute(items[..i + 1], bs[..i + 1]) == AddTo(Distribute(items[..i], bs[..i]), bs[i], items[i])
  {
    assert items[..i + 1][..i] == items[..i];
    assert bs[..i + 1][..i] == bs[..i];
  }

  /** Filling the buckets one item at a time selects, for each bucket, exactly the items
      sent to it. */
  lemma {:induction false} DistributeSelects(items: seq<Item>, bs: seq<Bucket>)
    requires |bs| == |items|
    ensures Distribute(items, bs) == Buckets(Select(items, bs, Sell), Select(items, bs, Recycle),
      Select(items, bs, Keep), Select(items, bs, Weapons), Select(items, bs, Blueprints))
    decreases |items|
  {
    if items != [] {
      var n := |items| - 1;
      DistributeSelects(items[..n], bs[..n]);
    }
  }

  /** Everything the five buckets hold, counted with multiplicity. */
  function Contents(b: Buckets): multiset<Item>
  {
    multiset(b.weapons) + multiset(b.blueprints) + multiset(b.keep) + multiset(b.shouldSell) + multiset(b.safeToRecycle)
  }

  lemma AddToContents(b: Buckets, k: Bucket, it: Item)
    ensures Contents(AddTo(b, k, it)) == Contents(b) + multiset{it}
  {
    match k
    case Weapons => assert multiset(b.weapons + [it]) == multiset(b.weapons) + multiset{it};
    case Blueprints => assert multiset(b.blueprints + [it]) == multiset(b.blueprints) + multiset{it};
    case Keep => assert multiset(b.keep + [it]) == multiset(b.keep) + multiset{it};
    case Sell => assert multiset(b.shouldSell + [it]) == multiset(b.shouldSell) + multiset{it};
    case Recycle => assert multiset(b.safeToRecycle + [it]) == multiset(b.safeToRecycle) + multiset{it};
  }

  /** Filling the buckets loses no item and invents none. */
  lemma {:induction false} DistributePartition(items: seq<Item>, bs: seq<Bucket>)
    requires |bs| == |items|
    ensures Contents(Distribute(items, bs)) == multiset(items)
    decreases |items|
  {
    if items != [] {
      var n := |items| - 1;
      var init, d := items[..n], Distribute(items[..n], bs[..n]);
      calc {
        Contents(Distribute(items, bs));
        Contents(AddTo(d, bs[n], items[n]));
        { AddToContents(d, bs[n], items[n]); }
        Contents(d) + multiset{items[n]};
        { DistributePartition(init, bs[..n]); }
        multiset(init) + multiset{items[n]};
        { assert items == init + [items[n]]; }
        multiset(items);
      }
    }
  }

  /** The classification loop. It throws at the first item whose blueprint test throws
      (`ThrowsAt`), after writing the recycle values of the items before it and leaving every
      other item as it was. Otherwise every item's recycle value is written onto it, and the
      item is appended to the bucket its first applicable rule names. */
  method ClassifyItems(items: seq<Item>, idx: Index) returns (r: Result<Buckets, nat>)
    modifies set it | it in items
    ensures r.Ok? <==> NoThrowBefore(items, |items|)
    ensures r.Err? ==> r.error < |items| && ThrowsAt(items[r.error].props) && NoThrowBefore(items, r.error)
    ensures r.Ok? ==> r.value.weapons == InBucket(items, ById(PropsOf(items)), idx, Weapons)
    ensures r.Ok? ==> r.value.blueprints == InBucket(items, ById(PropsOf(items)), idx, Blueprints)
    ensures r.Ok? ==> r.value.keep == InBucket(items, ById(PropsOf(items)), idx, Keep)
    ensures r.Ok? ==> r.value.shouldSell == InBucket(items, ById(PropsOf(items)), idx, Sell)
    ensures r.Ok? ==> r.value.safeToRecycle == InBucket(items, ById(PropsOf(items)), idx, Recycle)
    ensures r.Ok? ==> forall it :: it in items ==> it.recycleValue == Some(RecycleValue(ById(PropsOf(items)), it.props))
    ensures r.Err? ==> forall k :: 0 <= k < r.error ==>
      items[k].recycleValue == Some(RecycleValue(ById(PropsOf(items)), items[k].props))
    ensures r.Err? ==> forall it :: it in items && it !in items[..r.error] ==> it.recycleValue == old(it.recycleValue)
    ensures forall it :: it in items ==> it.sourceFile == old(it.sourceFile) && it.image == old(it.image)
  {
    var byId := ById(PropsOf(items));
    var keepSet := KeepSetOf(idx);
    r := ClassifyLoop(items, byId, idx, keepSet);
    if r.Ok? {
      DistributeSelects(items, Classes(items, byId, idx));
    }
  }

  /** The recycle value against a fixed id map, as a function of the item alone. */
  function RecycleValueOf(byId: map<string, Json>): Json -> Num
  {
    it => RecycleValue(byId, it)
  }

  /** `it._recycleValue` holds the item's recycle value. */
  predicate Annotated(it: Item, byId: map<string, Json>)
    reads it
  {
    it.recycleValue == Some(RecycleValueOf(byId)(it.props))
  }

  /** The loop of the categorizer over every item, against a fixed id map. */
  method ClassifyLoop(items: seq<Item>, byId: map<string, Json>, idx: Index, keepSet: set<string>)
    returns (r: Result<Buckets, nat>)
    requires keepSet == set id | id in idx && ProjectRequired(idx, id)
    modifies set it | it in items
    ensures r.Ok? <==> NoThrowBefore(items, |items|)
    ensures r.Err? ==> r.error < |items| && ThrowsAt(items[r.error].props) && NoThrowBefore(items, r.error)
    ensures r.Ok? ==> r.value == Distribute(items, Classes(items, byId, idx))
    ensures r.Ok? ==> forall it :: it in items ==> Annotated(it, byId)
    ensures r.Err? ==> forall k :: 0 <= k < r.error ==> Annotated(items[k], byId)
    ensures r.Err? ==> forall it :: it in items && it !in items[..r.error] ==> it.recycleValue == old(it.recycleValue)
    ensures forall it :: it in items ==> it.sourceFile == old(it.sourceFile) && it.image == old(it.image)
  {
    ghost var bs := Classes(items, byId, idx);
    var b := Buckets([], [], [], [], []);
    var i := 0;
    while i < |items|
      invariant 0 <= i <= |items|
      invariant NoThrowBefore(items, i)
      invariant b == Distribute(items[..i], bs[..i])
      invariant forall k :: 0 <= k < i ==> Annotated(items[k], byId)
      invariant forall it :: it in items && it !in items[..i] ==> it.recycleValue == old(it.recycleValue)
      invariant forall it :: it in items ==> it.sourceFile == old(it.sourceFile) && it.image == old(it.image)
    {
      DistributeStep(items, bs, i);
      ClassesAt(items, byId, idx, i);
      var bucket := ClassifyOne(items, i, byId, idx, keepSet);
      if bucket.None? {
        return Err(i);
      }
      b := AddTo(b, bucket.value, items[i]);
      UntouchedStep(items, i);
      i := i + 1;
    }
    assert items[..i] == items;
    assert bs[..i] == bs;
    r := Ok(b);
  }

  /** An item not among the first `i + 1` is neither item `i` nor among the first `i`. */
  lemma UntouchedStep(items: seq<Item>, i: nat)
    requires i < |items|
    ensures forall it :: it !in items[..i + 1] ==> it != items[i] && it !in items[..i]
  {
    assert items[..i + 1] == items[..i] + [items[i]];
  }

  /** One iteration of the loop: `None` when the blueprint test throws, before anything is
      written. Otherwise the recycle value of item `i` is written onto it and its bucket is
      decided; the items before it keep their values, even when the same object occurs
      twice in the list. */
  method ClassifyOne(items: seq<Item>, i: nat, byId: map<string, Json>, idx: Index, keepSet: set<string>)
    returns (bucket: Option<Bucket>)
    requires i < |items|
    requires keepSet == set id | id in idx && ProjectRequired(idx, id)
    requires forall k :: 0 <= k < i ==> Annotated(items[k], byId)
    modifies items[i]
    ensures bucket.None? <==> ThrowsAt(items[i].props)
    ensures bucket.None? ==> items[i].recycleValue == old(items[i].recycleValue)
    ensures bucket.Some? ==> bucket.value == ClassOf(items[i].props, byId, idx)
    ensures bucket.Some? ==> forall k :: 0 <= k < i + 1 ==> Annotated(items[k], byId)
    ensures items[i].sourceFile == old(items[i].sourceFile) && items[i].image == old(items[i].image)
  {
    bucket := Decide(items[i].props, byId, idx, keepSet);
    if bucket.Some? {
      var value, _ := ComputeRecycleInfo(byId, items[i].props);
      Annotate(items, i, byId, value);
    }
  }

  /** `it._recycleValue = value` for item `i`, where `value` is its recycle value. */
  method Annotate(items: seq<Item>, i: nat, byId: map<string, Json>, value: Num)
    requires i < |items| && value == RecycleValueOf(byId)(items[i].props)
    requires forall k :: 0 <= k < i ==> Annotated(items[k], byId)
    modifies items[i]
    ensures forall k :: 0 <= k < i + 1 ==> Annotated(items[k], byId)
    ensures items[i].sourceFile == old(items[i].sourceFile) && items[i].image == old(items[i].image)
  {
    var it := items[i];
    it.recycleValue := Some(value);
    forall k | 0 <= k < i + 1
      ensures Annotated(items[k], byId)
    {
      if items[k] != it {
        assert old(Annotated(items[k], byId));
      }
    }
  }

  /** The rules of one iteration of the loop, with the component scan written out as the
      program writes it: stop at the first component some project or quest lists. */
  method Decide(it: Json, byId: map<string, Json>, idx: Index, keepSet: set<string>) returns (bucket: Option<Bucket>)
    requires keepSet == set id | id in idx && ProjectRequired(idx, id)
    ensures bucket.None? <==> ThrowsAt(it)
    ensures bucket.Some? ==> bucket.value == ClassOf(it, byId, idx)
  {
    if IsWeapon(it) {
      return Some(Weapons);
    }
    if NameThrows(it) {
      return None;
    }
    if IsBlueprint(it) {
      return Some(Blueprints);
    }
    var sell := SellValue(it);
    var rec, components := ComputeRecycleInfo(byId, it);
    if IdOf(it) in keepSet {
      return Some(Keep);
    }
    if sell == 0 && rec == Int(0) {
      return Some(Keep);
    }
    var needed := AnyNeeded(idx, components);
    if needed {
      return Some(Recycle);
    }
    if rec.Int? && rec.n > sell {
      return Some(Recycle);
    }
    return Some(Sell);
  }

  /** The component scan of the loop: stop at the first component some project or quest
      lists. */
  method AnyNeeded(idx: Index, components: seq<string>) returns (needed: bool)
    ensures needed == ProducesNeeded(idx, components)
  {
    needed := false;
    var k := 0;
    while k < |components|
      invariant 0 <= k <= |components|
      invariant !exists j :: 0 <= j < k && Needed(idx, components[j])
    {
      var comp := components[k];
      var projectUses := if comp in idx then |idx[comp].projects| else 0;
      var questUses := if comp in idx then |idx[comp].quests| else 0;
      if projectUses > 0 || questUses > 0 {
        assert Needed(idx, components[k]);
        needed := true;
        return;
      }
      k := k + 1;
    }
  }
}
