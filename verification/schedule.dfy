/**
 * The records the application keeps under its storage key "classes": a list
 * of classes, each tagged with a weekday and holding a checklist of items,
 * and the value-level effect of each edit the class cards and the add-class
 * form perform on that list.
 */
module Schedule {
  import opened ArrayOps

  datatype Item = Item(id: string, name: string, done: bool)

  datatype ClassRecord = ClassRecord(id: string, name: string, day: string, items: seq<Item>)

  /** `WEEKDAY_ORDER`: the order in which the all-classes page lists days. */
  const WeekdayOrder: seq<string> :=
    ["Monday", "Tuesday", "Wednesday", "Thursday", "Friday", "Saturday", "Sunday"]

  /** No two classes share an id. */
  predicate UniqueIds(list: seq<ClassRecord>) {
    forall i, j :: 0 <= i < j < |list| ==> list[i].id != list[j].id
  }

  /** No two items of one class share an id. */
  predicate UniqueItemIds(items: seq<Item>) {
    forall i, j :: 0 <= i < j < |items| ==> items[i].id != items[j].id
  }

  /** The identity invariants of the stored list. */
  predicate WellFormed(list: seq<ClassRecord>) {
    UniqueIds(list) && forall k :: 0 <= k < |list| ==> UniqueItemIds(list[k].items)
  }

  predicate HasClass(list: seq<ClassRecord>, id: string) {
    exists k :: 0 <= k < |list| && list[k].id == id
  }

  /** `list[k]` is the record `list.findIndex(c => c.id === id)` lands on. */
  predicate IsFirstClass(list: seq<ClassRecord>, k: int, id: string) {
    0 <= k < |list| && list[k].id == id && forall j :: 0 <= j < k ==> list[j].id != id
  }

  /** `items[j]` is the item `items.findIndex(it => it.id === id)` lands on. */
  predicate IsFirstItem(items: seq<Item>, j: int, id: string) {
    0 <= j < |items| && items[j].id == id && forall i :: 0 <= i < j ==> items[i].id != id
  }

  // ---- Rename (class card menu) ----

  /** The list with the first class whose id is `id` renamed to `newName`. */
  function Renamed(list: seq<ClassRecord>, id: string, newName: string): (r: seq<ClassRecord>)
    ensures |r| == |list|
    ensures forall k :: 0 <= k < |r| ==>
      r[k].id == list[k].id && r[k].day == list[k].day && r[k].items == list[k].items
    ensures forall k :: 0 <= k < |r| && r[k] != list[k] ==> IsFirstClass(list, k, id)
  {
    seq(|list|, k requires 0 <= k < |list| =>
      if IsFirstClass(list, k, id) then list[k].(name := newName) else list[k])
  }

  /** Patching the first match in place, as the menu handler does, gives the renamed list. */
  lemma RenamedAt(list: seq<ClassRecord>, id: string, newName: string, k: int)
    requires IsFirstClass(list, k, id)
    ensures Renamed(list, id, newName) == list[k := list[k].(name := newName)]
  {
  }

  /**
   * In a list with unique ids, renaming changes the name of exactly the
   * record carrying `id`; ids, days and items, and every other record, stay.
   */
  lemma RenameOnlyTarget(list: seq<ClassRecord>, id: string, newName: string, k: int)
    requires UniqueIds(list) && 0 <= k < |list|
    ensures |Renamed(list, id, newName)| == |list|
    ensures Renamed(list, id, newName)[k] ==
      if list[k].id == id then list[k].(name := newName) else list[k]
  {
  }

  /** Renaming a class that is not in the list changes nothing. */
  lemma RenameAbsent(list: seq<ClassRecord>, id: string, newName: string)
    requires !HasClass(list, id)
    ensures Renamed(list, id, newName) == list
  {
  }

  /** Renaming keeps every id, so it keeps the identity invariants. */
  lemma RenameKeepsWellFormed(list: seq<ClassRecord>, id: string, newName: string)
    requires WellFormed(list)
    ensures WellFormed(Renamed(list, id, newName))
  {
  }

  // ---- Item checkbox ----

  /** `items` with the `done` flag of the first item whose id is `itemId` set to `checked`. */
  function ItemsWithDone(items: seq<Item>, itemId: string, checked: bool): (r: seq<Item>)
    ensures |r| == |items|
    ensures forall j :: 0 <= j < |r| ==> r[j].id == items[j].id && r[j].name == items[j].name
    ensures forall j :: 0 <= j < |r| && r[j] != items[j] ==> IsFirstItem(items, j, itemId)
  {
    seq(|items|, j requires 0 <= j < |items| =>
      if IsFirstItem(items, j, itemId) then items[j].(done := checked) else items[j])
  }

  /**
   * The list once the checkbox of item `itemId` in class `classId` has been
   * set to `checked`: only the first matching item of the first matching
   * class changes.
   */
  function WithItemDone(list: seq<ClassRecord>, classId: string, itemId: string, checked: bool): (r: seq<ClassRecord>)
    ensures |r| == |list|
    ensures forall k :: 0 <= k < |r| ==>
      && r[k].id == list[k].id && r[k].name == list[k].name && r[k].day == list[k].day
      && |r[k].items| == |list[k].items|
    ensures forall k :: 0 <= k < |r| && r[k] != list[k] ==> IsFirstClass(list, k, classId)
  {
    seq(|list|, k requires 0 <= k < |list| =>
      if IsFirstClass(list, k, classId)
      then list[k].(items := ItemsWithDone(list[k].items, itemId, checked))
      else list[k])
  }

  /** Patching the first matching item in place gives the items with that flag set. */
  lemma ItemsWithDoneAt(items: seq<Item>, itemId: string, checked: bool, j: int)
    requires IsFirstItem(items, j, itemId)
    ensures ItemsWithDone(items, itemId, checked) == items[j := items[j].(done := checked)]
  {
  }

  /** Patching the first matching class in place, as the checkbox handler does, gives the new list. */
  lemma WithItemDoneAt(list: seq<ClassRecord>, classId: string, itemId: string, checked: bool, k: int)
    requires IsFirstClass(list, k, classId)
    ensures WithItemDone(list, classId, itemId, checked) ==
      list[k := list[k].(items := ItemsWithDone(list[k].items, itemId, checked))]
  {
  }

  /** Both lookups of the checkbox handler succeed. */
  predicate HasItem(list: seq<ClassRecord>, classId: string, itemId: string) {
    exists k :: 0 <= k < |list| && IsFirstClass(list, k, classId) && exists j :: 0 <= j < |list[k].items| && list[k].items[j].id == itemId
  }

  /**
   * In a well-formed list, setting the checkbox of (classId, itemId) sets
   * `done` on exactly that pair; every other item, and every field other
   * than `done`, is as before.
   */
  lemma SetDoneOnlyTarget(list: seq<ClassRecord>, classId: string, itemId: string, checked: bool, k: int)
    requires WellFormed(list) && 0 <= k < |list|
    ensures |WithItemDone(list, classId, itemId, checked)| == |list|
    ensures WithItemDone(list, classId, itemId, checked)[k].id == list[k].id
    ensures WithItemDone(list, classId, itemId, checked)[k].name == list[k].name
    ensures WithItemDone(list, classId, itemId, checked)[k].day == list[k].day
    ensures |WithItemDone(list, classId, itemId, checked)[k].items| == |list[k].items|
    ensures forall j :: 0 <= j < |list[k].items| ==>
      WithItemDone(list, classId, itemId, checked)[k].items[j] ==
        if list[k].id == classId && list[k].items[j].id == itemId
        then list[k].items[j].(done := checked) else list[k].items[j]
  {
  }

  /** When either lookup fails the list is the same, as the handler then saves nothing. */
  lemma SetDoneMissing(list: seq<ClassRecord>, classId: string, itemId: string, checked: bool)
    requires !HasItem(list, classId, itemId)
    ensures WithItemDone(list, classId, itemId, checked) == list
  {
    var r := WithItemDone(list, classId, itemId, checked);
    forall k | 0 <= k < |list| ensures r[k] == list[k] {
      if IsFirstClass(list, k, classId) {
        var items := list[k].items;
        assert forall j :: 0 <= j < |items| ==> items[j].id != itemId;
        assert ItemsWithDone(items, itemId, checked) == items;
      }
    }
  }

  /** Setting a checkbox keeps every id, so it keeps the identity invariants. */
  lemma SetDoneKeepsWellFormed(list: seq<ClassRecord>, classId: string, itemId: string, checked: bool)
    requires WellFormed(list)
    ensures WellFormed(WithItemDone(list, classId, itemId, checked))
  {
  }

  // ---- Delete (class card button) ----

  /** `list.filter(c => c.id !== id)`. */
  function Without(list: seq<ClassRecord>, id: string): (r: seq<ClassRecord>)
    ensures forall c :: c in r ==> c.id != id && c in list
  {
    Filter(list, (c: ClassRecord) => c.id != id)
  }

  /** Every record with another id survives a delete, as often as it occurred. */
  lemma WithoutCount(list: seq<ClassRecord>, id: string)
    ensures forall c: ClassRecord :: c.id != id ==> multiset(Without(list, id))[c] == multiset(list)[c]
  {
    FilterCount(list, (c: ClassRecord) => c.id != id);
  }

  /** Deleting keeps the survivors in their relative order. */
  lemma WithoutAppend(a: seq<ClassRecord>, b: seq<ClassRecord>, id: string)
    ensures Without(a + b, id) == Without(a, id) + Without(b, id)
  {
    FilterAppend(a, b, (c: ClassRecord) => c.id != id);
  }

  /** Deleting an id that no record carries changes nothing. */
  lemma WithoutAbsent(list: seq<ClassRecord>, id: string)
    requires !HasClass(list, id)
    ensures Without(list, id) == list
  {
    FilterKeepsAll(list, (c: ClassRecord) => c.id != id);
  }

  /** Deleting from `a + [x] + b`, where only `x` carries the id, leaves `a + b`. */
  lemma WithoutSplit(a: seq<ClassRecord>, x: ClassRecord, b: seq<ClassRecord>)
    requires !HasClass(a, x.id) && !HasClass(b, x.id)
    ensures Without(a + [x] + b, x.id) == a + b
  {
    var id := x.id;
    assert Without([x], id) == [] by {
      assert [x][1..] == [];
    }
    calc {
      Without(a + [x] + b, id);
      { WithoutAppend(a + [x], b, id); }
      Without(a + [x], id) + Without(b, id);
      { WithoutAppend(a, [x], id); }
      Without(a, id) + Without([x], id) + Without(b, id);
      { WithoutAbsent(a, id); WithoutAbsent(b, id); }
      a + b;
    }
  }

  /** With unique ids, deleting a present id removes exactly that one record. */
  lemma WithoutRemovesOne(list: seq<ClassRecord>, k: int)
    requires UniqueIds(list) && 0 <= k < |list|
    ensures Without(list, list[k].id) == list[..k] + list[k + 1..]
    ensures |Without(list, list[k].id)| == |list| - 1
  {
    var id, a, b := list[k].id, list[..k], list[k + 1..];
    assert !HasClass(a, id) by {
      forall j | 0 <= j < |a| ensures a[j].id != id {
        assert a[j] == list[j];
      }
    }
    assert !HasClass(b, id) by {
      forall j | 0 <= j < |b| ensures b[j].id != id {
        assert b[j] == list[k + 1 + j];
      }
    }
    assert list == a + [list[k]] + b;
    WithoutSplit(a, list[k], b);
  }

  /** Deleting keeps the ids unique. */
  lemma {:induction false} WithoutKeepsUniqueIds(list: seq<ClassRecord>, id: string)
    requires UniqueIds(list)
    ensures UniqueIds(Without(list, id))
  {
    if list != [] {
      var tail := list[1..];
      WithoutKeepsUniqueIds(tail, id);
      assert list == [list[0]] + tail;
      WithoutAppend([list[0]], tail, id);
      forall c | c in tail ensures c.id != list[0].id {
        var j :| 0 <= j < |tail| && tail[j] == c;
        assert list[j + 1] == c;
      }
    }
  }

  /** Deleting keeps the identity invariants. */
  lemma WithoutKeepsWellFormed(list: seq<ClassRecord>, id: string)
    requires WellFormed(list)
    ensures WellFormed(Without(list, id))
  {
    WithoutKeepsUniqueIds(list, id);
  }

  // ---- New class (add-class form) ----

  /** `names.map(it => ({ id: uid(), name: it, done: false }))`, the fresh ids given as `ids`. */
  function NewItems(names: seq<string>, ids: seq<string>): (r: seq<Item>)
    requires |ids| == |names|
    ensures |r| == |names|
    ensures forall k :: 0 <= k < |r| ==> r[k].id == ids[k] && r[k].name == names[k] && !r[k].done
  {
    if names == [] then []
    else [Item(ids[0], names[0], false)] + NewItems(names[1..], ids[1..])
  }

  /** The record the add-class form builds from its fields and pending item names. */
  function NewClass(id: string, name: string, day: string, names: seq<string>, itemIds: seq<string>): (c: ClassRecord)
    requires |itemIds| == |names|
    ensures c.id == id && c.name == name && c.day == day
    ensures |c.items| == |names|
    ensures forall k :: 0 <= k < |c.items| ==>
      c.items[k].id == itemIds[k] && c.items[k].name == names[k] && !c.items[k].done
  {
    ClassRecord(id, name, day, NewItems(names, itemIds))
  }

  /** Distinct fresh ids make the new record keep the identity invariants once appended. */
  lemma AppendNewClassKeepsWellFormed(list: seq<ClassRecord>, id: string, name: string, day: string,
                                      names: seq<string>, itemIds: seq<string>)
    requires WellFormed(list) && !HasClass(list, id)
    requires |itemIds| == |names|
    requires forall i, j :: 0 <= i < j < |itemIds| ==> itemIds[i] != itemIds[j]
    ensures WellFormed(list + [NewClass(id, name, day, names, itemIds)])
  {
  }
}
