/**
 * The add-class form: a name field, a day selector, an item input with its
 * add button, the pending item names shown as removable chips, and the
 * success message. Submitting appends a new class to the stored list.
 */
module AddClass {
  import opened ArrayOps
  import opened Text
  import opened Schedule
  import opened Storage

  /** `items.filter(i => i !== value)`: the pending names without any copy of `value`. */
  function WithoutName(pending: seq<string>, value: string): (r: seq<string>)
    ensures value !in r
    ensures forall x :: x in r ==> x in pending
  {
    Filter(pending, (x: string) => x != value)
  }

  /** Removing a name keeps every other name, as often as it occurred. */
  lemma WithoutNameCount(pending: seq<string>, value: string)
    ensures forall x :: x != value ==> multiset(WithoutName(pending, value))[x] == multiset(pending)[x]
  {
    FilterCount(pending, (x: string) => x != value);
  }

  /** Removing a name keeps the other names in their order. */
  lemma WithoutNameAppend(a: seq<string>, b: seq<string>, value: string)
    ensures WithoutName(a + b, value) == WithoutName(a, value) + WithoutName(b, value)
  {
    FilterAppend(a, b, (x: string) => x != value);
  }

  /** A name that is not pending: removing it changes nothing. */
  lemma WithoutNameAbsent(pending: seq<string>, value: string)
    requires value !in pending
    ensures WithoutName(pending, value) == pending
  {
    FilterKeepsAll(pending, (x: string) => x != value);
  }

  /**
   * Built from pending names the add button accepted, every item of a new
   * class has a trimmed, non-empty name.
   */
  lemma NewClassItemsNamed(id: string, name: string, day: string, names: seq<string>, itemIds: seq<string>)
    requires |itemIds| == |names|
    requires forall s :: s in names ==> IsItemName(s)
    ensures forall it :: it in NewClass(id, name, day, names, itemIds).items ==> IsItemName(it.name)
  {
    var items := NewClass(id, name, day, names, itemIds).items;
    forall it | it in items ensures IsItemName(it.name) {
      var k :| 0 <= k < |items| && items[k] == it;
      assert names[k] in names;
    }
  }

  /** Removing the same chip twice is removing it once. */
  lemma WithoutNameTwice(pending: seq<string>, value: string)
    ensures WithoutName(WithoutName(pending, value), value) == WithoutName(pending, value)
  {
    FilterIdempotent(pending, (x: string) => x != value);
  }

  /** A pending name as the add button leaves it: trimmed and not empty. */
  predicate IsItemName(s: string) {
    s != "" && Trim(s) == s
  }

  class AddClassForm {
    var nameField: string
    var dayField: string
    var itemField: string
    /** The closure variable `items`: item names not yet saved, in the order added. */
    var pending: seq<string>
    var message: string

    /** Every pending name went through the add button's trim-and-check. */
    ghost predicate Valid()
      reads this
    {
      forall s :: s in pending ==> IsItemName(s)
    }

    constructor ()
      ensures Valid()
      ensures nameField == "" && dayField == "" && itemField == "" && pending == [] && message == ""
    {
      nameField, dayField, itemField := "", "", "";
      pending := [];
      message := "";
    }

    /**
     * The add button: the trimmed item input is appended to the pending
     * names and the input cleared; an input of white space only is ignored.
     */
    method AddItem()
      requires Valid()
      modifies this
      ensures Valid()
      ensures var val := Trim(old(itemField));
        if val == "" then
          pending == old(pending) && itemField == old(itemField)
        else
          pending == old(pending) + [val] && itemField == ""
      ensures nameField == old(nameField) && dayField == old(dayField) && message == old(message)
    {
      var val := Trim(itemField);
      if val == "" {
        return;
      }
      TrimIdempotent(itemField);
      pending := pending + [val];
      itemField := "";
    }

    /** A chip's remove button: every pending copy of `value` goes. */
    method RemoveItem(value: string)
      requires Valid()
      modifies this
      ensures Valid()
      ensures pending == WithoutName(old(pending), value)
      ensures nameField == old(nameField) && dayField == old(dayField)
      ensures itemField == old(itemField) && message == old(message)
    {
      pending := WithoutName(pending, value);
    }

    /**
     * The form's submit handler. With a trimmed name and a day chosen, it
     * appends one new class, named by the trimmed name and holding one
     * unchecked item per pending name in pending order, to the stored list;
     * then it shows "Class saved!", clears the name and the day and empties
     * the pending names. Otherwise nothing changes. `classId` and `itemIds`
     * are the fresh ids `uid()` would return.
     */
    method Submit(store: Store, classId: string, itemIds: seq<string>) returns (saved: bool)
      requires Valid()
      requires |itemIds| == |pending|
      modifies this, store
      ensures Valid()
      ensures saved <==> Trim(old(nameField)) != "" && old(dayField) != ""
      ensures saved ==>
        && store.classes == old(store.classes) +
             [NewClass(classId, Trim(old(nameField)), old(dayField), old(pending), itemIds)]
        && pending == [] && nameField == "" && dayField == "" && message == "Class saved!"
      ensures !saved ==>
        && store.classes == old(store.classes)
        && pending == old(pending) && nameField == old(nameField) && dayField == old(dayField)
        && message == old(message)
      ensures itemField == old(itemField)
    {
      var name, day := Trim(nameField), dayField;
      if name == "" || day == "" {
        return false;
      }
      var newClass := NewClass(classId, name, day, pending, itemIds);
      var list := store.classes;
      list := list + [newClass];
      store.classes := list;
      message := "Class saved!";
      nameField := "";
      dayField := "";
      pending := [];
      saved := true;
    }
  }
}
