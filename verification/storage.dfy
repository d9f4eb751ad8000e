/**
 * The list persisted under the storage key "classes" and the handlers that
 * change it. Each handler loads the list, patches its copy and saves the
 * whole list back; a `Store` holds the persisted value, so one method is
 * one load-patch-save.
 */
module Storage {
  import opened Wrappers
  import opened ArrayOps
  import opened Schedule
  import opened Views

  /**
   * The `forEach` of the all-classes page over `days`: for each day, the
   * classes on that day in list order, appended under the day's heading
   * unless there are none.
   */
  method AppendDaySections(list: seq<ClassRecord>, days: seq<string>) returns (sections: seq<DaySection>)
    ensures sections == SectionsFor(list, days)
  {
    sections := [];
    for k := 0 to |days|
      invariant sections + SectionsFor(list, days[k..]) == SectionsFor(list, days)
    {
      var day := days[k];
      var dayClasses := ClassesOn(list, day);
      SectionsForStep(list, days, k);
      if |dayClasses| > 0 {
        ghost var rest := SectionsFor(list, days[k + 1..]);
        assert SectionsFor(list, days[k..]) == [DaySection(day, dayClasses)] + rest;
        assert sections + [DaySection(day, dayClasses)] + rest == sections + ([DaySection(day, dayClasses)] + rest);
        sections := sections + [DaySection(day, dayClasses)];
      }
    }
    assert days[|days|..] == [];
  }

  class Store {
    /** The persisted list of classes. */
    var classes: seq<ClassRecord>

    constructor (initial: seq<ClassRecord>)
      ensures classes == initial
    {
      classes := initial;
    }

    /**
     * The card menu's edit. `answer` is what the name prompt returned, None
     * when it was cancelled. A non-empty answer renames the first class whose
     * id is `id`; without such a class, or without an answer, nothing is
     * saved. An answer of spaces counts as a name: it is not trimmed.
     */
    method Rename(id: string, answer: Option<string>) returns (saved: bool)
      modifies this
      ensures saved <==> answer.Some? && answer.value != "" && HasClass(old(classes), id)
      ensures classes == if saved then Renamed(old(classes), id, answer.value) else old(classes)
    {
      saved := false;
      if answer.Some? && answer.value != "" {
        var newName := answer.value;
        var list := classes;
        var cIdx := FindIndex(list, (c: ClassRecord) => c.id == id);
        if cIdx > -1 {
          list := list[cIdx := list[cIdx].(name := newName)];
          RenamedAt(classes, id, newName, cIdx);
          classes := list;
          saved := true;
        }
      }
    }

    /**
     * The item checkbox's change handler: sets `done` of item `itemId` in
     * class `classId` to the box's new state `checked`. When either lookup
     * fails, nothing is saved.
     */
    method SetItemDone(classId: string, itemId: string, checked: bool) returns (saved: bool)
      modifies this
      ensures saved <==> HasItem(old(classes), classId, itemId)
      ensures classes == if saved then WithItemDone(old(classes), classId, itemId, checked) else old(classes)
    {
      saved := false;
      var list := classes;
      var cIdx := FindIndex(list, (c: ClassRecord) => c.id == classId);
      if cIdx > -1 {
        var items := list[cIdx].items;
        var iIdx := FindIndex(items, (it: Item) => it.id == itemId);
        if iIdx > -1 {
          items := items[iIdx := items[iIdx].(done := checked)];
          ItemsWithDoneAt(list[cIdx].items, itemId, checked, iIdx);
          WithItemDoneAt(list, classId, itemId, checked, cIdx);
          list := list[cIdx := list[cIdx].(items := items)];
          classes := list;
          saved := true;
        }
      }
    }

    /**
     * The card's delete button: once the user confirms, every class whose id
     * is `id` is removed and the list is saved; a cancelled confirmation
     * changes nothing.
     */
    method Delete(id: string, confirmed: bool) returns (saved: bool)
      modifies this
      ensures saved == confirmed
      ensures classes == if confirmed then Without(old(classes), id) else old(classes)
    {
      if !confirmed {
        return false;
      }
      var list := classes;
      list := Without(list, id);
      classes := list;
      saved := true;
    }

    /**
     * `renderAllClassesPage`: loads the list and, unless it is empty, walks
     * WeekdayOrder appending a section for every day that has classes.
     */
    method RenderAllClasses() returns (view: AllClassesView)
      ensures view == AllClassesPage(classes)
    {
      var list := classes;
      if |list| == 0 {
        return NoClassesYet;
      }
      var sections := AppendDaySections(list, WeekdayOrder);
      return Days(sections);
    }
  }
}
