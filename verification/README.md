# Remembrall class schedule: the list logic, in Dafny

Remembrall is a browser page that keeps a weekly class schedule. It stores
one list of class records under the storage key `classes`. Each record has
an `id`, a `name`, a `day` (a weekday name) and a checklist of `items`, and
each item has an `id`, a `name` and a `done` flag. The script `scri.js`
wires page elements to a handful of operations on that list. This project
lifts those operations out of the event handlers and proves what each one
does to the list:

- a class card's menu renames the class (`Storage.Store.Rename`);
- an item's checkbox sets that item's `done` flag (`Storage.Store.SetItemDone`);
- a card's delete button removes the class after confirmation (`Storage.Store.Delete`);
- the add-class form collects pending item names (`AddClass.AddClassForm.AddItem`,
  `RemoveItem`) and appends a new class on submit (`AddClass.AddClassForm.Submit`);
- the all-classes page groups the list by weekday in `WEEKDAY_ORDER`
  (`Views.AllClassesPage`, built by the loop in `Storage.Store.RenderAllClasses`);
- the today page keeps the classes of the current weekday (`Views.TodayPage`).

Files:

- `wrappers.dfy`: `Option`, standing for a prompt's answer or `null`.
- `arrayops.dfy`: `findIndex` and `filter` as `FindIndex` and `Filter`, with their laws.
- `text.dfy`: `String.prototype.trim` over ECMAScript's white space and line terminators.
- `schedule.dfy`: the records, `WEEKDAY_ORDER`, and the value each edit produces.
  Rename and checkbox are defined declaratively, by which record is the first
  match. Delete and the item construction follow `filter` and `map`.
- `views.dfy`: the data the two read-only pages show.
- `storage.dfy`: `Store`, a class whose field is the persisted list. Its methods
  perform one load-patch-save each, in place, as the handlers do.
- `addclass.dfy`: `AddClassForm`, a class holding the form's fields and the
  pending item names.

Parameters stand in for everything outside the script's logic:

- the stored list is the field `Store.classes`;
- the prompt's answer is an `Option<string>` and the delete confirmation a `bool`;
- the ids `uid()` would generate are arguments of `Submit`;
- today's weekday name is an argument of `TodayPage`.

Behaviours of the code worth knowing, all modelled as written:

- A rename answer is not trimmed, so a name of spaces is accepted.
- A checkbox sets `done` to the box's new state; it does not flip the stored value.
- Only the first class with the id, and in it the first item with the id, is patched.
- Removing a pending chip removes every pending copy of that name.
- A non-empty list whose days are all unrecognised shows neither a section nor
  the placeholder (`Views.AllClassesPageBlank`).

## Model

| member | source | states |
|---|---|---|
| `ArrayOps.FindIndex` | scri.js:76-78 | the result is -1 exactly when no element matches, otherwise the first matching index |
| `ArrayOps.Filter` | scri.js:100 | every kept element passes the test and comes from the input; the result is no longer than the input |
| `ArrayOps.FilterCount` | scri.js:123 | a passing value occurs as often as in the input, a failing one never |
| `ArrayOps.FilterAppend` | scri.js:139 | filtering a concatenation is the concatenation of the filtered parts, so survivors keep their order |
| `ArrayOps.FilterKeepsAll` | scri.js:100 | when every element passes, the filter returns the input unchanged |
| `ArrayOps.FilterDropsAll` | scri.js:124 | when no element passes, the filter returns the empty sequence |
| `ArrayOps.FilterIdempotent` | scri.js:169 | filtering twice with the same test equals filtering once (used for removing a chip twice) |
| `Text.TrimStart` | scri.js:178 | the result is a suffix of the input with no leading white space, and only white space was removed |
| `Text.TrimEnd` | scri.js:178 | the result is a prefix of the input with no trailing white space, and only white space was removed |
| `Text.Trim` | scri.js:193 | the trimmed text has white space at neither end; it is empty exactly when the input is all white space |
| `Text.TrimIsSlice` | scri.js:178 | the trimmed text is the contiguous slice of the input between a leading and a trailing run of white space |
| `Text.TrimIdempotent` | scri.js:178 | trimming a trimmed text changes nothing |
| `Schedule.RenameOnlyTarget` | scri.js:46-53 | with unique ids, only the record carrying the id gets the new name; every other field and record is unchanged |
| `Schedule.Renamed` | scri.js:48-50 | the renamed list has the same length, ids, days and items as the input, and the only record that may differ is the first whose id matches |
| `Schedule.RenamedAt` | scri.js:48-50 | overwriting the name of the first record with the id, in place, yields the renamed list |
| `Schedule.RenameAbsent` | scri.js:49 | renaming an id no record carries leaves the list unchanged |
| `Schedule.RenameKeepsWellFormed` | scri.js:50 | renaming keeps class ids unique and item ids unique within each class |
| `Schedule.SetDoneOnlyTarget` | scri.js:74-83 | in a well-formed list only the (class id, item id) pair gets `done` set to the box state; ids, names, days and other items stay |
| `Schedule.ItemsWithDone` | scri.js:79-80 | the patched items keep their length, ids and names, and the only item that may differ is the first whose id matches |
| `Schedule.WithItemDone` | scri.js:76-80 | the patched list keeps its length and every class's id, name, day and item count, and the only class that may differ is the first whose id matches |
| `Schedule.ItemsWithDoneAt` | scri.js:79-80 | overwriting `done` of the first item with the id, in place, yields the items with that flag set |
| `Schedule.WithItemDoneAt` | scri.js:76-80 | patching the items of the first class with the id, in place, yields the list with that item's flag set |
| `Schedule.SetDoneMissing` | scri.js:77-79 | if the class lookup or the item lookup fails, the list is unchanged |
| `Schedule.SetDoneKeepsWellFormed` | scri.js:80 | setting a checkbox keeps the id invariants |
| `Schedule.Without` | scri.js:100 | no surviving record carries the deleted id, and every survivor comes from the list |
| `Schedule.WithoutCount` | scri.js:100 | every record with another id survives as often as it occurred |
| `Schedule.WithoutAppend` | scri.js:100 | deleting keeps the survivors in their relative order |
| `Schedule.WithoutAbsent` | scri.js:99-101 | deleting an id no record carries leaves the list unchanged |
| `Schedule.WithoutSplit` | scri.js:100 | deleting from a + [x] + b, where only x carries the id, leaves a + b |
| `Schedule.WithoutRemovesOne` | scri.js:98-101 | with unique ids, deleting the id of record k gives the list minus that one record, one shorter |
| `Schedule.WithoutKeepsUniqueIds` | scri.js:100 | deleting keeps class ids unique |
| `Schedule.WithoutKeepsWellFormed` | scri.js:100 | deleting keeps the id invariants |
| `Schedule.NewItems` | scri.js:200 | one item per pending name, in the same order: the given fresh id, that name, and `done` false |
| `Schedule.NewClass` | scri.js:196-201 | the new record carries the given id, name and day and one unchecked item per pending name, in order, with the given item ids |
| `Schedule.AppendNewClassKeepsWellFormed` | scri.js:196-203 | appending a new class with a fresh class id and distinct item ids keeps the id invariants |
| `Views.ClassesOn` | scri.js:123 | every class listed for a day has that day and comes from the list |
| `Views.ClassesOnAppend` | scri.js:123 | the classes of a day in a concatenation are those of each part, one after the other, so a day's cards keep list order |
| `Views.ClassesOnComplete` | scri.js:139 | every class of the list with that day is listed for it |
| `Views.IndexOf` | scri.js:21-29 | the result is -1 exactly for a name not in the order, else a position holding that name |
| `Views.WeekdayOrderDistinct` | scri.js:21-29 | `Schedule.WeekdayOrder`, the names Monday to Sunday in that order, holds seven pairwise distinct names |
| `Views.IndexOfTail` | scri.js:122 | in a distinct order, a name past the first sits one place later than in the tail |
| `Views.SectionsFor` | scri.js:122-132 | what the `forEach` over the day names appends: for each day in turn, a section with that day's classes unless it has none (its properties are the `SectionsFor*` lemmas) |
| `Views.SectionsForStep` | scri.js:122-124 | visiting one day appends that day's section when it has classes, then continues with the remaining days |
| `Views.SectionsForShape` | scri.js:122-131 | there are at most as many sections as days; each section is a day of the order, holds exactly that day's classes in list order, and is non-empty |
| `Views.SectionsForOrdered` | scri.js:122 | with distinct days, sections appear in the order of the days |
| `Views.SectionsForComplete` | scri.js:122-124 | every day of the order that has classes gets a section |
| `Views.SectionsForNone` | scri.js:124 | days on which no class falls produce no section |
| `Views.AllClassesPage` | scri.js:112-133 | the all-classes page shows the placeholder or at most seven day sections, none of them empty |
| `Views.TodayPage` | scri.js:135-146 | the today page shows the placeholder or a non-empty list of classes of the list whose day is today |
| `Views.AllClassesPageSpec` | scri.js:117-132 | the placeholder appears exactly for the empty list; otherwise the sections group the list by weekday in `WEEKDAY_ORDER` |
| `Views.GroupedShowsExactly` | scri.js:122-131 | grouped sections show only listed classes under their own recognised day, and every class with a recognised day appears under it |
| `Views.AllClassesPageBlank` | scri.js:117-124 | a non-empty list with no recognised day shows neither sections nor the placeholder |
| `Views.TodayPageSpec` | scri.js:139-145 | the placeholder appears exactly when no class has today's day; otherwise the page shows the order-preserving filter on `day == today` |
| `Storage.Store.constructor` | scri.js:4-10 | the store holds the list as loaded |
| `Storage.Store.Rename` | scri.js:44-55 | the list is saved exactly when the answer is non-empty and the id is present, and is then the list with that record renamed |
| `Storage.Store.SetItemDone` | scri.js:74-84 | the list is saved exactly when both lookups succeed, and is then the list with that item's `done` set |
| `Storage.Store.Delete` | scri.js:97-104 | after confirmation the list is the filtered list; a cancelled confirmation leaves it unchanged |
| `Storage.AppendDaySections` | scri.js:122-132 | the loop over the day names appends exactly the sections of the days that have classes, in the order of the names |
| `Storage.Store.RenderAllClasses` | scri.js:112-133 | the loop over `WEEKDAY_ORDER` builds exactly the all-classes view of the stored list |
| `AddClass.WithoutName` | scri.js:169 | the removed name is no longer pending, and every remaining name was pending |
| `AddClass.WithoutNameCount` | scri.js:169 | every other pending name stays, as often as it occurred |
| `AddClass.WithoutNameAppend` | scri.js:169 | removing a name keeps the other names in their order |
| `AddClass.WithoutNameTwice` | scri.js:169 | removing the same chip twice leaves the same pending names as removing it once |
| `AddClass.WithoutNameAbsent` | scri.js:169 | removing a name that is not pending changes nothing |
| `AddClass.NewClassItemsNamed` | scri.js:196-201 | built from names the add button accepted, every item of a new class has a trimmed, non-empty name |
| `AddClass.AddClassForm.constructor` | scri.js:158 | the form starts with no pending names and empty fields |
| `AddClass.AddClassForm.AddItem` | scri.js:177-183 | a non-blank input is appended trimmed and the input cleared; a blank one changes nothing; pending names stay trimmed and non-empty |
| `AddClass.AddClassForm.RemoveItem` | scri.js:168-171 | pending becomes the pending names without any copy of the value; nothing else changes |
| `AddClass.AddClassForm.Submit` | scri.js:191-213 | with a non-blank name and a day, one new record is appended and the pending list and form fields are cleared; otherwise the stored list, pending names and fields are unchanged |

## Left out

- Storage and JSON (scri.js:4-14): `localStorage`, `JSON.parse` and `JSON.stringify`
  are not modelled. The persisted list is the field `Store.classes`. Treating
  corrupt data as an empty list depends on the JSON parser, which is not part of
  this model. So is the round trip of saving and reloading.
- `uid()` (scri.js:16-18) uses randomness and the clock. Fresh ids are arguments;
  uniqueness is a precondition of the lemmas that need it, never of the operations.
- Today's weekday name (scri.js:138) depends on the clock and the locale. It is an argument.
- `prompt` and `confirm` (scri.js:45, 98) become arguments.
- DOM construction, event wiring and card re-rendering are not modelled: element
  creation, `innerHTML`, `replaceWith`, `card.remove()` and the chip list. So is
  the Enter/comma keypress shortcut (scri.js:184-189), which only clicks the add button.
- The `setTimeout` that clears the success message after two seconds (scri.js:210-212)
  is timer behaviour with no effect on data.
- Records whose `items` field is missing, and the `!!item.done` coercion, only arise
  from hand-edited storage. Here every record has an item sequence and every `done` is a `bool`.
- Strings are sequences of Unicode scalar values, while JavaScript works
  on UTF-16 code units. Every white-space character lies in the Basic Multilingual
  Plane, so trimming agrees for well-formed text.
- Concurrent tabs and the races between reloading and saving are not modelled.
  Each method is one atomic load-patch-save.
