/**
 * The two read-only pages: all classes grouped by weekday, and the classes
 * of one given day. Each is described by the data it shows; building the
 * cards themselves is left to the page.
 */
module Views {
  import opened ArrayOps
  import opened Schedule

  /** `list.filter(c => c.day === day)`: the classes of one day, in list order. */
  function ClassesOn(list: seq<ClassRecord>, day: string): (r: seq<ClassRecord>)
    ensures forall c :: c in r ==> c.day == day && c in list
  {
    Filter(list, (c: ClassRecord) => c.day == day)
  }

  /** A class whose day is `day` is among the classes of that day. */
  lemma ClassesOnComplete(list: seq<ClassRecord>, day: string)
    ensures forall c :: c in list && c.day == day ==> c in ClassesOn(list, day)
  {
    FilterCount(list, (c: ClassRecord) => c.day == day);
    forall c | c in list && c.day == day ensures c in ClassesOn(list, day) {
      assert multiset(list)[c] > 0;
    }
  }

  /** The position of `d` in `days`, or -1. */
  function IndexOf(days: seq<string>, d: string): (r: int)
    ensures -1 <= r < |days|
    ensures r == -1 <==> d !in days
    ensures 0 <= r ==> days[r] == d
  {
    FindIndex(days, (x: string) => x == d)
  }

  predicate Distinct(days: seq<string>) {
    forall i, j :: 0 <= i < j < |days| ==> days[i] != days[j]
  }

  /** The seven weekday names are distinct. */
  lemma WeekdayOrderDistinct()
    ensures Distinct(WeekdayOrder)
  {
  }

  /** Past the first name, positions in `days` are one more than in its tail. */
  lemma IndexOfTail(days: seq<string>, d: string)
    requires Distinct(days) && days != [] && d in days[1..]
    ensures IndexOf(days, d) == IndexOf(days[1..], d) + 1
  {
    var j :| 0 <= j < |days[1..]| && days[1..][j] == d;
    assert days[j + 1] == d;
  }

  /** One heading of the all-classes page and the cards under it. */
  datatype DaySection = DaySection(day: string, classes: seq<ClassRecord>)

  /** What the all-classes page shows: the "No classes added yet." placeholder, or day sections. */
  datatype AllClassesView = NoClassesYet | Days(sections: seq<DaySection>)

  /** What the today page shows: the "No classes today." placeholder, or the day's cards. */
  datatype TodayView = NoClassesToday | Today(classes: seq<ClassRecord>)

  /**
   * What the `WEEKDAY_ORDER.forEach` of the all-classes page appends when
   * it runs over `days`: a section for each day that has classes.
   */
  function SectionsFor(list: seq<ClassRecord>, days: seq<string>): (r: seq<DaySection>)
  {
    if days == [] then []
    else
      var onDay := ClassesOn(list, days[0]);
      (if |onDay| == 0 then [] else [DaySection(days[0], onDay)]) + SectionsFor(list, days[1..])
  }

  /** The classes of one day in a concatenation are those of each part, in order. */
  lemma ClassesOnAppend(a: seq<ClassRecord>, b: seq<ClassRecord>, day: string)
    ensures ClassesOn(a + b, day) == ClassesOn(a, day) + ClassesOn(b, day)
  {
    FilterAppend(a, b, (c: ClassRecord) => c.day == day);
  }

  /** One step of the walk over `days`: the section of `days[k]`, if any, then the rest. */
  lemma SectionsForStep(list: seq<ClassRecord>, days: seq<string>, k: int)
    requires 0 <= k < |days|
    ensures SectionsFor(list, days[k..]) ==
      (if |ClassesOn(list, days[k])| == 0 then [] else [DaySection(days[k], ClassesOn(list, days[k]))])
      + SectionsFor(list, days[k + 1..])
  {
    assert days[k..][1..] == days[k + 1..];
  }

  /**
   * There are at most as many sections as days, and each is a day of `days`
   * holding exactly that day's classes, in list order, and at least one.
   */
  lemma {:induction false} SectionsForShape(list: seq<ClassRecord>, days: seq<string>)
    ensures |SectionsFor(list, days)| <= |days|
    ensures forall i :: 0 <= i < |SectionsFor(list, days)| ==>
      && SectionsFor(list, days)[i].day in days
      && SectionsFor(list, days)[i].classes == ClassesOn(list, SectionsFor(list, days)[i].day)
      && SectionsFor(list, days)[i].classes != []
  {
    if days != [] {
      var r, tail := SectionsFor(list, days), SectionsFor(list, days[1..]);
      var h := |r| - |tail|;
      assert r[h..] == tail;
      SectionsForShape(list, days[1..]);
      assert forall i :: 0 <= i < |tail| ==> tail[i].day in days[1..];
      forall i | h <= i < |r| ensures r[i].day in days {
        assert r[i] == tail[i - h];
        assert tail[i - h].day in days[1..];
      }
    }
  }

  /** For distinct `days`, the sections come in the order of `days`. */
  lemma {:induction false} SectionsForOrdered(list: seq<ClassRecord>, days: seq<string>)
    requires Distinct(days)
    ensures forall i, j :: 0 <= i < j < |SectionsFor(list, days)| ==>
      IndexOf(days, SectionsFor(list, days)[i].day) < IndexOf(days, SectionsFor(list, days)[j].day)
  {
    if days != [] {
      var r, tail := SectionsFor(list, days), SectionsFor(list, days[1..]);
      var h := |r| - |tail|;
      assert r[h..] == tail;
      assert Distinct(days[1..]);
      SectionsForOrdered(list, days[1..]);
      SectionsForShape(list, days[1..]);
      forall i | h <= i < |r|
        ensures IndexOf(days, r[i].day) == IndexOf(days[1..], tail[i - h].day) + 1 >= 1
      {
        assert r[i] == tail[i - h];
        IndexOfTail(days, r[i].day);
      }
      if h == 1 {
        assert r[0].day == days[0];
        assert IndexOf(days, r[0].day) == 0;
      }
    }
  }

  /** Days none of the classes fall on get no section. */
  lemma {:induction false} SectionsForNone(list: seq<ClassRecord>, days: seq<string>)
    requires forall c :: c in list ==> c.day !in days
    ensures SectionsFor(list, days) == []
  {
    if days != [] {
      FilterDropsAll(list, (c: ClassRecord) => c.day == days[0]);
      SectionsForNone(list, days[1..]);
    }
  }

  /** The day headings of a list of sections, in order. */
  function SectionDays(r: seq<DaySection>): (ds: seq<string>)
    ensures |ds| == |r| && forall i :: 0 <= i < |r| ==> ds[i] == r[i].day
  {
    seq(|r|, i requires 0 <= i < |r| => r[i].day)
  }

  /** Every day of `days` that has classes gets a section. */
  lemma {:induction false} SectionsForComplete(list: seq<ClassRecord>, days: seq<string>)
    ensures forall d :: d in days && |ClassesOn(list, d)| > 0 ==> d in SectionDays(SectionsFor(list, days))
  {
    if days != [] {
      var r, tail := SectionsFor(list, days), SectionsFor(list, days[1..]);
      var h := |r| - |tail|;
      assert r[h..] == tail;
      SectionsForComplete(list, days[1..]);
      forall d | d in days && |ClassesOn(list, d)| > 0 ensures d in SectionDays(r) {
        if d == days[0] {
          assert SectionDays(r)[0] == d;
        } else {
          assert d in days[1..];
          var i :| 0 <= i < |tail| && SectionDays(tail)[i] == d;
          assert r[i + h] == tail[i];
          assert SectionDays(r)[i + h] == d;
        }
      }
    }
  }

  /** `renderAllClassesPage`: the placeholder for an empty list, else the weekday sections. */
  function AllClassesPage(list: seq<ClassRecord>): (v: AllClassesView)
    ensures v.Days? ==> |v.sections| <= |WeekdayOrder|
    ensures v.Days? ==> forall i :: 0 <= i < |v.sections| ==> v.sections[i].classes != []
  {
    SectionsForShape(list, WeekdayOrder);
    if |list| == 0 then NoClassesYet else Days(SectionsFor(list, WeekdayOrder))
  }

  /** `renderTodayClassesPage`, with today's weekday name given as `today`. */
  function TodayPage(list: seq<ClassRecord>, today: string): (v: TodayView)
    ensures v.Today? ==> v.classes != [] && forall c :: c in v.classes ==> c.day == today && c in list
  {
    var onDay := ClassesOn(list, today);
    if |onDay| == 0 then NoClassesToday else Today(onDay)
  }

  /**
   * `secs` shows `list` grouped by weekday: one section per weekday that has
   * classes, in WeekdayOrder, each holding that day's classes in list order,
   * and every class with a recognised day under its day's heading.
   */
  predicate GroupedByWeekday(list: seq<ClassRecord>, secs: seq<DaySection>) {
    && (forall i :: 0 <= i < |secs| ==>
      && secs[i].day in WeekdayOrder
      && secs[i].classes == ClassesOn(list, secs[i].day)
      && |secs[i].classes| > 0)
    && (forall i, j :: 0 <= i < j < |secs| ==>
      IndexOf(WeekdayOrder, secs[i].day) < IndexOf(WeekdayOrder, secs[j].day))
    && (forall c :: c in list && c.day in WeekdayOrder ==> c.day in SectionDays(secs))
  }

  /**
   * The all-classes page shows the placeholder exactly when there are no
   * classes, and otherwise the classes grouped by weekday.
   */
  lemma AllClassesPageSpec(list: seq<ClassRecord>)
    ensures AllClassesPage(list) == NoClassesYet <==> |list| == 0
    ensures AllClassesPage(list).Days? ==> GroupedByWeekday(list, AllClassesPage(list).sections)
  {
    var secs := SectionsFor(list, WeekdayOrder);
    WeekdayOrderDistinct();
    SectionsForShape(list, WeekdayOrder);
    SectionsForOrdered(list, WeekdayOrder);
    SectionsForComplete(list, WeekdayOrder);
    forall c | c in list && c.day in WeekdayOrder ensures c.day in SectionDays(secs) {
      ClassesOnComplete(list, c.day);
      assert c in ClassesOn(list, c.day);
    }
  }

  /**
   * Grouped sections show only classes of the list, under the heading of
   * their own day: a class whose day is none of the seven names never
   * appears, and a class with a recognised day appears under it.
   */
  lemma GroupedShowsExactly(list: seq<ClassRecord>, secs: seq<DaySection>)
    requires GroupedByWeekday(list, secs)
    ensures forall i, c :: 0 <= i < |secs| && c in secs[i].classes ==>
      c in list && c.day == secs[i].day && c.day in WeekdayOrder
    ensures forall c :: c in list && c.day in WeekdayOrder ==>
      exists i :: 0 <= i < |secs| && secs[i].day == c.day && c in secs[i].classes
  {
    forall c | c in list && c.day in WeekdayOrder
      ensures exists i :: 0 <= i < |secs| && secs[i].day == c.day && c in secs[i].classes
    {
      var i :| 0 <= i < |secs| && SectionDays(secs)[i] == c.day;
      ClassesOnComplete(list, c.day);
      assert c in secs[i].classes;
    }
  }

  /**
   * A non-empty list none of whose days is a weekday name shows neither
   * a section nor the placeholder: the page stays blank.
   */
  lemma AllClassesPageBlank(list: seq<ClassRecord>)
    requires |list| > 0
    requires forall c :: c in list ==> c.day !in WeekdayOrder
    ensures AllClassesPage(list) == Days([])
  {
    SectionsForNone(list, WeekdayOrder);
  }

  /**
   * The today page holds exactly the classes whose day is `today`, in list
   * order, and shows the placeholder exactly when there is none.
   */
  lemma TodayPageSpec(list: seq<ClassRecord>, today: string)
    ensures TodayPage(list, today) == NoClassesToday <==> forall c :: c in list ==> c.day != today
    ensures TodayPage(list, today).Today? ==> TodayPage(list, today).classes == ClassesOn(list, today)
  {
    ClassesOnComplete(list, today);
    var onDay := ClassesOn(list, today);
    if |onDay| > 0 {
      assert onDay[0] in onDay;
    }
  }
}
