/** The filter screen: it reloads the list from storage whenever it gains
    focus, never seeds or writes, and shows the items of the selected
    course, or all of them. The selection is a string key compared with the
    items' course names, as on the screen. */
module FilterScreen {
  import opened Sequences
  import opened MenuTypes
  import opened Storage

  /** The key of the option that shows every item. */
  const AllKey: string := "All"

  /** One filter button: the key it selects and the caption it shows. */
  datatype FilterOption = FilterOption(key: string, caption: string)

  /** The filter buttons, in display order. */
  function FilterOptions(): seq<FilterOption> {
    [ FilterOption(AllKey, "All Items"),
      FilterOption("Starters", "Starters"),
      FilterOption("Mains", "Main Courses"),
      FilterOption("Desserts", "Desserts") ]
  }

  /** The keys the buttons can select, in display order. */
  function OptionKeys(): seq<string> {
    seq(|FilterOptions()|, i requires 0 <= i < |FilterOptions()| => FilterOptions()[i].key)
  }

  /** The selectable keys are exactly "All" and the three course names,
      each offered once, and "All" is not a course name. */
  lemma FilterOptionsClosed()
    ensures |OptionKeys()| == 4
    ensures forall k :: k in OptionKeys() <==> k == AllKey || CourseOf(k).Some?
    ensures forall i, j :: 0 <= i < j < |OptionKeys()| ==> OptionKeys()[i] != OptionKeys()[j]
    ensures CourseOf(AllKey).None?
  {
    assert OptionKeys() == [AllKey, "Starters", "Mains", "Desserts"];
  }

  /** The filter test for a selected key: the item's course is called by
      that name. */
  function MatchesKey(key: string): MenuItem -> bool {
    (item: MenuItem) => CourseName(item.course) == key
  }

  /** The list the screen shows for the selected key: all items for "All",
      otherwise the items whose course name equals the key, in list
      order. The screen's "Showing X of Y" header relies on the bound on
      its length. */
  function Visible(items: seq<MenuItem>, selected: string): (r: seq<MenuItem>)
    ensures selected == AllKey ==> r == items
    ensures selected != AllKey ==> forall i :: 0 <= i < |r| ==> CourseName(r[i].course) == selected
    ensures selected != AllKey ==> forall x :: x in r <==> x in items && CourseName(x.course) == selected
    ensures |r| <= |items|
  {
    if selected == AllKey then items else Filter(items, MatchesKey(selected))
  }

  /** The selection test for a course name holds of an item exactly when
      the item has that course. */
  lemma MatchesCourse(c: Course, item: MenuItem)
    ensures MatchesKey(CourseName(c))(item) <==> item.course == c
  {
    CourseNameInjective(item.course, c);
  }

  /** Counting the items a course selection shows is counting the items of
      that course. */
  lemma VisibleCourseCount(items: seq<MenuItem>, c: Course)
    ensures |Visible(items, CourseName(c))| == CountCourse(items, c)
  {
    var p := MatchesKey(CourseName(c));
    assert Visible(items, CourseName(c)) == Filter(items, p);
    forall x | x in items ensures p(x) == HasCourse(c)(x) {
      MatchesCourse(c, x);
    }
    FilterCongruent(items, p, HasCourse(c));
    FilterLength(items, HasCourse(c));
  }

  /** Selecting a course shows an order-preserving subsequence of the list
      made of items of that course only, as many as the list holds. */
  lemma VisibleCourse(items: seq<MenuItem>, c: Course)
    ensures forall i :: 0 <= i < |Visible(items, CourseName(c))| ==> Visible(items, CourseName(c))[i].course == c
    ensures IsSubseq(Visible(items, CourseName(c)), items)
    ensures |Visible(items, CourseName(c))| == CountCourse(items, c)
  {
    var p := MatchesKey(CourseName(c));
    var r := Visible(items, CourseName(c));
    assert r == Filter(items, p);
    forall i | 0 <= i < |r| ensures r[i].course == c {
      MatchesCourse(c, r[i]);
    }
    FilterIsSubseq(items, p);
    VisibleCourseCount(items, c);
  }

  /** Applying the same selection to the shown list changes nothing. */
  lemma VisibleIdempotent(items: seq<MenuItem>, selected: string)
    ensures Visible(Visible(items, selected), selected) == Visible(items, selected)
  {
    if selected != AllKey {
      FilterIdempotent(items, MatchesKey(selected));
    }
  }

  /** A key that is neither "All" nor a course name shows nothing. */
  lemma VisibleUnknownKey(items: seq<MenuItem>, selected: string)
    requires selected != AllKey && CourseOf(selected).None?
    ensures Visible(items, selected) == []
  {
  }

  /** Appending an item to the list appends it to the shown list exactly
      when the selection shows its course. */
  lemma VisibleAppend(items: seq<MenuItem>, item: MenuItem, selected: string)
    ensures Visible(items + [item], selected)
         == Visible(items, selected)
            + (if selected == AllKey || CourseName(item.course) == selected then [item] else [])
  {
    if selected != AllKey {
      FilterAppend(items, [item], MatchesKey(selected));
    }
  }

  /** The three course selections split the list: their sizes add up to
      the size of the whole list. */
  lemma CourseSelectionsPartition(items: seq<MenuItem>)
    ensures |Visible(items, "Starters")| + |Visible(items, "Mains")| + |Visible(items, "Desserts")| == |items|
  {
    forall x: MenuItem ensures
      || (MatchesKey("Starters")(x) && !MatchesKey("Mains")(x) && !MatchesKey("Desserts")(x))
      || (!MatchesKey("Starters")(x) && MatchesKey("Mains")(x) && !MatchesKey("Desserts")(x))
      || (!MatchesKey("Starters")(x) && !MatchesKey("Mains")(x) && MatchesKey("Desserts")(x))
    {
      MatchesCourse(Starters, x);
      MatchesCourse(Mains, x);
      MatchesCourse(Desserts, x);
    }
    FilterPartition3(items, MatchesKey("Starters"), MatchesKey("Mains"), MatchesKey("Desserts"));
  }

  /** Each course occurs in the list as often as the course selections
      together show items. */
  lemma CourseCountsPartition(items: seq<MenuItem>)
    ensures CountCourse(items, Starters) + CountCourse(items, Mains) + CountCourse(items, Desserts) == |items|
  {
    VisibleCourse(items, Starters);
    VisibleCourse(items, Mains);
    VisibleCourse(items, Desserts);
    CourseSelectionsPartition(items);
  }

  /** Loading on focus: a stored list replaces the in-memory one, nothing
      stored (or the empty string) gives the empty list, and a failed read
      or unparseable text is caught and keeps the previous list. Storage is
      never written. */
  function LoadBrowse(s: Screen, readOk: bool): (r: Screen)
    ensures r.store == s.store
    ensures readOk && s.store.Holds? ==> r.items == s.store.items
    ensures readOk && !Truthy(s.store) ==> r.items == []
    ensures !readOk || s.store.Garbled? ==> r.items == s.items
  {
    if !readOk then s
    else
      match s.store
      case Holds(stored) => Screen(stored, s.store)
      case Garbled => s
      case _ => Screen([], s.store)
  }
}
