/** The record types of the menu: the course enumeration and the menu item. */
module MenuTypes {
  import opened Optional
  import opened JsText
  import opened Sequences

  /** The closed set of courses a dish can belong to. */
  datatype Course = Starters | Mains | Desserts

  /** The string a course is stored and compared as. */
  function CourseName(c: Course): string {
    match c
    case Starters => "Starters"
    case Mains => "Mains"
    case Desserts => "Desserts"
  }

  /** Reads a course back from its string; only the three course names are
      courses, so every other string yields `None`. */
  function CourseOf(name: string): (r: Option<Course>)
    ensures r.Some? ==> CourseName(r.value) == name
    ensures r.None? ==> forall c: Course :: CourseName(c) != name
  {
    if name == "Starters" then Some(Starters)
    else if name == "Mains" then Some(Mains)
    else if name == "Desserts" then Some(Desserts)
    else None
  }

  /** Distinct courses have distinct names, so comparing names is comparing
      courses. */
  lemma CourseNameInjective(a: Course, b: Course)
    ensures CourseName(a) == CourseName(b) <==> a == b
  {
    assert CourseOf(CourseName(a)) == Some(a);
    assert CourseOf(CourseName(b)) == Some(b);
  }

  /** The course picker of the add form, in display order. */
  function CourseChoices(): seq<Course> {
    [Starters, Mains, Desserts]
  }

  /** The picker offers every course, each exactly once. */
  lemma CourseChoicesComplete()
    ensures |CourseChoices()| == 3
    ensures forall c: Course :: c in CourseChoices()
    ensures forall i, j :: 0 <= i < j < |CourseChoices()| ==> CourseChoices()[i] != CourseChoices()[j]
  {
    forall c: Course ensures c in CourseChoices() {
      match c
      case Starters => assert CourseChoices()[0] == c;
      case Mains => assert CourseChoices()[1] == c;
      case Desserts => assert CourseChoices()[2] == c;
    }
  }

  /** One dish. The id is its identity (delete and list keys use it); the
      price is kept as text, never as a number. */
  datatype MenuItem = MenuItem(
    id: string,
    name: string,
    description: string,
    course: Course,
    price: string)

  /** The test "this item has course `c`". */
  function HasCourse(c: Course): MenuItem -> bool {
    (item: MenuItem) => item.course == c
  }

  /** Number of positions holding an item of the given course. */
  ghost function CountCourse(items: seq<MenuItem>, c: Course): nat {
    CountWhere(items, HasCourse(c))
  }

  /** The ids present in a list of items. */
  function Ids(items: seq<MenuItem>): set<string> {
    set i | 0 <= i < |items| :: items[i].id
  }

  /** No two items of the list share an id, so an id names one item. */
  predicate UniqueIds(items: seq<MenuItem>) {
    forall i, j :: 0 <= i < j < |items| ==> items[i].id != items[j].id
  }

  /** The shape the seed, add and delete keep when the generated ids are
      fresh: ids are unique and no name or description is blank. */
  predicate WellFormed(items: seq<MenuItem>) {
    && UniqueIds(items)
    && forall i :: 0 <= i < |items| ==> !AllSpace(items[i].name) && !AllSpace(items[i].description)
  }
}
