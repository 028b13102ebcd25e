/** The home screen's menu logic: loading (and seeding) the list, adding a
    dish from the form, and deleting a dish by id. Each operation takes the
    screen's state and returns the new one; storage success or failure and
    the ids `generateId` would produce are parameters. */
module HomeScreen {
  import opened Optional
  import opened Sequences
  import opened JsText
  import opened Numbers
  import opened MenuTypes
  import opened Storage

  // ---------------------------------------------------------------- load

  /** The ids generated for the three default dishes, in order. */
  datatype SeedIds = SeedIds(first: string, second: string, third: string)

  /** The three default dishes the home screen stores when it finds no
      list. Each description is written as two literals so that the
      verifier can see its characters. */
  function SeedMenu(ids: SeedIds): seq<MenuItem> {
    [ MenuItem(ids.first, "Bruschetta",
               "Toasted bread topped with tomatoes, " + "garlic, and fresh basil",
               Starters, "8.99"),
      MenuItem(ids.second, "Grilled Salmon",
               "Fresh salmon fillet with lemon butter " + "sauce and seasonal vegetables",
               Mains, "24.99"),
      MenuItem(ids.third, "Chocolate Mousse",
               "Rich chocolate mousse with whipped " + "cream and berries",
               Desserts, "7.99") ]
  }

  /** The seed is one dish per course, in course order, carrying the
      generated ids. */
  lemma SeedMenuShape(ids: SeedIds)
    ensures |SeedMenu(ids)| == 3
    ensures SeedMenu(ids)[0].course == Starters && SeedMenu(ids)[1].course == Mains
    ensures SeedMenu(ids)[2].course == Desserts
    ensures SeedMenu(ids)[0].id == ids.first && SeedMenu(ids)[1].id == ids.second
    ensures SeedMenu(ids)[2].id == ids.third
    ensures forall c: Course :: CountCourse(SeedMenu(ids), c) == 1
  {
    var seed := SeedMenu(ids);
    forall c: Course ensures CountCourse(seed, c) == 1 {
      var k := match c case Starters => 0 case Mains => 1 case Desserts => 2;
      assert forall i :: 0 <= i < 3 ==> (HasCourse(c)(seed[i]) <==> i == k);
      CountWhereOne(seed, HasCourse(c), k);
    }
  }

  /** With distinct generated ids the seed satisfies the list invariant. */
  lemma SeedWellFormed(ids: SeedIds)
    requires ids.first != ids.second && ids.first != ids.third && ids.second != ids.third
    ensures WellFormed(SeedMenu(ids))
  {
    var seed := SeedMenu(ids);
    NotBlank(seed[0].name, 'B');
    NotBlank(seed[0].description, 'T');
    NotBlank(seed[1].name, 'G');
    NotBlank(seed[1].description, 'F');
    NotBlank(seed[2].name, 'C');
    NotBlank(seed[2].description, 'R');
  }

  /** Text that starts with a character that is not white space is not
      blank. */
  lemma NotBlank(s: string, c: char)
    requires s != [] && s[0] == c && !IsJsSpace(c)
    ensures !AllSpace(s)
  {
  }

  /** Loading on mount: a stored list replaces the in-memory one and
      nothing is written; when storage holds nothing (or the empty string)
      the seed becomes the in-memory list before it is written back, so it
      survives a failed write; a failed read or unparseable text is caught
      and changes nothing. */
  function LoadHome(s: Screen, ids: SeedIds, io: Io): (r: Screen)
    ensures !io.readOk || s.store.Garbled? ==> r == s
    ensures io.readOk && s.store.Holds? ==> r.items == s.store.items && r.store == s.store
    ensures io.readOk && !Truthy(s.store) ==> r.items == SeedMenu(ids)
    ensures io.readOk && !Truthy(s.store) && io.writeOk ==> r.store == Holds(SeedMenu(ids))
    ensures io.readOk && !Truthy(s.store) && !io.writeOk ==> r.store == s.store
  {
    if !io.readOk then s
    else
      match s.store
      case Holds(stored) => Screen(stored, s.store)
      case Garbled => s
      case _ =>
        var seed := SeedMenu(ids);
        Screen(seed, Write(s.store, seed, io.writeOk))
  }

  /** Once a load has read and written successfully, loading again changes
      nothing, whatever ids the second load would generate. */
  lemma LoadHomeSettles(s: Screen, ids: SeedIds, ids': SeedIds, io: Io, io': Io)
    requires io.readOk && io.writeOk && io'.readOk
    ensures LoadHome(LoadHome(s, ids, io), ids', io') == LoadHome(s, ids, io)
  {
  }

  /** A seed whose write failed is not remembered: the next load seeds
      again, with the ids generated then. */
  lemma LoadHomeReseeds(s: Screen, ids: SeedIds, ids': SeedIds, io: Io, io': Io)
    requires !Truthy(s.store) && io.readOk && !io.writeOk && io'.readOk
    ensures LoadHome(s, ids, io).items == SeedMenu(ids)
    ensures LoadHome(LoadHome(s, ids, io), ids', io').items == SeedMenu(ids')
  {
  }

  // ----------------------------------------------------------------- add

  /** The contents of the add form. */
  datatype Draft = Draft(name: string, description: string, course: Course, price: string)

  /** Why the form was refused; each has its own alert. */
  datatype AddError = NameMissing | DescriptionMissing | PriceInvalid

  /** How an add ended: refused by validation, validated but not saved, or
      saved with the item it built. */
  datatype AddOutcome = Rejected(error: AddError) | SaveFailed | Added(item: MenuItem)

  /** The outcome of an add together with the screen state after it. */
  datatype AddStep = AddStep(outcome: AddOutcome, screen: Screen)

  /** The form passes all three checks: name and description are not blank
      and the price is accepted. */
  predicate FormValid(d: Draft, num: Numerics) {
    !AllSpace(d.name) && !AllSpace(d.description) && PriceAccepted(d.price, num)
  }

  /** The form's checks, in order; the first that fails decides the error.
      Name and description must be non-blank; the raw price text must be
      non-empty and parse to a positive number. */
  function Validate(d: Draft, num: Numerics): (r: Option<AddError>)
    ensures r == Some(NameMissing) <==> AllSpace(d.name)
    ensures r == Some(DescriptionMissing) <==> !AllSpace(d.name) && AllSpace(d.description)
    ensures r == Some(PriceInvalid) <==>
              !AllSpace(d.name) && !AllSpace(d.description) && !PriceAccepted(d.price, num)
    ensures r == None <==> FormValid(d, num)
  {
    if Trim(d.name) == "" then Some(NameMissing)
    else if Trim(d.description) == "" then Some(DescriptionMissing)
    else if !PriceAccepted(d.price, num) then Some(PriceInvalid)
    else None
  }

  /** The item built from a validated form: trimmed name and description,
      the chosen course, and the parsed price formatted to two decimals. */
  function NewItem(d: Draft, id: string, num: Numerics): MenuItem {
    MenuItem(id, Trim(d.name), Trim(d.description), d.course,
             num.toFixed2(num.parseFloat(d.price)))
  }

  /** Submitting the add form. A refused form changes nothing. A valid one
      writes the in-memory list plus the new item to storage, and only if
      that write succeeds does the in-memory list grow; a failed write
      changes nothing. */
  function AddItem(s: Screen, d: Draft, id: string, num: Numerics, writeOk: bool): (r: AddStep)
    ensures Validate(d, num).Some? ==>
              r.outcome == Rejected(Validate(d, num).value) && r.screen == s
    ensures Validate(d, num).None? && !writeOk ==> r.outcome == SaveFailed && r.screen == s
    ensures r.outcome.Added? <==> Validate(d, num).None? && writeOk
    ensures r.outcome.Added? ==>
              && |r.screen.items| == |s.items| + 1
              && r.screen.items[..|s.items|] == s.items
              && r.screen.items[|s.items|] == r.outcome.item
              && r.screen.store == Holds(r.screen.items)
    ensures r.outcome.Added? ==>
              && r.outcome.item.id == id
              && r.outcome.item.name == Trim(d.name) && !AllSpace(r.outcome.item.name)
              && r.outcome.item.description == Trim(d.description)
              && !AllSpace(r.outcome.item.description)
              && r.outcome.item.course == d.course
              && r.outcome.item.price == num.toFixed2(num.parseFloat(d.price))
  {
    match Validate(d, num)
    case Some(e) => AddStep(Rejected(e), s)
    case None =>
      var item := NewItem(d, id, num);
      var updated := s.items + [item];
      if writeOk then AddStep(Added(item), Screen(updated, Holds(updated)))
      else AddStep(SaveFailed, s)
  }

  /** Adding with an id not already in the list keeps the list invariant. */
  lemma AddPreservesWellFormed(s: Screen, d: Draft, id: string, num: Numerics, writeOk: bool)
    requires WellFormed(s.items) && id !in Ids(s.items)
    ensures WellFormed(AddItem(s, d, id, num, writeOk).screen.items)
  {
    var r := AddItem(s, d, id, num, writeOk);
    if r.outcome.Added? {
      var items := r.screen.items;
      forall i, j | 0 <= i < j < |items| ensures items[i].id != items[j].id {
        if j == |s.items| {
          assert items[i] == s.items[i];
        } else {
          assert items[i] == s.items[i] && items[j] == s.items[j];
        }
      }
      forall i | 0 <= i < |items|
        ensures !AllSpace(items[i].name) && !AllSpace(items[i].description)
      {
        if i < |s.items| {
          assert items[i] == s.items[i];
        }
      }
    }
  }

  // -------------------------------------------------------------- delete

  /** How a delete ended: the write succeeded or failed. The in-memory
      list is updated either way. */
  datatype DeleteOutcome = Deleted | DeleteSaveFailed

  /** The outcome of a delete together with the screen state after it. */
  datatype DeleteStep = DeleteStep(outcome: DeleteOutcome, screen: Screen)

  /** The filter test of the delete: the item carries a different id. */
  function OtherId(id: string): MenuItem -> bool {
    (item: MenuItem) => item.id != id
  }

  /** Confirming a delete: the list keeps every item whose id differs,
      each as often as before and no other,
      becomes the in-memory list at once, and is then written; a failed
      write leaves storage behind the screen. An absent id changes nothing
      in memory. */
  function DeleteItem(s: Screen, id: string, writeOk: bool): (r: DeleteStep)
    ensures forall x :: x in r.screen.items <==> x in s.items && x.id != id
    ensures forall x :: multiset(r.screen.items)[x] == if x.id != id then multiset(s.items)[x] else 0
    ensures |r.screen.items| == CountWhere(s.items, OtherId(id))
    ensures id !in Ids(r.screen.items)
    ensures id !in Ids(s.items) ==> r.screen.items == s.items
    ensures writeOk ==> r.outcome == Deleted && r.screen.store == Holds(r.screen.items)
    ensures !writeOk ==> r.outcome == DeleteSaveFailed && r.screen.store == s.store
  {
    var updated := Filter(s.items, OtherId(id));
    FilterLength(s.items, OtherId(id));
    DeleteStep(if writeOk then Deleted else DeleteSaveFailed, Screen(updated, Write(s.store, updated, writeOk)))
  }

  /** The remaining items keep their relative order. */
  lemma DeleteKeepsOrder(s: Screen, id: string, writeOk: bool)
    ensures IsSubseq(DeleteItem(s, id, writeOk).screen.items, s.items)
  {
    FilterIsSubseq(s.items, OtherId(id));
  }

  /** Dropping the first item keeps ids unique. */
  lemma UniqueIdsTail(items: seq<MenuItem>)
    requires UniqueIds(items) && items != []
    ensures UniqueIds(items[1..])
  {
    var tail := items[1..];
    forall i, j | 0 <= i < j < |tail| ensures tail[i].id != tail[j].id {
      assert tail[i] == items[i + 1] && tail[j] == items[j + 1];
    }
  }

  /** In a list with unique ids, the delete filter for an id that is
      present drops exactly one item. */
  lemma {:induction false} OtherIdDropsOne(items: seq<MenuItem>, id: string)
    requires UniqueIds(items) && id in Ids(items)
    ensures |Filter(items, OtherId(id))| == |items| - 1
    decreases |items|
  {
    var p := OtherId(id);
    var tail := items[1..];
    assert items == [items[0]] + tail;
    if items[0].id == id {
      forall i | 0 <= i < |tail| ensures p(tail[i]) {
        assert tail[i] == items[i + 1];
      }
      assert Filter(tail, p) == tail;
      assert Filter(items, p) == Filter(tail, p);
    } else {
      var k :| 0 <= k < |items| && items[k].id == id;
      assert tail[k - 1] == items[k];
      assert id in Ids(tail);
      UniqueIdsTail(items);
      OtherIdDropsOne(tail, id);
      assert Filter(items, p) == [items[0]] + Filter(tail, p);
    }
  }

  /** In a list with unique ids, deleting an id that is present removes
      exactly one item, whether or not the write succeeds. */
  lemma DeleteRemovesOne(s: Screen, id: string, writeOk: bool)
    requires UniqueIds(s.items) && id in Ids(s.items)
    ensures |DeleteItem(s, id, writeOk).screen.items| == |s.items| - 1
  {
    OtherIdDropsOne(s.items, id);
  }

  /** Deleting keeps the list invariant. */
  lemma DeletePreservesWellFormed(s: Screen, id: string, writeOk: bool)
    requires WellFormed(s.items)
    ensures WellFormed(DeleteItem(s, id, writeOk).screen.items)
  {
    var items := DeleteItem(s, id, writeOk).screen.items;
    var idx := FilterEmbedding(s.items, OtherId(id));
    forall i, j | 0 <= i < j < |items| ensures items[i].id != items[j].id {
      assert items[i] == s.items[idx[i]] && items[j] == s.items[idx[j]];
    }
    forall i | 0 <= i < |items|
      ensures !AllSpace(items[i].name) && !AllSpace(items[i].description)
    {
      assert items[i] == s.items[idx[i]];
    }
  }

  /** Deleting the item an add just created, by its fresh id, gives back
      the list as it was before the add. */
  lemma DeleteUndoesAdd(s: Screen, d: Draft, id: string, num: Numerics, writeOk: bool)
    requires id !in Ids(s.items) && FormValid(d, num)
    ensures DeleteItem(AddItem(s, d, id, num, true).screen, id, writeOk).screen.items == s.items
  {
    var added := AddItem(s, d, id, num, true);
    var item := added.outcome.item;
    assert added.screen.items == s.items + [item];
    FilterAppend(s.items, [item], OtherId(id));
    assert forall i :: 0 <= i < |s.items| ==> OtherId(id)(s.items[i]);
  }
}
