/** How the two screens see each other's changes. Each screen keeps its
    own copy of the list; the only channel between them is storage, which
    the home screen writes and the filter screen reads when it gains
    focus. */
module MenuSync {
  import Numbers
  import opened Sequences
  import opened MenuTypes
  import opened Storage
  import opened HomeScreen
  import opened FilterScreen

  /** After a saved add, the filter screen's next load shows exactly the
      home screen's list, whatever it showed before. */
  lemma BrowseSeesSavedAdd(s: Screen, shown: seq<MenuItem>, d: Draft, id: string, num: Numbers.Numerics)
    requires FormValid(d, num)
    ensures LoadBrowse(Screen(shown, AddItem(s, d, id, num, true).screen.store), true).items
         == AddItem(s, d, id, num, true).screen.items
  {
  }

  /** A delete whose write fails leaves the screens disagreeing: the home
      screen no longer holds the id, while the filter screen's next load
      still shows the list as it was. */
  lemma FailedDeleteDiverges(s: Screen, shown: seq<MenuItem>, id: string)
    requires s.store == Holds(s.items) && id in Ids(s.items)
    ensures id !in Ids(DeleteItem(s, id, false).screen.items)
    ensures LoadBrowse(Screen(shown, DeleteItem(s, id, false).screen.store), true).items == s.items
    ensures LoadBrowse(Screen(shown, DeleteItem(s, id, false).screen.store), true).items
         != DeleteItem(s, id, false).screen.items
  {
    assert id in Ids(s.items) && id !in Ids(DeleteItem(s, id, false).screen.items);
  }

  /** On a first launch only the home screen seeds: the filter screen
      reading the empty storage shows nothing, and reading it after the
      home screen has seeded and saved shows the seed. */
  lemma FirstLaunch(home: Screen, shown: seq<MenuItem>, ids: SeedIds)
    requires home.store == Absent
    ensures LoadBrowse(Screen(shown, home.store), true).items == []
    ensures LoadHome(home, ids, Io(true, true)).items == SeedMenu(ids)
    ensures LoadBrowse(Screen(shown, LoadHome(home, ids, Io(true, true)).store), true).items
         == SeedMenu(ids)
  {
  }

  /** Selecting "Mains" on the seeded menu shows the salmon dish alone. */
  lemma SeedMainsIsSalmon(ids: SeedIds)
    ensures Visible(SeedMenu(ids), "Mains") == [SeedMenu(ids)[1]]
    ensures Visible(SeedMenu(ids), "Mains")[0].name == "Grilled Salmon"
  {
    var seed := SeedMenu(ids);
    var p := MatchesKey("Mains");
    assert "Mains" != AllKey;
    assert !p(seed[0]) && p(seed[1]) && !p(seed[2]);
    assert Filter(seed[1..][1..], p) == [] by {
      assert seed[1..][1..][1..] == [];
    }
    assert Filter(seed[1..], p) == [seed[1]];
  }

  /** After a saved add, every selection that shows the new item's course
      shows the new item last, and the others are unchanged. */
  lemma SavedAddShowsUnderItsCourse(s: Screen, d: Draft, id: string, num: Numbers.Numerics, selected: string)
    requires FormValid(d, num)
    ensures Visible(AddItem(s, d, id, num, true).screen.items, selected)
         == Visible(s.items, selected)
            + (if selected == AllKey || CourseName(d.course) == selected
               then [AddItem(s, d, id, num, true).outcome.item] else [])
  {
    var r := AddItem(s, d, id, num, true);
    assert r.screen.items == s.items + [r.outcome.item];
    VisibleAppend(s.items, r.outcome.item, selected);
  }
}
