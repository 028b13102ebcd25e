# ChefChristoffelApp menu model

A Dafny model of the menu logic of ChefChristoffelApp, a React Native app
in which a restaurant keeps a list of dishes on the device. Two screens
share that list through device storage under the key `menuItems`:

- the **home screen** loads the list when it mounts. If storage holds
  nothing it seeds three default dishes and saves them. Its form adds a
  dish after validating name, description and price. Its delete button
  removes a dish by id.
- the **filter screen** reloads the list every time it gains focus. It
  never seeds or writes. It shows either all dishes or those of one
  course.

The logic lives inside the screens' event handlers. Here it is lifted out
as pure functions over a sequence of `MenuItem` values. Each screen is a
`Screen` value: its own in-memory copy of the list plus the shared storage
slot. Every operation returns the new `Screen`. Whether a
storage read or write succeeds is a parameter.

Modules, one per file:

- `Optional` (optional.dfy): `Option`.
- `Sequences` (sequences.dfy): `Filter`, the order-preserving selection
  that `Array.prototype.filter` performs and both screens use. It comes with
  an index-based subsequence relation and an index-set count, and lemmas
  connecting them to `Filter`.
- `JsText` (js_text.dfy): `String.prototype.trim` over ECMAScript's
  white-space and line-terminator characters.
- `Numbers` (numbers.dfy): the shape of a JavaScript number as the price
  check sees it (NaN, finite, or an infinity), and the price check itself.
- `MenuTypes` (menu_types.dfy): the `Course` enumeration, the `MenuItem`
  record and the list invariant `WellFormed`.
- `Storage` (storage.dfy): the storage slot and `Screen`.
- `HomeScreen` (home_screen.dfy): seed, load, validate, add, delete.
- `FilterScreen` (filter_screen.dfy): filter options, the shown list, load.
- `MenuSync` (menu_sync.dfy): how a change on one screen reaches the other.

In four places the code behaves in ways a reader may not expect; the model
follows it:

- **Seeding only on a missing value.** The home screen seeds only when the
  stored value is missing or the empty string (JavaScript truthiness).
  A stored empty list is the text `[]`, which is truthy. So deleting every
  dish does not bring the defaults back. `LoadHome` follows this.
- **Add updates memory after the write.** The add handler changes the
  in-memory list only after the write succeeds, so a failed save leaves
  memory and storage both unchanged. The delete handler changes memory
  first and then writes, so a failed write leaves storage behind the
  screen. `AddItem`, `DeleteItem` and `MenuSync.FailedDeleteDiverges`
  state this.
- **Read failures are swallowed.** A failed read, or stored text that
  `JSON.parse` rejects, is caught and logged, and the screen keeps its
  previous list. It is not reported as an error.
- **Price validation is loose.** The price check is `parseFloat` on the
  untrimmed input. It accepts anything that parses to a positive number,
  including positive infinity. The stored price is whatever `toFixed(2)`
  returns for that number.

## Model

| member | source | states |
|---|---|---|
| MenuTypes.CourseOf | ChefChristoffelApp/scr/types.ts:2 | A course is exactly one of the strings "Starters", "Mains", "Desserts": reading a string back gives the course of that name, and every other string is no course |
| MenuTypes.CourseNameInjective | ChefChristoffelApp/scr/types.ts:2 | Two courses have the same name only if they are the same course, so comparing course strings compares courses |
| MenuTypes.CourseChoicesComplete | ChefChristoffelApp/scr/screens/HomeScreen.tsx:27 | The add form's course picker offers all three courses, each once |
| JsText.Trim | ChefChristoffelApp/scr/screens/HomeScreen.tsx:78-86 | The trimmed text is empty exactly when the input is all white space; otherwise it starts and ends with a character that is not white space |
| JsText.TrimSplits | ChefChristoffelApp/scr/screens/HomeScreen.tsx:95-96 | The input is a white-space prefix, then the trimmed text, then a white-space suffix: trimming removes nothing else |
| JsText.TrimIdempotent | ChefChristoffelApp/scr/screens/HomeScreen.tsx:95-96 | Trimming already-trimmed text changes nothing |
| Sequences.Filter | ChefChristoffelApp/scr/screens/FilterScreen.tsx:53-55 | The result holds exactly the input elements that pass the test, each as many times as in the input, and is the whole input when every element passes |
| Sequences.FilterIsSubseq | ChefChristoffelApp/scr/screens/HomeScreen.tsx:137 | The filtered list is an order-preserving subsequence of the input, witnessed by increasing positions |
| Sequences.FilterLength | ChefChristoffelApp/scr/screens/FilterScreen.tsx:53-56 | The filtered length equals the number of input positions whose element passes the test |
| Sequences.FilterAppend | ChefChristoffelApp/scr/screens/FilterScreen.tsx:53-55 | Filtering a concatenation is concatenating the filtered parts |
| Sequences.FilterIdempotent | ChefChristoffelApp/scr/screens/FilterScreen.tsx:53-55 | Filtering a filtered list again with the same test changes nothing |
| HomeScreen.SeedMenuShape | ChefChristoffelApp/scr/screens/HomeScreen.tsx:41-63 | The seed has three dishes, one per course in the order Starters, Mains, Desserts, carrying the three generated ids in order |
| HomeScreen.SeedWellFormed | ChefChristoffelApp/scr/screens/HomeScreen.tsx:41-63 | When the generated ids differ, the seed has unique ids and no blank name or description |
| HomeScreen.LoadHome | ChefChristoffelApp/scr/screens/HomeScreen.tsx:34-70 | A stored list becomes the screen's list and nothing is written. A missing or empty value makes the seed the screen's list, and the seed is written back (storage is unchanged if the write fails). A failed read or unparseable text changes nothing |
| HomeScreen.LoadHomeSettles | ChefChristoffelApp/scr/screens/HomeScreen.tsx:36-65 | After a load whose read and write succeed, loading again changes nothing, so a saved seed is not replaced by one with new ids |
| HomeScreen.LoadHomeReseeds | ChefChristoffelApp/scr/screens/HomeScreen.tsx:39-65 | If the seed's write fails, the next load seeds again with the ids generated then |
| HomeScreen.Validate | ChefChristoffelApp/scr/screens/HomeScreen.tsx:78-91 | A blank name gives the name error first. Otherwise a blank description gives the description error. Otherwise a price that is empty or not a positive number gives the price error. The form passes exactly when all three hold |
| HomeScreen.AddItem | ChefChristoffelApp/scr/screens/HomeScreen.tsx:93-117 | A refused form or a failed save changes neither list nor storage. A saved add leaves the old items first and in order, appends one item with the given id, trimmed name and description, chosen course and formatted price, and stores the new list |
| HomeScreen.AddPreservesWellFormed | ChefChristoffelApp/scr/screens/HomeScreen.tsx:93-105 | Adding with an id not yet in the list keeps ids unique and names and descriptions non-blank |
| HomeScreen.DeleteItem | ChefChristoffelApp/scr/screens/HomeScreen.tsx:135-144 | The new list holds exactly the items whose id differs from the argument, each as many times as before, so its length is the number of such positions. An absent id leaves the list unchanged. The in-memory list changes even when the write fails, and storage then keeps its old content |
| HomeScreen.DeleteKeepsOrder | ChefChristoffelApp/scr/screens/HomeScreen.tsx:137 | The items left after a delete keep their relative order |
| HomeScreen.DeleteRemovesOne | ChefChristoffelApp/scr/screens/HomeScreen.tsx:137 | In a list with unique ids, deleting a present id shortens the in-memory list by exactly one, whether or not the write succeeds |
| HomeScreen.DeletePreservesWellFormed | ChefChristoffelApp/scr/screens/HomeScreen.tsx:137-139 | Deleting keeps ids unique and names and descriptions non-blank |
| HomeScreen.DeleteUndoesAdd | ChefChristoffelApp/scr/screens/HomeScreen.tsx:102-105 | Deleting the item a saved add created, by its fresh id, gives back the list from before the add |
| FilterScreen.FilterOptionsClosed | ChefChristoffelApp/scr/screens/FilterScreen.tsx:27-32 | The selectable keys are exactly "All" and the three course names, each offered once; "All" is not a course |
| FilterScreen.Visible | ChefChristoffelApp/scr/screens/FilterScreen.tsx:49-58 | "All" shows the list unchanged. Any other key shows exactly the items whose course is called by that key. The shown count never exceeds the total ("Showing X of Y") |
| FilterScreen.MatchesCourse | ChefChristoffelApp/scr/screens/FilterScreen.tsx:54 | The string test `item.course === key` with a course's name as key holds exactly for items of that course |
| FilterScreen.VisibleCourseCount | ChefChristoffelApp/scr/screens/FilterScreen.tsx:53-56 | A course selection shows as many items as the list has of that course |
| FilterScreen.VisibleCourse | ChefChristoffelApp/scr/screens/FilterScreen.tsx:53-56 | A course selection shows only items of that course, as an order-preserving subsequence of the list, as many as the list has of that course |
| FilterScreen.VisibleIdempotent | ChefChristoffelApp/scr/screens/FilterScreen.tsx:49-58 | Applying a selection to the list it showed changes nothing |
| FilterScreen.VisibleUnknownKey | ChefChristoffelApp/scr/screens/FilterScreen.tsx:50-56 | A key that is neither "All" nor a course name shows nothing |
| FilterScreen.VisibleAppend | ChefChristoffelApp/scr/screens/FilterScreen.tsx:53-55 | Appending an item to the list appends it to the shown list exactly when the selection shows its course |
| FilterScreen.CourseSelectionsPartition | ChefChristoffelApp/scr/screens/FilterScreen.tsx:53-56 | The three course selections together show as many items as the whole list |
| FilterScreen.CourseCountsPartition | ChefChristoffelApp/scr/types.ts:9 | Every item has exactly one of the three courses: the per-course counts add up to the list length |
| FilterScreen.LoadBrowse | ChefChristoffelApp/scr/screens/FilterScreen.tsx:34-41 | Storage is never written. A stored list becomes the screen's list. A missing or empty value gives the empty list, with no seeding. A failed read or unparseable text keeps the previous list |
| MenuSync.BrowseSeesSavedAdd | ChefChristoffelApp/scr/screens/HomeScreen.tsx:102-105 | After a saved add, the filter screen's next load shows exactly the home screen's list |
| MenuSync.FailedDeleteDiverges | ChefChristoffelApp/scr/screens/HomeScreen.tsx:137-139 | After a delete whose write fails, the home screen lacks the id but the filter screen's next load still shows the old list |
| MenuSync.FirstLaunch | ChefChristoffelApp/scr/screens/FilterScreen.tsx:34-41 | With empty storage, the filter screen shows nothing until the home screen has seeded and saved, and then shows the seed |
| MenuSync.SeedMainsIsSalmon | ChefChristoffelApp/scr/screens/HomeScreen.tsx:49-55 | Selecting "Mains" on the seeded menu shows the Grilled Salmon dish alone |
| MenuSync.SavedAddShowsUnderItsCourse | ChefChristoffelApp/scr/screens/FilterScreen.tsx:49-58 | After a saved add, a selection that shows the new item's course shows it last; every other selection is unchanged |

## Left out

- Storage I/O (AsyncStorage) is left out. The content of the `menuItems` key is a `Slot` value. Each operation's read and write succeed or fail according to a parameter. A failed write leaves the slot unchanged.
- `JSON.stringify` / `JSON.parse` are left out. A saved list is stored as the list itself, so the serialize/deserialize round trip is assumed, not proved. Stored text that parses to something other than an item list (for example `null`) is not modelled; only "parses to a list" and "does not parse" are.
- `generateId` (`Date.now()` plus `Math.random()`) is left out. The ids it would return are parameters. The code does not guarantee that they are unique, so a fresh id is required only by the list-invariant lemmas (`SeedWellFormed`, `AddPreservesWellFormed`) and by `DeleteUndoesAdd`, whose round trip fails when the id is already present.
- `parseFloat` and `toFixed(2)` are floating-point routines. They are parameters (`Numbers.Numerics`). Only the shape of `parseFloat`'s result is fixed, so no claim is made about the two-decimal format of stored prices.
- Rendering, styles, `Alert` dialogs, the delete confirmation prompt, form reset after a successful add, and `getCourseColor` are presentational and left out.
- The timing of `useEffect` / `useFocusEffect` reloads and interleaving of the asynchronous handlers are left out. Operations are modelled as atomic steps, and callers choose their order.
- The navigation wiring in App.tsx and the unused `Stats` interface are left out.
