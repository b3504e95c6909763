# Template builder and RM dashboard, modelled in Dafny

This project models two front-end components of a customer-onboarding
system and proves properties of the model.

- **The journey template builder** (`json-template-builder/src/App.js`).
  A template is an ordered list of pages. Each page has a `pageIndex`, a
  title and an ordered list of fields. A field has a label, a name, a type and
  a required flag. It also has a `validation` object and two string lists,
  `options` and `accept`. Each handler edits this two-level tree by index:
  - add and delete a page;
  - add and delete a field;
  - write a field attribute, with a reset when the type is written;
  - write a validation rule;
  - write or append a list slot;
  - edit a page title;
  - reorder pages or fields by drag and drop.

  Next to the tree the builder keeps a list of collapsed page indices and a
  map of collapsed fields keyed `"p-f"`. The template is shown and downloaded
  as the JSON value `{ pages }`.
- **The relationship-manager dashboard**
  (`rm-dashboard/src/pages/Dashboard.tsx`).
  - A six-column search filter.
  - A stable sort that lists the signed-in manager's own applications first.
  - A freshness colour (green, amber, red) from the age of the last update.
  - The local list update after an application is assigned.

Modules:

- `Wrappers`: `Option`.
- `Text`:
  - ASCII lower-casing;
  - substring search (`String.prototype.includes`);
  - decimal rendering of naturals, as the template literals use it.
- `Splice`: `Array.prototype.splice` removal and insertion on sequences, the
  remove-then-insert move of a drag and drop, and the index filter of
  `deletePage`.
- `Template`: the page and field datatypes and the edits to a single field
  (pure functions). It also defines the well-formedness invariant every
  edit keeps.
- `TemplateJson`: an order-preserving abstract JSON value and the
  serialisation of `{ pages }`, with a parser that inverts it.
- `Builder`: class `TemplateBuilder`. It holds the three pieces of React
  state as fields, with one method per handler. The module ends with two
  complete editing sessions.
- `Dashboard`: the dashboard's list logic, all pure functions and lemmas.

The handlers copy the page list and then mutate the nested page and field
objects. The model makes each handler a method that reassigns the `pages`
field, as `setPages` does. Some handlers reach a missing page or field
(`updatedPages[pageIdx]` is `undefined`). In the source they throw a
TypeError before `setPages` runs. The model's method returns `ok == false`
there and leaves the state unchanged.

The source does not guard these indices, and the model keeps that behaviour:

- `deletePage` with an out-of-range index is a no-op, because the handler is
  a `filter`.
- `deleteField` with an out-of-range field index is a no-op, because a
  one-element `splice` past the end removes nothing.
- A drop destination past the end of the list appends, because `splice`
  clamps the index.

## Model

| member | source | states |
|---|---|---|
| Builder.TemplateBuilder.constructor | json-template-builder/src/App.js:6-8 | the builder starts with no pages, no collapsed pages and an empty collapsed-field map |
| Builder.TemplateBuilder.AddPage | json-template-builder/src/App.js:26-33 | one page more; the first n pages unchanged; the new last page is `Page(n+1, "Page n+1", [])` |
| Builder.FirstPages | json-template-builder/src/App.js:26-33 | the first two pages added are `Page(1, "Page 1", [])` and `Page(2, "Page 2", [])` |
| Template.NewPage | json-template-builder/src/App.js:27-31 | no contract of its own; the page it builds is stated by Builder.TemplateBuilder.AddPage and Builder.FirstPages |
| Builder.TemplateBuilder.DeletePage | json-template-builder/src/App.js:35-38 | an out-of-range index leaves the pages unchanged; otherwise one page fewer, earlier pages in place, later pages shifted down by one |
| Splice.WithoutIndexIsRemoveAt | json-template-builder/src/App.js:36 | the index filter removes exactly the element at the index, the same as `splice(i, 1)`, for every sequence and every index |
| Splice.WithoutIndex | json-template-builder/src/App.js:36 | no contract of its own; its meaning is stated by Splice.WithoutIndexIsRemoveAt |
| Splice.RemoveAt | json-template-builder/src/App.js:57 | `splice(i, 1)` in range: length minus one, prefix kept, suffix shifted, multiset minus the removed element; past the end: unchanged |
| Builder.TemplateBuilder.AddField | json-template-builder/src/App.js:40-53 | page `p` gets the default field (`text`, not required, `{}`, `[""]`, `[""]`) appended; every other page and existing field unchanged; a missing page is reported and nothing changes |
| Template.DefaultField | json-template-builder/src/App.js:41-49 | no contract of its own; the field it is is stated by Builder.TemplateBuilder.AddField and Template.FieldEditsKeepWellFormed |
| Builder.TemplateBuilder.DeleteField | json-template-builder/src/App.js:55-59 | only page `p` changes, to its fields with `splice(f, 1)` applied; with `f` in range its field count drops by one; a missing page is reported and nothing changes |
| Template.ApplyUpdate | json-template-builder/src/App.js:61-73 | only the written attribute changes; a type write always resets `options` and `accept` to `[""]` and `validation` to `{}` |
| Template.TypeWriteForgetsPrevious | json-template-builder/src/App.js:65-70 | after the same type write, two fields that share label, name and required flag are equal, whatever their previous type, rules and lists were |
| Builder.TemplateBuilder.UpdateField | json-template-builder/src/App.js:61-73 | exactly the addressed field is replaced by its updated version, nothing else changes; a missing page or field is reported and nothing changes |
| Template.Lookup | json-template-builder/src/App.js:80 | a key reads as present exactly when some entry of the validation object has that key, and the value read is stored with that key |
| Template.LookupFindsFirst | json-template-builder/src/App.js:80 | the value read for a key is the one of the first entry with that key |
| Template.Put | json-template-builder/src/App.js:80 | after `validation[key] = value` the key reads `value`; every other key reads as before; an existing key keeps its position, a new key is appended |
| Template.PutKeepsUniqueKeys | json-template-builder/src/App.js:80 | writing a key never produces a duplicate key |
| Template.SetRule | json-template-builder/src/App.js:75-82 | the rule reads back; other rules and every other attribute of the field unchanged |
| Builder.TemplateBuilder.UpdateValidation | json-template-builder/src/App.js:75-82 | exactly the addressed field gets the new rule, nothing else changes; a missing page or field is reported and nothing changes |
| Template.SetListItem | json-template-builder/src/App.js:86 | with an in-range index: list length kept, that slot holds the value, every other slot and every other attribute unchanged |
| Template.AppendListItem | json-template-builder/src/App.js:92 | the list grows by one with `""` at the end; every other attribute unchanged |
| Template.AppendThenSet | json-template-builder/src/App.js:84-94 | after an append the new last slot is in range, and writing it gives the old list plus the value |
| Builder.TemplateBuilder.UpdateArrayField | json-template-builder/src/App.js:84-88 | exactly the addressed field gets the slot write, nothing else changes; a missing page or field is reported and nothing changes |
| Builder.TemplateBuilder.AddArrayFieldItem | json-template-builder/src/App.js:90-94 | exactly the addressed field gets the append, nothing else changes; a missing page or field is reported and nothing changes |
| Template.FieldEditsKeepWellFormed | json-template-builder/src/App.js:40-94 | the default field and every field edit keep at least one slot in each list and distinct validation keys |
| Template.ReplaceField | json-template-builder/src/App.js:63 | replacing one field keeps every other page, every other field and the page's title and index, and keeps the template well-formed |
| Builder.TemplateBuilder.SetPageTitle | json-template-builder/src/App.js:160-164 | only that page's title changes; a missing page is reported and nothing changes |
| Splice.InsertAt | json-template-builder/src/App.js:104 | `splice(i, 0, x)`: length plus one, `x` at the clamped index, prefix kept, suffix shifted, multiset plus `x` |
| Splice.Move | json-template-builder/src/App.js:103-104 | the reorder keeps length and multiset; the moved element ends at an in-range destination, and goes to the end for a destination past it |
| Splice.MoveAt | json-template-builder/src/App.js:103-104 | the exact position of every element after a move: the ones between source and destination shift by one, the rest stay |
| Splice.MoveInverse | json-template-builder/src/App.js:96-116 | a move from `i` to `j` followed by a move from `j` to `i` restores the original order |
| Splice.MoveToSelf | json-template-builder/src/App.js:96-116 | dropping an element where it was picked up changes nothing |
| Splice.MoveKeepsElements | json-template-builder/src/App.js:103-104 | every element after a move was an element before it |
| Builder.TemplateBuilder.ReorderPages | json-template-builder/src/App.js:101-105 | the pages become the move of the old pages from source to destination |
| Builder.TemplateBuilder.ReorderFields | json-template-builder/src/App.js:106-114 | only page `pageIdx` changes, to its fields moved from source to destination; a missing page is reported and nothing changes |
| Builder.TemplateBuilder.OnDragEnd | json-template-builder/src/App.js:96-116 | no destination and other drop types change nothing; a page drag moves a page; a field drag moves a field within its source page only |
| Builder.MovedPagesWellFormed | json-template-builder/src/App.js:101-105 | reordering pages keeps the template well-formed |
| Builder.MovedFieldsWellFormed | json-template-builder/src/App.js:106-114 | reordering fields keeps the page well-formed |
| Builder.ToggledPages | json-template-builder/src/App.js:10-16 | the toggled index flips membership, appended when it was absent; every other index keeps its membership; no index is listed twice |
| Builder.Drop | json-template-builder/src/App.js:13 | the filter keeps exactly the other indices and never lengthens the list |
| Builder.ToggledPagesTwice | json-template-builder/src/App.js:10-16 | toggling the same page twice gives back the same set of collapsed pages |
| Builder.TemplateBuilder.ToggleCollapse | json-template-builder/src/App.js:10-16 | the collapsed list becomes the toggled list, with no duplicates |
| Builder.FieldKeyInjective | json-template-builder/src/App.js:19 | distinct (page, field) pairs get distinct `"p-f"` keys |
| Builder.FieldKey | json-template-builder/src/App.js:19 | no contract of its own; its keys are distinct by Builder.FieldKeyInjective |
| Builder.ToggledFields | json-template-builder/src/App.js:18-24 | the key is added if absent and its value becomes the negation of its collapsed state, an absent key reading as false; every other entry unchanged |
| Builder.ToggledFieldsFlipsOne | json-template-builder/src/App.js:18-24 | exactly the toggled field's collapsed state flips; every other field's stays |
| Builder.IsCollapsed | json-template-builder/src/App.js:185-192 | no contract of its own; a field reads as collapsed when its key is present and true, and Builder.ToggledFields and Builder.ToggledFieldsFlipsOne state how a toggle changes it |
| Builder.TemplateBuilder.ToggleFieldCollapse | json-template-builder/src/App.js:18-24 | the collapsed-field map becomes the toggled map |
| Text.Decimal | json-template-builder/src/App.js:29 | the decimal rendering is a non-empty string of digits with no leading zero, and "0" for zero |
| Text.ParseDecimalInverts | json-template-builder/src/App.js:29 | reading the decimal rendering back gives the number |
| Text.DecimalInjective | json-template-builder/src/App.js:19 | different numbers render differently |
| TemplateJson.Serialize | json-template-builder/src/App.js:118 | no contract of its own; it loses nothing by TemplateJson.SerializeRoundTrip and TemplateJson.SerializeInjective |
| TemplateJson.FieldToJson | json-template-builder/src/App.js:41-49 | a field becomes an object with its seven members in the order the field literal lists them |
| TemplateJson.PageToJson | json-template-builder/src/App.js:27-31 | a page becomes an object with `pageIndex`, `title` and `fields`, in that order |
| Builder.TemplateBuilder.Serialized | json-template-builder/src/App.js:118 | the value shown and downloaded parses back to exactly the builder's pages |
| TemplateJson.RulesToJson | json-template-builder/src/App.js:118 | one JSON member per rule, same keys in the same order; NaN written as `null` |
| TemplateJson.RuleToJson | json-template-builder/src/App.js:118 | no contract of its own; its use is stated by TemplateJson.RulesToJson, and TemplateJson.RulesRoundTrip shows the written value reads back, NaN included |
| TemplateJson.StringsToJson | json-template-builder/src/App.js:118 | the `options` or `accept` list becomes a JSON array of the same length holding each string in order |
| TemplateJson.FieldsToJson | json-template-builder/src/App.js:118 | one JSON object per field, in order |
| TemplateJson.PagesToJson | json-template-builder/src/App.js:118 | one JSON object per page, in order |
| TemplateJson.RulesRoundTrip | json-template-builder/src/App.js:118 | the serialised validation object parses back to the same rules |
| TemplateJson.FieldRoundTrip | json-template-builder/src/App.js:118 | a serialised field parses back to the same field |
| TemplateJson.SerializeRoundTrip | json-template-builder/src/App.js:118 | the serialised `{ pages }` parses back to exactly the template: pages, fields, attributes, rules and slots, in order |
| TemplateJson.SerializeInjective | json-template-builder/src/App.js:118 | different templates serialise to different values |
| Builder.SelectFieldSession | json-template-builder/src/App.js:26-94 | adding a page and a field, setting the type to select, appending an option and writing it gives one page with one select field with options `["", "Gold"]` |
| Builder.AddSelectField | json-template-builder/src/App.js:26-73 | from an empty builder, adding a page and a field and setting its type to select gives one page with one reset select field |
| Builder.SelectFieldJson | json-template-builder/src/App.js:298 | the JSON value shown for that template, default slots included |
| Builder.AddTwoPagesWithFields | json-template-builder/src/App.js:26-53 | from an empty builder, two pages and a field on each give `Page 1` and `Page 2`, each with one default field |
| Builder.SwapPagesSession | json-template-builder/src/App.js:26-118 | two pages with a field each, the first dragged below the second, serialise in swapped order, each keeping its original `pageIndex` |
| Text.Lower | rm-dashboard/src/pages/Dashboard.tsx:87 | lower-casing keeps the length and lower-cases each character |
| Text.LowerChar | rm-dashboard/src/pages/Dashboard.tsx:87 | ASCII upper-case letters map to lower case, every other character is unchanged, and no result is upper case |
| Text.LowerIdempotent | rm-dashboard/src/pages/Dashboard.tsx:87-92 | lower-casing twice is the same as lower-casing once |
| Text.Includes | rm-dashboard/src/pages/Dashboard.tsx:87-92 | `includes` is true exactly when the query occurs at some position |
| Text.IncludesEmpty | rm-dashboard/src/pages/Dashboard.tsx:87-92 | the empty query occurs in every string |
| Dashboard.MatchesIgnoringCase | rm-dashboard/src/pages/Dashboard.tsx:87-90 | no contract of its own; see Dashboard.SearchIgnoresCase and Dashboard.PassingNeedsAllColumns |
| Dashboard.MatchesExactly | rm-dashboard/src/pages/Dashboard.tsx:91 | no contract of its own; see Dashboard.PassingNeedsAllColumns and Dashboard.NoSearchKeepsComplete |
| Dashboard.Passes | rm-dashboard/src/pages/Dashboard.tsx:85-94 | no contract of its own; see Dashboard.PassingNeedsAllColumns, Dashboard.NoSearchKeepsComplete and Dashboard.SearchIgnoresCase |
| Dashboard.Passing | rm-dashboard/src/pages/Dashboard.tsx:84-94 | every result passes all six column tests, and each application that passes appears as often as in the input, the others not at all |
| Dashboard.PassingNeedsAllColumns | rm-dashboard/src/pages/Dashboard.tsx:87-92 | an application with a missing searched column never passes |
| Dashboard.NoSearchKeepsComplete | rm-dashboard/src/pages/Dashboard.tsx:87-92 | with every search box empty, an application passes exactly when all six columns are present |
| Dashboard.SearchIgnoresCase | rm-dashboard/src/pages/Dashboard.tsx:87-92 | lower-casing the five text queries does not change the outcome (the phone query is left alone) |
| Dashboard.PassingKeepsGroups | rm-dashboard/src/pages/Dashboard.tsx:84-94 | the filter keeps input order within each group: the passing applications of a group are the group of the passing applications |
| Dashboard.Compare | rm-dashboard/src/pages/Dashboard.tsx:95-100 | the comparator is negative exactly when only the first is the manager's, positive exactly when only the second is, and zero when both or neither are |
| Dashboard.Insert | rm-dashboard/src/pages/Dashboard.tsx:95-100 | inserting adds the element and keeps every other one |
| Dashboard.SortMineFirst | rm-dashboard/src/pages/Dashboard.tsx:95-100 | the sort is a permutation of its input |
| Dashboard.GroupIsHomogeneous | rm-dashboard/src/pages/Dashboard.tsx:97-98 | the manager's group holds only their applications, the other group only the rest |
| Dashboard.IsMine | rm-dashboard/src/pages/Dashboard.tsx:97-98 | no contract of its own; see Dashboard.Compare and Dashboard.SortIsPartition |
| Dashboard.MineOthersMultiset | rm-dashboard/src/pages/Dashboard.tsx:95-100 | the two groups together hold exactly the input's elements |
| Dashboard.InsertIntoPartition | rm-dashboard/src/pages/Dashboard.tsx:95-100 | inserting into a sorted list puts an own element in front of the manager's own applications, and any other element after all own ones and in front of the others |
| Dashboard.SortIsPartition | rm-dashboard/src/pages/Dashboard.tsx:95-100 | the stable sort with the comparator equals the manager's own applications, in input order, followed by all others, in input order |
| Dashboard.FilteredSpec | rm-dashboard/src/pages/Dashboard.tsx:83-101 | the list shows only passing applications, is a permutation of the passing ones, has every own application before every other one, and each group is that group of the filter result |
| Dashboard.FilteredKeepsInputOrder | rm-dashboard/src/pages/Dashboard.tsx:83-101 | each group of the list is the passing applications of that group of the input, in input order |
| Dashboard.Filtered | rm-dashboard/src/pages/Dashboard.tsx:83-101 | no contract of its own; see Dashboard.FilteredSpec and Dashboard.FilteredKeepsInputOrder |
| Dashboard.NoSearchShowsComplete | rm-dashboard/src/pages/Dashboard.tsx:83-101 | with empty search boxes the list is a permutation of the complete applications |
| Dashboard.DaysBetween | rm-dashboard/src/pages/Dashboard.tsx:76 | the floored day count bounds the elapsed milliseconds from below and above |
| Dashboard.StatusColorClass | rm-dashboard/src/pages/Dashboard.tsx:73-80 | green iff d <= 1, amber iff 1 < d <= 3, red iff d > 3; an unparseable date gives red |
| Dashboard.StatusByElapsedTime | rm-dashboard/src/pages/Dashboard.tsx:73-80 | green iff under two days elapsed, amber from two up to four days, red from four days |
| Dashboard.FutureIsGreen | rm-dashboard/src/pages/Dashboard.tsx:76-77 | a timestamp in the future gives green |
| Dashboard.StatusNeverImproves | rm-dashboard/src/pages/Dashboard.tsx:73-80 | the colour never gets better as the current time moves forward |
| Dashboard.AssignLocally | rm-dashboard/src/pages/Dashboard.tsx:62-66 | length kept; every application with the id gets `rmid := rmId`; every other is identical |
| Dashboard.AssignKeepsSearch | rm-dashboard/src/pages/Dashboard.tsx:62-66 | assigning and then filtering equals filtering and then assigning: the search does not read `rmid` |

## Left out

- JSX rendering, Bootstrap markup and the drag gesture layer are not modelled. `onDragEnd` takes the drop type, the source index, the optional destination index and the page index.
- The `parseInt(source.droppableId)` of the field branch is not modelled. The page index is passed in directly.
- The field branch of `onDragEnd` uses the source page and ignores the destination droppable. A field dropped on another page is reordered within its own page. The model keeps this behaviour.
- Builder.TemplateBuilder.ReorderPages requires the source index to be in range. The drag library only reports indices of existing items. An out-of-range source would insert `undefined`.
- Builder.TemplateBuilder.ReorderFields requires the source index to be in range, for the same reason.
- Splice indices are naturals. Negative `splice` indices do not occur, because the UI only passes list positions.
- Builder.TemplateBuilder.UpdateArrayField requires the slot index to be inside the list. The UI only writes slots it renders. In the source an index equal to the length would append the value and a larger one would leave holes; the model covers neither.
- The download (`Blob`, object URL and link click) is browser I/O and is not modelled.
- The exact JSON text, indentation and string escaping of `JSON.stringify` come from a library and are not modelled. Serialisation produces an abstract, order-preserving JSON value.
- Validation values are an integer, NaN or a string. `parseInt` itself is not modelled.
- Template.Rule: `IntRule` holds an exact, unbounded integer. `parseInt` returns a double, which rounds integers above 2^53 and gives `Infinity` for values of about 1.8 × 10^308 and above. `JSON.stringify` writes `Infinity` as `null`. The model keeps the exact value instead.
- The validation object is an association list in insertion order. JavaScript lists integer-like keys first, but the editor only writes `min`, `max` and `regex`.
- Template.SetRule: the branch of `updateValidation` that creates a missing `validation` object is not modelled. Every field is created with one and a type write resets it to `{}`, so the branch is unreachable.
- The handlers mutate page and field objects shared between the old and new React state. The model works on values, so that aliasing between the previous and next state is not captured.
- The collapse state is not re-indexed after a delete or a reorder. This matches the source, and `pageIndex` is likewise never renumbered.
- Passing dates as integers: parsing the stored date with `new Date(string)`, reading the clock with `new Date()`, the `getTime()` conversions and floating-point division are not modelled; the current time is a parameter. A timestamp is an integer millisecond count, or None when the date does not parse.
- `toLowerCase` is modelled for ASCII letters only. Unicode case mapping is locale-dependent.
- `rmId` comes from `localStorage` and is None when absent. The difference between `null` and `undefined` is not modelled.
- The axios calls, the audit log post, the initial fetch and loading flag, the other dashboard components and `apiService` are network or storage glue and are not modelled.
- The interleaving of React state updates and async effects is not modelled.
