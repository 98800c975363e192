# Go-to-heading: a Dafny model

This project models the core of an Obsidian plugin that moves the cursor between the
headings of a note and opens a fuzzy "switcher" listing them. It covers three pieces:

- **Relative navigation** (`Navigation`). A command moves the cursor to the previous
  or next heading. It finds the *nearest* heading, which is the last heading starting
  at or before the cursor line, and adds the offset. There is one correction: "previous"
  from inside a section's body goes to that section's own heading.
- **Switcher set-up** (`Navigation`, `HeadingModal`). The headings become switcher rows,
  and the nearest heading is pre-selected. The modal selects it by simulated arrow-key
  presses on a chooser that starts on row 0 and wraps around. The same row is
  highlighted when the setting is on. A heading row shows a level icon or a `#` spacer.
- **Breadcrumbs** (`Breadcrumb`). While searching, each heading shows the chain of its
  ancestors, for example `H1 > H2`. The code rebuilds this chain from the flat item list
  by repeated backward search instead of storing a tree. Each step takes the last
  heading entry on an earlier line with a smaller level.

Also modelled: the settings defaults and the `loadSettings` merge (`Settings`), and
ECMAScript's `Array.prototype.findLastIndex` (`ArrayFind`), which both searches use.

The editor is abstracted away. Its cursor becomes an input line, and "go and scroll to
line" becomes an output `Option<nat>` (None means the command does nothing). The host's
metadata cache becomes an input `Option<seq<HeadingCache>>` (None means no active file
or no heading list).

Some behaviours of the code are easy to misread. The model follows the code in each case:

- `loadSettings` uses `Object.assign`. So keys unknown to the defaults are kept, not
  ignored. A key that is present with a `null` value also overrides its default.
- The breadcrumb search is not limited to the item's file (see Findings).
- The code adds `" > "` only when the string built so far is not empty
  (`string.length > 0`). So empty segments at the inner end of the chain lose their
  separator. That includes an empty file label and empty innermost ancestors. An empty
  heading further out still gets its separators: ancestors "A", "" and "C" give
  `"A >  > C"`. `Breadcrumb.ParentHeadingStringIsJoin` states the exact result: the
  segments, with their trailing empty strings dropped, joined by `" > "`.
- The backward correction compares the cursor with the heading's own end line. So
  "previous" goes to the section's heading from any line below that heading.

## Model

| member | source | states |
|---|---|---|
| ArrayFind.FindLastIndex | src/main.ts:54 | `findLastIndex` returns -1 or an index whose element satisfies the predicate, and no later element satisfies it |
| Navigation.NearestHeadingIndex | src/main.ts:52-55 | the nearest index is the greatest index whose heading starts at or before the cursor line; it is -1 exactly when every heading starts below the cursor |
| Navigation.NearestInOrderedList | src/main.ts:54-55 | in a line-ordered list, the nearest is -1 iff the cursor is above the first heading; otherwise it is i iff heading i starts at or before the cursor and heading i+1 (if any) starts after it |
| Navigation.GoToRelativeHeading | src/main.ts:46-69 | offset 0, a missing list or an empty list gives no move; a cursor above every heading gives no move; any move lands on some heading's start line |
| Navigation.NextHeading | src/main.ts:58-68 | offset +1 goes to heading nearest+1 with no correction, and does nothing from the last heading |
| Navigation.PreviousFromSectionBody | src/main.ts:57-60 | offset -1 with the cursor below the nearest heading's end line goes to the nearest heading's own start line |
| Navigation.PreviousFromHeadingLine | src/main.ts:58-68 | offset -1 on the nearest heading's own lines goes to the heading before it, and does nothing from the first heading |
| Navigation.OtherOffsets | src/main.ts:62-68 | for other non-zero offsets, nothing moves when nearest+offset is outside [0, length); otherwise the target is exactly that heading's start line |
| Navigation.NextThenPrevious | src/main.ts:46-69 | in a well-formed list, "next" and then "previous" from anywhere in a section (except the last) come back to that section's heading |
| Navigation.OpenHeadingSwitcher | src/main.ts:71-97 | no switcher without headings; otherwise one row per heading, in order, with text, level and start line copied; the default index is the nearest heading, and -1 exactly when the cursor is above every heading; the modal receives the loaded settings record unchanged |
| Navigation.SwitcherAgreesWithNavigation | src/main.ts:94-97 | the switcher's default index is the navigation's nearest index; the chooser lands on it (row 0 if it is -1); it is the only highlighted row when the loaded record's highlight value is truthy, and no row is highlighted otherwise; choosing it goes where "previous" goes from that section's body |
| Settings.ParseIdentifier | src/settings.ts:1-10 | the reverse lookup of a sort-method name gives a method with that name, or None when no method has it |
| Settings.IdentifierRoundTrip | src/settings.ts:1-10 | parsing a sort method's identifier gives back that method |
| Settings.SortMethodIdentifiers | src/settings.ts:10 | the identifier list has one entry per sort method, in declaration order, each parsing back to its method |
| Settings.Encode | src/settings.ts:12-22 | a settings value is stored as exactly the three keys, with the booleans as they are and the sort order as its identifier |
| Settings.LoadSettings | src/main.ts:38-40 | a missing stored record gives the defaults; otherwise every stored key wins, every default key missing from the store keeps its default, and the keys are the union of both |
| Settings.HighlightAfterLoad | src/heading_modal.ts:69 | the highlight test reads the loaded record by JavaScript truthiness: on by default, on when the key is not stored, the stored value's truthiness otherwise (a stored `null` turns it off), and a saved typed setting comes back unchanged |
| Settings.LoadSettingsIdempotent | src/main.ts:38-44 | saving the loaded settings and loading them again changes nothing |
| Settings.LoadEncodedSettings | src/main.ts:38-44 | loading a record saved from typed settings gives back exactly that record |
| HeadingModal.PreselectPresses | src/heading_modal.ts:39-50 | presses happen exactly when 0 <= default index < item count, and never more than half the item count |
| HeadingModal.PreselectLandsOnDefault | src/heading_modal.ts:39-50 | a wrapping chooser that starts on row 0 ends on the default row after those presses; if the index is out of range it stays on row 0 |
| HeadingModal.SelectDefaultItem | src/heading_modal.ts:36-52 | running the two press loops step by step on a wrapping chooser selects the default row (row 0 if the index is out of range), using the press count above and at most half the items |
| HeadingModal.HighlightIsPreselected | src/heading_modal.ts:69 | by the highlight test (`HeadingModal.IsHighlighted`), a highlighted row requires the setting to be on; it is unique and is the row `onOpen` pre-selected |
| HeadingModal.IconName | src/heading_modal.ts:106 | the icon name starts with "heading"; it has the one-digit suffix form exactly for levels 1 to 6 |
| HeadingModal.IconNameRoundTrip | src/heading_modal.ts:106 | a numbered icon reads back to its level; every level outside 1 to 6 gets the plain "heading" icon |
| HeadingModal.Spacer | src/heading_modal.ts:114 | the spacer is `level` hash marks; a negative level is a RangeError |
| HeadingModal.RenderHeading | src/heading_modal.ts:101-130 | while searching, a row shows the level icon and the breadcrumb as written (`ParentHeadingString`, whole-list search); otherwise it shows the spacer and a trailing icon; the title is the item's text; it fails only for a negative level when not searching |
| Breadcrumb.ParentIndex | src/heading_modal.ts:140-145 | each step picks the last list index that is a heading entry on an earlier line with a smaller level, or -1 if none exists |
| Breadcrumb.ParentHeadingString | src/heading_modal.ts:132-159 | the seed and the loop (`Breadcrumb.Walk`); with no parent, the result is "" when no file is attached and the file's text when one is |
| Breadcrumb.Ancestors | src/heading_modal.ts:139-156 | the ancestors the walk visits are list entries above the item and shallower than it; their levels and lines strictly increase outermost-first; the chain is empty exactly when the first search finds nothing, and its innermost member is the entry that search finds; their count is at most the number of distinct smaller levels present |
| Breadcrumb.WalkIsJoin | src/heading_modal.ts:139-156 | the loop's result (`Breadcrumb.Walk`), from any starting string, is the ancestors' headings followed by that string, trailing empty segments dropped, joined by " > " |
| Breadcrumb.ParentHeadingStringIsJoin | src/heading_modal.ts:132-159 | the breadcrumb is the ancestors outermost-first, then the file label if any, trailing empty segments dropped, joined by " > " |
| Breadcrumb.ParentHeadingStringOfNonEmptyTexts | src/heading_modal.ts:150-154 | when no heading text or file label is empty, the breadcrumb is exactly the ancestors outermost-first, then the file label, joined by " > " |
| Breadcrumb.ParentHeadingStringSameFile | src/heading_modal.ts:132-159 | the corrected breadcrumb: with no same-file parent, it is "" or the file's text |
| Breadcrumb.SameFileAncestorsShareFile | src/heading_modal.ts:140-145 | with the file-scoped search, every ancestor belongs to the item's file |
| Breadcrumb.SameFileBreadcrumbAgrees | src/heading_modal.ts:140-145 | when every heading entry belongs to the item's file (for example a single-file list), the corrected and the as-written breadcrumb are equal |
| BreadcrumbExamples.OutlineBreadcrumbs | src/heading_modal.ts:139-156 | for levels 1,2,3,2,1 on lines 0,5,10,15,20, the level-3 heading gets "H1 > H2", the second level-2 heading gets "H1", and the second level-1 heading gets "" |
| BreadcrumbExamples.CrossFileParent | src/heading_modal.ts:140-145 | as written, a heading of B.md takes a heading of A.md as its parent; the file-scoped search does not |

## Left out

- Editor and workspace I/O (`getActiveFile`, the metadata cache, `setCursor`, `scrollIntoView`): these are inputs and outputs of the model, as described above.
- Plugin lifecycle (`onload`, command registration, `saveData`) and the settings tab: these are host glue with no logic of their own.
- DOM rendering, CSS classes, `setIcon`, `FuzzySuggestModal` and its fuzzy matching: these are host library calls. Only the icon, spacer and breadcrumb choices are modelled.
- The synthetic `KeyboardEvent`s: only the press counts, and the chooser's wrap-around as an assumption, are modelled.
- Folder aggregation, folder sort orders and `includeDocumentBoundaries`: only the enumeration and the setting field exist in this code, and there is no behaviour to model.
- The switcher rows built by `openHeadingSwitcher` have no `type` or `text` field. They are modelled as `SwitcherItem`, not as `Suggestion`, and no breadcrumb property is claimed for them. In the program, the switch on `type` in `renderSuggestion` then matches neither case, so these rows get no title, icon or spacer, and `getItemText` returns `undefined` for them.
- `renderFileSuggestion` sets CSS classes, renders the item's title through `FuzzySuggestModal`, and adds a fixed `file-text` icon. It is not modelled.
- `getItemText` returns the item's `text` field. It only feeds the fuzzy matcher, which is not modelled.
- `onChoose` jumps to the chosen row's `line` field. `Navigation.SwitcherAgreesWithNavigation` uses that field directly and has no separate member.
- The highlight test uses `items.indexOf(item)`, which compares object identity. It is modelled by the row's position.
- Stored settings values: JSON arrays and objects are one `Composite` value, which is always truthy; their contents are not modelled.
- Heading levels and lines are unbounded integers. JavaScript numbers are doubles, and fractional or huge values are not modelled.

## Findings

| source | as written | input that shows it | evidently intended | confidence | as-written member | corrected member |
|---|---|---|---|---|---|---|
| src/heading_modal.ts:140-145 | the parent search runs over the whole list and compares lines and levels across files | items [File A.md, Heading "A1" (level 1, line 0, file A.md), File B.md, Heading "B2" (level 2, line 3, file B.md)]: the breadcrumb of "B2" is "A1 > B" | ancestors are only searched within the heading's own file, so "B2" gets "B" | medium, not executed; only matters for lists whose headings come from several files | BreadcrumbExamples.CrossFileParent | Breadcrumb.ParentHeadingStringSameFile |
