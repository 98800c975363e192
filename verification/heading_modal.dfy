/** The switcher modal's own logic, apart from the host's widgets: how
    `onOpen` pre-selects the default item by simulated arrow-key presses on a
    chooser that starts at item 0 and wraps around, which item is highlighted,
    and how a heading row chooses its icon, spacer and breadcrumb. */
module HeadingModal {
  import opened Wrappers
  import opened Suggestions
  import opened Breadcrumb

  /** The presses `onOpen` issues: none when the default index is out of
      range, otherwise `n` presses down or `n` presses up. */
  datatype KeyPresses = NoPresses | Down(n: nat) | Up(n: nat)

  function PressCount(p: KeyPresses): nat
  {
    match p
    case NoPresses => 0
    case Down(n) => n
    case Up(n) => n
  }

  /** The presses of `onOpen` for `count` items: down `index` times when
      `index <= count / 2` (a real division in the source), otherwise up once
      for each of `count - 1` down to `index`. */
  function PreselectPresses(defaultItemIndex: int, count: nat): (p: KeyPresses)
    ensures p.NoPresses? <==> !(0 <= defaultItemIndex < count)
    ensures 2 * PressCount(p) <= count
  {
    if 0 <= defaultItemIndex < count then
      if 2 * defaultItemIndex <= count then Down(defaultItemIndex)
      else Up(count - defaultItemIndex)
    else NoPresses
  }

  /** The chooser's wrap-around moves over `count` items. */
  function MoveDown(selected: int, count: nat): int
    requires count > 0
  {
    (selected + 1) % count
  }

  function MoveUp(selected: int, count: nat): int
    requires count > 0
  {
    (selected - 1 + count) % count
  }

  lemma ModOfSmall(a: int, m: int)
    requires 0 <= a < m
    ensures a % m == a && (a + m) % m == a
  {
  }

  /** Where a chooser over `count` items that starts on item 0 ends up after
      the presses, in closed form. */
  function Landing(p: KeyPresses, count: nat): int
  {
    if count == 0 then 0
    else match p
      case NoPresses => 0
      case Down(n) => n % count
      case Up(n) => (count - n % count) % count
  }

  /** Either way the chooser lands on the default item, after at most half
      as many presses as there are items; out of range it stays on item 0. */
  lemma PreselectLandsOnDefault(defaultItemIndex: int, count: nat)
    ensures 0 <= defaultItemIndex < count ==> Landing(PreselectPresses(defaultItemIndex, count), count) == defaultItemIndex
    ensures !(0 <= defaultItemIndex < count) ==> Landing(PreselectPresses(defaultItemIndex, count), count) == 0
  {
    var p := PreselectPresses(defaultItemIndex, count);
    if p.Down? {
      ModOfSmall(p.n, count);
    } else if p.Up? {
      ModOfSmall(p.n, count);
      ModOfSmall(count - p.n, count);
    }
  }

  /** `onOpen` step by step: the source's two loops driving a wrapping
      chooser that starts on item 0. */
  method SelectDefaultItem(defaultItemIndex: int, count: nat) returns (selected: int, presses: nat)
    ensures 0 <= defaultItemIndex < count ==> selected == defaultItemIndex
    ensures !(0 <= defaultItemIndex < count) ==> selected == 0
    ensures presses == PressCount(PreselectPresses(defaultItemIndex, count))
    ensures 2 * presses <= count
  {
    selected := 0;
    presses := 0;
    if 0 <= defaultItemIndex && defaultItemIndex < count {
      if 2 * defaultItemIndex <= count {
        var i := 0;
        while i < defaultItemIndex
          invariant 0 <= i <= defaultItemIndex
          invariant selected == i && presses == i
        {
          ModOfSmall(i + 1, count);
          selected := MoveDown(selected, count);
          presses := presses + 1;
          i := i + 1;
        }
      } else {
        var i := count - 1;
        while i >= defaultItemIndex
          invariant defaultItemIndex - 1 <= i <= count - 1
          invariant selected == if i + 1 == count then 0 else i + 1
          invariant presses == count - 1 - i
        {
          if selected == 0 {
            ModOfSmall(count - 1, count);
          } else {
            ModOfSmall(i, count);
          }
          selected := MoveUp(selected, count);
          presses := presses + 1;
          i := i - 1;
        }
      }
    }
  }

  /** `renderSuggestion`'s test for marking the item at `position` as the
      current one. */
  predicate IsHighlighted(highlightCurrentHeading: bool, defaultItemIndex: int, position: int)
  {
    highlightCurrentHeading && defaultItemIndex >= 0 && position == defaultItemIndex
  }

  /** At most one item is highlighted, only with the setting on, and it is
      the item `onOpen` pre-selected. */
  lemma HighlightIsPreselected(highlightCurrentHeading: bool, defaultItemIndex: int, count: nat, p: int, q: int)
    requires 0 <= p < count && IsHighlighted(highlightCurrentHeading, defaultItemIndex, p)
    ensures highlightCurrentHeading
    ensures p == Landing(PreselectPresses(defaultItemIndex, count), count)
    ensures IsHighlighted(highlightCurrentHeading, defaultItemIndex, q) ==> q == p
  {
    PreselectLandsOnDefault(defaultItemIndex, count);
  }

  const IconPrefix: string := "heading-"

  /** The icon of a heading row: `heading-<level>` for levels 1 to 6, the
      plain `heading` icon for any other level. */
  function IconName(level: int): (name: string)
    ensures |name| >= 7 && name[..7] == "heading"
    ensures |name| == |IconPrefix| + 1 <==> 1 <= level <= 6
  {
    if 1 <= level <= 6 then IconPrefix + [('0' as int + level) as char] else "heading"
  }

  /** The level an icon name stands for, if it is one of the six numbered
      heading icons. */
  function IconLevel(name: string): (r: Option<int>)
    ensures r.Some? ==> 1 <= r.value <= 6
  {
    if |name| == |IconPrefix| + 1 && name[..|IconPrefix|] == IconPrefix
       && '1' <= name[|IconPrefix|] <= '6'
    then Some(name[|IconPrefix|] as int - '0' as int)
    else None
  }

  /** Icon names are read back to the level they were drawn for; levels
      outside 1 to 6 all share the unnumbered icon. */
  lemma IconNameRoundTrip(level: int)
    ensures 1 <= level <= 6 ==> IconLevel(IconName(level)) == Some(level)
    ensures !(1 <= level <= 6) ==> IconLevel(IconName(level)) == None && IconName(level) == "heading"
  {
  }

  /** `"#".repeat(level)`: a run of `level` hash marks, or a RangeError
      (None) for a negative count. */
  function Spacer(level: int): (r: Option<string>)
    ensures r.Some? <==> level >= 0
    ensures r.Some? ==> |r.value| == level && forall i :: 0 <= i < |r.value| ==> r.value[i] == '#'
    decreases if level < 0 then 0 else level
  {
    if level < 0 then None
    else if level == 0 then Some("")
    else Some("#" + Spacer(level - 1).value)
  }

  /** What a heading row shows to the left of its title. */
  datatype Lead = IconLead(icon: string) | SpacerLead(spacer: string)

  /** What a heading row shows in its trailing small element. */
  datatype Trailer = PathNote(path: string) | IconNote(icon: string)

  datatype HeadingRow = HeadingRow(lead: Lead, title: string, trailer: Trailer)

  /** `renderHeadingSuggestion`: while searching, the level icon leads and
      the breadcrumb trails; otherwise the hash spacer leads and the icon
      trails. Drawing the spacer for a negative level throws (None). */
  function RenderHeading(items: seq<Suggestion>, s: HeadingSuggestion, isSearching: bool): (r: Option<HeadingRow>)
    ensures r.None? <==> !isSearching && s.level < 0
    ensures r.Some? ==> r.value.title == s.text
    ensures r.Some? && isSearching ==>
              r.value.lead == IconLead(IconName(s.level)) && r.value.trailer == PathNote(ParentHeadingString(items, s))
    ensures r.Some? && !isSearching ==>
              r.value.lead.SpacerLead? && |r.value.lead.spacer| == s.level && r.value.trailer == IconNote(IconName(s.level))
  {
    var icon := IconName(s.level);
    if isSearching then Some(HeadingRow(IconLead(icon), s.text, PathNote(ParentHeadingString(items, s))))
    else match Spacer(s.level)
      case None => None
      case Some(spacer) => Some(HeadingRow(SpacerLead(spacer), s.text, IconNote(icon)))
  }
}
