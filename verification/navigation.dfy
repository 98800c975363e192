/** The plugin's commands over the active file's heading list: relative
    navigation (previous/next heading) and the set-up of the heading switcher.
    The editor is reduced to its cursor line and the line it is asked to move
    to; the metadata cache is reduced to the (possibly absent) heading list. */
module Navigation {
  import opened Wrappers
  import opened ArrayFind
  import Settings
  import HeadingModal

  /** One heading of the host's file cache: its text, its level, and the
      first and last line of the heading itself. */
  datatype HeadingCache = HeadingCache(heading: string, level: int, startLine: nat, endLine: nat)

  /** Headings as the cache lists them: in strictly increasing line order,
      each ending no earlier than it starts. */
  ghost predicate WellFormed(hs: seq<HeadingCache>)
  {
    && (forall i, j :: 0 <= i < j < |hs| ==> hs[i].startLine < hs[j].startLine)
    && (forall i :: 0 <= i < |hs| ==> hs[i].startLine <= hs[i].endLine)
  }

  /** `i` is the nearest heading to `line`: the last one starting at or
      before it. */
  ghost predicate IsNearest(hs: seq<HeadingCache>, line: int, i: int)
  {
    && 0 <= i < |hs|
    && hs[i].startLine <= line
    && forall j :: 0 <= j < |hs| && i < j ==> line < hs[j].startLine
  }

  function StartsAtOrBefore(line: int): HeadingCache -> bool
  {
    (h: HeadingCache) => h.startLine <= line
  }

  /** The index of the heading nearest the cursor, or -1 when the cursor is
      above every heading. */
  function NearestHeadingIndex(hs: seq<HeadingCache>, line: int): (r: int)
    ensures -1 <= r < |hs|
    ensures r >= 0 ==> IsNearest(hs, line, r)
    ensures r == -1 <==> forall j :: 0 <= j < |hs| ==> line < hs[j].startLine
  {
    FindLastIndex(hs, StartsAtOrBefore(line))
  }

  lemma NearestIsUnique(hs: seq<HeadingCache>, line: int, n: int)
    requires IsNearest(hs, line, n)
    ensures NearestHeadingIndex(hs, line) == n
  {
    FindLastIndexUnique(hs, StartsAtOrBefore(line), n);
  }

  /** In a line-ordered list the nearest heading is located by its neighbour
      alone, and there is none exactly when the cursor is above the first. */
  lemma NearestInOrderedList(hs: seq<HeadingCache>, line: int, i: int)
    requires WellFormed(hs) && |hs| > 0
    ensures NearestHeadingIndex(hs, line) == -1 <==> line < hs[0].startLine
    ensures 0 <= i < |hs| ==>
              (NearestHeadingIndex(hs, line) == i
               <==> hs[i].startLine <= line && (i + 1 == |hs| || line < hs[i + 1].startLine))
  {
    if 0 <= i < |hs| && hs[i].startLine <= line && (i + 1 == |hs| || line < hs[i + 1].startLine) {
      NearestIsUnique(hs, line, i);
    }
  }

  /** `goToRelativeHeading`: the line the cursor is moved to, or None when
      the command does nothing. An offset of -1 from inside a section's body
      (below the heading's own last line) goes to that section's heading
      rather than to the one before it. */
  function GoToRelativeHeading(headings: Option<seq<HeadingCache>>, line: nat, offset: int): (target: Option<nat>)
    ensures offset == 0 || headings.None? || |headings.value| == 0 ==> target.None?
    ensures headings.Some? && (forall j :: 0 <= j < |headings.value| ==> line < headings.value[j].startLine)
            ==> target.None?
    ensures target.Some? ==>
              exists k :: 0 <= k < |headings.value| && headings.value[k].startLine == target.value
  {
    if offset == 0 then None
    else match headings
      case None => None
      case Some(hs) =>
        if |hs| == 0 then None
        else
          var nearest := NearestHeadingIndex(hs, line);
          if nearest < 0 then None
          else
            var effective := if offset == -1 && line > hs[nearest].endLine then 0 else offset;
            var idx := nearest + effective;
            if idx < 0 || idx >= |hs| then None
            else Some(hs[idx].startLine)
  }

  /** "Next heading" goes to the heading after the nearest one, with no
      correction, and does nothing from the last heading. */
  lemma NextHeading(hs: seq<HeadingCache>, line: nat, n: int)
    requires IsNearest(hs, line, n)
    ensures GoToRelativeHeading(Some(hs), line, 1)
         == if n + 1 < |hs| then Some(hs[n + 1].startLine) else None
  {
    NearestIsUnique(hs, line, n);
  }

  /** "Previous heading" from inside a section's body goes to that
      section's own heading. */
  lemma PreviousFromSectionBody(hs: seq<HeadingCache>, line: nat, n: int)
    requires IsNearest(hs, line, n) && line > hs[n].endLine
    ensures GoToRelativeHeading(Some(hs), line, -1) == Some(hs[n].startLine)
  {
    NearestIsUnique(hs, line, n);
  }

  /** "Previous heading" from a heading's own line goes to the heading
      before it, and does nothing from the first heading. */
  lemma PreviousFromHeadingLine(hs: seq<HeadingCache>, line: nat, n: int)
    requires IsNearest(hs, line, n) && line <= hs[n].endLine
    ensures GoToRelativeHeading(Some(hs), line, -1)
         == if n > 0 then Some(hs[n - 1].startLine) else None
  {
    NearestIsUnique(hs, line, n);
  }

  /** Any other offset moves that many headings from the nearest one, and
      does nothing when that leaves the list. */
  lemma OtherOffsets(hs: seq<HeadingCache>, line: nat, n: int, offset: int)
    requires IsNearest(hs, line, n) && offset != 0 && offset != -1
    ensures 0 <= n + offset < |hs| ==> GoToRelativeHeading(Some(hs), line, offset) == Some(hs[n + offset].startLine)
    ensures !(0 <= n + offset < |hs|) ==> GoToRelativeHeading(Some(hs), line, offset) == None
  {
    NearestIsUnique(hs, line, n);
  }

  /** Next then previous comes back: from anywhere in the section of
      heading `n`, moving to the next heading and then to the previous one
      lands on heading `n`. */
  lemma {:induction false} NextThenPrevious(hs: seq<HeadingCache>, line: nat, n: int)
    requires WellFormed(hs) && IsNearest(hs, line, n) && n + 1 < |hs|
    ensures var next := GoToRelativeHeading(Some(hs), line, 1);
            && next == Some(hs[n + 1].startLine)
            && GoToRelativeHeading(Some(hs), next.value, -1) == Some(hs[n].startLine)
  {
    NextHeading(hs, line, n);
    var l := hs[n + 1].startLine;
    assert IsNearest(hs, l, n + 1);
    PreviousFromHeadingLine(hs, l, n + 1);
  }

  /** One row of the switcher as `openHeadingSwitcher` builds it: heading
      text, level and start line, with no suggestion type or search text. */
  datatype SwitcherItem = SwitcherItem(heading: string, level: int, line: nat)

  /** The opened switcher: its rows, the pre-selected index and the loaded
      settings record handed to the modal. */
  datatype Switcher = Switcher(items: seq<SwitcherItem>, defaultItemIndex: int, settings: Settings.Record)

  /** `openHeadingSwitcher`: nothing opens without headings; otherwise one
      row per heading, in order, with the nearest heading pre-selected. */
  function OpenHeadingSwitcher(headings: Option<seq<HeadingCache>>, line: nat, settings: Settings.Record)
    : (r: Option<Switcher>)
    ensures r.None? <==> headings.None? || |headings.value| == 0
    ensures r.Some? ==> |r.value.items| == |headings.value|
    ensures r.Some? ==> forall i :: 0 <= i < |r.value.items| ==>
              r.value.items[i] == SwitcherItem(headings.value[i].heading, headings.value[i].level, headings.value[i].startLine)
    ensures r.Some? ==> -1 <= r.value.defaultItemIndex < |r.value.items|
    ensures r.Some? ==> (r.value.defaultItemIndex == -1 <==> forall j :: 0 <= j < |headings.value| ==> line < headings.value[j].startLine)
    ensures r.Some? && r.value.defaultItemIndex >= 0 ==> IsNearest(headings.value, line, r.value.defaultItemIndex)
    ensures r.Some? ==> r.value.settings == settings
  {
    match headings
    case None => None
    case Some(hs) =>
      if |hs| == 0 then None
      else
        var items := seq(|hs|, i requires 0 <= i < |hs| => SwitcherItem(hs[i].heading, hs[i].level, hs[i].startLine));
        Some(Switcher(items, NearestHeadingIndex(hs, line), settings))
  }

  /** The switcher and the navigation commands agree on the current
      heading: when the modal opens, the chooser lands on the row of the
      nearest heading (row 0 when the cursor is above every heading), that
      row is the only one highlighted when the loaded record's highlight
      value is truthy, and choosing
      it jumps to the line "previous heading" reaches from that section's
      body. */
  lemma SwitcherAgreesWithNavigation(hs: seq<HeadingCache>, line: nat, settings: Settings.Record)
    requires |hs| > 0
    ensures var sw := OpenHeadingSwitcher(Some(hs), line, settings).value;
            var n := sw.defaultItemIndex;
            && n == NearestHeadingIndex(hs, line)
            && HeadingModal.Landing(HeadingModal.PreselectPresses(n, |sw.items|), |sw.items|) == (if n >= 0 then n else 0)
            && (forall p :: 0 <= p < |sw.items| ==>
                  (HeadingModal.IsHighlighted(Settings.HighlightCurrentHeading(settings), n, p)
                   <==> Settings.HighlightCurrentHeading(settings) && p == n))
            && (n >= 0 && line > hs[n].endLine ==> GoToRelativeHeading(Some(hs), line, -1) == Some(sw.items[n].line))
  {
    var sw := OpenHeadingSwitcher(Some(hs), line, settings).value;
    var n := sw.defaultItemIndex;
    HeadingModal.PreselectLandsOnDefault(n, |sw.items|);
    if n >= 0 {
      NearestIsUnique(hs, line, n);
      if line > hs[n].endLine {
        PreviousFromSectionBody(hs, line, n);
      }
    } else {
      assert NearestHeadingIndex(hs, line) == -1;
    }
  }
}
