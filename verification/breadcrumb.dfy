/** The breadcrumb shown beside a heading while searching
    (`parentHeadingString`): the chain of shallower headings above it,
    recovered from the flat item list by repeated backward search rather than
    from a stored tree. */
module Breadcrumb {
  import opened Wrappers
  import opened ArrayFind
  import opened Suggestions

  const Separator: string := " > "

  /** The parent test of the backward search: a heading entry on an earlier
      line with a strictly smaller level. When `scoped` holds it must also
      belong to the same file as `item`; the search as written is unscoped. */
  predicate ParentCandidate(s: Suggestion, item: HeadingSuggestion, scoped: bool)
  {
    && s.Heading?
    && s.h.line < item.line
    && s.h.level < item.level
    && (!scoped || s.h.file == item.file)
  }

  function IsParentOf(item: HeadingSuggestion, scoped: bool): Suggestion -> bool
  {
    s => ParentCandidate(s, item, scoped)
  }

  /** The distinct levels, smaller than `level`, of the heading entries of
      `items`. Each step of the walk leaves at least one of them behind. */
  ghost function SmallerLevels(items: seq<Suggestion>, level: int): set<int>
  {
    set i | 0 <= i < |items| && items[i].Heading? && items[i].h.level < level :: items[i].h.level
  }

  lemma SubsetCardinality<T>(a: set<T>, b: set<T>)
    requires a <= b
    ensures |a| <= |b|
    decreases a
  {
    if a != {} {
      var x :| x in a;
      SubsetCardinality(a - {x}, b - {x});
    }
  }

  /** Moving to a parent strictly shrinks the set of smaller levels: the
      parent's own level is in the old set and not in the new one. */
  lemma SmallerLevelsShrink(items: seq<Suggestion>, k: int, level: int)
    requires 0 <= k < |items| && items[k].Heading? && items[k].h.level < level
    ensures |SmallerLevels(items, items[k].h.level)| < |SmallerLevels(items, level)|
  {
    var x := items[k].h.level;
    var a := SmallerLevels(items, x);
    var b := SmallerLevels(items, level);
    assert x in b;
    forall y | y in a
      ensures y in b - {x}
    {
      var i :| 0 <= i < |items| && items[i].Heading? && items[i].h.level < x && y == items[i].h.level;
      assert items[i].h.level in b;
    }
    SubsetCardinality(a, b - {x});
  }

  /** The single backward search of one step: the last index of the whole
      list whose entry passes the parent test, or -1. */
  function ParentIndex(items: seq<Suggestion>, item: HeadingSuggestion, scoped: bool): (k: int)
    ensures -1 <= k < |items|
    ensures k >= 0 ==> ParentCandidate(items[k], item, scoped)
    ensures forall j :: 0 <= j < |items| && k < j ==> !ParentCandidate(items[j], item, scoped)
  {
    FindLastIndex(items, IsParentOf(item, scoped))
  }

  /** The loop of `parentHeadingString`: each found parent is prepended to the
      accumulated string, with the separator only when that string is not
      empty, and the search restarts from the parent. */
  function Walk(items: seq<Suggestion>, item: HeadingSuggestion, scoped: bool, acc: string): string
    decreases |SmallerLevels(items, item.level)|
  {
    var k := ParentIndex(items, item, scoped);
    if k < 0 then acc
    else
      var parent := items[k].h;
      SmallerLevelsShrink(items, k, item.level);
      Walk(items, parent, scoped, if |acc| > 0 then parent.heading + Separator + acc else parent.heading)
  }

  /** What the string starts from: the attached file's text, if any. */
  function Seed(item: HeadingSuggestion): string
  {
    if item.file.Some? then item.file.value.text else ""
  }

  /** `parentHeadingString` as written: the search runs over the whole list,
      whatever file an entry belongs to. */
  function ParentHeadingString(items: seq<Suggestion>, item: HeadingSuggestion): (r: string)
    ensures ParentIndex(items, item, false) < 0 && item.file.None? ==> r == ""
    ensures ParentIndex(items, item, false) < 0 && item.file.Some? ==> r == item.file.value.text
  {
    Walk(items, item, false, Seed(item))
  }

  /** The corrected breadcrumb: ancestors are searched among the entries of
      the item's own file only. */
  function ParentHeadingStringSameFile(items: seq<Suggestion>, item: HeadingSuggestion): (r: string)
    ensures ParentIndex(items, item, true) < 0 && item.file.None? ==> r == ""
    ensures ParentIndex(items, item, true) < 0 && item.file.Some? ==> r == item.file.value.text
  {
    Walk(items, item, true, Seed(item))
  }

  // ---------------------------------------------------------------------------
  // Reference definition: the ancestor chain, and the breadcrumb as its join.
  // ---------------------------------------------------------------------------

  /** The ancestors the walk visits, outermost first. */
  function Ancestors(items: seq<Suggestion>, item: HeadingSuggestion, scoped: bool): (anc: seq<HeadingSuggestion>)
    ensures |anc| <= |SmallerLevels(items, item.level)|
    ensures forall i :: 0 <= i < |anc| ==> Heading(anc[i]) in items
    ensures forall i :: 0 <= i < |anc| ==> anc[i].line < item.line && anc[i].level < item.level
    ensures forall i, j :: 0 <= i < j < |anc| ==> anc[i].level < anc[j].level && anc[i].line < anc[j].line
    ensures scoped ==> forall i :: 0 <= i < |anc| ==> anc[i].file == item.file
    ensures |anc| > 0 <==> ParentIndex(items, item, scoped) >= 0
    ensures |anc| > 0 ==> Heading(anc[|anc| - 1]) == items[ParentIndex(items, item, scoped)]
    decreases |SmallerLevels(items, item.level)|
  {
    var k := ParentIndex(items, item, scoped);
    if k < 0 then []
    else
      var parent := items[k].h;
      SmallerLevelsShrink(items, k, item.level);
      Ancestors(items, parent, scoped) + [parent]
  }

  function Names(anc: seq<HeadingSuggestion>): (names: seq<string>)
    ensures |names| == |anc|
    ensures forall i :: 0 <= i < |anc| ==> names[i] == anc[i].heading
  {
    seq(|anc|, i requires 0 <= i < |anc| => anc[i].heading)
  }

  /** `segs` joined with `sep` between neighbours. */
  function Join(segs: seq<string>, sep: string): string
  {
    if |segs| == 0 then ""
    else if |segs| == 1 then segs[0]
    else segs[0] + sep + Join(segs[1..], sep)
  }

  /** `segs` without its run of trailing empty strings. */
  function TrimTrailingEmpty(segs: seq<string>): (r: seq<string>)
    ensures |r| <= |segs| && r == segs[..|r|]
    ensures |r| > 0 ==> r[|r| - 1] != ""
    ensures forall i :: |r| <= i < |segs| ==> segs[i] == ""
  {
    if |segs| > 0 && segs[|segs| - 1] == "" then TrimTrailingEmpty(segs[..|segs| - 1]) else segs
  }

  /** The file label as the final breadcrumb segment, if there is one. */
  function FileSegment(item: HeadingSuggestion): seq<string>
  {
    if item.file.Some? then [item.file.value.text] else []
  }

  lemma {:induction false} JoinMerge(p: seq<string>, x: string, acc: string, sep: string)
    ensures Join(p + [x + sep + acc], sep) == Join(p + [x, acc], sep)
  {
    if |p| == 0 {
      assert p + [x + sep + acc] == [x + sep + acc];
      assert p + [x, acc] == [x, acc];
      assert [x, acc][1..] == [acc];
    } else {
      assert (p + [x + sep + acc])[1..] == p[1..] + [x + sep + acc];
      assert (p + [x, acc])[1..] == p[1..] + [x, acc];
      JoinMerge(p[1..], x, acc, sep);
    }
  }

  lemma TrimKeepsNonEmptyLast(segs: seq<string>)
    requires |segs| > 0 && segs[|segs| - 1] != ""
    ensures TrimTrailingEmpty(segs) == segs
  {
  }

  lemma TrimDropsEmptyLast(segs: seq<string>)
    ensures TrimTrailingEmpty(segs + [""]) == TrimTrailingEmpty(segs)
  {
    assert (segs + [""])[..|segs|] == segs;
  }

  lemma NamesSnoc(anc: seq<HeadingSuggestion>, a: HeadingSuggestion)
    ensures Names(anc + [a]) == Names(anc) + [a.heading]
  {
  }

  /** One step of the walk: the chain of an item with a parent is the
      parent's chain followed by the parent, and both the walk and the chain
      continue from that parent. */
  lemma WalkStep(items: seq<Suggestion>, item: HeadingSuggestion, scoped: bool, acc: string)
    requires ParentIndex(items, item, scoped) >= 0
    ensures var parent := items[ParentIndex(items, item, scoped)].h;
            && Ancestors(items, item, scoped) == Ancestors(items, parent, scoped) + [parent]
            && Walk(items, item, scoped, acc)
               == Walk(items, parent, scoped, if |acc| > 0 then parent.heading + Separator + acc else parent.heading)
  {
  }

  /** Prepending one heading to the accumulated string is the same as
      appending it as a segment before that string. */
  lemma JoinStep(p: seq<string>, h: string, acc: string)
    ensures Join(TrimTrailingEmpty(p + [if |acc| > 0 then h + Separator + acc else h]), Separator)
         == Join(TrimTrailingEmpty(p + [h] + [acc]), Separator)
  {
    if |acc| > 0 {
      TrimKeepsNonEmptyLast(p + [h + Separator + acc]);
      TrimKeepsNonEmptyLast(p + [h] + [acc]);
      assert p + [h] + [acc] == p + [h, acc];
      JoinMerge(p, h, acc, Separator);
    } else {
      TrimDropsEmptyLast(p + [h]);
    }
  }

  /** The walk, started from any accumulated string, equals the join of the
      ancestors' headings followed by that string, once trailing empty
      segments are dropped (an empty segment suppresses the separator). */
  lemma {:induction false} WalkIsJoin(items: seq<Suggestion>, item: HeadingSuggestion, scoped: bool, acc: string)
    ensures Walk(items, item, scoped, acc)
         == Join(TrimTrailingEmpty(Names(Ancestors(items, item, scoped)) + [acc]), Separator)
    decreases |SmallerLevels(items, item.level)|
  {
    var k := ParentIndex(items, item, scoped);
    if k < 0 {
      assert Names(Ancestors(items, item, scoped)) + [acc] == [acc];
      if acc == "" {
        TrimDropsEmptyLast([]);
      }
    } else {
      var parent := items[k].h;
      SmallerLevelsShrink(items, k, item.level);
      var acc' := if |acc| > 0 then parent.heading + Separator + acc else parent.heading;
      WalkStep(items, item, scoped, acc);
      WalkIsJoin(items, parent, scoped, acc');
      NamesSnoc(Ancestors(items, parent, scoped), parent);
      JoinStep(Names(Ancestors(items, parent, scoped)), parent.heading, acc);
    }
  }

  /** `parentHeadingString` equals the ancestors' headings, outermost first,
      followed by the file label when one is attached, joined with " > "
      after dropping trailing empty segments. */
  lemma ParentHeadingStringIsJoin(items: seq<Suggestion>, item: HeadingSuggestion)
    ensures ParentHeadingString(items, item)
         == Join(TrimTrailingEmpty(Names(Ancestors(items, item, false)) + FileSegment(item)), Separator)
  {
    var n := Names(Ancestors(items, item, false));
    WalkIsJoin(items, item, false, Seed(item));
    if item.file.None? {
      TrimDropsEmptyLast(n);
      assert n + FileSegment(item) == n;
    }
  }

  /** When no heading text and no file label is empty, the breadcrumb is
      exactly the ancestors, outermost first, then the file label, joined
      with " > ". */
  lemma ParentHeadingStringOfNonEmptyTexts(items: seq<Suggestion>, item: HeadingSuggestion)
    requires forall i :: 0 <= i < |items| && items[i].Heading? ==> items[i].h.heading != ""
    requires item.file.Some? ==> item.file.value.text != ""
    ensures ParentHeadingString(items, item)
         == Join(Names(Ancestors(items, item, false)) + FileSegment(item), Separator)
  {
    ParentHeadingStringIsJoin(items, item);
    var anc := Ancestors(items, item, false);
    var segs := Names(anc) + FileSegment(item);
    if |segs| > 0 {
      if item.file.None? {
        assert Heading(anc[|anc| - 1]) in items;
      }
      assert segs[|segs| - 1] != "";
    }
  }

  /** With the file-scoped search every ancestor belongs to the item's file. */
  lemma SameFileAncestorsShareFile(items: seq<Suggestion>, item: HeadingSuggestion)
    ensures forall a :: a in Ancestors(items, item, true) ==> a.file == item.file
  {
  }

  /** The parent search is decided by the parent test alone: an index with
      the test true and no later such index is the one found. */
  lemma ParentIndexIs(items: seq<Suggestion>, item: HeadingSuggestion, scoped: bool, k: int)
    requires -1 <= k < |items|
    requires k >= 0 ==> ParentCandidate(items[k], item, scoped)
    requires forall j :: 0 <= j < |items| && k < j ==> !ParentCandidate(items[j], item, scoped)
    ensures ParentIndex(items, item, scoped) == k
  {
    FindLastIndexUnique(items, IsParentOf(item, scoped), k);
  }

  /** All heading entries, and the item itself, belong to file `f`. */
  predicate AllInFile(items: seq<Suggestion>, f: Option<FileSuggestion>)
  {
    forall i :: 0 <= i < |items| && items[i].Heading? ==> items[i].h.file == f
  }

  /** Within one file (in particular in a single-file list, where no entry
      has a file) the file-scoped search and the search as written agree. */
  lemma {:induction false} SameFileWalkAgrees(items: seq<Suggestion>, item: HeadingSuggestion, acc: string)
    requires AllInFile(items, item.file)
    ensures Walk(items, item, true, acc) == Walk(items, item, false, acc)
    decreases |SmallerLevels(items, item.level)|
  {
    var k := ParentIndex(items, item, false);
    forall j | 0 <= j < |items|
      ensures ParentCandidate(items[j], item, true) == ParentCandidate(items[j], item, false)
    {
    }
    ParentIndexIs(items, item, true, k);
    if k >= 0 {
      var parent := items[k].h;
      SmallerLevelsShrink(items, k, item.level);
      var acc' := if |acc| > 0 then parent.heading + Separator + acc else parent.heading;
      WalkStep(items, item, true, acc);
      WalkStep(items, item, false, acc);
      SameFileWalkAgrees(items, parent, acc');
    }
  }

  lemma SameFileBreadcrumbAgrees(items: seq<Suggestion>, item: HeadingSuggestion)
    requires AllInFile(items, item.file)
    ensures ParentHeadingStringSameFile(items, item) == ParentHeadingString(items, item)
  {
    SameFileWalkAgrees(items, item, Seed(item));
  }
}
