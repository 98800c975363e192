/** Worked breadcrumbs on concrete item lists. */
module BreadcrumbExamples {
  import opened Wrappers
  import opened Suggestions
  import opened Breadcrumb

  function H(text: string, level: int, line: nat, file: Option<FileSuggestion>): HeadingSuggestion
  {
    HeadingSuggestion(text, text, level, line, file)
  }

  /** One file with headings of levels 1, 2, 3, 2, 1 on lines 0, 5, 10, 15, 20. */
  function Outline(): seq<Suggestion>
  {
    [Heading(H("H1", 1, 0, None)), Heading(H("H2", 2, 5, None)), Heading(H("H3", 3, 10, None)),
     Heading(H("H4", 2, 15, None)), Heading(H("H5", 1, 20, None))]
  }

  /** The level-3 heading's breadcrumb is "H1 > H2", the second level-2
      heading's is "H1", and the second level-1 heading has none. */
  lemma OutlineBreadcrumbs()
    ensures ParentHeadingString(Outline(), Outline()[2].h) == "H1 > H2"
    ensures ParentHeadingString(Outline(), Outline()[3].h) == "H1"
    ensures ParentHeadingString(Outline(), Outline()[4].h) == ""
  {
    var items := Outline();
    ParentIndexIs(items, items[2].h, false, 1);
    ParentIndexIs(items, items[1].h, false, 0);
    ParentIndexIs(items, items[0].h, false, -1);
    ParentIndexIs(items, items[3].h, false, 0);
    ParentIndexIs(items, items[4].h, false, -1);
    WalkStep(items, items[2].h, false, "");
    WalkStep(items, items[1].h, false, "H2");
    WalkStep(items, items[3].h, false, "");
  }

  const FileA: FileSuggestion := FileSuggestion("A", "A.md")
  const FileB: FileSuggestion := FileSuggestion("B", "B.md")

  /** Two files: A.md with a level-1 heading on line 0, then B.md with a
      level-2 heading on line 3. */
  function TwoFiles(): seq<Suggestion>
  {
    [File(FileA), Heading(H("A1", 1, 0, Some(FileA))),
     File(FileB), Heading(H("B2", 2, 3, Some(FileB)))]
  }

  /** As written, B.md's heading borrows A.md's heading as its parent,
      because the search compares lines and levels across files; the
      file-scoped search gives just B.md's label. */
  lemma CrossFileParent()
    ensures ParentHeadingString(TwoFiles(), TwoFiles()[3].h) == "A1 > B"
    ensures ParentHeadingStringSameFile(TwoFiles(), TwoFiles()[3].h) == "B"
  {
    var items := TwoFiles();
    ParentIndexIs(items, items[3].h, false, 1);
    ParentIndexIs(items, items[1].h, false, -1);
    ParentIndexIs(items, items[3].h, true, -1);
    WalkStep(items, items[3].h, false, "B");
  }
}
