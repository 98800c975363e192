/** The items a heading switcher lists: a tagged union of file entries and
    heading entries. The TypeScript `type` tag becomes the constructor. */
module Suggestions {
  import opened Wrappers

  /** A file entry: its display text and its vault path. */
  datatype FileSuggestion = FileSuggestion(text: string, path: string)

  /** A heading entry: display text, heading text, level, the line the heading
      starts on, and the file it belongs to when the list spans several files. */
  datatype HeadingSuggestion = HeadingSuggestion(
    text: string,
    heading: string,
    level: int,
    line: nat,
    file: Option<FileSuggestion>)

  datatype Suggestion =
    | File(f: FileSuggestion)
    | Heading(h: HeadingSuggestion)
}
