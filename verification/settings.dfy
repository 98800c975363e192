/** The plugin's persisted settings: the folder sort-method enumeration with its
    string identifiers, the default settings record, and the merge that
    `loadSettings` performs between the defaults and whatever the host's
    storage hands back. */
module Settings {
  import opened Wrappers

  /** The six orderings a folder's files may be listed in, in declaration order. */
  datatype FolderSortMethod =
    | ByNameAscending
    | ByNameDescending
    | ByModificationDateDescending
    | ByModificationDateAscending
    | ByCreationDateDescending
    | ByCreationDateAscending

  const AllSortMethods: seq<FolderSortMethod> := [
    ByNameAscending, ByNameDescending,
    ByModificationDateDescending, ByModificationDateAscending,
    ByCreationDateDescending, ByCreationDateAscending
  ]

  /** The enumeration's key name, `FolderSortMethod[m]`, which is what the
      settings record stores. */
  function Identifier(m: FolderSortMethod): string
  {
    match m
    case ByNameAscending => "ByNameAscending"
    case ByNameDescending => "ByNameDescending"
    case ByModificationDateDescending => "ByModificationDateDescending"
    case ByModificationDateAscending => "ByModificationDateAscending"
    case ByCreationDateDescending => "ByCreationDateDescending"
    case ByCreationDateAscending => "ByCreationDateAscending"
  }

  /** The member whose key name is `id`; None for
      a string that names no member. */
  function ParseIdentifier(id: string): (r: Option<FolderSortMethod>)
    ensures r.Some? ==> Identifier(r.value) == id
    ensures r.None? ==> forall m: FolderSortMethod :: Identifier(m) != id
  {
    if id == "ByNameAscending" then Some(ByNameAscending)
    else if id == "ByNameDescending" then Some(ByNameDescending)
    else if id == "ByModificationDateDescending" then Some(ByModificationDateDescending)
    else if id == "ByModificationDateAscending" then Some(ByModificationDateAscending)
    else if id == "ByCreationDateDescending" then Some(ByCreationDateDescending)
    else if id == "ByCreationDateAscending" then Some(ByCreationDateAscending)
    else None
  }

  /** Identifiers are never confused: parsing a stored identifier gives back
      the method it was written from. */
  lemma IdentifierRoundTrip(m: FolderSortMethod)
    ensures ParseIdentifier(Identifier(m)) == Some(m)
  {
  }

  /** `FolderSortMethodIdentifiers`: the enumeration's non-numeric keys, which
      for a numeric TypeScript enum are its member names in declaration order. */
  function SortMethodIdentifiers(): (ids: seq<string>)
    ensures |ids| == |AllSortMethods|
    ensures forall i :: 0 <= i < |ids| ==> ParseIdentifier(ids[i]) == Some(AllSortMethods[i])
  {
    seq(|AllSortMethods|, i requires 0 <= i < |AllSortMethods| => Identifier(AllSortMethods[i]))
  }

  /** A parsed JSON value as the host's `loadData` may return it; numbers are
      reals, and arrays and objects are one `Composite` case. */
  datatype Value = Bool(b: bool) | Str(s: string) | Num(n: real) | Null | Composite

  /** A settings object seen as its own enumerable properties. */
  type Record = map<string, Value>

  const HighlightKey: string := "highlightCurrentHeading"
  const SortOrderKey: string := "fileSortOrder"
  const BoundariesKey: string := "includeDocumentBoundaries"

  /** The typed settings interface `GotoHeadingSettings`. */
  datatype GotoHeadingSettings = GotoHeadingSettings(
    highlightCurrentHeading: bool,
    fileSortOrder: FolderSortMethod,
    includeDocumentBoundaries: bool)

  const Defaults: GotoHeadingSettings := GotoHeadingSettings(true, ByNameAscending, false)

  /** The object a typed settings value is stored as by `saveData`. */
  function Encode(s: GotoHeadingSettings): (r: Record)
    ensures r.Keys == {HighlightKey, SortOrderKey, BoundariesKey}
    ensures r[HighlightKey] == Bool(s.highlightCurrentHeading)
    ensures r[SortOrderKey].Str? && ParseIdentifier(r[SortOrderKey].s) == Some(s.fileSortOrder)
    ensures r[BoundariesKey] == Bool(s.includeDocumentBoundaries)
  {
    IdentifierRoundTrip(s.fileSortOrder);
    map[HighlightKey := Bool(s.highlightCurrentHeading),
        SortOrderKey := Str(Identifier(s.fileSortOrder)),
        BoundariesKey := Bool(s.includeDocumentBoundaries)]
  }

  /** `Object.assign({}, DEFAULT_SETTINGS, loaded)`: every own key of the loaded
      object overrides the default of the same name (whatever its value, `null`
      included), keys it lacks keep their default, keys unknown to the defaults
      are carried along, and an absent object (`null`/`undefined`) leaves the
      defaults untouched. */
  function LoadSettings(loaded: Option<Record>): (r: Record)
    ensures loaded.None? ==> r == Encode(Defaults)
    ensures loaded.Some? ==> r.Keys == Encode(Defaults).Keys + loaded.value.Keys
    ensures loaded.Some? ==> forall k :: k in loaded.value ==> r[k] == loaded.value[k]
    ensures forall k :: k in Encode(Defaults) && (loaded.None? || k !in loaded.value) ==>
              r[k] == Encode(Defaults)[k]
  {
    match loaded
    case None => Encode(Defaults)
    case Some(data) => Encode(Defaults) + data
  }

  /** JavaScript truthiness of a stored value. Parsed JSON holds no NaN, and
      every array or object is truthy, whatever it contains. */
  predicate Truthy(v: Value)
  {
    match v
    case Bool(b) => b
    case Str(s) => s != ""
    case Num(n) => n != 0.0
    case Null => false
    case Composite => true
  }

  /** `settings.highlightCurrentHeading` used as a condition: an absent key
      reads as `undefined`, which is false. */
  predicate HighlightCurrentHeading(r: Record)
  {
    HighlightKey in r && Truthy(r[HighlightKey])
  }

  /** What the highlight test reads after loading: the default (on) when
      nothing or no such key is stored, the stored value's truthiness
      otherwise (so a stored `null` turns it off), and a typed setting
      saved and loaded again comes back unchanged. */
  lemma HighlightAfterLoad(loaded: Option<Record>, s: GotoHeadingSettings)
    ensures HighlightCurrentHeading(LoadSettings(None)) == Defaults.highlightCurrentHeading
    ensures HighlightCurrentHeading(LoadSettings(Some(Encode(s)))) == s.highlightCurrentHeading
    ensures loaded.Some? && HighlightKey !in loaded.value ==>
              HighlightCurrentHeading(LoadSettings(loaded)) == Defaults.highlightCurrentHeading
    ensures loaded.Some? && HighlightKey in loaded.value ==>
              (HighlightCurrentHeading(LoadSettings(loaded)) <==> Truthy(loaded.value[HighlightKey]))
  {
  }

  /** Saving the loaded settings and loading them again changes nothing: a
      merged record already holds every default key. */
  lemma LoadSettingsIdempotent(loaded: Option<Record>)
    ensures LoadSettings(Some(LoadSettings(loaded))) == LoadSettings(loaded)
  {
  }

  /** Round trip through storage: loading what `saveData` wrote for typed
      settings `s` gives back exactly that record. */
  lemma LoadEncodedSettings(s: GotoHeadingSettings)
    ensures LoadSettings(Some(Encode(s))) == Encode(s)
  {
  }
}
