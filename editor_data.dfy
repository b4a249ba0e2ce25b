/**
 * The editor of `src/editor/data.rs`, the older version of the code: no
 * text filter, a relative path made by stripping the opened folder, and an
 * output that is always sorted.
 */
module EditorData {
  import opened Common
  import opened Strings
  import opened Sorting
  import opened Fs
  import opened FilterMaps
  import StateOptions
  import StateFilters
  import StateEditor
  import opened OptionsData

  /** `entry_is_visible` of the older version, over the one options record. */
  function EntryIsVisible<R, Theme>(entry: FileSystemEntry, options: Options<R, Theme>): (r: bool)
    ensures r <==>
      (entry.entryType == File ==> options.showFiles) &&
      (entry.entryType == Folder ==> options.showFolders) &&
      (options.minDepth.isActive && options.minDepth.limit.Some? ==> entry.depth >= options.minDepth.limit.value) &&
      (options.maxDepth.isActive && options.maxDepth.limit.Some? ==> entry.depth <= options.maxDepth.limit.value)
  {
    if (entry.entryType.File? && !options.showFiles) ||
       (entry.entryType.Folder? && !options.showFolders)
    then false
    else if options.minDepth.isActive &&
            (match options.minDepth.limit
             case Some(l) => entry.depth < l
             case None => false)
    then false
    else if options.maxDepth.isActive &&
            (match options.maxDepth.limit
             case Some(l) => entry.depth > l
             case None => false)
    then false
    else true
  }

  /** The older options record and the current filters hold the same kind and depth settings. */
  predicate SameVisibilitySettings<R, Theme>(options: Options<R, Theme>, filters: StateFilters.FilterOptions<R>)
  {
    options.showFiles == filters.showFiles.state && options.showFolders == filters.showFolders.state &&
    options.minDepth == filters.minDepth.state && options.maxDepth == filters.maxDepth.state
  }

  /** Both versions hide and show the same entries under the same kind and depth settings. */
  lemma VisibilityAgrees<R, Theme>(entry: FileSystemEntry, options: Options<R, Theme>, filters: StateFilters.FilterOptions<R>)
    requires SameVisibilitySettings(options, filters)
    ensures EntryIsVisible(entry, options) == StateEditor.EntryIsVisible(entry, filters)
  {
  }

  /**
   * `format_entry` of the older version. The absolute form is the stored
   * path. The relative form strips the opened folder as a string prefix and
   * then one more character, whatever it is (for folder `/r`, the path
   * `/rx/y` gives `/y`); it panics when no folder is open, when the path
   * does not start with the folder, and when nothing is left to slice off.
   * The name form is the last piece of `split('/')`.
   */
  function FormatEntry(openFolder: Option<string>, entry: FileSystemEntry, displayType: StateOptions.DisplayType): (r: Result<string>)
    ensures displayType.AbsolutePath? ==> r == Ok(entry.path)
    ensures displayType.RelativePath? ==>
      (r.Ok? <==> openFolder.Some? && |openFolder.value| < |entry.path| && openFolder.value <= entry.path)
    ensures displayType.RelativePath? && r.Ok? ==>
      entry.path == openFolder.value + [entry.path[|openFolder.value|]] + r.value
    ensures displayType.JustName? ==> r.Ok? && r.value == LastSegment(entry.path)
  {
    match displayType
    case AbsolutePath => Ok(entry.path)
    case RelativePath =>
      if openFolder.None? then Abort("Folder must be set for this function to be called")
      else
        (match StripPrefix(entry.path, openFolder.value)
         case None => Abort("All available entries must start with the root")
         case Some(rest) =>
           if |rest| < 1 then Abort("byte index 1 is out of range")
           else Ok(rest[1..]))
    case JustName => Ok(LastSegment(entry.path))
  }

  /**
   * The relative form of `root`, any one character `c` and `rel` is `rel`:
   * with `c == '/'` this is a path below the folder, with another `c` a path
   * in a sibling folder whose name begins with the folder's.
   */
  lemma RelativeOfJoined(root: string, c: char, rel: string, entry: FileSystemEntry)
    requires entry.path == root + [c] + rel
    ensures FormatEntry(Some(root), entry, StateOptions.RelativePath) == Ok(rel)
  {
    assert root <= entry.path;
    assert entry.path[|root|..][1..] == rel;
  }

  /** A path that does not start with the opened folder makes the relative form panic. */
  lemma RelativeOutsideRootPanics(root: string, entry: FileSystemEntry)
    requires !(root <= entry.path)
    ensures FormatEntry(Some(root), entry, StateOptions.RelativePath).Abort?
  {
  }

  /**
   * For a path below the opened folder, the name form is the same whether
   * it is taken from the stored path or from the relative form, and the
   * current version's relative form is the older version's absolute one.
   */
  lemma FormsAgree(root: string, rel: string, entry: FileSystemEntry)
    requires entry.path == root + "/" + rel
    ensures FormatEntry(Some(root), entry, StateOptions.JustName) == Ok(LastSegment(rel))
    ensures StateEditor.FormatEntry(Some(root), entry, StateOptions.RelativePath) ==
            FormatEntry(Some(root), entry, StateOptions.AbsolutePath)
  {
    LastSegmentAfterSeparator(root, rel);
  }

  /** The `filter_map` step of the older version: only visibility, no text test. */
  function Keep<R, Theme>(openFolder: Option<string>, options: Options<R, Theme>, entry: FileSystemEntry): (r: Result<Option<string>>)
    ensures !EntryIsVisible(entry, options) ==> r == Ok(None)
    ensures EntryIsVisible(entry, options) ==>
      var display := FormatEntry(openFolder, entry, UnwrapOr(options.displayType.selected, StateOptions.RelativePath));
      (r.Abort? <==> display.Abort?) && (r.Ok? ==> r.value == Some(display.value))
  {
    if !EntryIsVisible(entry, options) then Ok(None)
    else
      match FormatEntry(openFolder, entry, UnwrapOr(options.displayType.selected, StateOptions.RelativePath))
      case Abort(reason) => Abort(reason)
      case Ok(display) => Ok(Some(display))
  }

  /** The step of `Keep` as a value, the argument `filter_map` applies to each entry. */
  function KeepStep<R, Theme>(openFolder: Option<string>, options: Options<R, Theme>): (step: FileSystemEntry -> Result<Option<string>>)
    ensures forall entry :: step(entry) == Keep(openFolder, options, entry)
  {
    entry => Keep(openFolder, options, entry)
  }

  /**
   * The comparator's direction. The older code matches
   * `SortingOption::Descending`, which `src/options/data.rs` does not
   * declare; it is read as `SortDescending`. Any other choice, and no
   * choice, sorts ascending.
   */
  function SortDirection(selected: Option<SortingOption>): (d: Direction)
    ensures d == Descending <==> selected == Some(SortDescending)
  {
    if selected == Some(SortDescending) then Descending else Ascending
  }

  /** Without a text test, an entry yields a line exactly when it is visible and formats. */
  lemma {:induction false} VisibleEntriesShown<R, Theme>(openFolder: Option<string>, options: Options<R, Theme>, entries: seq<FileSystemEntry>)
    requires FilterMap(KeepStep(openFolder, options), entries).Ok?
    ensures forall x :: x in FilterMap(KeepStep(openFolder, options), entries).value <==>
      exists k :: 0 <= k < |entries| && EntryIsVisible(entries[k], options) &&
        FormatEntry(openFolder, entries[k], UnwrapOr(options.displayType.selected, StateOptions.RelativePath)) == Ok(x)
  {
    FilterMapMembers(KeepStep(openFolder, options), entries);
    var dt := UnwrapOr(options.displayType.selected, StateOptions.RelativePath);
    forall x
      ensures x in FilterMap(KeepStep(openFolder, options), entries).value <==>
        exists k :: 0 <= k < |entries| && EntryIsVisible(entries[k], options) &&
          FormatEntry(openFolder, entries[k], dt) == Ok(x)
    {
      if exists k :: 0 <= k < |entries| && EntryIsVisible(entries[k], options) && FormatEntry(openFolder, entries[k], dt) == Ok(x) {
        var k :| 0 <= k < |entries| && EntryIsVisible(entries[k], options) && FormatEntry(openFolder, entries[k], dt) == Ok(x);
        assert KeepStep(openFolder, options)(entries[k]) == Ok(Some(x));
      }
    }
  }

  /** The editor of the older version. */
  class EditorState {
    var openFolder: Option<string>
    var entries: seq<FileSystemEntry>
    var contents: string

    /** `EditorState::default()`. */
    constructor ()
      ensures openFolder == None && entries == [] && contents == []
    {
      openFolder := None;
      entries := [];
      contents := [];
    }

    /**
     * `show_filtered_entries` of the older version: collect the lines of the
     * visible entries, sort them, and put them one per line into the editor.
     * A panic of `format_entry` stops the method before `contents` is assigned.
     */
    method ShowFilteredEntries<R, Theme>(options: Options<R, Theme>) returns (outcome: Outcome)
      modifies this
      ensures openFolder == old(openFolder) && entries == old(entries)
      ensures match FilterMap(KeepStep(openFolder, options), entries)
              case Abort(reason) => outcome == Panic(reason) && contents == old(contents)
              case Ok(kept) =>
                (outcome == Done &&
                 exists lines :: SortedPermutation(kept, lines, SortDirection(options.sorting.selected)) &&
                   contents == JoinLines(lines))
    {
      var displayType := UnwrapOr(options.displayType.selected, StateOptions.RelativePath);
      var content: seq<string> := [];
      var k := 0;
      while k < |entries|
        invariant 0 <= k <= |entries|
        invariant unchanged(this)
        invariant FilterMap(KeepStep(openFolder, options), entries[..k]) == Ok(content)
      {
        var entry := entries[k];
        FilterMapStep(KeepStep(openFolder, options), entries, k, content);
        if EntryIsVisible(entry, options) {
          var display := FormatEntry(openFolder, entry, displayType);
          if display.Abort? {
            assert KeepStep(openFolder, options)(entry) == Abort(display.reason);
            FilterMapStopped(KeepStep(openFolder, options), entries, k + 1);
            return Panic(display.reason);
          }
          content := content + [display.value];
        }
        k := k + 1;
      }
      assert entries[..k] == entries;
      var lines := SortLines(content, SortDirection(options.sorting.selected));
      contents := JoinLines(lines);
      outcome := Done;
    }
  }
}
