/**
 * The editor of `src/state/editor.rs`, the current version of the code:
 * which scanned entries are shown, how each is written, and the text the
 * editor ends up holding.
 */
module StateEditor {
  import opened Common
  import opened Strings
  import opened Sorting
  import opened Fs
  import opened Regexes
  import opened StateFilters
  import StateOptions
  import opened FilterMaps

  /**
   * The three cases the sort `match` of `show_filtered_entries` tells apart.
   * That `match` names `SortingOption::SortAscending` and
   * `SortingOption::SortDescending`, which `src/state/options.rs` does not
   * declare, so the mode is an input here rather than read off the options.
   */
  datatype SortMode = Unsorted | SortBy(direction: Direction)

  /** `lines` is what `kept` becomes under the mode: itself, or an admissible sort of it. */
  predicate Arranged(kept: seq<string>, lines: seq<string>, mode: SortMode)
    ensures Arranged(kept, lines, mode) ==> multiset(lines) == multiset(kept)
  {
    match mode
    case Unsorted => lines == kept
    case SortBy(d) => SortedPermutation(kept, lines, d)
  }

  /** `entry_is_visible`: the kind toggles first, then the minimum and the maximum depth. */
  function EntryIsVisible<R>(entry: FileSystemEntry, filters: FilterOptions<R>): (r: bool)
    ensures r <==>
      (entry.entryType == File ==> filters.showFiles.state) &&
      (entry.entryType == Folder ==> filters.showFolders.state) &&
      (filters.minDepth.state.isActive && filters.minDepth.state.limit.Some? ==>
         entry.depth >= filters.minDepth.state.limit.value) &&
      (filters.maxDepth.state.isActive && filters.maxDepth.state.limit.Some? ==>
         entry.depth <= filters.maxDepth.state.limit.value)
  {
    if (entry.entryType.File? && !filters.showFiles.state) ||
       (entry.entryType.Folder? && !filters.showFolders.state)
    then false
    else if filters.minDepth.state.isActive &&
            (match filters.minDepth.state.limit
             case Some(l) => entry.depth < l
             case None => false)
    then false
    else if filters.maxDepth.state.isActive &&
            (match filters.maxDepth.state.limit
             case Some(l) => entry.depth > l
             case None => false)
    then false
    else true
  }

  /**
   * `format_entry`. The absolute form panics unless a folder is open; the
   * last piece of a `split('/')` always exists, so the name form never does.
   */
  function FormatEntry(openFolder: Option<string>, entry: FileSystemEntry, displayType: StateOptions.DisplayType): (r: Result<string>)
    ensures displayType.RelativePath? ==> r == Ok(entry.path)
    ensures displayType.AbsolutePath? ==>
      (r.Ok? <==> openFolder.Some?) && (r.Ok? ==> r.value == openFolder.value + entry.path)
    ensures displayType.JustName? ==>
      r.Ok? && '/' !in r.value && |r.value| <= |entry.path| && entry.path[|entry.path| - |r.value|..] == r.value &&
      (|r.value| < |entry.path| ==> entry.path[|entry.path| - |r.value| - 1] == '/')
  {
    match displayType
    case AbsolutePath =>
      if openFolder.Some? then Ok(openFolder.value + entry.path)
      else Abort("Folder must be set for this function to be called")
    case RelativePath => Ok(entry.path)
    case JustName => Ok(LastSegment(entry.path))
  }

  /** The name form of a nested path is the name form of its part after any `'/'`. */
  lemma JustNameOfNested(openFolder: Option<string>, entry: FileSystemEntry, dir: string, rest: string)
    requires entry.path == dir + "/" + rest
    ensures FormatEntry(openFolder, entry, StateOptions.JustName) == Ok(LastSegment(rest))
  {
    LastSegmentAfterSeparator(dir, rest);
  }

  /**
   * What the text test reads from the filter input: the typed text, the
   * case switch, and the regex in force (lines 18-22 of the source pick the
   * compiled regex, or else the one carried through a compile error).
   */
  datatype TextQuery<R> = TextQuery(input: string, caseSensitive: bool, active: Option<R>)

  function QueryOf<R>(fi: FilterInput<R>): (q: TextQuery<R>)
    reads fi
    ensures q.input == fi.input && q.caseSensitive == fi.caseSensitive
    ensures fi.regex == None ==> q.active == None
    ensures fi.regex.Some? && fi.regex.value.Compiled? ==> q.active == Some(fi.regex.value.re)
    ensures fi.regex.Some? && fi.regex.value.Failed? ==> q.active == fi.regex.value.previous
  {
    TextQuery(fi.input, fi.caseSensitive, LastGood(fi.regex))
  }

  /**
   * The text test on the displayed form of an entry: the regex in force
   * decides alone when there is one; otherwise the typed text must occur in
   * the display, compared as it is or with both sides folded to lower case.
   * `isMatch` stands for `Regex::is_match`.
   */
  function TextAdmits<R>(display: string, q: TextQuery<R>, isMatch: (R, string) -> bool): (r: bool)
    ensures q.active.Some? ==> (r <==> isMatch(q.active.value, display))
    ensures q.active.None? && q.caseSensitive ==>
      (r <==> exists i :: 0 <= i <= |display| && q.input <= display[i..])
    ensures q.active.None? && !q.caseSensitive ==>
      (r <==> exists i :: 0 <= i <= |display| && AsciiLowercase(q.input) <= AsciiLowercase(display)[i..])
  {
    match q.active
    case Some(re) => isMatch(re, display)
    case None =>
      if q.caseSensitive then Contains(display, q.input)
      else Contains(AsciiLowercase(display), AsciiLowercase(q.input))
  }

  /** With no regex in force, an empty filter text admits every display. */
  lemma EmptyInputAdmitsAll<R>(display: string, q: TextQuery<R>, isMatch: (R, string) -> bool)
    requires q.active.None? && q.input == []
    ensures TextAdmits(display, q, isMatch)
  {
    ContainsEmpty(display);
    ContainsEmpty(AsciiLowercase(display));
  }

  lemma LowercasePrefix(t: string, s: string)
    requires t <= s
    ensures AsciiLowercase(t) <= AsciiLowercase(s)
  {
  }

  lemma LowercaseSuffix(s: string, i: nat)
    requires i <= |s|
    ensures AsciiLowercase(s)[i..] == AsciiLowercase(s[i..])
  {
  }

  /** Switching case sensitivity off never hides an entry the text test admitted before. */
  lemma CaseInsensitiveAdmitsMore<R>(display: string, input: string, isMatch: (R, string) -> bool)
    requires TextAdmits(display, TextQuery(input, true, None), isMatch)
    ensures TextAdmits(display, TextQuery(input, false, None), isMatch)
  {
    var i :| 0 <= i <= |display| && input <= display[i..];
    LowercasePrefix(input, display[i..]);
    LowercaseSuffix(display, i);
  }

  /** Everything `show_filtered_entries` decides per entry. */
  datatype Pipeline<!R> = Pipeline(
    openFolder: Option<string>,
    displayType: StateOptions.DisplayType,
    filters: FilterOptions<R>,
    query: TextQuery<R>,
    isMatch: (R, string) -> bool)

  /** The `filter_map` step for one entry: its line, no line, or the panic of `format_entry`. */
  function Keep<R>(p: Pipeline<R>, entry: FileSystemEntry): (r: Result<Option<string>>)
    ensures !EntryIsVisible(entry, p.filters) ==> r == Ok(None)
    ensures r.Abort? <==>
      EntryIsVisible(entry, p.filters) && p.displayType.AbsolutePath? && p.openFolder.None?
    ensures r.Ok? && r.value.Some? <==>
      EntryIsVisible(entry, p.filters) && FormatEntry(p.openFolder, entry, p.displayType).Ok? &&
      TextAdmits(FormatEntry(p.openFolder, entry, p.displayType).value, p.query, p.isMatch)
    ensures r.Ok? && r.value.Some? ==> Ok(r.value.value) == FormatEntry(p.openFolder, entry, p.displayType)
  {
    if !EntryIsVisible(entry, p.filters) then Ok(None)
    else
      match FormatEntry(p.openFolder, entry, p.displayType)
      case Abort(reason) => Abort(reason)
      case Ok(display) =>
        if TextAdmits(display, p.query, p.isMatch) then Ok(Some(display)) else Ok(None)
  }

  /** The step of `Keep` as a value, the argument `filter_map` applies to each entry. */
  function KeepStep<R>(p: Pipeline<R>): (step: FileSystemEntry -> Result<Option<string>>)
    ensures forall entry :: step(entry) == Keep(p, entry)
  {
    entry => Keep(p, entry)
  }

  /**
   * `entries.iter().filter_map(..).collect()` of `show_filtered_entries`:
   * the shown lines in scan order, or the panic of the first entry whose
   * formatting fails.
   */
  method CollectKept<R>(p: Pipeline<R>, entries: seq<FileSystemEntry>) returns (r: Result<seq<string>>)
    ensures r == FilterMap(KeepStep(p), entries)
  {
    var step := KeepStep(p);
    var content: seq<string> := [];
    var k := 0;
    while k < |entries|
      invariant 0 <= k <= |entries|
      invariant FilterMap(step, entries[..k]) == Ok(content)
    {
      var entry := entries[k];
      assert step(entry) == Keep(p, entry);
      FilterMapStep(step, entries, k, content);
      if EntryIsVisible(entry, p.filters) {
        var display := FormatEntry(p.openFolder, entry, p.displayType);
        if display.Abort? {
          assert step(entry) == Abort(display.reason);
          FilterMapStopped(step, entries, k + 1);
          return Abort(display.reason);
        }
        if TextAdmits(display.value, p.query, p.isMatch) {
          assert step(entry) == Ok(Some(display.value));
          content := content + [display.value];
        } else {
          assert step(entry) == Ok(None);
        }
      } else {
        assert step(entry) == Ok(None);
      }
      k := k + 1;
    }
    assert entries[..k] == entries;
    r := Ok(content);
  }

  /** The editor: the opened folder, its scanned entries and the text shown. */
  class EditorState {
    var openFolder: Option<string>
    var entries: seq<FileSystemEntry>
    var contents: string

    /** `EditorState::default()`. */
    constructor ()
      ensures openFolder == None && entries == [] && contents == []
    {
      openFolder := None;
      entries := [];
      contents := [];
    }

    /**
     * `show_filtered_entries`: collect the lines of the shown entries in
     * scan order, arrange them as the sort mode says and put them, one per
     * line, into the editor. A panic of `format_entry` stops the method
     * before `contents` is assigned. `isMatch` stands for `Regex::is_match`.
     */
    method ShowFilteredEntries<R, Theme>(options: StateOptions.Options<Theme>, sortMode: SortMode,
                                         filters: FilterOptions<R>, isMatch: (R, string) -> bool)
      returns (outcome: Outcome)
      modifies this
      ensures openFolder == old(openFolder) && entries == old(entries)
      ensures var p := Pipeline(openFolder, UnwrapOr(options.displayType.selected, StateOptions.RelativePath),
                                filters, QueryOf(filters.filterInput.state), isMatch);
              match FilterMap(KeepStep(p), entries)
              case Abort(reason) => outcome == Panic(reason) && contents == old(contents)
              case Ok(kept) => outcome == Done && exists lines :: Arranged(kept, lines, sortMode) && contents == JoinLines(lines)
    {
      var fi := filters.filterInput.state;
      var displayType := UnwrapOr(options.displayType.selected, StateOptions.RelativePath);
      var p := Pipeline(openFolder, displayType, filters, TextQuery(fi.input, fi.caseSensitive, LastGood(fi.regex)), isMatch);
      var collected := CollectKept(p, entries);
      if collected.Abort? {
        return Panic(collected.reason);
      }
      var content := collected.value;
      var lines := content;
      if sortMode.SortBy? {
        lines := SortLines(content, sortMode.direction);
      }
      assert Arranged(content, lines, sortMode);
      contents := JoinLines(lines);
      outcome := Done;
    }
  }

  /**
   * With the absolute form chosen and no folder open, any visible entry
   * makes `show_filtered_entries` panic.
   */
  lemma AbsoluteWithoutFolderPanics<R>(p: Pipeline<R>, entries: seq<FileSystemEntry>, k: nat)
    requires p.displayType.AbsolutePath? && p.openFolder.None?
    requires k < |entries| && EntryIsVisible(entries[k], p.filters)
    ensures FilterMap(KeepStep(p), entries).Abort?
  {
    FilterMapAborts(KeepStep(p), entries);
    assert KeepStep(p)(entries[k]).Abort?;
  }

  /**
   * Showing every entry's relative path with no text to match, the lines
   * collected are the entries' paths, all of them and in scan order.
   */
  lemma RelativeUnfilteredKeepsAll<R>(p: Pipeline<R>, entries: seq<FileSystemEntry>)
    requires p.displayType.RelativePath? && p.query.active.None? && p.query.input == []
    requires forall k :: 0 <= k < |entries| ==> EntryIsVisible(entries[k], p.filters)
    ensures FilterMap(KeepStep(p), entries) == Ok(seq(|entries|, k requires 0 <= k < |entries| => entries[k].path))
  {
    var paths := seq(|entries|, k requires 0 <= k < |entries| => entries[k].path);
    forall k | 0 <= k < |entries|
      ensures KeepStep(p)(entries[k]) == Ok(Some(paths[k]))
    {
      EmptyInputAdmitsAll(entries[k].path, p.query, p.isMatch);
    }
    FilterMapKeepsAll(KeepStep(p), entries, paths);
  }

  /** Of two lines with different keys, the only ascending arrangement puts the smaller key first. */
  lemma TwoLinesAscending(x: string, y: string, lines: seq<string>)
    requires Key(x) != Key(y) && LexLeq(Key(y), Key(x))
    requires SortedPermutation([x, y], lines, Ascending)
    ensures lines == [y, x]
  {
    var kept := [x, y];
    assert DistinctKeys(kept);
    assert multiset([y, x]) == multiset(kept);
    assert IsSorted([y, x], Ascending);
    SortedPermutationUnique(kept, lines, [y, x], Ascending);
  }

  /** The only ascending arrangement of `/a/c.txt, /a/b.txt`. */
  lemma TwoPathsAscending(lines: seq<string>)
    requires SortedPermutation(["/a/c.txt", "/a/b.txt"], lines, Ascending)
    ensures lines == ["/a/b.txt", "/a/c.txt"]
  {
    LowercaseOfLower("/a/c.txt");
    LowercaseOfLower("/a/b.txt");
    assert LexLeq("/a/b.txt", "/a/c.txt");
    TwoLinesAscending("/a/c.txt", "/a/b.txt", lines);
  }

  lemma TwoPathsJoined()
    ensures JoinLines(["/a/b.txt", "/a/c.txt"]) == "/a/b.txt\n/a/c.txt"
  {
    assert ["/a/b.txt", "/a/c.txt"][1..] == ["/a/c.txt"];
  }

  /**
   * Two files listed out of order, all filters at their defaults and the
   * ascending mode: the editor shows them sorted, one per line.
   */
  method AscendingScenario() returns (outcome: Outcome, text: string)
    ensures outcome == Done && text == "/a/b.txt\n/a/c.txt"
  {
    var editor := new EditorState();
    var c := FileSystemEntry("/a/c.txt", "/a/c.txt", 2, File);
    var b := FileSystemEntry("/a/b.txt", "/a/b.txt", 2, File);
    editor.entries := [c, b];
    var filters := DefaultFilterOptions<int>();
    var options := StateOptions.DefaultOptions(0, [0]);
    var isMatch := (re: int, s: string) => false;
    outcome := editor.ShowFilteredEntries(options, SortBy(Ascending), filters, isMatch);
    text := editor.contents;
    var p := Pipeline(None, StateOptions.RelativePath, filters, QueryOf(filters.filterInput.state), isMatch);
    RelativeUnfilteredKeepsAll(p, [c, b]);
    assert [c, b][0].path == c.path && [c, b][1].path == b.path;
    assert seq(|[c, b]|, k requires 0 <= k < |[c, b]| => [c, b][k].path) == [c.path, b.path];
    assert FilterMap(KeepStep(p), [c, b]) == Ok([c.path, b.path]);
    assert editor.entries == [c, b] && editor.openFolder == None;
    assert UnwrapOr(options.displayType.selected, StateOptions.RelativePath) == StateOptions.RelativePath;
    var lines :| SortedPermutation([c.path, b.path], lines, Ascending) && text == JoinLines(lines);
    TwoPathsAscending(lines);
    TwoPathsJoined();
  }
}
