/** The filter settings of `src/state/filters.rs`, the current version of the code. */
module StateFilters {
  import opened Common
  import opened Regexes

  /** A depth bound the user can switch on and off; `limit == None` means no number entered. */
  datatype DepthLimit = DepthLimit(isActive: bool, limit: Option<nat>)

  /** `DepthLimit::default()`. */
  function DefaultDepthLimit(): (d: DepthLimit)
    ensures !d.isActive && d.limit == None
  {
    DepthLimit(false, None)
  }

  /** One filter setting and the per-entry vector kept beside it (never filled in by this code). */
  datatype FilterState<T> = FilterState(state: T, filtered: seq<bool>)

  /** `FilterState::new`. */
  function NewFilterState<T>(initial: T): (f: FilterState<T>)
    ensures f.state == initial && f.filtered == []
  {
    FilterState(initial, [])
  }

  /** The text filter: what the user typed and how to read it. */
  class FilterInput<R> {
    var input: string
    var regex: RegexState<R>
    var useRegex: bool
    var caseSensitive: bool

    /** `FilterInput::default()`. */
    constructor ()
      ensures input == [] && regex == None && !useRegex && !caseSensitive
    {
      input := [];
      regex := None;
      useRegex := false;
      caseSensitive := false;
    }

    /**
     * `update_regex`. `compile(pattern, caseInsensitive)` stands for
     * `RegexBuilder::new(pattern).case_insensitive(..).build()`; the build is
     * requested case-insensitive exactly when the filter is not case-sensitive.
     * On an unhandled error kind the method panics after `mem::swap` has
     * already emptied the field.
     */
    method UpdateRegex(compile: (string, bool) -> BuildResult<R>) returns (outcome: Outcome)
      modifies this
      ensures input == old(input) && useRegex == old(useRegex) && caseSensitive == old(caseSensitive)
      ensures match Update(old(regex), input, useRegex, compile(input, !caseSensitive))
              case Ok(next) => outcome == Done && regex == next
              case Abort(reason) => outcome == Panic(reason) && regex == None
    {
      if input != [] && useRegex {
        match compile(input, !caseSensitive)
        case Built(re) =>
          regex := Some(Compiled(re));
        case BuildFailed(error) =>
          var previous: RegexState<R> := None;
          previous, regex := regex, previous;
          var previousRegex := LastGood(previous);
          var message := ErrorMessage(error);
          if message.Abort? {
            return Panic(message.reason);
          }
          regex := Some(Failed(previousRegex, message.value));
      } else {
        regex := None;
      }
      outcome := Done;
    }
  }

  /** The five filters. */
  datatype FilterOptions<R> = FilterOptions(
    filterInput: FilterState<FilterInput<R>>,
    minDepth: FilterState<DepthLimit>,
    maxDepth: FilterState<DepthLimit>,
    showFiles: FilterState<bool>,
    showFolders: FilterState<bool>)

  /** `FilterOptions::default()`: everything shown, no text, no regex, both bounds off. */
  method DefaultFilterOptions<R>() returns (f: FilterOptions<R>)
    ensures fresh(f.filterInput.state)
    ensures f.filterInput.state.input == [] && f.filterInput.state.regex == None
    ensures !f.filterInput.state.useRegex && !f.filterInput.state.caseSensitive
    ensures f.minDepth.state == DefaultDepthLimit() && f.maxDepth.state == DefaultDepthLimit()
    ensures f.showFiles.state && f.showFolders.state
    ensures f.filterInput.filtered == [] && f.minDepth.filtered == [] && f.maxDepth.filtered == []
    ensures f.showFiles.filtered == [] && f.showFolders.filtered == []
  {
    var input := new FilterInput();
    f := FilterOptions(
      NewFilterState(input),
      NewFilterState(DefaultDepthLimit()),
      NewFilterState(DefaultDepthLimit()),
      NewFilterState(true),
      NewFilterState(true));
  }
}
