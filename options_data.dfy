/**
 * The options of `src/options/data.rs`, the older version of the code, in
 * which filters and display options still live in one struct. Its
 * `DisplayType`, `DepthLimit` and `DropDownState` are declared exactly as
 * in the current version and are taken from there; its sort choices and
 * its text filter differ.
 */
module OptionsData {
  import opened Common
  import opened Regexes
  import DropDown
  import StateOptions
  import StateFilters

  /** The three sort choices of the older version. */
  datatype SortingOption = NoSorting | SortAscending | SortDescending
  {
    /** `stringify!($variant)`: an identifier, so it has no space. */
    function Name(): (r: string)
      ensures r != [] && ' ' !in r
    {
      match this
      case NoSorting => "NoSorting"
      case SortAscending => "SortAscending"
      case SortDescending => "SortDescending"
    }

    /** `Display::fmt`: the label, from which the variant's name reads back. */
    function ToString(): (r: string)
      ensures DropDown.Unlabel(r) == Name()
    {
      DropDown.LabelRoundTrip(Name());
      DropDown.Label(Name())
    }
  }

  /** `SortingOption::variants()`, in declaration order. */
  function SortingVariants(): (r: seq<SortingOption>)
    ensures |r| == 3 && r[0] == NoSorting
    ensures forall i, j :: 0 <= i < j < |r| ==> r[i] != r[j]
  {
    [NoSorting, SortAscending, SortDescending]
  }

  /** `variants()` leaves no sort choice out. */
  lemma SortingVariantsComplete(o: SortingOption)
    ensures o in SortingVariants()
  {
    match o
    case NoSorting => assert SortingVariants()[0] == o;
    case SortAscending => assert SortingVariants()[1] == o;
    case SortDescending => assert SortingVariants()[2] == o;
  }

  /** The choice both versions declare is shown the same way in both: "No sorting". */
  lemma NoSortingLabel()
    ensures NoSorting.ToString() == StateOptions.SortingOption.NoSorting.ToString() == "No sorting"
  {
    StateOptions.NoSortingLabel();
  }

  /** No two sort choices share a label. */
  lemma SortingLabelsDistinct(a: SortingOption, b: SortingOption)
    requires a != b
    ensures a.ToString() != b.ToString()
  {
    DropDown.LabelInjective(a.Name(), b.Name());
  }

  /**
   * The text filter of the older version. Its switch is `caseInsensitive`
   * and is handed to the regex builder as it is.
   */
  class FilterInput<R> {
    var input: string
    var regex: RegexState<R>
    var useRegex: bool
    var caseInsensitive: bool

    /** `FilterInput::default()`. */
    constructor ()
      ensures input == [] && regex == None && !useRegex && !caseInsensitive
    {
      input := [];
      regex := None;
      useRegex := false;
      caseInsensitive := false;
    }

    /**
     * `update_regex`. `compile(pattern, caseInsensitive)` stands for
     * `RegexBuilder::new(pattern).case_insensitive(..).build()`. On an
     * unhandled error kind the method panics after `mem::swap` has already
     * emptied the field.
     */
    method UpdateRegex(compile: (string, bool) -> BuildResult<R>) returns (outcome: Outcome)
      modifies this
      ensures input == old(input) && useRegex == old(useRegex) && caseInsensitive == old(caseInsensitive)
      ensures match Update(old(regex), input, useRegex, compile(input, caseInsensitive))
              case Ok(next) => outcome == Done && regex == next
              case Abort(reason) => outcome == Panic(reason) && regex == None
    {
      if input != [] && useRegex {
        match compile(input, caseInsensitive)
        case Built(re) =>
          regex := Some(Compiled(re));
        case BuildFailed(error) =>
          var previous: RegexState<R> := None;
          previous, regex := regex, previous;
          var previousRegex := LastGood(previous);
          var message := ErrorMessage(error);
          if message.Abort? {
            return Panic(message.reason);
          }
          regex := Some(Failed(previousRegex, message.value));
      } else {
        regex := None;
      }
      outcome := Done;
    }
  }

  /** All settings of the older version in one record. */
  datatype Options<R, Theme> = Options(
    filterInput: FilterInput<R>,
    minDepth: StateFilters.DepthLimit,
    maxDepth: StateFilters.DepthLimit,
    showFiles: bool,
    showFolders: bool,
    sorting: DropDown.DropDownState<SortingOption>,
    displayType: DropDown.DropDownState<StateOptions.DisplayType>,
    removeEmpty: bool,
    previewChanges: bool,
    theme: DropDown.DropDownState<Theme>)

  /** `Options::default()`, given `Theme::Light` and `Theme::ALL`. */
  method DefaultOptions<R, Theme>(light: Theme, allThemes: seq<Theme>) returns (o: Options<R, Theme>)
    ensures fresh(o.filterInput)
    ensures o.filterInput.input == [] && o.filterInput.regex == None
    ensures !o.filterInput.useRegex && !o.filterInput.caseInsensitive
    ensures o.minDepth == StateFilters.DefaultDepthLimit() && o.maxDepth == StateFilters.DefaultDepthLimit()
    ensures o.showFiles && o.showFolders
    ensures o.sorting.selected == Some(NoSorting) && o.sorting.options == SortingVariants()
    ensures o.displayType.selected == Some(StateOptions.RelativePath) && o.displayType.options == StateOptions.DisplayVariants()
    ensures !o.removeEmpty && o.previewChanges
    ensures o.theme.selected == Some(light) && o.theme.options == allThemes
  {
    var filterInput := new FilterInput();
    o := Options(
      filterInput,
      StateFilters.DefaultDepthLimit(),
      StateFilters.DefaultDepthLimit(),
      true,
      true,
      DropDown.DropDownState(Some(NoSorting), SortingVariants()),
      DropDown.DropDownState(Some(StateOptions.RelativePath), StateOptions.DisplayVariants()),
      false,
      true,
      DropDown.DropDownState(Some(light), allThemes));
  }
}
