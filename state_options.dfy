/** The display options of `src/state/options.rs`, the current version of the code. */
module StateOptions {
  import opened Common
  import DropDown

  /** The five sort choices the current code declares. */
  datatype SortingOption =
    | NoSorting
    | SortAscendingCaseInsensitive
    | SortAscendingCaseSensitive
    | SortDescendingCaseInsensitive
    | SortDescendingCaseSensitive
  {
    /** `stringify!($variant)`: an identifier, so it has no space. */
    function Name(): (r: string)
      ensures r != [] && ' ' !in r
    {
      match this
      case NoSorting => "NoSorting"
      case SortAscendingCaseInsensitive => "SortAscendingCaseInsensitive"
      case SortAscendingCaseSensitive => "SortAscendingCaseSensitive"
      case SortDescendingCaseInsensitive => "SortDescendingCaseInsensitive"
      case SortDescendingCaseSensitive => "SortDescendingCaseSensitive"
    }

    /** `Display::fmt`: the label, from which the variant's name reads back. */
    function ToString(): (r: string)
      ensures DropDown.Unlabel(r) == Name()
    {
      DropDown.LabelRoundTrip(Name());
      DropDown.Label(Name())
    }
  }

  /** How a path is shown in the editor. */
  datatype DisplayType = AbsolutePath | RelativePath | JustName
  {
    /** `stringify!($variant)`: an identifier, so it has no space. */
    function Name(): (r: string)
      ensures r != [] && ' ' !in r
    {
      match this
      case AbsolutePath => "AbsolutePath"
      case RelativePath => "RelativePath"
      case JustName => "JustName"
    }

    /** `Display::fmt`: the label, from which the variant's name reads back. */
    function ToString(): (r: string)
      ensures DropDown.Unlabel(r) == Name()
    {
      DropDown.LabelRoundTrip(Name());
      DropDown.Label(Name())
    }
  }

  /** `SortingOption::variants()`, in declaration order. */
  function SortingVariants(): (r: seq<SortingOption>)
    ensures |r| == 5 && r[0] == NoSorting
    ensures forall i, j :: 0 <= i < j < |r| ==> r[i] != r[j]
  {
    [NoSorting, SortAscendingCaseInsensitive, SortAscendingCaseSensitive,
     SortDescendingCaseInsensitive, SortDescendingCaseSensitive]
  }

  /** `variants()` leaves no sort choice out. */
  lemma SortingVariantsComplete(o: SortingOption)
    ensures o in SortingVariants()
  {
    match o
    case NoSorting => assert SortingVariants()[0] == o;
    case SortAscendingCaseInsensitive => assert SortingVariants()[1] == o;
    case SortAscendingCaseSensitive => assert SortingVariants()[2] == o;
    case SortDescendingCaseInsensitive => assert SortingVariants()[3] == o;
    case SortDescendingCaseSensitive => assert SortingVariants()[4] == o;
  }

  /** `DisplayType::variants()`, in declaration order. */
  function DisplayVariants(): (r: seq<DisplayType>)
    ensures |r| == 3
    ensures forall i, j :: 0 <= i < j < |r| ==> r[i] != r[j]
  {
    [AbsolutePath, RelativePath, JustName]
  }

  /** `variants()` leaves no display type out. */
  lemma DisplayVariantsComplete(d: DisplayType)
    ensures d in DisplayVariants()
  {
    match d
    case AbsolutePath => assert DisplayVariants()[0] == d;
    case RelativePath => assert DisplayVariants()[1] == d;
    case JustName => assert DisplayVariants()[2] == d;
  }

  /** The label the `drop_down_enum!` macro derives from `NoSorting`. */
  lemma NoSortingText()
    ensures DropDown.Label("NoSorting") == "No sorting"
  {
  }

  /** The default sort choice reads "No sorting". */
  lemma NoSortingLabel()
    ensures NoSorting.ToString() == "No sorting"
  {
    NoSortingText();
  }

  /** The label the `drop_down_enum!` macro derives from `JustName`. */
  lemma JustNameText()
    ensures DropDown.Label("JustName") == "Just name"
  {
  }

  /** A display type's label: "Just name". */
  lemma JustNameLabel()
    ensures JustName.ToString() == "Just name"
  {
    JustNameText();
  }

  /** The five sort choice names have five different lengths, so no two are equal. */
  lemma SortingNamesDistinct(a: SortingOption, b: SortingOption)
    requires a != b
    ensures |a.Name()| != |b.Name()|
  {
  }

  /** No two sort choices share a label, so the drop-down's text identifies its choice. */
  lemma SortingLabelsDistinct(a: SortingOption, b: SortingOption)
    requires a != b
    ensures a.ToString() != b.ToString()
  {
    SortingNamesDistinct(a, b);
  }

  /** No two display types share a label. */
  lemma DisplayLabelsDistinct(a: DisplayType, b: DisplayType)
    requires a != b
    ensures a.ToString() != b.ToString()
  {
    DropDown.LabelInjective(a.Name(), b.Name());
  }

  /**
   * The display options. The theme is a value of the foreign `iced::Theme`
   * type, so it is a type parameter here.
   */
  datatype Options<Theme> = Options(
    sorting: DropDown.DropDownState<SortingOption>,
    displayType: DropDown.DropDownState<DisplayType>,
    removeEmpty: bool,
    previewChanges: bool,
    theme: DropDown.DropDownState<Theme>)

  /** `Options::default()`, given `Theme::Light` and `Theme::ALL`. */
  function DefaultOptions<Theme>(light: Theme, allThemes: seq<Theme>): (o: Options<Theme>)
    ensures o.sorting.selected == Some(NoSorting) && o.sorting.options == SortingVariants()
    ensures o.displayType.selected == Some(RelativePath) && o.displayType.options == DisplayVariants()
    ensures !o.removeEmpty && o.previewChanges
    ensures o.theme.selected == Some(light) && o.theme.options == allThemes
  {
    Options(
      DropDown.DropDownState(Some(NoSorting), SortingVariants()),
      DropDown.DropDownState(Some(RelativePath), DisplayVariants()),
      false,
      true,
      DropDown.DropDownState(Some(light), allThemes))
  }
}
