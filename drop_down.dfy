/**
 * What the `drop_down_enum!` macro generates in both option files, and the
 * drop-down state that holds such an enum: the display label of a variant
 * is its identifier with every later capital turned into a space and the
 * lower-case letter (`NoSorting` is shown as "No sorting").
 */
module DropDown {
  import opened Common
  import opened Strings

  /** A drop-down: the selected entry, if any, and the entries offered. */
  datatype DropDownState<T> = DropDownState(selected: Option<T>, options: seq<T>)

  /** The number of ASCII capitals in `s`. */
  function CountUpper(s: string): nat
  {
    if s == [] then 0 else (if IsAsciiUpper(s[0]) then 1 else 0) + CountUpper(s[1..])
  }

  /** The `flat_map` step for characters at index `i > 0`: a capital becomes `' '` and its lower case. */
  function SpaceWords(t: string): (r: string)
    ensures |r| == |t| + CountUpper(t)
    ensures forall k :: 0 <= k < |r| ==> !IsAsciiUpper(r[k])
  {
    if t == [] then []
    else (if IsAsciiUpper(t[0]) then [' ', ToAsciiLower(t[0])] else [t[0]]) + SpaceWords(t[1..])
  }

  /**
   * `stringify!($variant).chars().enumerate().flat_map(..).collect()`: the
   * first character is kept as it is, the rest go through `SpaceWords`.
   */
  function Label(ident: string): (r: string)
    ensures ident == [] ==> r == []
    ensures ident != [] ==> r != [] && r[0] == ident[0]
    ensures |r| == |ident| + (if ident == [] then 0 else CountUpper(ident[1..]))
    ensures forall k :: 1 <= k < |r| ==> !IsAsciiUpper(r[k])
  {
    if ident == [] then []
    else [ident[0]] + SpaceWords(ident[1..])
  }

  /** The inverse of `SpaceWords`: each `' '` is dropped and the character after it capitalised. */
  function JoinWords(t: string): string
    decreases |t|
  {
    if t == [] then []
    else if t[0] == ' ' && |t| > 1 then [ToAsciiUpper(t[1])] + JoinWords(t[2..])
    else [t[0]] + JoinWords(t[1..])
  }

  /** The inverse of `Label`. */
  function Unlabel(text: string): string
  {
    if text == [] then [] else [text[0]] + JoinWords(text[1..])
  }

  lemma {:induction false} JoinSpaceWords(t: string)
    requires ' ' !in t
    ensures JoinWords(SpaceWords(t)) == t
  {
    if t != [] {
      JoinSpaceWords(t[1..]);
      var rest := SpaceWords(t[1..]);
      if IsAsciiUpper(t[0]) {
        assert SpaceWords(t) == [' ', ToAsciiLower(t[0])] + rest;
        assert (SpaceWords(t))[2..] == rest;
      } else {
        assert SpaceWords(t) == [t[0]] + rest;
        assert (SpaceWords(t))[1..] == rest;
      }
      assert t == [t[0]] + t[1..];
    }
  }

  /** A label determines the identifier it came from, as long as identifiers have no spaces. */
  lemma LabelRoundTrip(ident: string)
    requires ' ' !in ident
    ensures Unlabel(Label(ident)) == ident
  {
    if ident != [] {
      JoinSpaceWords(ident[1..]);
      assert Label(ident)[1..] == SpaceWords(ident[1..]);
      assert ident == [ident[0]] + ident[1..];
    }
  }

  /** Different identifiers get different labels. */
  lemma LabelInjective(a: string, b: string)
    requires ' ' !in a && ' ' !in b && a != b
    ensures Label(a) != Label(b)
  {
    LabelRoundTrip(a);
    LabelRoundTrip(b);
  }
}
