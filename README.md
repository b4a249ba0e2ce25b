# mareto: the editor pipeline, its filters and options, and the bit set

mareto is a bulk-rename tool. It scans a folder and writes one line per
entry into a text editor; the user edits the lines, and the edits become
renames. This project models the part that decides what the editor shows,
and proves properties of that model:

- **BitSets** (`bit_set.dfy`): the packed `BitSet` of `src/bit_set.rs` as a
  class over `size` and a sequence of `bv8` chunks. It has `new`, `resize`,
  `set_bit`, `unset_bit` and `is_bit_set`, and the unit tests at the end of
  that file are restated against the model. `Contents()` is the abstract
  view, one `bool` per bit below `size`, and every method is specified
  against it.
- **Regexes** (`regexes.dfy`): the regex-state transition that
  `update_regex` performs in both versions of the code. A compiled regex
  is replaced. A compile error keeps the last regex that compiled and stores
  the error message. An error kind the code does not handle panics.
- **StateFilters**, **StateOptions** and **DropDown**: the filter and
  display settings of `src/state/filters.rs` and `src/state/options.rs`.
  This includes their defaults, the `FilterInput` class with its
  `update_regex`, the sort and display choices, and the drop-down label
  that `drop_down_enum!` derives from a variant's name.
- **StateEditor** (`state_editor.dfy`): `src/state/editor.rs`, the current
  editor. It covers entry visibility, the three display forms, the text
  test (regex, case-sensitive substring, or case-folded substring), the
  optional sort, and the text the editor ends up holding. `FilterMaps`
  (`filter_map.dfy`) is the `filter_map(..).collect()` both editors use, with
  a step that can panic.
- **OptionsData** and **EditorData**: the older variant of the same code in
  `src/options/data.rs` and `src/editor/data.rs`, with one options record, no
  text test, a relative form that strips the opened folder, and an output
  that is always sorted. Lemmas relate it to the current version.

Panics of the source (`expect`, `unimplemented!`, an out-of-range string
slice) are modelled as `Abort(reason)` results and `Panic(reason)`
outcomes, not as preconditions. Regex compilation and matching are
parameters (`compile`, `isMatch`), and the regex value is a type parameter
`R`. The theme is the type parameter `Theme`.

The code is inconsistent with itself in a few places; the model follows it
as written:

- The sort `match` of `src/state/editor.rs:60-66` names
  `SortingOption::SortAscending` and `SortingOption::SortDescending`, which
  `src/state/options.rs:75-82` does not declare. No sort choice of the
  current options can be mapped faithfully onto those arms, so the sort
  mode is an input of `StateEditor.EditorState.ShowFilteredEntries`
  (`Unsorted`, or `SortBy(Ascending | Descending)`).
- `src/editor/data.rs:39` matches `SortingOption::Descending`, which
  `src/options/data.rs:131` does not declare. It is read as
  `SortDescending`, and every other choice sorts ascending, as the `_` arm
  does.
- The older `FilterInput` hands its `case_insensitive` flag straight to the
  regex builder. The current one hands over the negation of
  `case_sensitive`. Both are modelled as written.
- `DisplayType`, `DepthLimit` and `DropDownState` are declared identically
  in both versions, so the older modules reuse the current ones.
- The scan in `src/fs.rs` stores paths with the scanned folder already
  stripped. The older relative form strips the opened folder once more and
  so expects full paths. The model states the older function as written
  and does not tie it to the scan.
- The older relative form tests the folder as a string prefix
  (`str::strip_prefix`), not as a path prefix, and `[1..]` then drops
  whatever character follows. For folder `/r` the path `/rx/y` of a sibling
  folder passes and gives `/y`. The model keeps that: it promises one
  dropped character, not a separator.

## Model

| member | source | states |
|---|---|---|
| BitSets.ChunkCount | src/bit_set.rs:17 | `div_ceil(8)`: the fewest bytes that hold `n` bits (c·8 ≥ n and (c−1)·8 < n) |
| BitSets.Mask | src/bit_set.rs:26 | the mask `1_u8 << bit` that `set_bit`, `unset_bit` and `is_bit_set` build is a byte with exactly one bit set |
| BitSets.ByteHasBit | src/bit_set.rs:47 | the `> 0` test of `chunks[chunk] & (1 << bit)`: the masked byte is non-zero exactly when it equals the whole mask |
| BitSets.OrMaskBit | src/bit_set.rs:26-27 | or-ing the mask `1 << k` sets bit k of a byte and leaves the other bits alone |
| BitSets.AndNotMaskBit | src/bit_set.rs:36-38 | and-ing with `!(1 << k)` clears bit k of a byte and leaves the other bits alone |
| BitSets.WriteByte | src/bit_set.rs:26-38 | the byte after `set_bit` (or-ing the mask) or `unset_bit` (and-ing its inverse) reads the written value at bit k |
| BitSets.WriteBit | src/bit_set.rs:20-38 | the chunk update of `set_bit` (or-ing the mask in) or `unset_bit` (and-ing its complement): the same length, bit `i % 8` of byte `i / 8` becomes the written value, every other byte is unchanged |
| BitSets.ByteWrite | src/bit_set.rs:26-27 | writing a value at bit k of a byte makes bit k that value and keeps bits m ≠ k |
| BitSets.Zeros | src/bit_set.rs:17 | the fill `resize` appends: n bytes, all zero |
| BitSets.TestBit | src/bit_set.rs:41-48 | `is_bit_set` on the bare parts: a bit that reads as set is below `size` |
| BitSets.BitView | src/bit_set.rs:41-48 | the abstract bit vector of chunks and size: `size` entries, entry i is the bit at byte i/8, position i%8 |
| BitSets.WriteBitAt | src/bit_set.rs:20-39 | writing bit i changes what bit i reads to the written value and no other bit below `size` |
| BitSets.WriteBitView | src/bit_set.rs:20-39 | writing bit i updates the abstract view at index i only |
| BitSets.ZerosTailClear | src/bit_set.rs:17 | zero bytes hold no bit at or above any size |
| BitSets.WriteBitKeepsTail | src/bit_set.rs:20-39 | a write below `size` keeps every bit at or above `size` clear |
| BitSets.ByteFromBits | src/bit_set.rs:94 | two bytes with the same eight bits are the same byte |
| BitSets.BytesFromBits | src/bit_set.rs:94 | byte vectors of one length that read the same below `size` and are clear above it are equal, so the bits fix the bytes `assert_eq!` compares |
| BitSets.BitSet.constructor | src/bit_set.rs:8-13 | `new()`: size 0, no chunks, and the representation invariant holds |
| BitSets.BitSet.FromParts | src/bit_set.rs:113 | a struct literal `BitSet { chunks, size }` with size ≤ 8·bytes is a valid bit set with exactly those parts |
| BitSets.BitSet.IsBitSet | src/bit_set.rs:41-48 | false at or above `size`; below it, exactly the bit i%8 of byte i/8 |
| BitSets.BitSet.Contents | src/bit_set.rs:41-48 | the view has one entry per bit below `size`, each equal to `is_bit_set` |
| BitSets.BitSet.Resize | src/bit_set.rs:15-18 | size becomes n and there are `div_ceil(n, 8)` chunks, truncated or zero-padded; each bit below n is what the old byte held there, so stale bits in kept bytes show again |
| BitSets.BitSet.SetBit | src/bit_set.rs:20-28 | in range: byte i/8 gets the mask or-ed in and the view gains bit i; out of range: nothing changes |
| BitSets.BitSet.UnsetBit | src/bit_set.rs:30-39 | in range: byte i/8 gets the inverted mask and-ed in and the view loses bit i; out of range: nothing changes |
| BitSets.SetIndices | src/bit_set.rs:114-116 | the `filter` over `0..n` keeps at most n indices |
| BitSets.SetIndicesMember | src/bit_set.rs:114-116 | index k is kept iff k < n and `is_bit_set(k)` |
| BitSets.SetIndicesMembers | src/bit_set.rs:114-116 | the kept indices are exactly the set bits below n |
| BitSets.SetIndicesAscending | src/bit_set.rs:114-116 | the kept indices are strictly increasing and all below n |
| BitSets.Expected | src/bit_set.rs:87-93 | after a run of writes each bit below `size` holds the last value written to it, false if untouched |
| BitSets.ExpectedStep | src/bit_set.rs:87-93 | one more write changes the expectation at its index only, and only when the index is below `size` |
| BitSets.ZerosView | src/bit_set.rs:85-86 | a new set resized to `size` reads all clear, as after no writes at all |
| BitSets.Write | src/bit_set.rs:88-92 | the test loop's branch: `set_bit` or `unset_bit` by the flag; in range the bytes get the bit written and the view is updated at that index, out of range nothing changes; a clear tail stays clear |
| BitSets.FreshTracked | src/bit_set.rs:85-86 | `BitSet::new()` then `resize(size)` gives a fresh set of `size` bits in `div_ceil(size, 8)` bytes that reads as all clear, with every bit at or above `size` clear |
| BitSets.WriteTracked | src/bit_set.rs:87-93 | one iteration of the test loop: if the bytes held the expected view of `writes` with a clear tail, afterwards they hold the expected view of `writes` plus this write, still with a clear tail |
| BitSets.ApplyWrites | src/bit_set.rs:80-95 | `test_set_bit` for any size and write list: `div_ceil(size, 8)` bytes, every bit below `size` reads its last written value, and every bit at or above `size` is clear |
| BitSets.ResizeCases | src/bit_set.rs:57-68 | the five resize cases: sizes 1, 8, 9, 16, 17 give 1, 1, 2, 2, 3 bytes |
| BitSets.SetBitNoWrites | src/bit_set.rs:71-74 | with no writes, sizes 0, 8, 16 and 24 give [], [0], [0, 0] and [0, 0, 0] |
| BitSets.ApplyWritesRows | src/bit_set.rs:75-76 | the contract of `ApplyWrites` alone fixes the bytes of two rows: [0] for writes above size 6, [0b10] for bit 1 of 8 |
| BitSets.SetBitFirstByte | src/bit_set.rs:76 | bit 1 of 8 gives the byte 0b00000010 |
| BitSets.SetBitOutOfRange | src/bit_set.rs:75 | with 6 bits, setting bits 7 and 8 leaves the one byte at 0 |
| BitSets.SetBitSecondByte | src/bit_set.rs:77 | bits 9 and 11 of 16 give bytes [0, 0b00001010] |
| BitSets.SetBitFirstAndLast | src/bit_set.rs:78 | bits 1 and 23 of 24 give bytes [0b10, 0, 0b10000000] |
| BitSets.SetThenUnsetBit | src/bit_set.rs:79 | setting 1, 2, 3 and then unsetting 2 gives [0b00001010] |
| BitSets.SetBitIndices | src/bit_set.rs:111-117 | the body of `test_is_bit_set`: the indices below `chunks.len() * 8` that `is_bit_set` reports, exactly those and in increasing order |
| BitSets.RepeatedPatternIndices | src/bit_set.rs:107 | the set bits of three 0b10000001 bytes, size 24, are 0, 7, 8, 15, 16, 23 |
| BitSets.IsBitSetRepeatedPattern | src/bit_set.rs:107 | the test body on three 0b10000001 bytes reports bits 0, 7, 8, 15, 16, 23 |
| BitSets.IsBitSetIgnoresBitAboveSize | src/bit_set.rs:108 | the test body with size 7 reports only bit 1 of 0b10000010: bit 7 lies at `size` |
| BitSets.IsBitSetIgnoresByteTail | src/bit_set.rs:109 | the test body with size 9 reports 0, 5, 8: only bit 8 of the second byte 0xFF counts |
| BitSets.IsBitSetIgnoresSpareByte | src/bit_set.rs:110 | the test body with size 16 reports only bit 0: a third byte 0xFF is ignored entirely |
| BitSets.StaleBitAfterRegrow | src/bit_set.rs:15-18 | shrinking hides a set bit, and growing back within the same byte shows it again |
| Strings.Contains | src/state/editor.rs:39 | `str::contains`: t occurs in s at some offset |
| Strings.ContainsEmpty | src/state/editor.rs:39 | the empty text occurs in every string |
| Strings.AsciiLowercase | src/state/editor.rs:61-64 | `to_ascii_lowercase`: same length, no ASCII capital left, every other character unchanged |
| Strings.JoinLines | src/state/editor.rs:67 | `join("\n")`: empty for no lines; otherwise it starts with the first line, followed by a newline when more lines come |
| Strings.LastSegment | src/state/editor.rs:108-113 | the last piece of `split('/')`: a suffix with no `/`, preceded by `/` when shorter than the path |
| Strings.LastSegmentAfterSeparator | src/state/editor.rs:108-113 | the last piece of `x/y` is the last piece of y |
| Strings.StripPrefix | src/editor/data.rs:75-78 | `strip_prefix`: present exactly when p is a prefix, and then s is p followed by the rest |
| Strings.SplitLines | src/state/editor.rs:67 | splitting a text at newlines gives at least one line (the inverse of `join("\n")`) |
| Strings.SplitJoinLines | src/state/editor.rs:67-68 | `join("\n")` of newline-free lines splits back into exactly those lines |
| Sorting.Key | src/state/editor.rs:61-64 | the sort key has the line's length and is already lower-case: lower-casing it again changes nothing |
| Sorting.LexLeq | src/state/editor.rs:61-64 | `Ord for str`, the order the comparators use: a prefix comes no later than any string it begins |
| Sorting.LexLeqReflexive | src/state/editor.rs:61-64 | the `cmp` order on strings is reflexive |
| Sorting.InOrder | src/state/editor.rs:61-64 | the comparator accepts two lines with equal keys in either order |
| Sorting.LexLeqTotal | src/state/editor.rs:61-64 | the `cmp` order on strings is total |
| Sorting.LexLeqTransitive | src/state/editor.rs:61-64 | the `cmp` order on strings is transitive |
| Sorting.LexLeqAntisymmetric | src/state/editor.rs:61-64 | strings ordered both ways by `cmp` are equal |
| Sorting.InOrderTotal | src/state/editor.rs:61-64 | the ascending and the descending comparator on lower-cased keys are total |
| Sorting.InOrderTransitive | src/state/editor.rs:61-64 | both comparators are transitive |
| Sorting.InOrderBothWays | src/state/editor.rs:61-64 | lines ordered both ways have equal lower-cased keys, the only ties an unstable sort may reorder |
| Sorting.Insert | src/state/editor.rs:61-64 | inserting one line adds exactly that line to the multiset |
| Sorting.ConsSorted | src/state/editor.rs:61-64 | a line that precedes every line of a sorted list can go in front of it |
| Sorting.HeadPrecedesInsert | src/state/editor.rs:61-64 | inserting a line after a smaller head keeps the head before every line |
| Sorting.InsertSorted | src/state/editor.rs:61-64 | inserting into a sorted list keeps it sorted |
| Sorting.SortLines | src/state/editor.rs:61-64 | `sort_unstable_by` with the comparator: a sorted permutation of its input |
| Sorting.MultisetTail | src/state/editor.rs:61-64 | dropping the first line removes one copy of it from the multiset |
| Sorting.SameFirstLine | src/state/editor.rs:61-64 | with distinct keys, two sorted permutations start with the same line |
| Sorting.SortedPermutationUnique | src/state/editor.rs:61-64 | with distinct keys, the unstable sort has exactly one possible result |
| Regexes.LastGood | src/state/filters.rs:59-63 | the regex kept through an error: present iff the state holds a compiled regex or an error that carries one; a compiled regex is kept itself |
| Regexes.ErrorMessage | src/state/filters.rs:64-68 | a syntax error gives its text, a too-big regex gives "Regex too big", and any other kind panics |
| Regexes.Update | src/state/filters.rs:48-75 | no regex unless the input is non-empty and regex mode is on; a build gives a compiled regex; only an unhandled error kind panics |
| Regexes.WantsRegex | src/state/filters.rs:49-50 | the `(false, true)` arm of the `match (input.is_empty(), use_regex)`: a regex is built only for a non-empty input with regex use on |
| Regexes.FailureKeepsLastGood | src/state/filters.rs:56-69 | a handled compile error records its message and keeps the last good regex of the previous state |
| Regexes.FailuresKeepLastGood | src/state/filters.rs:56-69 | any run of handled failures carries the regex that was good before them, unchanged |
| Regexes.SuccessThenFailures | src/state/filters.rs:55-69 | after a successful compile, the failures that follow all carry that compiled regex |
| StateFilters.DefaultDepthLimit | src/state/filters.rs:78-82 | a derived default depth limit is inactive and has no limit |
| StateFilters.NewFilterState | src/state/filters.rs:30-37 | `FilterState::new` holds the given state and an empty `filtered` list |
| StateFilters.FilterInput.constructor | src/state/filters.rs:39-45 | default filter input: empty text, no regex, both switches off |
| StateFilters.FilterInput.UpdateRegex | src/state/filters.rs:47-76 | the new regex state is the transition on the old one, compiled case-insensitively when `case_sensitive` is off; on a panic the field has been emptied; text and switches are unchanged |
| StateFilters.DefaultFilterOptions | src/state/filters.rs:12-22 | default filters: fresh empty input, inactive depth limits, files and folders shown, nothing filtered |
| DropDown.SpaceWords | src/state/options.rs:67 | the `flat_map` over the characters after the first: one extra character per capital, and no capital left in the result |
| DropDown.Label | src/state/options.rs:67 | a label keeps the first character, grows by one space per later capital, and has no capital after the first character |
| DropDown.JoinSpaceWords | src/state/options.rs:67 | re-capitalising after each space undoes the spacing of a space-free name |
| DropDown.LabelRoundTrip | src/state/options.rs:67 | the label of a space-free identifier determines it: unlabelling gives the identifier back |
| DropDown.LabelInjective | src/state/options.rs:67 | distinct space-free identifiers get distinct labels |
| StateOptions.SortingOption.Name | src/state/options.rs:75-82 | each sort choice's `stringify!` name is a non-empty identifier with no space |
| StateOptions.SortingOption.ToString | src/state/options.rs:63-71 | `Display`: unlabelling the shown text gives back the variant's name |
| StateOptions.DisplayType.Name | src/state/options.rs:83 | each display type's `stringify!` name is a non-empty identifier with no space |
| StateOptions.DisplayType.ToString | src/state/options.rs:63-71 | `Display`: unlabelling the shown text gives back the variant's name |
| StateOptions.SortingVariants | src/state/options.rs:55-61 | `variants()` lists the five sort choices without repeats, `NoSorting` first |
| StateOptions.SortingVariantsComplete | src/state/options.rs:75-82 | every declared sort choice is in `variants()` |
| StateOptions.DisplayVariants | src/state/options.rs:55-61 | `variants()` lists the three display types without repeats |
| StateOptions.DisplayVariantsComplete | src/state/options.rs:83 | every display type is in `variants()` |
| StateOptions.NoSortingText | src/state/options.rs:67 | the label the macro derives from `NoSorting` is "No sorting" |
| StateOptions.NoSortingLabel | src/state/options.rs:63-71 | the default sort choice reads "No sorting" |
| StateOptions.JustNameText | src/state/options.rs:67 | the label the macro derives from `JustName` is "Just name" |
| StateOptions.JustNameLabel | src/state/options.rs:63-71 | `JustName` reads "Just name" |
| StateOptions.SortingNamesDistinct | src/state/options.rs:75-82 | distinct sort choices have names of different lengths, so the names differ |
| StateOptions.SortingLabelsDistinct | src/state/options.rs:63-71 | distinct sort choices show distinct labels |
| StateOptions.DisplayLabelsDistinct | src/state/options.rs:63-71 | distinct display types show distinct labels |
| StateOptions.DefaultOptions | src/state/options.rs:14-33 | defaults: no sorting, relative paths, each drop-down listing all its variants, remove-empty off (empty folders kept), preview on, light theme |
| StateEditor.EntryIsVisible | src/state/editor.rs:71-96 | visible iff the kind's toggle is on and the depth lies within each active limit that is set |
| StateEditor.FormatEntry | src/state/editor.rs:98-115 | relative = the stored path; absolute = folder followed by path, panicking iff no folder is open; name = the last `/`-piece, never panicking |
| StateEditor.JustNameOfNested | src/state/editor.rs:108-113 | the name form of `dir/rest` is the name form of rest |
| StateEditor.QueryOf | src/state/editor.rs:18-22 | the regex in force is the compiled one, or the one carried through an error, or none |
| StateEditor.TextAdmits | src/state/editor.rs:35-54 | a regex in force decides alone; otherwise the input must occur in the display, as typed or with both sides lower-cased |
| StateEditor.EmptyInputAdmitsAll | src/state/editor.rs:37-52 | with no regex, an empty input admits every display |
| StateEditor.CaseInsensitiveAdmitsMore | src/state/editor.rs:38-51 | what the case-sensitive test admits, the case-insensitive one admits too |
| StateEditor.Keep | src/state/editor.rs:26-58 | hidden entries give no line; the step panics iff a visible entry needs the absolute form with no folder; a line is kept iff visible, formatted and admitted, and it is the formatted text |
| StateEditor.KeepStep | src/state/editor.rs:25-58 | the closure handed to `filter_map` gives, on every entry, what `Keep` decides for it |
| StateEditor.EditorState.constructor | src/state/editor.rs:7-14 | the default editor: no folder, no entries, empty text |
| StateEditor.CollectKept | src/state/editor.rs:23-59 | the `filter_map(..).collect()` over the entries, written as the loop it performs: the result is `FilterMap` of the closure, the kept lines in scan order or the first panic |
| StateEditor.Arranged | src/state/editor.rs:60-66 | the three-way sort `match`: the shown lines are the kept lines, either as they are or sorted; in every case the same lines with the same multiplicities |
| StateEditor.EditorState.ShowFilteredEntries | src/state/editor.rs:17-69 | folder and entries unchanged; a panic in the scan leaves the text untouched; otherwise the text is the kept lines, arranged by the sort mode, joined with newlines |
| StateEditor.AbsoluteWithoutFolderPanics | src/state/editor.rs:98-106 | absolute form with no folder and one visible entry: the whole scan panics |
| StateEditor.RelativeUnfilteredKeepsAll | src/state/editor.rs:23-59 | relative form, no text and all entries visible: the lines are every path in scan order |
| StateEditor.TwoLinesAscending | src/state/editor.rs:61-62 | two lines with different keys sort ascending only with the smaller key first |
| StateEditor.TwoPathsAscending | src/state/editor.rs:61-62 | `/a/c.txt, /a/b.txt` sorts ascending only as `/a/b.txt, /a/c.txt` |
| StateEditor.TwoPathsJoined | src/state/editor.rs:67 | those two lines joined read `/a/b.txt\n/a/c.txt` |
| StateEditor.AscendingScenario | src/state/editor.rs:17-69 | default filters, ascending mode and two files out of order: the editor shows them sorted, one per line |
| FilterMaps.FilterMap | src/state/editor.rs:23-59 | `filter_map(..).collect()` with a step that can panic: a completed collection holds at most one value per element |
| FilterMaps.FilterMapStep | src/state/editor.rs:23-59 | one more element appends its value, adds nothing, or stops the collection with its panic |
| FilterMaps.FilterMapAborts | src/state/editor.rs:23-59 | the collection panics iff the step panics on some element |
| FilterMaps.FilterMapMembers | src/editor/data.rs:19-37 | a value is collected iff some element yields it |
| FilterMaps.FilterMapKeepsAll | src/editor/data.rs:19-37 | when every element yields a value, the collection is exactly those values in order |
| FilterMaps.FilterMapStopped | src/state/editor.rs:23-59 | a panic among the first k elements is the panic of the whole collection |
| OptionsData.SortingOption.Name | src/options/data.rs:131 | each older sort choice's `stringify!` name is a non-empty identifier with no space |
| OptionsData.SortingOption.ToString | src/options/data.rs:119-127 | `Display`: unlabelling the shown text gives back the variant's name |
| OptionsData.SortingVariants | src/options/data.rs:112-116 | the older `variants()` lists its three sort choices without repeats, `NoSorting` first |
| OptionsData.SortingVariantsComplete | src/options/data.rs:131 | every older sort choice is in `variants()` |
| OptionsData.NoSortingLabel | src/options/data.rs:123 | the sort choice both versions declare reads "No sorting" in both |
| OptionsData.SortingLabelsDistinct | src/options/data.rs:119-127 | distinct older sort choices show distinct labels |
| OptionsData.FilterInput.constructor | src/options/data.rs:46-52 | default older filter input: empty text, no regex, both switches off |
| OptionsData.FilterInput.UpdateRegex | src/options/data.rs:54-83 | the same transition, compiled case-insensitively exactly when `case_insensitive` is set; text and switches unchanged |
| OptionsData.DefaultOptions | src/options/data.rs:20-44 | older defaults: fresh empty filter input, inactive depth limits, files and folders shown, no sorting, relative paths, remove-empty off (empty folders kept), preview on, light theme |
| EditorData.EntryIsVisible | src/editor/data.rs:48-61 | visible iff the kind's toggle is on and the depth lies within each active limit that is set |
| EditorData.VisibilityAgrees | src/editor/data.rs:48-61 | the older and the current visibility test agree whenever they hold the same kind and depth settings |
| EditorData.FormatEntry | src/editor/data.rs:63-86 | absolute = the path; relative succeeds iff a folder is open, is a prefix of the path and is strictly shorter, and then path = folder + one character + result; name = the last `/`-piece |
| EditorData.RelativeOfJoined | src/editor/data.rs:70-79 | the relative form of `root`, any one character and `rel` is `rel`: a separator gives the path below the folder, another character a sibling folder sharing the prefix |
| EditorData.RelativeOutsideRootPanics | src/editor/data.rs:75-78 | a path outside the opened folder makes the relative form panic |
| EditorData.FormsAgree | src/editor/data.rs:68-84 | below the folder, the older name form equals the name of the relative part, and the current relative form equals the older absolute one |
| EditorData.Keep | src/editor/data.rs:22-36 | hidden entries give no line; a visible entry gives its formatted text or its panic |
| EditorData.KeepStep | src/editor/data.rs:22-36 | the closure handed to `filter_map` gives, on every entry, what `Keep` decides for it |
| EditorData.SortDirection | src/editor/data.rs:38-43 | the comparator sorts descending iff `SortDescending` is selected |
| EditorData.VisibleEntriesShown | src/editor/data.rs:19-37 | a line is shown iff some visible entry formats to it |
| EditorData.EditorState.constructor | src/editor/data.rs:8-15 | the default older editor: no folder, no entries, empty text |
| EditorData.EditorState.ShowFilteredEntries | src/editor/data.rs:18-46 | folder and entries unchanged; a panic leaves the text untouched; otherwise the text is a sorted permutation of the kept lines, joined with newlines |

## Left out

- Regex compilation and matching: `RegexBuilder::build` and `Regex::is_match` are the parameters `compile` and `isMatch`. The regex engine is not part of this model.
- StateEditor.TextAdmits: `to_lowercase` in the case-insensitive test is modelled as ASCII lower-casing. Unicode case mapping, which can change a string's length, is not modelled.
- StateEditor.CaseInsensitiveAdmitsMore: proved for the model's ASCII lower-casing only. Rust's `to_lowercase` maps a capital sigma by context (`ς` at the end of a word, `σ` elsewhere), so for non-ASCII text the property can fail: "AΣ" occurs in "AΣB", but "aς" does not occur in "aσb".
- StateEditor.EditorState.ShowFilteredEntries: states the sorted text only up to the order of lines with equal lower-cased keys, because `sort_unstable_by` fixes no order for them. Sorting.SortedPermutationUnique pins the result down when keys are distinct.
- EditorData.EditorState.ShowFilteredEntries: the same weakening, for the same reason.
- Sorting.SortLines: the in-place sort is modelled as a pure function on the collected lines, because the vector is local to the method.
- `text_editor::Content` is modelled as its text. Cursor, selection and undo are not modelled.
- The `find_and_replace` field of both editors and the `FindAndReplace` and `FoundOccurence` types are outside the modelled core.
- The `filtered` vectors of `FilterState` are created empty and never filled by the modelled code, so they are carried and not reasoned about.
- The directory walk of `src/fs.rs` (`get_entries_for_path`) does file-system I/O. Only the entry record is modelled, and `entries` is an input.
- `usize` widths of sizes, indices and depths are unbounded integers. No modelled operation can overflow for sizes that fit in memory.
- String slicing is on characters. Rust's panic on a slice inside a multi-byte UTF-8 character is not modelled, and the older relative form's `[1..]` is taken to drop one character.
- `iced::Theme` and `Theme::ALL` are the type parameter `Theme` and the parameters `light` and `allThemes`.
- Of the drop-down labels, only "No sorting" and "Just name" are computed as concrete text. All other labels are covered by DropDown.Label, DropDown.LabelRoundTrip and DropDown.LabelInjective rather than spelled out.
- The user interface (`src/ui`, `src/editor/ui.rs`, `src/options/ui.rs`, `ui/`) and the application loop in `src/mareto.rs` and `src/main.rs` are not part of this model.
- The rows of `test_is_bit_set` at src/bit_set.rs:98-106 are not computed as concrete index lists. BitSets.SetBitIndices states, for any set built from a struct literal, which indices the test body reports and in what order.
