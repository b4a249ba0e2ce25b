/**
 * The state machine behind `FilterInput::update_regex`, which both versions
 * of the code (`src/state/filters.rs` and `src/options/data.rs`) share; they
 * differ only in the case flag handed to the regex builder, which each
 * version's `FilterInput` picks itself. The regex engine is not modelled: a compiled regex is a value of
 * the type parameter `R`, and the result of `RegexBuilder::build` is an input.
 */
module Regexes {
  import opened Common

  /** The `regex::Error` kinds; only the first two are handled by the code. */
  datatype RegexError = Syntax(message: string) | CompiledTooBig(limit: nat) | OtherError

  /** What `RegexBuilder::build` returned. */
  datatype BuildResult<R> = Built(re: R) | BuildFailed(error: RegexError)

  /**
   * The payload of the `regex` field, `Result<Regex, (Option<Regex>, String)>`:
   * a compiled regex, or a compile error carrying the last regex that did compile.
   */
  datatype RegexResult<R> = Compiled(re: R) | Failed(previous: Option<R>, message: string)

  /** The filter's regex state: `None` means no regex is in use. */
  type RegexState<R> = Option<RegexResult<R>>

  /**
   * The regex worth using in a state: the compiled one, else the one carried
   * through the error. Both `update_regex` (to pick what to carry) and
   * `show_filtered_entries` (to pick what to match with) read a state this way.
   */
  function LastGood<R>(state: RegexState<R>): (r: Option<R>)
    ensures r.Some? <==> state.Some? && (state.value.Compiled? || state.value.previous.Some?)
    ensures state.Some? && state.value.Compiled? ==> r == Some(state.value.re)
  {
    match state
    case Some(Compiled(re)) => Some(re)
    case Some(Failed(previous, _)) => previous
    case None => None
  }

  /** The message stored for a compile error; `unimplemented!()` for any other kind. */
  function ErrorMessage(error: RegexError): (r: Result<string>)
    ensures r.Abort? <==> error.OtherError?
    ensures error.Syntax? ==> r == Ok(error.message)
    ensures error.CompiledTooBig? ==> r == Ok("Regex too big")
  {
    match error
    case Syntax(message) => Ok(message)
    case CompiledTooBig(_) => Ok("Regex too big")
    case OtherError => Abort("not implemented")
  }

  /** A regex is compiled only for a non-empty input with regex use switched on. */
  predicate WantsRegex(input: string, useRegex: bool)
    ensures WantsRegex(input, useRegex) <==> (input == [], useRegex) == (false, true)
  {
    input != [] && useRegex
  }

  /**
   * `update_regex` as a function of the old state, the filter settings and
   * the build result (consulted only when a regex is wanted).
   */
  function Update<R>(state: RegexState<R>, input: string, useRegex: bool, build: BuildResult<R>): (r: Result<RegexState<R>>)
    ensures !WantsRegex(input, useRegex) ==> r == Ok(None)
    ensures WantsRegex(input, useRegex) && build.Built? ==> r == Ok(Some(Compiled(build.re)))
    ensures r.Abort? <==> WantsRegex(input, useRegex) && build == BuildFailed(OtherError)
  {
    if !WantsRegex(input, useRegex) then Ok(None)
    else
      match build
      case Built(re) => Ok(Some(Compiled(re)))
      case BuildFailed(error) =>
        match ErrorMessage(error)
        case Ok(message) => Ok(Some(Failed(LastGood(state), message)))
        case Abort(reason) => Abort(reason)
  }

  /** A handled compile error keeps the last good regex and stores the error's message. */
  lemma FailureKeepsLastGood<R>(state: RegexState<R>, input: string, useRegex: bool, error: RegexError)
    requires WantsRegex(input, useRegex) && !error.OtherError?
    ensures var r := Update(state, input, useRegex, BuildFailed(error));
            r.Ok? && r.value.Some? && r.value.value.Failed? &&
            LastGood(r.value) == LastGood(state) &&
            Ok(r.value.value.message) == ErrorMessage(error)
  {
  }

  /** One edit of the filter: the new input and switch, and what compiling it gave. */
  datatype Edit<R> = Edit(input: string, useRegex: bool, build: BuildResult<R>)

  /** The state after `update_regex` ran once per edit, or the panic that stopped the run. */
  function Replay<R>(state: RegexState<R>, edits: seq<Edit<R>>): Result<RegexState<R>>
    decreases |edits|
  {
    if edits == [] then Ok(state)
    else
      match Update(state, edits[0].input, edits[0].useRegex, edits[0].build)
      case Ok(next) => Replay(next, edits[1..])
      case Abort(reason) => Abort(reason)
  }

  /** An edit whose regex was wanted and failed with a handled error. */
  predicate HandledFailure<R>(edit: Edit<R>)
  {
    WantsRegex(edit.input, edit.useRegex) && edit.build.BuildFailed? && !edit.build.error.OtherError?
  }

  /**
   * However many compile failures follow one another, the regex carried in
   * the error is the last one that compiled before them, unchanged.
   */
  lemma {:induction false} FailuresKeepLastGood<R>(state: RegexState<R>, edits: seq<Edit<R>>)
    requires edits != []
    requires forall k :: 0 <= k < |edits| ==> HandledFailure(edits[k])
    ensures var r := Replay(state, edits);
            r.Ok? && r.value.Some? && r.value.value.Failed? && r.value.value.previous == LastGood(state)
    decreases |edits|
  {
    var e := edits[0];
    FailureKeepsLastGood(state, e.input, e.useRegex, e.build.error);
    var next := Update(state, e.input, e.useRegex, e.build).value;
    if |edits| > 1 {
      FailuresKeepLastGood(next, edits[1..]);
    }
  }

  /** A successful compile followed by failures: the errors carry that compiled regex. */
  lemma SuccessThenFailures<R>(state: RegexState<R>, success: Edit<R>, failures: seq<Edit<R>>)
    requires WantsRegex(success.input, success.useRegex) && success.build.Built?
    requires failures != []
    requires forall k :: 0 <= k < |failures| ==> HandledFailure(failures[k])
    ensures var r := Replay(state, [success] + failures);
            r.Ok? && r.value.Some? && r.value.value.Failed? && r.value.value.previous == Some(success.build.re)
  {
    assert ([success] + failures)[1..] == failures;
    FailuresKeepLastGood(Some(Compiled(success.build.re)), failures);
  }
}
