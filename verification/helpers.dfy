/** The text and validation helpers of the React client (`utils/helpers.js`). */
module Helpers {
  import opened Wrappers
  import opened Text

  function Max(a: int, b: int): int {
    if a < b then b else a
  }

  /** `truncateText(text, length)`: text whose JavaScript length exceeds
      `length` keeps its first `length` UTF-16 code units and gets "..."
      appended. `None` is null/undefined. */
  function TruncateText(text: Option<string>, length: int): (r: Option<string>)
    ensures text.None? || text.value == [] || Utf16Length(text.value) <= length ==> r == text
    ensures text.Some? && text.value != [] && Utf16Length(text.value) > length ==>
      && r.Some? && |r.value| >= 3
      && r.value[|r.value| - 3..] == "..."
      && var kept := r.value[..|r.value| - 3];
         && kept < text.value
         && Utf16Length(kept) <= Max(length, 0)
         && Utf16Length(kept) + Utf16Units(text.value[|kept|]) > length
  {
    if text.None? || text.value == [] || Utf16Length(text.value) <= length then text
    else
      var kept := Utf16Prefix(text.value, length);
      var r := kept + "...";
      assert Utf16Length(kept) < Utf16Length(text.value);
      assert r[..|r| - 3] == kept && r[|r| - 3..] == "...";
      Some(r)
  }

  /** Inside the Basic Multilingual Plane, truncation keeps the first `length`
      characters. */
  lemma TruncateInBmp(text: string, length: int)
    requires text != [] && InBmp(text) && |text| > length
    ensures TruncateText(Some(text), length) == Some(text[..Max(length, 0)] + "...")
  {
    Utf16LengthInBmp(text);
    if length > 0 {
      Utf16PrefixInBmp(text, length);
    }
  }

  /** The colour class `getCharacterCount` picks for a character counter. */
  datatype CounterColor = Gray | Green | Orange | Red

  datatype CharacterCount = CharacterCount(count: nat, maxLength: int, color: CounterColor, isOverLimit: bool)

  /** "More than 80 percent of `maxLength` is used", stated without division:
      `count / maxLength * 100 > 80` for a positive `maxLength`, and false for
      `0 / 0`, which JavaScript evaluates to NaN. */
  predicate AboveEightyPercent(count: nat, maxLength: int) {
    count * 100 > maxLength * 80
  }

  /** `getCharacterCount(text, maxLength)`, counting JavaScript's `length`
      (UTF-16 code units). The float `percentage` is left out. */
  function GetCharacterCount(text: string, maxLength: int): (r: CharacterCount)
    ensures r.count == Utf16Length(text) && r.maxLength == maxLength
    ensures r.isOverLimit <==> Utf16Length(text) > maxLength
    ensures r.color == Red <==> r.isOverLimit
    ensures r.color == Orange <==> !r.isOverLimit && AboveEightyPercent(Utf16Length(text), maxLength)
    ensures r.color == Green <==> !r.isOverLimit && !AboveEightyPercent(Utf16Length(text), maxLength) && text != []
    ensures r.color == Gray <==> text == [] && maxLength >= 0
  {
    var count := Utf16Length(text);
    var color :=
      if count > maxLength then Red
      else if AboveEightyPercent(count, maxLength) then Orange
      else if count > 0 then Green
      else Gray;
    CharacterCount(count, maxLength, color, count > maxLength)
  }

  /** The options object of `validateInput`; `maxLength == None` is `Infinity`
      and the regular expression is an abstract predicate. */
  datatype ValidationOptions = ValidationOptions(
    required: bool,
    minLength: int,
    maxLength: Option<int>,
    pattern: Option<string -> bool>)

  datatype ValidationResult = ValidationResult(isValid: bool, errors: seq<string>)

  const RequiredError := "This field is required"
  const FormatError := "Invalid format"

  function MinLengthError(n: int): string {
    "Minimum length is " + IntToString(n) + " characters"
  }

  function MaxLengthError(n: int): string {
    "Maximum length is " + IntToString(n) + " characters"
  }

  /** `!input`: null, undefined and the empty string. */
  predicate Falsy(input: Option<string>) {
    input.None? || input.value == []
  }

  predicate RequiredFails(input: Option<string>, o: ValidationOptions) {
    o.required && (Falsy(input) || IsBlank(input.value))
  }

  predicate TooShort(input: Option<string>, o: ValidationOptions) {
    !Falsy(input) && Utf16Length(input.value) < o.minLength
  }

  predicate TooLong(input: Option<string>, o: ValidationOptions) {
    !Falsy(input) && o.maxLength.Some? && Utf16Length(input.value) > o.maxLength.value
  }

  predicate PatternFails(input: Option<string>, o: ValidationOptions) {
    !Falsy(input) && o.pattern.Some? && !o.pattern.value(input.value)
  }

  /** The four checks in the order `validateInput` runs them, each contributing
      its message when it fails. */
  function ExpectedErrors(input: Option<string>, o: ValidationOptions): seq<string> {
    (if RequiredFails(input, o) then [RequiredError] else [])
    + (if TooShort(input, o) then [MinLengthError(o.minLength)] else [])
    + (if TooLong(input, o) then [MaxLengthError(o.maxLength.value)] else [])
    + (if PatternFails(input, o) then [FormatError] else [])
  }

  /** `validateInput(input, options)`: pushes one message per failed check. */
  method ValidateInput(input: Option<string>, options: ValidationOptions) returns (r: ValidationResult)
    ensures r.errors == ExpectedErrors(input, options)
    ensures r.isValid <==> r.errors == []
  {
    var errors: seq<string> := [];
    if options.required && (input.None? || input.value == [] || Trim(input.value) == []) {
      errors := errors + [RequiredError];
    }
    assert errors == (if RequiredFails(input, options) then [RequiredError] else []);
    if input.Some? && input.value != [] && Utf16Length(input.value) < options.minLength {
      errors := errors + [MinLengthError(options.minLength)];
    }
    ghost var checked := errors;
    if input.Some? && input.value != [] && options.maxLength.Some? && Utf16Length(input.value) > options.maxLength.value {
      errors := errors + [MaxLengthError(options.maxLength.value)];
    }
    assert errors == checked + (if TooLong(input, options) then [MaxLengthError(options.maxLength.value)] else []);
    if input.Some? && input.value != [] && options.pattern.Some? && !options.pattern.value(input.value) {
      errors := errors + [FormatError];
    }
    r := ValidationResult(|errors| == 0, errors);
  }

  /** An empty or missing input can only fail the `required` check. */
  lemma EmptyInputOnlyRequired(input: Option<string>, o: ValidationOptions)
    requires Falsy(input)
    ensures ExpectedErrors(input, o) == (if o.required then [RequiredError] else [])
  {
  }

  /** With `required`, whitespace-only input is reported as missing first. */
  lemma BlankRequiredInput(s: string, o: ValidationOptions)
    requires o.required && IsBlank(s)
    ensures ExpectedErrors(Some(s), o) != [] && ExpectedErrors(Some(s), o)[0] == RequiredError
  {
  }

  /** The `[error, result]` pair `safeAsync` resolves to. */
  datatype Settled<T, E> = Settled(error: Option<E>, result: Option<T>)

  /** `safeAsync(asyncFn)`: `[null, value]` when the call resolves, `[error, null]`
      when it throws. The call's outcome is the parameter. */
  function SafeAsync<T, E>(outcome: Result<T, E>): (r: Settled<T, E>)
    ensures r.error.None? <==> outcome.Success?
    ensures r.error.None? ==> r.result == Some(outcome.value)
    ensures r.error.Some? ==> r.result.None? && r.error.value == outcome.error
  {
    match outcome
    case Success(v) => Settled(None, Some(v))
    case Failure(e) => Settled(Some(e), None)
  }

  /** Reads a settled pair back as the outcome it came from. */
  function Unsettle<T, E>(s: Settled<T, E>): Result<T, E>
    requires s.error.Some? || s.result.Some?
  {
    if s.error.Some? then Failure(s.error.value) else Success(s.result.value)
  }

  /** `safeAsync` loses nothing: the pair determines the outcome. */
  lemma SafeAsyncRoundTrip<T, E>(outcome: Result<T, E>)
    ensures Unsettle(SafeAsync(outcome)) == outcome
  {
  }
}
