/**
 * The `--selector` / `--filter` step at the end of `LoginCommand.loginfunction`:
 * a filter `attribute=value` is split on `=`, both halves are stripped, and a
 * value spelling `true` or `false` in any case becomes a boolean. Everything
 * raised inside the selection block leaves it as an `InstanceNotFoundError`.
 */
module LoginFilter {
  import opened Wrappers
  import opened Errors
  import opened Text

  /** The filter value handed to `select`: text, or a boolean. */
  datatype FilterValue = StrValue(s: string) | BoolValue(b: bool)

  /** The arguments of the `select(query=…, sel=…, val=…)` call. */
  datatype Selection = Selection(query: string, sel: Option<string>, val: Option<FilterValue>)

  /**
   * The value coercion: only a case-insensitive `true` or `false` becomes a
   * boolean (true exactly for `true`); any other text is kept as it is.
   */
  function CoerceValue(val: string): (r: FilterValue)
    ensures r.BoolValue? <==> Lower(val) == "true" || Lower(val) == "false"
    ensures r.BoolValue? ==> r.b == (Lower(val) == "true")
    ensures r.StrValue? ==> r.s == val
  {
    var lowered := Lower(val);
    if lowered == "true" || lowered == "false" then
      BoolValue(lowered in ["yes", "true", "t", "1"])
    else
      StrValue(val)
  }

  /** The other spellings accepted by the membership test stay text, because the guard admits only `true`/`false`. */
  lemma CoerceValueExamples()
    ensures CoerceValue("TRUE") == BoolValue(true)
    ensures CoerceValue("False") == BoolValue(false)
    ensures CoerceValue("yes") == StrValue("yes")
    ensures CoerceValue("1") == StrValue("1")
  {
  }

  /**
   * Parsing one filter: rejected unless it holds exactly one `=`; otherwise the
   * stripped attribute and the coerced stripped value.
   */
  function ParseFilter(filter: string): (r: Result<(string, FilterValue), Error>)
    ensures r.Err? <==> Count(filter, '=') != 1
    ensures r.Err? ==> r.error == InvalidCommandLineError(FilterFormatMessage)
    ensures r.Ok? ==> Trimmed(r.value.0) && (r.value.1.StrValue? ==> Trimmed(r.value.1.s))
  {
    SplitPieces(filter, '=');
    var parts := Split(filter, '=');
    if |parts| != 2 then
      Err(InvalidCommandLineError(FilterFormatMessage))
    else
      StripIsTrimmedInfix(parts[0]);
      StripIsTrimmedInfix(parts[1]);
      Ok((Strip(parts[0]), CoerceValue(Strip(parts[1]))))
  }

  /** Any attribute and value without `=` of their own, joined by `=`, parse to their stripped forms. */
  lemma ParseFilterOfPair(attribute: string, value: string)
    requires '=' !in attribute && '=' !in value
    ensures ParseFilter(attribute + "=" + value) == Ok((Strip(attribute), CoerceValue(Strip(value))))
  {
    var parts := [attribute, value];
    assert Join(parts, '=') == attribute + "=" + value;
    SplitOfJoin(parts, '=');
  }

  /** A filter with exactly one `=` is an attribute, `=`, a value, and parses as `ParseFilterOfPair` says. */
  lemma ParseFilterSplitsAtEquals(filter: string) returns (attribute: string, value: string)
    requires Count(filter, '=') == 1
    ensures '=' !in attribute && '=' !in value
    ensures filter == attribute + "=" + value
    ensures ParseFilter(filter) == Ok((Strip(attribute), CoerceValue(Strip(value))))
  {
    var parts := Split(filter, '=');
    SplitPieces(filter, '=');
    JoinOfSplit(filter, '=');
    attribute, value := parts[0], parts[1];
    assert Join(parts, '=') == attribute + "=" + value;
  }

  /**
   * The whole selection block: nothing is selected without a selector; a
   * missing filter selects with no attribute and no value; every failure is
   * reported as `InstanceNotFoundError` wrapping the format error.
   */
  function SelectionRequest(selector: Option<string>, filter: Option<string>): (r: Result<Option<Selection>, Error>)
    ensures !Truthy(selector) ==> r == Ok(None)
    ensures r.Err? <==> Truthy(selector) && Truthy(filter) && Count(filter.value, '=') != 1
    ensures r.Err? ==> r.error == InstanceNotFoundError(InvalidCommandLineError(FilterFormatMessage))
    ensures r.Ok? && Truthy(selector) ==> r.value.Some? && r.value.value.query == selector.value
    ensures r.Ok? && r.value.Some? ==>
      (r.value.value.sel.None? <==> !Truthy(filter)) && (r.value.value.val.None? <==> !Truthy(filter))
    ensures r.Ok? && Truthy(selector) && Truthy(filter) ==>
      ParseFilter(filter.value).Ok? &&
      r.value == Some(Selection(selector.value, Some(ParseFilter(filter.value).value.0),
                                Some(ParseFilter(filter.value).value.1)))
  {
    if !Truthy(selector) then
      Ok(None)
    else if !Truthy(filter) then
      Ok(Some(Selection(selector.value, None, None)))
    else
      match ParseFilter(filter.value)
      case Err(e) => Err(InstanceNotFoundError(e))
      case Ok((sel, val)) => Ok(Some(Selection(selector.value, Some(sel), Some(val))))
  }
}
