/**
 * The validator's configuration and the outside world it depends on.
 */
module Configuration {
  import opened Outcomes
  import opened JsonValues
  import opened Results

  /** `ignoreError(error, value, schema, spec)`: true drops the error. */
  type IgnoreHook = (ValidationError, Json, Json, Json) -> bool

  /**
   * `customValidation(test, schema, spec, trace, errors, resolve, reject)`:
   * resolves with further errors or rejects the whole validation.
   */
  type CustomHook = (Json, Json, Json, Trace, seq<ValidationError>) -> Outcome<seq<ValidationError>>

  datatype Config = Config(
    allowAdditionalProperties: bool,
    allowXNullable: bool,
    ignoreError: Option<IgnoreHook>,
    customValidation: Option<CustomHook>)

  /**
   * What the validator takes from its environment: `RegExp.prototype.test`
   * (`None` when the pattern does not compile), loading an external file or
   * URL (read or download, parse, relative-reference rewriting), the text
   * of a number that is not a small integer, and the number a text denotes
   * when a comparison converts it.
   */
  datatype Env = Env(
    regexTest: (string, string) -> Option<bool>,
    loadExternal: string -> Outcome<Json>,
    numberFormat: NumberFormat,
    numberParse: NumberParse)

  /** Everything a validation step can see besides the value, schema and trace. */
  datatype Context = Context(spec: Json, config: Config, env: Env)
}
