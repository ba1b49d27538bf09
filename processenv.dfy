/** The configuration the validator reads: the process's environment
    variables after the optional `.env` file has been merged in.  A value is
    a string or absent (`undefined`); `order` is the enumeration order of
    `Object.keys(process.env)`. */
module ProcessEnv {
  import opened JsText
  import opened Seqs

  datatype Option<T> = None | Some(value: T)

  datatype Config = Config(values: map<string, string>, order: seq<string>)

  /** The enumeration order names every variable exactly once. */
  ghost predicate WellFormed(cfg: Config) {
    && Distinct(cfg.order)
    && forall n :: n in cfg.values <==> n in cfg.order
  }

  /** `process.env[name]` */
  function Get(cfg: Config, name: string): Option<string> {
    if name in cfg.values then Some(cfg.values[name]) else None
  }

  /** JavaScript truthiness of a `string | undefined`: `undefined` and `""`
      are falsy, every other string is truthy. */
  predicate Truthy(v: Option<string>) {
    v.Some? && v.value != ""
  }

  /** `value` is truthy: the guard `if (value)` of the format, insecure and
      placeholder checks. */
  predicate IsSet(cfg: Config, name: string) {
    Truthy(Get(cfg, name))
  }

  /** `!value || value.trim() === ''`: the test of the required and the
      recommended checks. */
  predicate MissingOrBlank(cfg: Config, name: string) {
    !IsSet(cfg, name) || IsBlank(cfg.values[name])
  }

  /** `process.env.NODE_ENV || 'development'`, read once when the validator
      is constructed. */
  function ActiveEnvironment(nodeEnv: Option<string>): (env: string)
    ensures env != ""
    ensures nodeEnv.Some? && nodeEnv.value != "" ==> env == nodeEnv.value
  {
    if Truthy(nodeEnv) then nodeEnv.value else "development"
  }
}
