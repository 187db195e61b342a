/**
 * config/config.go: reading the settings from the environment, with
 * defaults, validation and the milliseconds-to-duration conversion.
 *
 * The environment is a map from variable names to values; a variable that
 * is unset reads as "", as os.Getenv returns. A panic becomes a
 * `ConfigError`. strconv.Atoi and strconv.ParseInt(s, 10, 64) agree on a
 * 64-bit platform and are both `ParseInt64`. Durations are integers of
 * nanoseconds, as time.Duration is.
 */
module Config {
  import opened Wrappers

  type Env = map<string, string>

  const MaxNumberOfWorkersVar := "MAX_NUMBER_OF_WORKERS"
  const SubstringVar := "SUBSTRING"
  const URLRequestTimeoutVar := "URL_REQUEST_TIMEOUT_MILLISECONDS"
  const WorkerShutdownTimeoutVar := "WORKER_SHUTDOWN_TIMEOUT_MILLISECONDS"

  const DefaultMaxNumberOfWorkers := "5"
  const DefaultSubstring := "Go"
  const DefaultTimeoutMs := "60000"

  const Int64Min := -0x8000_0000_0000_0000
  const Int64Max := 0x7fff_ffff_ffff_ffff

  /** time.Millisecond, in nanoseconds. */
  const Millisecond := 1_000_000

  datatype ConfigError =
    | InvalidMaxNumberOfWorkers(got: string)
    | InvalidDuration(envVar: string, got: string)

  /** os.Getenv. */
  function Getenv(env: Env, name: string): string
  {
    if name in env then env[name] else ""
  }

  /** The variable's value, or `defaultValue` when it is unset or empty. */
  function ValueOr(env: Env, name: string, defaultValue: string): (v: string)
    ensures defaultValue != "" ==> v != ""
    ensures Getenv(env, name) != "" ==> v == env[name]
    ensures Getenv(env, name) == "" ==> v == defaultValue
  {
    var v := Getenv(env, name);
    if |v| == 0 then defaultValue else v
  }

  // ---------------------------------------------------------------------------
  // Decimal integers
  // ---------------------------------------------------------------------------

  predicate IsDigit(c: char) { '0' <= c <= '9' }

  predicate AllDigits(s: string)
  {
    forall i :: 0 <= i < |s| ==> IsDigit(s[i])
  }

  /** The number a string of decimal digits denotes (leading zeros allowed). */
  function DigitsValue(ds: string): nat
    requires AllDigits(ds)
  {
    if ds == [] then 0
    else DigitsValue(ds[..|ds| - 1]) * 10 + (ds[|ds| - 1] as int - '0' as int)
  }

  /**
   * strconv.ParseInt(s, 10, 64): an optional '+' or '-', then one or more
   * decimal digits and nothing else, denoting a value in the int64 range.
   */
  function ParseInt64(s: string): (r: Option<int>)
    ensures r.Some? ==> Int64Min <= r.value <= Int64Max
    ensures r.Some? ==> |s| > 0 && (IsDigit(s[0]) || s[0] == '+' || s[0] == '-') && AllDigits(s[1..])
    ensures r.Some? && r.value < 0 ==> s[0] == '-'
  {
    var signed := |s| > 0 && (s[0] == '+' || s[0] == '-');
    var ds := if signed then s[1..] else s;
    if ds == [] || !AllDigits(ds) then None
    else
      var v: int := if signed && s[0] == '-' then -(DigitsValue(ds) as int) else DigitsValue(ds);
      if Int64Min <= v <= Int64Max then Some(v) else None
  }

  function DigitChar(d: nat): (c: char)
    requires d < 10
    ensures IsDigit(c) && c as int - '0' as int == d
  {
    ('0' as int + d) as char
  }

  /** strconv.FormatInt(n, 10) for a non-negative n. */
  function FormatNat(n: nat): (s: string)
    ensures |s| > 0 && AllDigits(s)
  {
    if n < 10 then [DigitChar(n)] else FormatNat(n / 10) + [DigitChar(n % 10)]
  }

  /** strconv.FormatInt(i, 10). */
  function FormatInt(i: int): (s: string)
    ensures |s| > 0
  {
    if i < 0 then "-" + FormatNat(-i) else FormatNat(i)
  }

  lemma {:induction false} FormatNatValue(n: nat)
    ensures DigitsValue(FormatNat(n)) == n
  {
    if n >= 10 {
      var s := FormatNat(n);
      assert s[..|s| - 1] == FormatNat(n / 10);
      FormatNatValue(n / 10);
    }
  }

  /** Parsing reads back every int64 that formatting writes. */
  lemma ParseFormatRoundTrip(i: int)
    requires Int64Min <= i <= Int64Max
    ensures ParseInt64(FormatInt(i)) == Some(i)
  {
    var s := FormatInt(i);
    if i < 0 {
      assert s[1..] == FormatNat(-i);
      FormatNatValue(-i);
    } else {
      assert IsDigit(s[0]);
      FormatNatValue(i);
    }
  }

  // ---------------------------------------------------------------------------
  // The individual settings
  // ---------------------------------------------------------------------------

  /** MAX_NUMBER_OF_WORKERS: default "5"; anything but a positive int is refused. */
  function ParseMaxNumberOfWorkers(env: Env): (r: Result<int, ConfigError>)
    ensures r.Success? ==> r.value >= 1
    ensures r.Failure? ==> r.error == InvalidMaxNumberOfWorkers(ValueOr(env, MaxNumberOfWorkersVar, DefaultMaxNumberOfWorkers))
  {
    var str := ValueOr(env, MaxNumberOfWorkersVar, DefaultMaxNumberOfWorkers);
    match ParseInt64(str)
    case Some(n) => if n <= 0 then Failure(InvalidMaxNumberOfWorkers(str)) else Success(n)
    case None => Failure(InvalidMaxNumberOfWorkers(str))
  }

  /** SUBSTRING: default "Go", so the substring is never empty. */
  function SubstringOf(env: Env): (s: string)
    ensures |s| > 0
    ensures Getenv(env, SubstringVar) == "" ==> s == DefaultSubstring
  {
    ValueOr(env, SubstringVar, DefaultSubstring)
  }

  /**
   * `parseDurationMs`: the variable (or the default) read as a whole number
   * of milliseconds that must be at least 1, converted to nanoseconds.
   */
  function ParseDurationMs(env: Env, envVar: string, defaultValue: string): (r: Result<int, ConfigError>)
    ensures r.Success? ==> r.value >= Millisecond && r.value % Millisecond == 0
    ensures r.Failure? ==> r.error == InvalidDuration(envVar, ValueOr(env, envVar, defaultValue))
  {
    var str := ValueOr(env, envVar, defaultValue);
    match ParseInt64(str)
    case Some(ms) => if ms < 1 then Failure(InvalidDuration(envVar, str)) else Success(ms * Millisecond)
    case None => Failure(InvalidDuration(envVar, str))
  }

  /** Any int64 written in decimal is accepted as a worker count exactly when it is positive. */
  lemma MaxNumberOfWorkersAccepted(env: Env, n: int)
    requires Int64Min <= n <= Int64Max
    ensures ParseMaxNumberOfWorkers(env[MaxNumberOfWorkersVar := FormatInt(n)]) ==
      if n >= 1 then Success(n) else Failure(InvalidMaxNumberOfWorkers(FormatInt(n)))
  {
    ParseFormatRoundTrip(n);
  }

  /** Any int64 number of milliseconds written in decimal is accepted exactly when it is at least 1. */
  lemma DurationAccepted(env: Env, envVar: string, defaultValue: string, ms: int)
    requires Int64Min <= ms <= Int64Max
    ensures ParseDurationMs(env[envVar := FormatInt(ms)], envVar, defaultValue) ==
      if ms >= 1 then Success(ms * Millisecond) else Failure(InvalidDuration(envVar, FormatInt(ms)))
  {
    ParseFormatRoundTrip(ms);
  }

  /** A value with a character that is neither a sign nor a digit past the start is refused. */
  lemma NonNumericRefused(env: Env, envVar: string, defaultValue: string, k: nat)
    requires var str := ValueOr(env, envVar, defaultValue); 0 < k < |str| && !IsDigit(str[k])
    ensures ParseDurationMs(env, envVar, defaultValue).Failure?
  {
    var str := ValueOr(env, envVar, defaultValue);
    assert str[1..][k - 1] == str[k];
  }

  /** With every variable unset or empty, the defaults are 5 workers, "Go" and 60000 ms for both timeouts. */
  lemma Defaults(env: Env)
    requires Getenv(env, MaxNumberOfWorkersVar) == "" && Getenv(env, SubstringVar) == ""
    requires Getenv(env, URLRequestTimeoutVar) == "" && Getenv(env, WorkerShutdownTimeoutVar) == ""
    ensures ParseMaxNumberOfWorkers(env) == Success(5)
    ensures SubstringOf(env) == "Go"
    ensures ParseDurationMs(env, URLRequestTimeoutVar, DefaultTimeoutMs) == Success(60_000 * Millisecond)
    ensures ParseDurationMs(env, WorkerShutdownTimeoutVar, DefaultTimeoutMs) == Success(60_000 * Millisecond)
  {
    ParseFormatRoundTrip(5);
    assert FormatInt(5) == DefaultMaxNumberOfWorkers;
    ParseFormatRoundTrip(60_000);
    assert FormatInt(60_000) == DefaultTimeoutMs;
  }

  // ---------------------------------------------------------------------------
  // The Config object
  // ---------------------------------------------------------------------------

  class Config {
    var maxNumberOfWorkers: int
    var urlRequestTimeout: int
    var workerShutdownTimeout: int
    var substring: string

    /** The zero value `&Config{}`. */
    constructor ()
      ensures maxNumberOfWorkers == 0 && urlRequestTimeout == 0 && workerShutdownTimeout == 0 && substring == ""
    {
      maxNumberOfWorkers := 0;
      urlRequestTimeout := 0;
      workerShutdownTimeout := 0;
      substring := "";
    }

    /** The settings a successful load leaves: all valid. */
    ghost predicate Valid()
      reads this
    {
      maxNumberOfWorkers >= 1 && |substring| > 0 &&
      urlRequestTimeout >= Millisecond && workerShutdownTimeout >= Millisecond
    }

    /**
     * `loadFromEnv`: the fields in source order; the first invalid setting
     * stops the load (the panic), with the fields before it already set.
     */
    method LoadFromEnv(env: Env) returns (err: Option<ConfigError>)
      modifies this
      ensures ParseMaxNumberOfWorkers(env).Failure? ==>
        err == Some(ParseMaxNumberOfWorkers(env).error) && unchanged(this)
      ensures ParseMaxNumberOfWorkers(env).Success? ==>
        maxNumberOfWorkers == ParseMaxNumberOfWorkers(env).value && substring == SubstringOf(env)
      ensures ParseMaxNumberOfWorkers(env).Success? && ParseDurationMs(env, URLRequestTimeoutVar, DefaultTimeoutMs).Failure? ==>
        err == Some(ParseDurationMs(env, URLRequestTimeoutVar, DefaultTimeoutMs).error)
      ensures ParseMaxNumberOfWorkers(env).Success? && ParseDurationMs(env, URLRequestTimeoutVar, DefaultTimeoutMs).Success? ==>
        urlRequestTimeout == ParseDurationMs(env, URLRequestTimeoutVar, DefaultTimeoutMs).value &&
        err == (if ParseDurationMs(env, WorkerShutdownTimeoutVar, DefaultTimeoutMs).Failure?
                then Some(ParseDurationMs(env, WorkerShutdownTimeoutVar, DefaultTimeoutMs).error) else None)
      ensures err.None? ==>
        (Valid() && workerShutdownTimeout == ParseDurationMs(env, WorkerShutdownTimeoutVar, DefaultTimeoutMs).value)
    {
      var workers := ParseMaxNumberOfWorkers(env);
      if workers.Failure? {
        return Some(workers.error);
      }
      maxNumberOfWorkers := workers.value;
      substring := SubstringOf(env);
      var url := ParseDurationMs(env, URLRequestTimeoutVar, DefaultTimeoutMs);
      if url.Failure? {
        return Some(url.error);
      }
      urlRequestTimeout := url.value;
      var shutdown := ParseDurationMs(env, WorkerShutdownTimeoutVar, DefaultTimeoutMs);
      if shutdown.Failure? {
        return Some(shutdown.error);
      }
      workerShutdownTimeout := shutdown.value;
      err := None;
    }
  }

  /** `Load`: a fresh Config filled in by `loadFromEnv`. */
  method Load(env: Env) returns (c: Config, err: Option<ConfigError>)
    ensures fresh(c)
    ensures err.None? ==> c.Valid()
    ensures err.None? <==>
      ParseMaxNumberOfWorkers(env).Success? &&
      ParseDurationMs(env, URLRequestTimeoutVar, DefaultTimeoutMs).Success? &&
      ParseDurationMs(env, WorkerShutdownTimeoutVar, DefaultTimeoutMs).Success?
    ensures err.None? ==>
      && c.maxNumberOfWorkers == ParseMaxNumberOfWorkers(env).value
      && c.substring == SubstringOf(env)
      && c.urlRequestTimeout == ParseDurationMs(env, URLRequestTimeoutVar, DefaultTimeoutMs).value
      && c.workerShutdownTimeout == ParseDurationMs(env, WorkerShutdownTimeoutVar, DefaultTimeoutMs).value
  {
    c := new Config();
    err := c.LoadFromEnv(env);
  }
}
