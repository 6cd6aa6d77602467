/** The application environment named by the `APP_ENV` setting, and the validator that reads it. */
module Config {
  import opened Primitives

  datatype AppEnvironment = Local | Development | Production

  /**
   * The integer each constant has in the `iota` enumeration: Local is 0,
   * Development 1 and Production 2, so distinct constants never share one.
   */
  function Ordinal(env: AppEnvironment): (n: int)
    ensures 0 <= n < 3
    ensures n == 0 <==> env.Local?
    ensures n == 1 <==> env.Development?
    ensures n == 2 <==> env.Production?
  {
    match env
    case Local => 0
    case Development => 1
    case Production => 2
  }

  /** The one spelling the validator accepts for each environment. */
  function Name(env: AppEnvironment): string
  {
    match env
    case Local => "local"
    case Development => "development"
    case Production => "production"
  }

  /**
   * Accepts exactly the three lower-case names; any other string, including
   * a change of letter case or the empty string, is an "unknown environment"
   * error that carries the offending string.
   */
  function ValidateAppEnvironment(v: string): (r: Result<AppEnvironment, string>)
    ensures r.Success? ==> Name(r.value) == v
    ensures forall env :: Name(env) == v ==> r == Success(env)
    ensures r.Failure? ==> r.error == "unknown environment: " + v
  {
    match v
    case "local" => Success(Local)
    case "development" => Success(Development)
    case "production" => Success(Production)
    case _ => Failure("unknown environment: " + v)
  }

  /**
   * The three accepted names map to three distinct constants: two accepted
   * strings are equal exactly when their environments have the same ordinal.
   */
  lemma AcceptedNamesDistinct(v1: string, v2: string)
    requires ValidateAppEnvironment(v1).Success? && ValidateAppEnvironment(v2).Success?
    ensures v1 == v2 <==> Ordinal(ValidateAppEnvironment(v1).value) == Ordinal(ValidateAppEnvironment(v2).value)
  {
  }
}
