/** Reading the server's configuration from environment variables: string
    settings with optional defaults, numeric settings read with `parseInt`,
    the configuration object built when the module loads, and the start-up
    check for the two settings without a default. A `throw` is `Thrown`. */
module Env {
  import opened Core
  import opened Text

  /** `process.env` as it is when the module loads. */
  type Vars = map<string, string>

  /** A variable is set when it is present and non-empty (JavaScript truthiness). */
  predicate IsSet(vars: Vars, name: string) { name in vars && |vars[name]| > 0 }

  datatype Setting<T> = Value(value: T) | Thrown(message: string)

  function MissingMessage(name: string): string { "Environment variable " + name + " is required" }
  function NotANumberMessage(name: string): string { "Environment variable " + name + " must be a valid number" }

  /** `getEnvVar(name, default?)`: the variable if set, else a truthy
      default; with neither it throws. An empty default counts as none. */
  function GetEnvVar(vars: Vars, name: string, default: Option<string>): (r: Setting<string>)
    ensures r.Thrown? <==> !IsSet(vars, name) && !IsTruthy(default)
    ensures r.Thrown? ==> r.message == MissingMessage(name)
    ensures IsSet(vars, name) ==> r == Value(vars[name])
    ensures !IsSet(vars, name) && IsTruthy(default) ==> r == Value(default.value)
  {
    if IsSet(vars, name) then Value(vars[name])
    else if IsTruthy(default) then Value(default.value)
    else Thrown(MissingMessage(name))
  }

  /** `getEnvNumber(name, default)`: the default when unset, the decimal
      `parseInt` of the value otherwise, and a throw when that is `NaN`. */
  function GetEnvNumber(vars: Vars, name: string, default: int): (r: Setting<int>)
    ensures !IsSet(vars, name) ==> r == Value(default)
    ensures IsSet(vars, name) ==> (r.Thrown? <==> JsParseInt(vars[name]).None?)
    ensures IsSet(vars, name) && r.Value? ==> r.value == JsParseInt(vars[name]).value
    ensures r.Thrown? ==> r.message == NotANumberMessage(name)
  {
    if !IsSet(vars, name) then Value(default)
    else match JsParseInt(vars[name])
      case None => Thrown(NotANumberMessage(name))
      case Some(n) => Value(n)
  }

  /** A port written out in decimal, possibly followed by a non-digit
      suffix, reads back as that port. */
  lemma {:induction false} PortReadsBack(vars: Vars, port: int, suffix: string)
    requires |suffix| == 0 || !IsDigit(suffix[0])
    requires "PORT" in vars && vars["PORT"] == IntToString(port) + suffix
    ensures GetEnvNumber(vars, "PORT", DefaultPort) == Value(port)
  {
    JsParseIntOfIntToString(port, suffix);
  }

  const DefaultPort := 5000

  datatype Environment = Environment(
    NODE_ENV: string, PORT: int, MONGODB_URI: string, GROQ_API_KEY: string, FRONTEND_URL: string,
    CHROMA_PERSIST_DIR: string, JWT_SECRET: string, JWT_REFRESH_SECRET: string, JWT_EXPIRES_IN: string)

  /** The settings that have defaults, read in declaration order after `NODE_ENV` and `PORT`. */
  function WithDefaults(vars: Vars, port: int, mongo: string, groq: string): (e: Environment)
    ensures e.PORT == port && e.MONGODB_URI == mongo && e.GROQ_API_KEY == groq
    ensures e.NODE_ENV == if IsSet(vars, "NODE_ENV") then vars["NODE_ENV"] else "development"
  {
    Environment(
      GetEnvVar(vars, "NODE_ENV", Some("development")).value, port, mongo, groq,
      GetEnvVar(vars, "FRONTEND_URL", Some("http://localhost:3000")).value,
      GetEnvVar(vars, "CHROMA_PERSIST_DIR", Some("./chromadb")).value,
      GetEnvVar(vars, "JWT_SECRET", Some("your-secret-jwt-key-change-in-production")).value,
      GetEnvVar(vars, "JWT_REFRESH_SECRET", Some("your-refresh-secret-jwt-key-change-in-production")).value,
      GetEnvVar(vars, "JWT_EXPIRES_IN", Some("7d")).value)
  }

  /** The `env` object: the first throwing setting, in declaration order,
      stops the module from loading. */
  function LoadEnv(vars: Vars): (r: Setting<Environment>)
    ensures r.Value? <==>
      IsSet(vars, "MONGODB_URI") && IsSet(vars, "GROQ_API_KEY") &&
      (IsSet(vars, "PORT") ==> JsParseInt(vars["PORT"]).Some?)
    ensures r.Value? ==>
      r.value.MONGODB_URI == vars["MONGODB_URI"] && r.value.GROQ_API_KEY == vars["GROQ_API_KEY"] &&
      r.value.PORT == (if IsSet(vars, "PORT") then JsParseInt(vars["PORT"]).value else DefaultPort) &&
      r.value.NODE_ENV == (if IsSet(vars, "NODE_ENV") then vars["NODE_ENV"] else "development")
    ensures IsSet(vars, "PORT") && JsParseInt(vars["PORT"]).None? ==>
      r == Thrown(NotANumberMessage("PORT"))
  {
    var port := GetEnvNumber(vars, "PORT", DefaultPort);
    var mongo := GetEnvVar(vars, "MONGODB_URI", None);
    var groq := GetEnvVar(vars, "GROQ_API_KEY", None);
    if port.Thrown? then Thrown(port.message)
    else if mongo.Thrown? then Thrown(mongo.message)
    else if groq.Thrown? then Thrown(groq.message)
    else Value(WithDefaults(vars, port.value, mongo.value, groq.value))
  }

  const RequiredNames: seq<string> := ["MONGODB_URI", "GROQ_API_KEY"]

  datatype Validation = Validated | ExitWith(code: int, missing: seq<string>)

  /** `validateEnvironment()`: exit status 1, naming the missing ones, when
      a variable without a default is unset. */
  function ValidateEnvironment(vars: Vars): (r: Validation)
    ensures r.ExitWith? <==> !IsSet(vars, "MONGODB_URI") || !IsSet(vars, "GROQ_API_KEY")
    ensures r.ExitWith? ==> r.code == 1 && |r.missing| > 0
    ensures r.ExitWith? ==> forall i | 0 <= i < |r.missing| :: r.missing[i] in RequiredNames && !IsSet(vars, r.missing[i])
  {
    var missing := Filter(RequiredNames, name => !IsSet(vars, name));
    assert !IsSet(vars, "MONGODB_URI") ==> RequiredNames[0] in missing;
    assert !IsSet(vars, "GROQ_API_KEY") ==> RequiredNames[1] in missing;
    if |missing| > 0 then ExitWith(1, missing) else Validated
  }

  /** Once the `env` object has loaded, the start-up check always passes:
      a missing `MONGODB_URI` or `GROQ_API_KEY` has already thrown. */
  lemma {:induction false} ValidationAfterLoad(vars: Vars)
    requires LoadEnv(vars).Value?
    ensures ValidateEnvironment(vars) == Validated
  {
  }
}
