/** `AppConfig::from_env`: nine variables read in field order, the first
    missing one aborting start-up, and the port parsed as a `u16` with a
    fallback. The process environment is a map from names to values. */
module Config {
  import opened Wrappers

  /** A variable as `std::env::var` sees it. */
  datatype EnvValue = NotUnicode | Set(text: string)

  /** A name absent from the map is unset. */
  type Environment = map<string, EnvValue>

  datatype AppConfig = AppConfig(
    supabaseUrl: string,
    supabaseAnonKey: string,
    supabaseServiceRoleKey: string,
    supabaseJwtSecret: string,
    databaseUrl: string,
    livekitUrl: string,
    livekitApiKey: string,
    livekitApiSecret: string,
    backendPort: int)

  /** The variables, in the order `from_env` reads them. */
  const Keys: seq<string> := [
    "SUPABASE_URL", "SUPABASE_ANON_KEY", "SUPABASE_SERVICE_ROLE_KEY", "SUPABASE_JWT_SECRET",
    "DATABASE_URL", "LIVEKIT_URL", "LIVEKIT_API_KEY", "LIVEKIT_API_SECRET", "BACKEND_PORT"]

  const DefaultPort: int := 8080
  const MaxU16: int := 0xFFFF

  function MissingMessage(key: string): string {
    "Missing environment variable: " + key
  }

  /** `env(key)`: the value, or the panic message when it is unset or not
      valid Unicode. */
  function Var(env: Environment, key: string): (r: Result<string, string>)
    ensures r.Ok? <==> key in env && env[key].Set?
    ensures r.Ok? ==> r.value == env[key].text
    ensures r.Err? ==> r.error == MissingMessage(key)
  {
    if key in env && env[key].Set? then Ok(env[key].text) else Err(MissingMessage(key))
  }

  predicate IsDigit(ch: char) {
    '0' <= ch <= '9'
  }

  /** The number a non-empty string of decimal digits spells. */
  function DigitsValue(s: string): (n: nat)
    requires forall i :: 0 <= i < |s| ==> IsDigit(s[i])
    decreases |s|
  {
    if |s| == 0 then 0
    else
      assert IsDigit(s[|s| - 1]);
      DigitsValue(s[..|s| - 1]) * 10 + (s[|s| - 1] as int - '0' as int)
  }

  /** `u16::from_str`: an optional `+`, then at least one ASCII digit, and a
      value no larger than 65535. Anything else (including a `-` sign) is an
      error. */
  function ParseU16(s: string): (r: Option<int>)
    ensures r.Some? ==> 0 <= r.value <= MaxU16
    ensures r.Some? <==>
      var digits := if |s| > 0 && s[0] == '+' then s[1..] else s;
      && |digits| > 0
      && (forall i :: 0 <= i < |digits| ==> IsDigit(digits[i]))
      && DigitsValue(digits) <= MaxU16
    ensures r.Some? ==>
      var digits := if |s| > 0 && s[0] == '+' then s[1..] else s;
      (forall i :: 0 <= i < |digits| ==> IsDigit(digits[i])) && r.value == DigitsValue(digits)
  {
    var digits := if |s| > 0 && s[0] == '+' then s[1..] else s;
    if |digits| == 0 then None
    else if exists i :: 0 <= i < |digits| && !IsDigit(digits[i]) then None
    else
      var n := DigitsValue(digits);
      if n <= MaxU16 then Some(n) else None
  }

  /** The decimal digits of `n`, most significant first, without leading zeros. */
  function Decimal(n: nat): (s: string)
    ensures |s| > 0 && forall i :: 0 <= i < |s| ==> IsDigit(s[i])
    ensures n > 0 ==> s[0] != '0'
    decreases n
  {
    var d := ('0' as int + n % 10) as char;
    if n < 10 then [d] else Decimal(n / 10) + [d]
  }

  lemma {:induction false} DecimalValue(n: nat)
    ensures DigitsValue(Decimal(n)) == n
    decreases n
  {
    if n >= 10 {
      DecimalValue(n / 10);
      var s := Decimal(n);
      assert s[..|s| - 1] == Decimal(n / 10);
    }
  }

  /** Every port prints and parses back to itself, with or without a `+`. */
  lemma ParsePortRoundTrip(n: nat)
    requires n <= MaxU16
    ensures ParseU16(Decimal(n)) == Some(n)
    ensures ParseU16("+" + Decimal(n)) == Some(n)
  {
    DecimalValue(n);
    assert ("+" + Decimal(n))[1..] == Decimal(n);
  }

  /** `AppConfig::from_env`: the first unreadable variable, in field order,
      is the panic; otherwise every string field is its variable verbatim
      and the port is `BACKEND_PORT` parsed, or 8080 when it does not parse. */
  function FromEnv(env: Environment): (r: Result<AppConfig, string>)
    ensures r.Ok? <==> forall i :: 0 <= i < |Keys| ==> Var(env, Keys[i]).Ok?
    ensures r.Err? ==>
      exists i :: 0 <= i < |Keys| && Var(env, Keys[i]).Err?
        && r.error == MissingMessage(Keys[i])
        && forall j :: 0 <= j < i ==> Var(env, Keys[j]).Ok?
    ensures r.Ok? ==>
      && r.value.supabaseUrl == env[Keys[0]].text
      && r.value.supabaseAnonKey == env[Keys[1]].text
      && r.value.supabaseServiceRoleKey == env[Keys[2]].text
      && r.value.supabaseJwtSecret == env[Keys[3]].text
      && r.value.databaseUrl == env[Keys[4]].text
      && r.value.livekitUrl == env[Keys[5]].text
      && r.value.livekitApiKey == env[Keys[6]].text
      && r.value.livekitApiSecret == env[Keys[7]].text
      && r.value.backendPort == ParseU16(env[Keys[8]].text).GetOr(DefaultPort)
  {
    var supabaseUrl :- Var(env, Keys[0]);
    var anonKey :- Var(env, Keys[1]);
    var serviceKey :- Var(env, Keys[2]);
    var jwtSecret :- Var(env, Keys[3]);
    var databaseUrl :- Var(env, Keys[4]);
    var livekitUrl :- Var(env, Keys[5]);
    var apiKey :- Var(env, Keys[6]);
    var apiSecret :- Var(env, Keys[7]);
    var port :- Var(env, Keys[8]);
    Ok(AppConfig(supabaseUrl, anonKey, serviceKey, jwtSecret, databaseUrl, livekitUrl, apiKey, apiSecret,
                 ParseU16(port).GetOr(DefaultPort)))
  }

  /** The names are distinct, so each field reads its own variable. */
  lemma KeysDistinct()
    ensures |Keys| == 9
    ensures forall i, j :: 0 <= i < j < |Keys| ==> Keys[i] != Keys[j]
  {
  }

  /** An unset `BACKEND_PORT` aborts start-up even when everything else is
      set: the variable is read before it is parsed. */
  lemma MissingPortAborts(env: Environment)
    requires forall i :: 0 <= i < 8 ==> Var(env, Keys[i]).Ok?
    requires Keys[8] !in env
    ensures FromEnv(env) == Err(MissingMessage("BACKEND_PORT"))
  {
  }

  /** A `BACKEND_PORT` that is not a `u16` falls back to 8080. */
  lemma BadPortFallsBack(env: Environment)
    requires forall i :: 0 <= i < |Keys| ==> Var(env, Keys[i]).Ok?
    requires ParseU16(Var(env, Keys[8]).value).None?
    ensures FromEnv(env).Ok? && FromEnv(env).value.backendPort == DefaultPort
  {
  }
}
