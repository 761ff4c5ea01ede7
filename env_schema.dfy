/**
 * The environment schema of the API service (monash-api/src/config/env.js):
 * the listening port, the run mode and the database settings read from the
 * process environment, with their defaults. A failed parse ends the process.
 */
module EnvSchema {
  import opened Wrappers
  import opened Json
  import opened Text
  import opened Zod

  const DefaultPort: string := "4000"
  const DefaultMode: string := "development"
  const Modes: seq<string> := ["development", "uat", "production"]

  /** `z.string().regex(/^\d+$/).transform(Number)` on a present value. */
  function PortText(input: Value): (r: FieldOutcome)
    ensures input.JString? && input.s != [] && AllDigits(input.s) ==> r == Keep(JNumber(DigitsValue(input.s) as real))
    ensures input.JString? && (input.s == [] || !AllDigits(input.s)) ==> r == Reject(Builtin(InvalidRegex))
    ensures !input.JString? ==> r.Reject?
  {
    match input
    case JString(s) => if s != [] && AllDigits(s) then Keep(JNumber(DigitsValue(s) as real)) else Reject(Builtin(InvalidRegex))
    case v => Reject(Builtin(InvalidType("string", TypeName(v))))
  }

  /** `PORT`: a missing value is replaced by the default text, which then goes through the same checks. */
  function Port(input: Option<Value>): (r: FieldOutcome)
    ensures input.Some? ==> r == PortText(input.value)
    ensures input.None? ==> r == Keep(JNumber(4000.0))
  {
    assert DigitsValue(DefaultPort) == 4000 by {
      assert DefaultPort[..3] == "400" && "400"[..2] == "40" && "40"[..1] == "4" && "4"[..0] == [];
    }
    PortText(input.GetOr(JString(DefaultPort)))
  }

  /** `NODE_ENV`: one of the three modes, `development` when missing. */
  function Mode(input: Option<Value>): (r: FieldOutcome)
    ensures input.None? ==> r == Keep(JString(DefaultMode))
    ensures r.Keep? <==> input.None? || (input.value.JString? && input.value.s in Modes)
    ensures input.Some? && input.value.JString? && input.value.s !in Modes ==>
      r == Reject(Builtin(InvalidEnumValue(Modes, input.value.s)))
    ensures r.Keep? && input.Some? ==> r.value == input.value
  {
    match input.GetOr(JString(DefaultMode))
    case JString(s) => if s in Modes then Keep(JString(s)) else Reject(Builtin(InvalidEnumValue(Modes, s)))
    case v => Reject(Builtin(InvalidType(JoinOptions(Modes), TypeName(v))))
  }

  /** `z.string().min(1)`: `DB_HOST`, `DB_USER` and `DB_NAME` must be present and non-empty. */
  function Setting(input: Option<Value>): (r: FieldOutcome)
    ensures r.Keep? <==> input.Some? && input.value.JString? && input.value.s != []
    ensures r.Keep? ==> r.value == input.value
    ensures input.None? ==> r == Reject(Builtin(Required))
    ensures input == Some(JString("")) ==> r == Reject(Builtin(TooSmall(1)))
  {
    match ExpectString(input)
    case Stop(m) => Reject(m)
    case Pass(s) => if |s| < 1 then Reject(Builtin(TooSmall(1))) else Keep(JString(s))
  }

  /** `DB_PASSWORD`: any text, empty when missing. */
  function Password(input: Option<Value>): (r: FieldOutcome)
    ensures input.None? ==> r == Keep(JString(""))
    ensures r.Keep? <==> input.None? || input.value.JString?
    ensures r.Keep? && input.Some? ==> r.value == input.value
  {
    Finish(ExpectString(Some(input.GetOr(JString("")))))
  }

  const Names: seq<string> := ["PORT", "NODE_ENV", "DB_HOST", "DB_USER", "DB_PASSWORD", "DB_NAME"]

  const Schema: Zod.Schema := [
    Field("PORT", Port), Field("NODE_ENV", Mode), Field("DB_HOST", Setting),
    Field("DB_USER", Setting), Field("DB_PASSWORD", Password), Field("DB_NAME", Setting)
  ]

  /** `process.env` as an object: every variable is a string. */
  function EnvFields(env: map<string, string>): (fields: map<string, Value>)
    ensures fields.Keys == env.Keys
    ensures forall k :: k in env ==> fields[k] == JString(env[k])
  {
    map k | k in env :: JString(env[k])
  }

  /** The configuration the module exports, or `None` when the parse fails and the process exits. */
  function LoadConfig(env: map<string, string>): Option<map<string, Value>>
  {
    match ParseFields(Schema, EnvFields(env))
    case Parsed(data) => Some(data)
    case Rejected(_) => None
  }

  /** The variable `name` is missing, or holds a value `ok` accepts. */
  predicate AbsentOr(env: map<string, string>, name: string, ok: string -> bool) {
    name !in env || ok(env[name])
  }

  predicate IsPortText(s: string) { s != [] && AllDigits(s) }

  predicate IsMode(s: string) { s in Modes }

  /** What the environment must hold for the service to start. */
  predicate Acceptable(env: map<string, string>) {
    && AbsentOr(env, "PORT", IsPortText)
    && AbsentOr(env, "NODE_ENV", IsMode)
    && "DB_HOST" in env && env["DB_HOST"] != []
    && "DB_USER" in env && env["DB_USER"] != []
    && "DB_NAME" in env && env["DB_NAME"] != []
  }

  lemma NamesDistinct()
    ensures DistinctNames(Schema)
    ensures forall i :: 0 <= i < |Schema| ==> Schema[i].name == Names[i]
  {
    assert "DB_HOST"[3] != "DB_USER"[3] && "DB_HOST"[3] != "DB_NAME"[3] && "DB_USER"[3] != "DB_NAME"[3];
    assert "DB_HOST"[3] != "DB_PASSWORD"[3] && "DB_USER"[3] != "DB_PASSWORD"[3] && "DB_NAME"[3] != "DB_PASSWORD"[3];
  }

  lemma LookupEnv(env: map<string, string>, name: string)
    ensures Lookup(EnvFields(env), name) == if name in env then Some(JString(env[name])) else None
  {
  }

  lemma PortAccepts(env: map<string, string>)
    ensures !Port(Lookup(EnvFields(env), "PORT")).Reject? <==> AbsentOr(env, "PORT", IsPortText)
  {
    LookupEnv(env, "PORT");
  }

  lemma ModeAccepts(env: map<string, string>)
    ensures !Mode(Lookup(EnvFields(env), "NODE_ENV")).Reject? <==> AbsentOr(env, "NODE_ENV", IsMode)
  {
    LookupEnv(env, "NODE_ENV");
  }

  lemma SettingAccepts(env: map<string, string>, name: string)
    ensures !Setting(Lookup(EnvFields(env), name)).Reject? <==> name in env && env[name] != []
  {
    LookupEnv(env, name);
  }

  lemma PasswordAccepts(env: map<string, string>)
    ensures !Password(Lookup(EnvFields(env), "DB_PASSWORD")).Reject?
  {
    LookupEnv(env, "DB_PASSWORD");
  }

  /** No field rule rejects exactly when the environment is acceptable. */
  lemma NoRejectionIffAcceptable(env: map<string, string>)
    ensures (forall i :: 0 <= i < |Schema| ==> !OutcomeAt(Schema, EnvFields(env), i).Reject?) <==> Acceptable(env)
  {
    var fields := EnvFields(env);
    PortAccepts(env);
    ModeAccepts(env);
    SettingAccepts(env, "DB_HOST");
    SettingAccepts(env, "DB_USER");
    SettingAccepts(env, "DB_NAME");
    PasswordAccepts(env);
    assert OutcomeAt(Schema, fields, 0) == Port(Lookup(fields, "PORT"));
    assert OutcomeAt(Schema, fields, 1) == Mode(Lookup(fields, "NODE_ENV"));
    assert OutcomeAt(Schema, fields, 2) == Setting(Lookup(fields, "DB_HOST"));
    assert OutcomeAt(Schema, fields, 3) == Setting(Lookup(fields, "DB_USER"));
    assert OutcomeAt(Schema, fields, 4) == Password(Lookup(fields, "DB_PASSWORD"));
    assert OutcomeAt(Schema, fields, 5) == Setting(Lookup(fields, "DB_NAME"));
  }

  /** The service starts exactly when the environment is acceptable; otherwise the process exits. */
  lemma LoadSucceedsIffAcceptable(env: map<string, string>)
    ensures LoadConfig(env).Some? <==> Acceptable(env)
  {
    NoRejectionIffAcceptable(env);
    NamesDistinct();
    if Acceptable(env) {
      AcceptedFieldsAreKept(Schema, EnvFields(env));
    } else if ParseFields(Schema, EnvFields(env)).Parsed? {
      ParsedHasNoRejection(Schema, EnvFields(env));
    }
  }

  /** In an acceptable environment every field rule keeps a value: none rejects and none is left out. */
  lemma AllKept(env: map<string, string>)
    requires Acceptable(env)
    ensures forall i :: 0 <= i < |Schema| ==> OutcomeAt(Schema, EnvFields(env), i).Keep?
  {
    var fields := EnvFields(env);
    PortAccepts(env);
    LookupEnv(env, "NODE_ENV");
    LookupEnv(env, "DB_HOST");
    LookupEnv(env, "DB_USER");
    LookupEnv(env, "DB_PASSWORD");
    LookupEnv(env, "DB_NAME");
    assert OutcomeAt(Schema, fields, 0) == Port(Lookup(fields, "PORT"));
    assert OutcomeAt(Schema, fields, 1) == Mode(Lookup(fields, "NODE_ENV"));
    assert OutcomeAt(Schema, fields, 2) == Setting(Lookup(fields, "DB_HOST"));
    assert OutcomeAt(Schema, fields, 3) == Setting(Lookup(fields, "DB_USER"));
    assert OutcomeAt(Schema, fields, 4) == Password(Lookup(fields, "DB_PASSWORD"));
    assert OutcomeAt(Schema, fields, 5) == Setting(Lookup(fields, "DB_NAME"));
  }

  lemma KeptSetting(env: map<string, string>, i: nat)
    requires Acceptable(env) && i < |Schema|
    ensures LoadConfig(env).Some?
    ensures OutcomeAt(Schema, EnvFields(env), i).Keep?
    ensures Names[i] in LoadConfig(env).value
    ensures LoadConfig(env).value[Names[i]] == OutcomeAt(Schema, EnvFields(env), i).value
  {
    AllKept(env);
    NamesDistinct();
    AcceptedFieldsAreKept(Schema, EnvFields(env));
  }

  /** A loaded configuration has exactly the six settings, and no other variable of the environment. */
  lemma LoadedConfigKeys(env: map<string, string>)
    requires Acceptable(env)
    ensures LoadConfig(env).Some?
    ensures forall k :: k in LoadConfig(env).value <==> k in Names
  {
    KeptSetting(env, 0);
    NamesDistinct();
    var data := LoadConfig(env).value;
    forall k | k in data ensures k in Names {
      var i :| 0 <= i < |Schema| && Schema[i].name == k;
      assert k == Names[i];
    }
    forall k | k in Names ensures k in data {
      var i :| 0 <= i < |Names| && Names[i] == k;
      KeptSetting(env, i);
    }
  }

  /**
   * The defaulted values of a loaded configuration: the port as a number
   * (4000 when missing), the mode (`development` when missing) and the
   * password (empty when missing).
   */
  lemma LoadedConfigDefaults(env: map<string, string>)
    requires Acceptable(env)
    ensures LoadConfig(env).Some?
    ensures var data := LoadConfig(env).value;
      && "PORT" in data && data["PORT"] == JNumber(if "PORT" in env then DigitsValue(env["PORT"]) as real else 4000.0)
      && "NODE_ENV" in data && data["NODE_ENV"] == JString(if "NODE_ENV" in env then env["NODE_ENV"] else DefaultMode)
      && "DB_PASSWORD" in data && data["DB_PASSWORD"] == JString(if "DB_PASSWORD" in env then env["DB_PASSWORD"] else "")
  {
    KeptSetting(env, 0);
    KeptSetting(env, 1);
    KeptSetting(env, 4);
  }

  /** The three database settings of a loaded configuration are the environment's values as given. */
  lemma LoadedConfigSettings(env: map<string, string>)
    requires Acceptable(env)
    ensures LoadConfig(env).Some?
    ensures var data := LoadConfig(env).value;
      && "DB_HOST" in data && data["DB_HOST"] == JString(env["DB_HOST"])
      && "DB_USER" in data && data["DB_USER"] == JString(env["DB_USER"])
      && "DB_NAME" in data && data["DB_NAME"] == JString(env["DB_NAME"])
  {
    KeptSetting(env, 2);
    KeptSetting(env, 3);
    KeptSetting(env, 5);
  }

  /** Variables the schema does not name have no effect on the configuration. */
  lemma UnrelatedVariableIgnored(env: map<string, string>, name: string, value: string)
    requires name !in Names
    ensures LoadConfig(env[name := value]) == LoadConfig(env)
    ensures LoadConfig(env - {name}) == LoadConfig(env)
  {
    NamesDistinct();
    assert EnvFields(env[name := value]) == EnvFields(env)[name := JString(value)];
    assert EnvFields(env - {name}) == EnvFields(env) - {name};
    UnlistedKeyIgnored(Schema, EnvFields(env), name, JString(value));
  }
}
