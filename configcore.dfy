/** The typed core of the SP configuration: dataclasses whose fields are given explicitly, read
    from the Flask configuration, or (for nested configuration classes) built from it, with every
    field's error collected (`invenio_edugain/build_config/pysaml2_core.py`). */
module ConfigCore {
  import opened Base
  import opened JsonValues

  /** A field's declared type: an ordinary type (whether it is a list or dict type, which decides
      whether string values from the Flask configuration are JSON-parsed), or a nested
      configuration class. */
  datatype FieldType =
    | PlainType(typeName: string, isListOrDict: bool)
    | CoreType(cls: ClassSpec)

  /** A dataclass field: its name, the Flask configuration key from its metadata if it has one,
      and its type. */
  datatype FieldSpec = FieldSpec(name: string, flaskConfigKey: Option<string>, typ: FieldType)

  /** A configuration class: its qualified name and its fields in declaration order. */
  datatype ClassSpec = ClassSpec(name: string, fields: seq<FieldSpec>)

  /** A field's value: the `ABSENT` sentinel, a plain value, or a configuration object. */
  datatype Value =
    | Absent
    | Plain(j: Json)
    | Obj(className: string, attrs: map<string, Value>)

  /** An exception one field contributes. */
  datatype ConfigError =
    | MustPass(field: string)                          // TypeError
    | MustPassEither(field: string, key: string)       // TypeError
    | MissingKey(field: string, key: string)           // KeyError
    | JsonParseFailed(key: string, raw: string, reason: string)
    | CoercionFailed(field: string, typeName: string, reason: string)
      /** The group a nested class raised, noted with the field it was built for. */
    | AutoBuildFailed(field: string, group: ConfigError)
      /** `EdugainConfigCoreExceptionGroup` of a class. */
    | Group(className: string, errors: seq<ConfigError>)

  function Message(e: ConfigError): string {
    match e
    case MustPass(f) => "`" + f + "`: must pass a value for this field"
    case MustPassEither(f, k) => "`" + f + "`: must pass either `" + f + "` or `flask_config` with \"" + k + "\" set"
    case MissingKey(f, k) =>
      "`" + f + "`: no \"" + k + "\" in given `flask_config`\neither add \"" + k + "\" to `flask_config`, or pass `" + f + "`"
    case JsonParseFailed(_, _, reason) => reason
    case CoercionFailed(_, _, reason) => reason
    case AutoBuildFailed(_, group) => Message(group)
    case Group(c, _) => "error when initializing " + c
  }

  /** What the fields are resolved against: the Flask configuration passed (or `None`), the type
      constructors used to coerce, and `json.loads`. */
  datatype Env = Env(
    flaskConfig: Option<map<string, Json>>,
    coerce: (FieldType, Value) -> Result<Value, string>,
    jsonLoads: string -> Result<Json, string>)

  function TypeName(t: FieldType): string {
    match t
    case PlainType(n, _) => n
    case CoreType(c) => c.name
  }

  /** `getattr` on an instance; a field never set reads as `ABSENT`, its default. */
  function Lookup(values: map<string, Value>, name: string): Value {
    if name in values then values[name] else Absent
  }

  /** `coerce_type`: the value passed through the field's type, or the error it raised. */
  function Coerce(f: FieldSpec, v: Value, env: Env): (r: Result<Value, ConfigError>)
    ensures r.Ok? <==> env.coerce(f.typ, v).Ok?
    ensures r.Ok? ==> r.value == env.coerce(f.typ, v).value
    ensures r.Err? ==> r.error == CoercionFailed(f.name, TypeName(f.typ), env.coerce(f.typ, v).error)
  {
    match env.coerce(f.typ, v)
    case Ok(value) => Ok(value)
    case Err(reason) => Err(CoercionFailed(f.name, TypeName(f.typ), reason))
  }

  /** `get_field_value_from_flask_config`. */
  function FromFlaskConfig(f: FieldSpec, env: Env): (r: Result<Value, ConfigError>)
    ensures f.flaskConfigKey.None? ==> r == Err(MustPass(f.name))
    ensures f.flaskConfigKey.Some? && env.flaskConfig.None? ==> r == Err(MustPassEither(f.name, f.flaskConfigKey.value))
    ensures f.flaskConfigKey.Some? && env.flaskConfig.Some? && f.flaskConfigKey.value !in env.flaskConfig.value ==>
      r == Err(MissingKey(f.name, f.flaskConfigKey.value))
    ensures r.Ok? ==>
      && f.flaskConfigKey.Some? && env.flaskConfig.Some? && f.flaskConfigKey.value in env.flaskConfig.value
      && var raw := env.flaskConfig.value[f.flaskConfigKey.value];
      if raw.JStr? && f.typ.PlainType? && f.typ.isListOrDict then
        env.jsonLoads(raw.s).Ok? && env.coerce(f.typ, Plain(env.jsonLoads(raw.s).value)) == Ok(r.value)
      else
        env.coerce(f.typ, Plain(raw)) == Ok(r.value)
  {
    if f.flaskConfigKey.None? then Err(MustPass(f.name))
    else
      var key := f.flaskConfigKey.value;
      if env.flaskConfig.None? then Err(MustPassEither(f.name, key))
      else if key !in env.flaskConfig.value then Err(MissingKey(f.name, key))
      else
        var raw := env.flaskConfig.value[key];
        if raw.JStr? && f.typ.PlainType? && f.typ.isListOrDict then
          match env.jsonLoads(raw.s)
          case Err(reason) => Err(JsonParseFailed(key, raw.s, reason))
          case Ok(parsed) => Coerce(f, Plain(parsed), env)
        else
          Coerce(f, Plain(raw), env)
  }

  /** What one step of `parse_fields` makes of a field holding `v`: a nested class built from the
      Flask configuration when `v` is `ABSENT`, a value from the Flask configuration for another
      `ABSENT` field, and otherwise `v` coerced. */
  function Resolve(f: FieldSpec, v: Value, env: Env): Result<Value, ConfigError>
    decreases f, 0
  {
    if v.Absent? && f.typ.CoreType? then
      match Constructed(f.typ.cls, map[], env)
      case Ok(obj) => Ok(obj)
      case Err(group) => Err(AutoBuildFailed(f.name, group))
    else if v.Absent? then FromFlaskConfig(f, env)
    else Coerce(f, v, env)
  }

  /** The instance's attributes and the collected exceptions after `parse_fields` visited the
      first `n` fields. */
  datatype ParseState = ParseState(values: map<string, Value>, exceptions: seq<ConfigError>)

  function Parse(cls: ClassSpec, n: nat, values: map<string, Value>, env: Env): ParseState
    requires n <= |cls.fields|
    decreases cls, n
  {
    if n == 0 then ParseState(values, [])
    else
      var s := Parse(cls, n - 1, values, env);
      var f := cls.fields[n - 1];
      Advance(s, f.name, Resolve(f, Lookup(s.values, f.name), env))
  }

  /** One field visited: its resolved value is stored, or its exception collected. */
  function Advance(s: ParseState, name: string, resolved: Result<Value, ConfigError>): ParseState {
    match resolved
    case Ok(v) => ParseState(s.values[name := v], s.exceptions)
    case Err(e) => ParseState(s.values, s.exceptions + [e])
  }

  /** The exception of a resolution, if any. */
  function ErrorsOf(resolved: Result<Value, ConfigError>): seq<ConfigError> {
    match resolved
    case Ok(_) => []
    case Err(e) => [e]
  }

  /** Construction (`__post_init__`): the object, or the group of every field's exception. */
  function Constructed(cls: ClassSpec, values: map<string, Value>, env: Env): Result<Value, ConfigError>
    decreases cls, |cls.fields| + 1
  {
    var s := Parse(cls, |cls.fields|, values, env);
    if s.exceptions != [] then Err(Group(cls.name, s.exceptions)) else Ok(Obj(cls.name, s.values))
  }

  /** A dataclass instance of a configuration class. */
  class ConfigCoreObject {
    const cls: ClassSpec
    var values: map<string, Value>

    constructor (cls: ClassSpec, values: map<string, Value>)
      ensures this.cls == cls && this.values == values
    {
      this.cls := cls;
      this.values := values;
    }

    /** `parse_fields`: every field is visited; a resolved field is set, a failing one keeps its
        value and adds its exception. */
    method ParseFields(env: Env) returns (exceptions: seq<ConfigError>)
      modifies this
      ensures values == Parse(cls, |cls.fields|, old(values), env).values
      ensures exceptions == Parse(cls, |cls.fields|, old(values), env).exceptions
      decreases cls, 1
    {
      ghost var values0 := values;
      exceptions := [];
      for i := 0 to |cls.fields|
        invariant values == Parse(cls, i, values0, env).values
        invariant exceptions == Parse(cls, i, values0, env).exceptions
      {
        var field := cls.fields[i];
        var fieldValue := Lookup(values, field.name);
        var resolved: Result<Value, ConfigError>;
        if fieldValue.Absent? && field.typ.CoreType? {
          var built := Construct(field.typ.cls, map[], env);
          if built.Err? {
            exceptions := exceptions + [AutoBuildFailed(field.name, built.error)];
            continue;
          }
          resolved := built;
        } else if fieldValue.Absent? {
          resolved := FromFlaskConfig(field, env);
          if resolved.Err? {
            exceptions := exceptions + [resolved.error];
            continue;
          }
        } else {
          resolved := Coerce(field, fieldValue, env);
          if resolved.Err? {
            exceptions := exceptions + [resolved.error];
            continue;
          }
        }
        values := values[field.name := resolved.value];
      }
    }
  }

  /** Instantiating a configuration class: `parse_fields` on a fresh instance, then the group
      exception if anything failed. */
  method Construct(cls: ClassSpec, values: map<string, Value>, env: Env) returns (r: Result<Value, ConfigError>)
    ensures r == Constructed(cls, values, env)
    decreases cls, 2
  {
    var obj := new ConfigCoreObject(cls, values);
    var exceptions := obj.ParseFields(env);
    if exceptions != [] {
      return Err(Group(cls.name, exceptions));
    }
    return Ok(Obj(cls.name, obj.values));
  }

  // ---------------------------------------------------------------------------------------------
  // Properties

  /** Dataclass fields have distinct names. */
  predicate DistinctNames(fields: seq<FieldSpec>) {
    forall i, j | 0 <= i < j < |fields| :: fields[i].name != fields[j].name
  }

  /** Each of the first `n` fields resolved on the value the instance was constructed with. */
  function Resolutions(cls: ClassSpec, n: nat, values: map<string, Value>, env: Env): (r: seq<Result<Value, ConfigError>>)
    requires n <= |cls.fields|
    ensures |r| == n
  {
    seq(n, i requires 0 <= i < n => Resolve(cls.fields[i], Lookup(values, cls.fields[i].name), env))
  }

  /** The exceptions among `rs`, in order. */
  function ErrorsAll(rs: seq<Result<Value, ConfigError>>): seq<ConfigError>
    decreases |rs|
  {
    if rs == [] then [] else ErrorsAll(rs[..|rs| - 1]) + ErrorsOf(rs[|rs| - 1])
  }

  /** The exceptions of the fields among the first `n` that fail on their original values, in
      field order. */
  function Failures(cls: ClassSpec, n: nat, values: map<string, Value>, env: Env): seq<ConfigError>
    requires n <= |cls.fields|
  {
    ErrorsAll(Resolutions(cls, n, values, env))
  }

  lemma FailuresStep(cls: ClassSpec, n: nat, values: map<string, Value>, env: Env)
    requires 0 < n <= |cls.fields|
    ensures Failures(cls, n, values, env) == Failures(cls, n - 1, values, env)
      + ErrorsOf(Resolve(cls.fields[n - 1], Lookup(values, cls.fields[n - 1].name), env))
  {
    assert Resolutions(cls, n, values, env)[..n - 1] == Resolutions(cls, n - 1, values, env);
  }

  /** Every field is visited, each on the value it was constructed with: the exceptions are those
      of the failing fields in order, a resolved field holds its resolved value, a failing field
      keeps its value, and no other attribute changes. */
  lemma {:induction false} ParseVisitsEveryField(cls: ClassSpec, n: nat, values: map<string, Value>, env: Env)
    requires n <= |cls.fields| && DistinctNames(cls.fields)
    ensures Parse(cls, n, values, env).exceptions == Failures(cls, n, values, env)
    ensures forall i | 0 <= i < n ::
      var f := cls.fields[i];
      Lookup(Parse(cls, n, values, env).values, f.name)
        == match Resolve(f, Lookup(values, f.name), env) { case Ok(v) => v case Err(_) => Lookup(values, f.name) }
    ensures forall name | forall i | 0 <= i < n :: cls.fields[i].name != name ::
      Lookup(Parse(cls, n, values, env).values, name) == Lookup(values, name)
    decreases n
  {
    if n > 0 {
      ParseVisitsEveryField(cls, n - 1, values, env);
      var s := Parse(cls, n - 1, values, env);
      var f := cls.fields[n - 1];
      assert Lookup(s.values, f.name) == Lookup(values, f.name);
      var resolved := Resolve(f, Lookup(values, f.name), env);
      assert Parse(cls, n, values, env) == Advance(s, f.name, resolved);
      FailuresStep(cls, n, values, env);
      AdvanceLookups(s, f.name, resolved);
      forall i | 0 <= i < n - 1 ensures cls.fields[i].name != f.name {
      }
    }
  }

  /** What one visit does to the attributes and the exceptions. */
  lemma AdvanceLookups(s: ParseState, name: string, resolved: Result<Value, ConfigError>)
    ensures Advance(s, name, resolved).exceptions == s.exceptions + ErrorsOf(resolved)
    ensures Lookup(Advance(s, name, resolved).values, name)
      == match resolved { case Ok(v) => v case Err(_) => Lookup(s.values, name) }
    ensures forall other | other != name :: Lookup(Advance(s, name, resolved).values, other) == Lookup(s.values, other)
  {
  }

  /** Construction fails exactly when some field fails on the value it was given. */
  lemma ConstructedFailsIff(cls: ClassSpec, values: map<string, Value>, env: Env)
    requires DistinctNames(cls.fields)
    ensures Constructed(cls, values, env).Err? <==>
      exists i | 0 <= i < |cls.fields| :: Resolve(cls.fields[i], Lookup(values, cls.fields[i].name), env).Err?
  {
    ParseVisitsEveryField(cls, |cls.fields|, values, env);
    FailuresEmptyIff(cls, |cls.fields|, values, env);
  }

  lemma FailuresEmptyIff(cls: ClassSpec, n: nat, values: map<string, Value>, env: Env)
    requires n <= |cls.fields|
    ensures Failures(cls, n, values, env) == [] <==>
      forall i | 0 <= i < n :: Resolve(cls.fields[i], Lookup(values, cls.fields[i].name), env).Ok?
  {
    var rs := Resolutions(cls, n, values, env);
    ErrorsAllEmptyIff(rs);
    assert forall i | 0 <= i < n :: rs[i] == Resolve(cls.fields[i], Lookup(values, cls.fields[i].name), env);
  }

  lemma {:induction false} ErrorsAllEmptyIff(rs: seq<Result<Value, ConfigError>>)
    ensures ErrorsAll(rs) == [] <==> forall i | 0 <= i < |rs| :: rs[i].Ok?
    decreases |rs|
  {
    if rs != [] {
      var init := rs[..|rs| - 1];
      ErrorsAllEmptyIff(init);
      assert forall i | 0 <= i < |init| :: init[i] == rs[i];
    }
  }

  /** An explicitly passed value wins over the Flask configuration, which is not consulted. */
  lemma ExplicitValueWins(f: FieldSpec, v: Value, env: Env, flaskConfig: Option<map<string, Json>>)
    requires !v.Absent?
    ensures Resolve(f, v, env) == Resolve(f, v, env.(flaskConfig := flaskConfig))
    ensures Resolve(f, v, env) == Coerce(f, v, env)
  {
  }

  /** A nested class left `ABSENT` is built from the same Flask configuration; its group is
      recorded, noted with the field, rather than raised. */
  lemma NestedClassBuilt(f: FieldSpec, env: Env)
    requires f.typ.CoreType?
    ensures Resolve(f, Absent, env).Ok? <==> Parse(f.typ.cls, |f.typ.cls.fields|, map[], env).exceptions == []
    ensures Resolve(f, Absent, env).Ok? ==>
      Resolve(f, Absent, env).value == Obj(f.typ.cls.name, Parse(f.typ.cls, |f.typ.cls.fields|, map[], env).values)
    ensures Resolve(f, Absent, env).Err? ==>
      Resolve(f, Absent, env).error
        == AutoBuildFailed(f.name, Group(f.typ.cls.name, Parse(f.typ.cls, |f.typ.cls.fields|, map[], env).exceptions))
  {
  }

  /** A string from the Flask configuration for a list or dict field that `json.loads` refuses is
      recorded as that failure. */
  lemma JsonParseFailureRecorded(f: FieldSpec, env: Env)
    requires f.typ.PlainType? && f.typ.isListOrDict && f.flaskConfigKey.Some?
    requires env.flaskConfig.Some? && f.flaskConfigKey.value in env.flaskConfig.value
    requires env.flaskConfig.value[f.flaskConfigKey.value].JStr?
    requires env.jsonLoads(env.flaskConfig.value[f.flaskConfigKey.value].s).Err?
    ensures Resolve(f, Absent, env).Err? && Resolve(f, Absent, env).error.JsonParseFailed?
  {
  }

  // ---------------------------------------------------------------------------------------------
  // The configuration classes

  const ModulePrefix := "invenio_edugain.build_config.pysaml2_core."

  /** A field read from the Flask configuration key `key`. */
  function FieldFor(name: string, key: string, typeName: string, isListOrDict: bool): FieldSpec {
    FieldSpec(name, Some(key), PlainType(typeName, isListOrDict))
  }

  /** A nested configuration field: no Flask configuration key, built when not passed. */
  function Nested(name: string, cls: ClassSpec): FieldSpec {
    FieldSpec(name, None, CoreType(cls))
  }

  const ContactsSpec := ClassSpec(ModulePrefix + "Pysaml2ConfigCoreContacts", [
    FieldFor("security_contact_email", "EDUGAIN_CONTACT_SECURITY_EMAIL", "Email", false),
    FieldFor("security_contact_given_name", "EDUGAIN_CONTACT_SECURITY_GIVEN_NAME", "str", false),
    FieldFor("security_contact_sur_name", "EDUGAIN_CONTACT_SECURITY_SUR_NAME", "str", false),
    FieldFor("technical_support_email", "EDUGAIN_CONTACT_SUPPORT_EMAIL", "Email", false),
    FieldFor("technical_support_given_name", "EDUGAIN_CONTACT_SUPPORT_GIVEN_NAME", "str", false),
    FieldFor("technical_support_sur_name", "EDUGAIN_CONTACT_SUPPORT_SUR_NAME", "str", false)])

  const CredentialsSpec := ClassSpec(ModulePrefix + "Pysaml2ConfigCoreCryptographicCredentials", [
    FieldFor("encryption_cert_filepath", "EDUGAIN_ENCRYPTION_CERT", "FilePath", false),
    FieldFor("encryption_key_filepath", "EDUGAIN_ENCRYPTION_KEY", "FilePath", false),
    FieldFor("signing_cert_filepath", "EDUGAIN_SIGNING_CERT", "FilePath", false),
    FieldFor("signing_key_filepath", "EDUGAIN_SIGNING_KEY", "FilePath", false)])

  const EntityCategoriesSpec := ClassSpec(ModulePrefix + "Pysaml2ConfigCoreEntityCategories", [
    FieldFor("geant_coc_compliant", "EDUGAIN_GEANT_COC_COMPLIANT", "bool", false),
    FieldFor("refeds_compliant", "EDUGAIN_REFEDS_COMPLIANT", "bool", false)])

  const OrganizationSpec := ClassSpec(ModulePrefix + "Pysaml2ConfigCoreOrganization", [
    FieldFor("displaynames_by_lang", "EDUGAIN_ORG_DISPLAYNAMES_BY_LANG", "LangDict", true),
    FieldFor("names_by_lang", "EDUGAIN_ORG_NAMES_BY_LANG", "LangDict", true),
    FieldFor("urls_by_lang", "EDUGAIN_ORG_URLS_BY_LANG", "LangDict", true)])

  const ProvidedServiceSpec := ClassSpec(ModulePrefix + "Pysaml2ConfigCoreProvidedService", [
    FieldFor("description_en", "EDUGAIN_SERVICE_DESCRIPTION_EN", "str", false),
    FieldFor("name_en", "EDUGAIN_SERVICE_NAME_EN", "str", false)])

  const UIInfoSpec := ClassSpec(ModulePrefix + "Pysaml2ConfigCoreUIInfo", [
    FieldFor("descriptions_by_lang", "EDUGAIN_UIINFO_DESCRIPTIONS_BY_LANG", "LangDict", true),
    FieldFor("displaynames_by_lang", "EDUGAIN_UIINFO_DISPLAYNAMES_BY_LANG", "LangDict", true),
    FieldFor("information_urls_by_lang", "EDUGAIN_UIINFO_INFO_URLS_BY_LANG", "LangDict", true),
    FieldFor("logos", "EDUGAIN_UIINFO_LOGOS", "LogoList", true),
    FieldFor("privacy_statement_urls_by_lang", "EDUGAIN_UIINFO_PRIVACY_URLS_BY_LANG", "LangDict", true)])

  const Pysaml2ConfigCoreSpec := ClassSpec(ModulePrefix + "Pysaml2ConfigCore", [
    Nested("category", EntityCategoriesSpec),
    Nested("contact", ContactsSpec),
    Nested("credentials", CredentialsSpec),
    Nested("org", OrganizationSpec),
    FieldFor("server_domain_main", "EDUGAIN_MAIN_SERVER_DOMAIN", "str", false),
    FieldFor("server_domain_others", "EDUGAIN_OTHER_SERVER_DOMAINS", "list", true),
    Nested("service", ProvidedServiceSpec),
    Nested("ui_info", UIInfoSpec)])

  /** A field of a nested class with nothing passed and no Flask configuration fails with the
      `TypeError` that names its key. */
  lemma NoFlaskConfigNoValue(f: FieldSpec, env: Env)
    requires f.typ.PlainType? && f.flaskConfigKey.Some? && env.flaskConfig.None?
    ensures Resolve(f, Absent, env) == Err(MustPassEither(f.name, f.flaskConfigKey.value))
  {
  }

  /** With neither values nor a Flask configuration, the entity-category class reports both of its
      fields, in order. */
  lemma EntityCategoriesNeedConfig(env: Env)
    requires env.flaskConfig.None?
    ensures Constructed(EntityCategoriesSpec, map[], env)
      == Err(Group(ModulePrefix + "Pysaml2ConfigCoreEntityCategories", [
           MustPassEither("geant_coc_compliant", "EDUGAIN_GEANT_COC_COMPLIANT"),
           MustPassEither("refeds_compliant", "EDUGAIN_REFEDS_COMPLIANT")]))
  {
    var cls := EntityCategoriesSpec;
    var fs := cls.fields;
    NoFlaskConfigNoValue(fs[0], env);
    NoFlaskConfigNoValue(fs[1], env);
    var s0 := Parse(cls, 0, map[], env);
    assert s0 == ParseState(map[], []);
    var s1 := Parse(cls, 1, map[], env);
    assert Lookup(s0.values, fs[0].name) == Absent;
    assert s1 == ParseState(map[], [MustPassEither(fs[0].name, fs[0].flaskConfigKey.value)]);
    assert Lookup(s1.values, fs[1].name) == Absent;
    assert Parse(cls, 2, map[], env).exceptions
      == [MustPassEither(fs[0].name, fs[0].flaskConfigKey.value), MustPassEither(fs[1].name, fs[1].flaskConfigKey.value)];
  }
}
