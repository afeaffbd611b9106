/**
  * Building the retriever tool from a YAML configuration file
  * (`config_loader.py`).
  *
  * Reading and parsing the file is a parameter: a `ConfigFile` is what
  * `Path.exists` and `yaml.safe_load` produced. The parsed document is a
  * `Value`, and Python's truthiness, `in` and `[...]` on it are modelled
  * explicitly: `in` is a key test on a mapping, an element test on a list
  * and a substring test on a string, and raises `TypeError` on `None`, a
  * boolean or a number; `[...]` with a string key raises `TypeError` on
  * anything but a mapping.
  */
module ConfigLoader {
  import opened Wrappers

  /** A parsed YAML document (keys of mappings are strings). */
  datatype Value =
    | VNull
    | VBool(b: bool)
    | VInt(i: int)
    | VStr(s: string)
    | VList(items: seq<Value>)
    | VMap(entries: map<string, Value>)

  /** Python truthiness: `None`, `False`, `0` and empty containers are false. */
  predicate Truthy(v: Value) {
    match v
    case VNull => false
    case VBool(b) => b
    case VInt(i) => i != 0
    case VStr(s) => s != ""
    case VList(items) => items != []
    case VMap(entries) => entries != map[]
  }

  /** What reading the file gave: no such file, a YAML syntax error, or a
      document (`None` for an empty file). */
  datatype ConfigFile = Missing | Malformed | Parsed(doc: Value)

  /** The exceptions of the loader. */
  datatype ConfigError =
    | FileNotFound
    | YamlError
    | EmptyConfig
    | MissingField(field: string)
    | EmptyToken
    | TypeMismatch

  const TokenKey: string := "github_token"
  const ModelKey: string := "ollama_model"
  const DefaultModel: string := "llama2"

  /** The fields `validate_config` requires. */
  const RequiredFields: seq<string> := [TokenKey]

  /** `load_config`: the parsed document, unless the file is missing,
      malformed, or its document is falsy. */
  function LoadConfig(file: ConfigFile): (r: Result<Value, ConfigError>)
    ensures r.Ok? <==> file.Parsed? && Truthy(file.doc)
    ensures r.Ok? ==> r.value == file.doc
    ensures file.Missing? ==> r == Err(FileNotFound)
    ensures file.Malformed? ==> r == Err(YamlError)
    ensures file.Parsed? && !Truthy(file.doc) ==> r == Err(EmptyConfig)
  {
    match file
    case Missing => Err(FileNotFound)
    case Malformed => Err(YamlError)
    case Parsed(doc) => if !Truthy(doc) then Err(EmptyConfig) else Ok(doc)
  }

  /** `needle` is a substring of `hay`. */
  predicate Occurs(needle: string, hay: string)
    decreases |hay|
  {
    |needle| <= |hay| && (hay[..|needle|] == needle || Occurs(needle, hay[1..]))
  }

  /** Python's `key in config`: a key test on a mapping, an element test on
      a list, a substring test on a string, a `TypeError` otherwise. */
  function Contains(config: Value, key: string): Result<bool, ConfigError> {
    match config
    case VMap(entries) => Ok(key in entries)
    case VList(items) => Ok(VStr(key) in items)
    case VStr(s) => Ok(Occurs(key, s))
    case _ => Err(TypeMismatch)
  }

  /** The outcome of testing `fields` in order: the first field not present
      (or the first `TypeError`), else success. */
  function CheckFields(config: Value, fields: seq<string>): Outcome<ConfigError>
    decreases |fields|
  {
    if fields == [] then Pass
    else
      match Contains(config, fields[0])
      case Err(e) => Fail(e)
      case Ok(false) => Fail(MissingField(fields[0]))
      case Ok(true) => CheckFields(config, fields[1..])
  }

  /** The outcome of `validate_config`: the required fields, then the token's
      truthiness (`config["github_token"]` is a `TypeError` on anything but
      a mapping). */
  function Validation(config: Value): Outcome<ConfigError> {
    match CheckFields(config, RequiredFields)
    case Fail(e) => Fail(e)
    case Pass =>
      if !config.VMap? || TokenKey !in config.entries then Fail(TypeMismatch)
      else if !Truthy(config.entries[TokenKey]) then Fail(EmptyToken)
      else Pass
  }

  /** A configuration the loader accepts: a mapping with a truthy token. */
  predicate IsValidConfig(config: Value) {
    config.VMap? && TokenKey in config.entries && Truthy(config.entries[TokenKey])
  }

  /** `validate_config` passes exactly on a mapping with a truthy token. On a
      mapping a missing token is reported as missing before its emptiness is
      considered, and a present but falsy token as empty. */
  lemma ValidationSpec(config: Value)
    ensures Validation(config) == Pass <==> IsValidConfig(config)
    ensures config.VMap? && TokenKey !in config.entries ==>
      Validation(config) == Fail(MissingField(TokenKey))
    ensures config.VMap? && TokenKey in config.entries && !Truthy(config.entries[TokenKey]) ==>
      Validation(config) == Fail(EmptyToken)
    ensures !config.VMap? ==> Validation(config).Fail?
  {
    assert RequiredFields[0] == TokenKey;
    assert RequiredFields[1..] == [];
    assert CheckFields(config, RequiredFields[1..]) == Pass;
  }

  /** `validate_config`: the loop over the required fields, then the token
      check. */
  method ValidateConfig(config: Value) returns (r: Outcome<ConfigError>)
    ensures r == Validation(config)
  {
    for i := 0 to |RequiredFields|
      invariant CheckFields(config, RequiredFields) == CheckFields(config, RequiredFields[i..])
    {
      var present := Contains(config, RequiredFields[i]);
      if present.Err? {
        return Fail(present.error);
      }
      if !present.value {
        return Fail(MissingField(RequiredFields[i]));
      }
      assert RequiredFields[i..][1..] == RequiredFields[i + 1..];
    }
    if !config.VMap? || TokenKey !in config.entries {
      return Fail(TypeMismatch);
    }
    if !Truthy(config.entries[TokenKey]) {
      return Fail(EmptyToken);
    }
    return Pass;
  }

  /** What the tool is built from: the access token and the model name
      given to the chat model. */
  datatype ToolSettings = ToolSettings(accessToken: Value, modelName: Value)

  /** `config.get("ollama_model", "llama2")`. */
  function ModelName(config: map<string, Value>): (name: Value)
    ensures ModelKey in config ==> name == config[ModelKey]
    ensures ModelKey !in config ==> name == VStr(DefaultModel)
  {
    if ModelKey in config then config[ModelKey] else VStr(DefaultModel)
  }

  /** What `create_tool_from_config` yields for a file. */
  function ToolFromConfig(file: ConfigFile): Result<ToolSettings, ConfigError> {
    match LoadConfig(file)
    case Err(e) => Err(e)
    case Ok(config) =>
      match Validation(config)
      case Fail(e) => Err(e)
      case Pass => Ok(ToolSettings(config.entries[TokenKey], ModelName(config.entries)))
  }

  /** A tool is built exactly from a file holding a mapping with a truthy
      token; the token is passed through unchanged and the model name
      defaults to llama2. An empty or falsy document is rejected as empty,
      before validation. */
  lemma ToolFromConfigSpec(file: ConfigFile)
    ensures ToolFromConfig(file).Ok? <==> file.Parsed? && IsValidConfig(file.doc)
    ensures ToolFromConfig(file).Ok? ==>
      ToolFromConfig(file).value.accessToken == file.doc.entries[TokenKey]
      && ToolFromConfig(file).value.modelName == ModelName(file.doc.entries)
    ensures file.Parsed? && !Truthy(file.doc) ==> ToolFromConfig(file) == Err(EmptyConfig)
    ensures file.Parsed? && file.doc.VMap? && file.doc.entries != map[] && TokenKey !in file.doc.entries ==>
      ToolFromConfig(file) == Err(MissingField(TokenKey))
  {
    if file.Parsed? {
      ValidationSpec(file.doc);
    }
  }

  /** `create_tool_from_config`: load, validate, pick the model, build. */
  method CreateToolFromConfig(file: ConfigFile) returns (r: Result<ToolSettings, ConfigError>)
    ensures r == ToolFromConfig(file)
  {
    var loaded := LoadConfig(file);
    if loaded.Err? {
      return Err(loaded.error);
    }
    var config := loaded.value;
    var verdict := ValidateConfig(config);
    if verdict.Fail? {
      return Err(verdict.error);
    }
    var modelName := ModelName(config.entries);
    return Ok(ToolSettings(config.entries[TokenKey], modelName));
  }

  /** `from_config`: the legacy name, same result. */
  method FromConfig(file: ConfigFile) returns (r: Result<ToolSettings, ConfigError>)
    ensures r == ToolFromConfig(file)
  {
    r := CreateToolFromConfig(file);
  }
}
