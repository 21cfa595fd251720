/** Loading a workspace folder's configuration file and reading the stage-specific
    workspace name out of it (the `core.workspace.<environment>` entry). */
module Config {
  import opened Common

  /** The default configuration file name of a workspace folder. */
  const CONFIG_FILE: string := "config.yml"

  /** The Python type a non-mapping YAML value loads as. */
  datatype ValueType = StrType | IntType | FloatType | BoolType | NoneType | ListType

  /** A parsed YAML document: a mapping, or any other value carried as its Python
      type and its text. An empty document loads as `None`. */
  datatype Yaml = YMap(entries: map<string, Yaml>) | YScalar(valueType: ValueType, text: string)

  /** The text of the TypeError that subscripting a value of type `t` with a string
      key raises, as Python 3.11 and later word it. */
  function SubscriptErrorMessage(t: ValueType): string
  {
    match t
    case StrType => "string indices must be integers, not 'str'"
    case ListType => "list indices must be integers or slices, not str"
    case IntType => "'int' object is not subscriptable"
    case FloatType => "'float' object is not subscriptable"
    case BoolType => "'bool' object is not subscriptable"
    case NoneType => "'NoneType' object is not subscriptable"
  }

  /** What reading the configuration file found; the read and the YAML parse are
      input/output and arrive here already done. */
  datatype ConfigFile = Absent | Malformed(diagnostic: string) | Parsed(document: Yaml)

  function FileNotFoundMessage(configFilename: string, workspaceFolder: string): string
  {
    configFilename + " not found in " + workspaceFolder
  }

  /** `load_workspace_config`: a missing file raises FileNotFoundError naming the
      file and the folder; a malformed one lets the YAML error through. */
  function LoadWorkspaceConfig(workspaceFolder: string, configFilename: string, file: ConfigFile): (r: Result<Yaml, Error>)
    ensures file.Absent? <==> r == Err(Error(FileNotFoundError, FileNotFoundMessage(configFilename, workspaceFolder)))
    ensures file.Malformed? <==> r.Err? && r.error.kind.YamlError?
    ensures file.Parsed? <==> r.Ok?
    ensures file.Parsed? ==> r == Ok(file.document)
  {
    match file
    case Absent => Err(Error(FileNotFoundError, FileNotFoundMessage(configFilename, workspaceFolder)))
    case Malformed(d) => Err(Error(YamlError, d))
    case Parsed(doc) => Ok(doc)
  }

  /** `value[key]`: a mapping gives the key's value or raises KeyError with the key
      as its message; any other value raises the TypeError of its type. */
  function Index(value: Yaml, key: string): (r: Result<Yaml, Error>)
    ensures r.Ok? <==> value.YMap? && key in value.entries
    ensures r.Ok? ==> r.value == value.entries[key]
    ensures value.YMap? && key !in value.entries ==> r == Err(Error(KeyError, key))
    ensures value.YScalar? ==> r == Err(Error(TypeError, SubscriptErrorMessage(value.valueType)))
  {
    match value
    case YScalar(t, _) => Err(Error(TypeError, SubscriptErrorMessage(t)))
    case YMap(m) => if key in m then Ok(m[key]) else Err(Error(KeyError, key))
  }

  function MissingWorkspaceNameMessage(environment: string): string
  {
    "Workspace name for environment '" + environment + "' not found in config.yml. "
    + "Expected: core.workspace." + environment
  }

  /** The path `core.workspace.<environment>` through nested mappings, ending at a name. */
  ghost predicate HasNameAt(config: Yaml, environment: string, name: string)
  {
    && config.YMap? && "core" in config.entries
    && config.entries["core"].YMap? && "workspace" in config.entries["core"].entries
    && config.entries["core"].entries["workspace"].YMap?
    && environment in config.entries["core"].entries["workspace"].entries
    && config.entries["core"].entries["workspace"].entries[environment].YScalar?
    && config.entries["core"].entries["workspace"].entries[environment].text == name
  }

  /** One of the three keys is absent while every level above it is a mapping. */
  ghost predicate MissesKey(config: Yaml, environment: string)
  {
    config.YMap? &&
    ("core" !in config.entries ||
     (config.entries["core"].YMap? &&
      ("workspace" !in config.entries["core"].entries ||
       (config.entries["core"].entries["workspace"].YMap? &&
        environment !in config.entries["core"].entries["workspace"].entries))))
  }

  /** `config["core"]["workspace"][environment]`: the name is returned exactly when the
      three nested keys lead to it; a missing key at any level becomes the one KeyError
      naming the environment; indexing into a scalar is a TypeError, not rewritten. */
  function GetWorkspaceNameFromConfig(config: Yaml, environment: string): (r: Result<string, Error>)
    ensures r.Ok? ==> HasNameAt(config, environment, r.value)
    ensures forall name :: HasNameAt(config, environment, name) ==> r == Ok(name)
    ensures MissesKey(config, environment) <==> r == Err(Error(KeyError, MissingWorkspaceNameMessage(environment)))
    ensures r.Err? ==> r.error.kind.KeyError? || r.error.kind.TypeError?
  {
    var level := Index(config, "core");
    var level := if level.Ok? then Index(level.value, "workspace") else level;
    var level := if level.Ok? then Index(level.value, environment) else level;
    match level
    case Ok(YScalar(_, name)) => Ok(name)
    case Ok(YMap(_)) => Err(Error(TypeError, "workspace name is a mapping"))
    case Err(Error(KeyError, _)) => Err(Error(KeyError, MissingWorkspaceNameMessage(environment)))
    case Err(e) => Err(e)
  }

  /** `load_workspace_config` followed by `get_workspace_name_from_config`: the
      name a folder resolves to, or the error that stopped the resolution. */
  function ResolveWorkspaceName(workspaceFolder: string, configFilename: string, file: ConfigFile, environment: string): (r: Result<string, Error>)
    ensures !file.Parsed? ==> r == Err(LoadWorkspaceConfig(workspaceFolder, configFilename, file).error)
    ensures file.Parsed? ==> r == GetWorkspaceNameFromConfig(file.document, environment)
  {
    var config := LoadWorkspaceConfig(workspaceFolder, configFilename, file);
    if config.Err? then Err(config.error) else GetWorkspaceNameFromConfig(config.value, environment)
  }
}
