/**
 * The settings conversions: a loaded configuration, seen as the flat map from
 * keys to string values it answers `get_str` with, selects the storage
 * back end.
 */
module Settings {
  import opened Wrappers
  import opened Model

  type Config = map<string, string>

  datatype StorageConfiguration = Database(databaseUrl: string) | InMemory

  datatype Configuration = Configuration(storage: StorageConfiguration)

  const STORAGE_KEY: string := "storage"
  const DATABASE_URL_KEY: string := "DATABASE_URL"
  const DATABASE_URL_PATH: string := "database.url"
  const SETTINGS_CONTEXT: string := "Error loading settings"

  /** The configuration library's message for a missing key. */
  function NotFound(key: string): string
  {
    "configuration property " + DebugString(key) + " not found"
  }

  function InvalidStorage(value: string): string
  {
    value + " is not a valid configuration for storage"
  }

  /** `config.get_str(key)`. */
  function GetStr(config: Config, key: string): (r: Result<string, Chain>)
    ensures r.Ok? <==> key in config
    ensures r.Ok? ==> r.value == config[key]
    ensures r.Err? ==> r.error == [NotFound(key)]
  {
    if key in config then Ok(config[key]) else Err(Message(NotFound(key)))
  }

  /** `TryFrom<Config> for StorageConfiguration`. */
  function StorageFromConfig(config: Config): (r: Result<StorageConfiguration, Chain>)
    ensures r.Ok? <==> (STORAGE_KEY in config
      && (config[STORAGE_KEY] == "inmemory"
          || (config[STORAGE_KEY] == "database" && (DATABASE_URL_KEY in config || DATABASE_URL_PATH in config))))
    ensures r == Ok(InMemory) <==> STORAGE_KEY in config && config[STORAGE_KEY] == "inmemory"
    ensures r.Ok? && r.value.Database? ==>
      r.value.databaseUrl == if DATABASE_URL_KEY in config then config[DATABASE_URL_KEY] else config[DATABASE_URL_PATH]
    ensures STORAGE_KEY !in config ==> r == Err([NotFound(STORAGE_KEY)])
    ensures STORAGE_KEY in config && config[STORAGE_KEY] != "database" && config[STORAGE_KEY] != "inmemory"
      ==> r == Err([InvalidStorage(config[STORAGE_KEY])])
    ensures STORAGE_KEY in config && config[STORAGE_KEY] == "database"
      && DATABASE_URL_KEY !in config && DATABASE_URL_PATH !in config
      ==> r == Err([NotFound(DATABASE_URL_PATH)])
  {
    match GetStr(config, STORAGE_KEY)
    case Err(e) => Err(e)
    case Ok(storage) =>
      if storage == "database" then
        var url := match GetStr(config, DATABASE_URL_KEY)
          case Ok(u) => Ok(u)
          case Err(_) => GetStr(config, DATABASE_URL_PATH);
        match url
        case Ok(u) => Ok(Database(u))
        case Err(e) => Err(e)
      else if storage == "inmemory" then Ok(InMemory)
      else Err(Message(InvalidStorage(storage)))
  }

  /** `TryFrom<Config> for Configuration`: the storage choice, unchanged, or its error under "Error loading settings". */
  function ConfigurationFromConfig(config: Config): (r: Result<Configuration, Chain>)
    ensures r.Ok? <==> StorageFromConfig(config).Ok?
    ensures r.Ok? ==> r.value.storage == StorageFromConfig(config).value
    ensures r.Err? ==> r.error[0] == SETTINGS_CONTEXT && r.error[1..] == StorageFromConfig(config).error
  {
    match StorageFromConfig(config)
    case Ok(storage) => Ok(Configuration(storage))
    case Err(e) => Err(Context(e, SETTINGS_CONTEXT))
  }

  /** Only the three keys are read: configurations that agree on them select the same storage. */
  lemma OnlyThreeKeysRead(c1: Config, c2: Config)
    requires forall k :: k == STORAGE_KEY || k == DATABASE_URL_KEY || k == DATABASE_URL_PATH
               ==> (k in c1 <==> k in c2) && (k in c1 ==> c1[k] == c2[k])
    ensures StorageFromConfig(c1) == StorageFromConfig(c2)
  {
    assert STORAGE_KEY in c1 <==> STORAGE_KEY in c2;
    assert DATABASE_URL_KEY in c1 <==> DATABASE_URL_KEY in c2;
    assert DATABASE_URL_PATH in c1 <==> DATABASE_URL_PATH in c2;
  }

  /** The selector is matched exactly: another spelling of a back end is refused. */
  lemma SelectorIsCaseSensitive()
    ensures StorageFromConfig(map[STORAGE_KEY := "InMemory"]) == Err([InvalidStorage("InMemory")])
  {
    var v := "InMemory";
    assert v[0] != "inmemory"[0] && v[0] != "database"[0];
  }

  /** `DATABASE_URL` wins over `database.url` when both are set. */
  lemma EnvironmentUrlWins(config: Config)
    requires STORAGE_KEY in config && config[STORAGE_KEY] == "database"
    requires DATABASE_URL_KEY in config && DATABASE_URL_PATH in config
    ensures StorageFromConfig(config) == Ok(Database(config[DATABASE_URL_KEY]))
  {
  }
}
