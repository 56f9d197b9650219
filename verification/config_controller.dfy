/**
 * The HTTP handlers for scraping configurations: each request's outcome in
 * the store, and the status and JSON body of the reply.
 */
module ConfigController {
  import opened Wrappers
  import opened Scraper
  import ConfigService

  /** The JSON body of a reply. */
  datatype Body = ErrorBody(error: string) | MessageBody(message: string) | ConfigBody(config: ScraperConfig) | ConfigsBody(configs: Store)

  datatype Reply = Reply(status: nat, body: Body)

  /** `GET /configs`. */
  function GetAllConfigs(store: Store, db: ConfigService.Db): (r: Reply)
    ensures r.status == 200 <==> db.readOk
    ensures r.status == 200 ==> r.body == ConfigsBody(store)
    ensures r.status != 200 ==> r == Reply(500, ErrorBody("Failed to fetch configs"))
  {
    match ConfigService.GetAllConfigs(store, db)
    case Ok(configs) => Reply(200, ConfigsBody(configs))
    case Err(_) => Reply(500, ErrorBody("Failed to fetch configs"))
  }

  /** `GET /configs/:key`: a database failure is reported as "not found", like an absent key. */
  function GetConfig(store: Store, key: string, db: ConfigService.Db): (r: Reply)
    ensures r.status == 200 <==> db.readOk && key in store
    ensures r.status == 200 ==> key in store && r.body == ConfigBody(store[key])
    ensures r.status != 200 ==> r == Reply(404, ErrorBody("Config not found"))
  {
    match ConfigService.GetConfig(store, key, db)
    case Ok(Some(c)) => Reply(200, ConfigBody(c))
    case Ok(None) => Reply(404, ErrorBody("Config not found"))
    case Err(_) => Reply(404, ErrorBody("Config not found"))
  }

  /** `POST /configs/:key`: 400 before the store is touched; 500 also for an existing key. */
  function AddConfig(store: Store, key: string, config: ScraperConfig, db: ConfigService.Db): (r: (Store, Reply))
    ensures r.1.status == 400 <==> !ConfigService.ValidateConfig(config)
    ensures r.1.status == 201 <==> ConfigService.ValidateConfig(config) && db.readOk && db.writeOk && key !in store
    ensures r.1.status in {201, 400, 500}
    ensures r.1.status == 201 ==> r.0 == store[key := config]
    ensures r.1.status != 201 ==> r.0 == store
  {
    if !ConfigService.ValidateConfig(config) then (store, Reply(400, ErrorBody("Invalid config format")))
    else
      var (next, outcome) := ConfigService.AddConfig(store, key, config, db);
      if outcome.Ok? then (next, Reply(201, MessageBody("Config added successfully")))
      else (next, Reply(500, ErrorBody("Failed to add config")))
  }

  /** `PUT /configs/:key`: 400 before the store is touched; 500 also for a missing key. */
  function UpdateConfig(store: Store, key: string, config: ScraperConfig, db: ConfigService.Db,
                        merge: (ScraperConfig, ScraperConfig) -> ScraperConfig): (r: (Store, Reply))
    ensures r.1.status == 400 <==> !ConfigService.ValidateConfig(config)
    ensures r.1.status == 200 <==> ConfigService.ValidateConfig(config) && db.readOk && db.writeOk && key in store
    ensures r.1.status in {200, 400, 500}
    ensures r.1.status == 200 ==> key in store && r.0 == store[key := merge(store[key], config)]
    ensures r.1.status != 200 ==> r.0 == store
  {
    if !ConfigService.ValidateConfig(config) then (store, Reply(400, ErrorBody("Invalid config format")))
    else
      var (next, outcome) := ConfigService.UpdateConfig(store, key, config, db, merge);
      if outcome.Ok? then (next, Reply(200, MessageBody("Config updated successfully")))
      else (next, Reply(500, ErrorBody("Failed to update config")))
  }

  /** `DELETE /configs/:key`. */
  function RemoveConfig(store: Store, key: string, db: ConfigService.Db): (r: (Store, Reply))
    ensures r.1.status == 404 <==> db.readOk && key !in store
    ensures r.1.status == 200 <==> db.readOk && db.writeOk && key in store
    ensures r.1.status == 500 <==> !db.readOk || (key in store && !db.writeOk)
    ensures r.1.status == 200 ==> r.0 == store - {key}
    ensures r.1.status != 200 ==> r.0 == store
  {
    var (next, outcome) := ConfigService.RemoveConfig(store, key, db);
    match outcome
    case Ok(true) => (next, Reply(200, MessageBody("Config deleted successfully.")))
    case Ok(false) => (next, Reply(404, ErrorBody("Config not found")))
    case Err(_) => (next, Reply(500, ErrorBody("Failed to delete config")))
  }

  /** An invalid body gets the same 400 whatever the database would have done: the service is not called. */
  lemma InvalidNeverReachesStore(store: Store, key: string, config: ScraperConfig, db1: ConfigService.Db, db2: ConfigService.Db)
    requires !ConfigService.ValidateConfig(config)
    ensures AddConfig(store, key, config, db1) == AddConfig(store, key, config, db2)
  {
  }
}
