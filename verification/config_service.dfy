/**
 * `configService`: the scraping configurations kept under one database node,
 * modelled as a map. Whether the database read and write succeed is a
 * parameter; every failure, whatever its cause, surfaces as one fixed message
 * per operation.
 */
module ConfigService {
  import opened Wrappers
  import opened Scraper

  /** Whether the database's read (`once("value")`) and write (`set`, `update`, `remove`) succeed. */
  datatype Db = Db(readOk: bool, writeOk: bool)

  const FetchAllFailed: string := "Failed to fetch configs from database"
  const FetchFailed: string := "Failed to fetch config from database"
  const AddFailed: string := "Failed to add config to database"
  const UpdateFailed: string := "Failed to update config in database"
  const DeleteFailed: string := "Failed to delete config from database"

  /**
   * `validateConfig`: the domain and the content and title selectors must be
   * non-empty, and the selectors object and both chapter selector objects must
   * be present (an object is truthy whatever it holds). The chapter-number
   * pattern is not consulted.
   */
  predicate ValidateConfig(c: ScraperConfig) {
    && c.domain != []
    && c.selectors.Some?
    && c.selectors.value.content != []
    && c.selectors.value.title != []
    && c.selectors.value.nextChapter.Some?
    && c.selectors.value.prevChapter.Some?
  }

  /** The chapter-number pattern never changes the verdict. */
  lemma ChapterNumberIgnored(c: ScraperConfig, pattern: Option<ChapterNumberPattern>)
    ensures ValidateConfig(c.(chapterNumber := pattern)) == ValidateConfig(c)
  {
  }

  /** Without both chapter selector objects no configuration is valid. */
  lemma ChapterSelectorsRequired(c: ScraperConfig)
    requires c.selectors.Some? && (c.selectors.value.nextChapter.None? || c.selectors.value.prevChapter.None?)
    ensures !ValidateConfig(c)
  {
  }

  /** `getAllConfigs`: the whole map (an empty node reads as `{}`). */
  function GetAllConfigs(store: Store, db: Db): (r: Result<Store>)
    ensures db.readOk ==> r == Ok(store)
    ensures !db.readOk ==> r == Err(FetchAllFailed)
  {
    if db.readOk then Ok(store) else Err(FetchAllFailed)
  }

  /** `getConfig(key)`: the stored configuration, or `undefined` for an absent key. */
  function GetConfig(store: Store, key: string, db: Db): (r: Result<Option<ScraperConfig>>)
    ensures r.Ok? <==> db.readOk
    ensures r.Ok? ==> (r.value.Some? <==> key in store) && (key in store ==> r.value == Some(store[key]))
    ensures r.Err? ==> r.message == FetchFailed
  {
    if !db.readOk then Err(FetchFailed)
    else if key in store then Ok(Some(store[key]))
    else Ok(None)
  }

  /**
   * `addConfig(key, config)`: refuses a key that already exists; the "already
   * exists" error is caught and replaced like any other.
   */
  function AddConfig(store: Store, key: string, config: ScraperConfig, db: Db): (r: (Store, Result<()>))
    ensures r.1.Ok? <==> db.readOk && db.writeOk && key !in store
    ensures r.1.Ok? ==> r.0 == store[key := config]
    ensures r.1.Err? ==> r.0 == store && r.1.message == AddFailed
  {
    if !db.readOk || key in store || !db.writeOk then (store, Err(AddFailed))
    else (store[key := config], Ok(()))
  }

  /**
   * `updateConfig(key, config)`: refuses an absent key. The database merges
   * the new fields into the stored ones; `merge` stands for that merge.
   */
  function UpdateConfig(store: Store, key: string, config: ScraperConfig, db: Db,
                        merge: (ScraperConfig, ScraperConfig) -> ScraperConfig): (r: (Store, Result<()>))
    ensures r.1.Ok? <==> db.readOk && db.writeOk && key in store
    ensures r.1.Ok? ==> key in store && r.0 == store[key := merge(store[key], config)]
    ensures r.1.Err? ==> r.0 == store && r.1.message == UpdateFailed
  {
    if !db.readOk || key !in store || !db.writeOk then (store, Err(UpdateFailed))
    else (store[key := merge(store[key], config)], Ok(()))
  }

  /** `removeConfig(key)`: false for an absent key; true once the key is gone. */
  function RemoveConfig(store: Store, key: string, db: Db): (r: (Store, Result<bool>))
    ensures r.1 == Ok(false) <==> db.readOk && key !in store
    ensures r.1 == Ok(true) <==> db.readOk && db.writeOk && key in store
    ensures r.1.Ok? ==> r.0 == store - {key} && r.0.Keys == store.Keys - {key}
    ensures r.1.Err? ==> r.0 == store && r.1.message == DeleteFailed
  {
    if !db.readOk then (store, Err(DeleteFailed))
    else if key !in store then (store, Ok(false))
    else if !db.writeOk then (store, Err(DeleteFailed))
    else (store - {key}, Ok(true))
  }

  /** Adding then removing a fresh key restores the store. */
  lemma AddThenRemove(store: Store, key: string, config: ScraperConfig, db: Db)
    requires db.readOk && db.writeOk && key !in store
    ensures RemoveConfig(AddConfig(store, key, config, db).0, key, db) == (store, Ok(true))
  {
    assert store[key := config] - {key} == store;
  }

  /** A failed add, update or remove leaves every key as it was. */
  lemma FailuresChangeNothing(store: Store, key: string, config: ScraperConfig, db: Db,
                              merge: (ScraperConfig, ScraperConfig) -> ScraperConfig)
    ensures AddConfig(store, key, config, db).1.Err? ==> AddConfig(store, key, config, db).0 == store
    ensures UpdateConfig(store, key, config, db, merge).1.Err? ==> UpdateConfig(store, key, config, db, merge).0 == store
    ensures RemoveConfig(store, key, db).1 != Ok(true) ==> RemoveConfig(store, key, db).0 == store
  {
  }
}
