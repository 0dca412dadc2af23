/** config/configs.go: the service configuration and its validation. */
module Configs {
  import opened Wrappers

  datatype Postgres = Postgres(host: string, port: int, user: string, password: string, dbname: string)
  datatype Redis = Redis(host: string, port: int, password: string, db: int)
  datatype Kafka = Kafka(brokers: seq<string>, topic: string, producerGroupId: string)
  datatype Config = Config(listen: string, postgres: Postgres, redis: Redis, kafka: Kafka)

  /** The fields Validate insists on. A port counts as given when it is not 0. */
  predicate Complete(c: Config) {
    && c.listen != ""
    && c.postgres.host != "" && c.postgres.port != 0 && c.postgres.user != ""
    && c.postgres.password != "" && c.postgres.dbname != ""
    && c.redis.host != "" && c.redis.port != 0
  }

  /**
   * Config.Validate: the listen address first, then the Postgres host, port,
   * user, password and database name, then the Redis host and port; the first
   * missing one names the error.
   */
  function Validate(c: Config): (err: Option<string>)
    ensures err.None? <==> Complete(c)
    ensures c.listen == "" ==> err == Some("listen address is required")
    ensures c.listen != "" && c.postgres.host == "" ==> err == Some("postgres host is required")
    ensures c.listen != "" && c.postgres.host != "" && c.postgres.port == 0 ==>
              err == Some("postgres port is required")
    ensures c.listen != "" && c.postgres.host != "" && c.postgres.port != 0 && c.postgres.user == "" ==>
              err == Some("postgres user is required")
    ensures (c.listen != "" && c.postgres.host != "" && c.postgres.port != 0 && c.postgres.user != "" &&
             c.postgres.password == "") ==>
              err == Some("postgres password is required")
    ensures (c.listen != "" && c.postgres.host != "" && c.postgres.port != 0 && c.postgres.user != "" &&
             c.postgres.password != "" && c.postgres.dbname == "") ==>
              err == Some("postgres dbname is required")
    ensures (c.listen != "" && c.postgres.host != "" && c.postgres.port != 0 && c.postgres.user != "" &&
             c.postgres.password != "" && c.postgres.dbname != "" && c.redis.host == "") ==>
              err == Some("redis host is required")
    ensures (c.listen != "" && c.postgres.host != "" && c.postgres.port != 0 && c.postgres.user != "" &&
             c.postgres.password != "" && c.postgres.dbname != "" && c.redis.host != "" && c.redis.port == 0) ==>
              err == Some("redis port is required")
  {
    if c.listen == "" then Some("listen address is required")
    else if c.postgres.host == "" then Some("postgres host is required")
    else if c.postgres.port == 0 then Some("postgres port is required")
    else if c.postgres.user == "" then Some("postgres user is required")
    else if c.postgres.password == "" then Some("postgres password is required")
    else if c.postgres.dbname == "" then Some("postgres dbname is required")
    else if c.redis.host == "" then Some("redis host is required")
    else if c.redis.port == 0 then Some("redis port is required")
    else None
  }

  /** The Redis password and database number and the whole Kafka section are never checked. */
  lemma UncheckedFieldsIgnored(c: Config, password: string, db: int, kafka: Kafka)
    ensures Validate(c.(redis := c.redis.(password := password, db := db), kafka := kafka)) == Validate(c)
  {
  }

  /** Only port 0 is refused: a negative port passes. */
  lemma NegativePortsPass(c: Config, p: int, q: int)
    requires Complete(c) && p < 0 && q < 0
    ensures Validate(c.(postgres := c.postgres.(port := p), redis := c.redis.(port := q))) == None
  {
  }

  const DefaultConfig: Config := Config(
    "localhost:8083",
    Postgres("localhost", 5432, "postgres", "pavan", "gotest"),
    Redis("localhost", 6379, "", 0),
    Kafka(["localhost:9092"], "email-service", "notify-producer"))

  lemma DefaultConfigIsValid()
    ensures Validate(DefaultConfig) == None
  {
  }
}
