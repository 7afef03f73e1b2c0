/**
 * The configuration manager: a nested configuration with the sections
 * `redis`, `celery` and `flower`, the section getters, the broker and
 * result-backend URLs derived from it, and the connection parameters built
 * for the Redis client.
 */
module Config {

  import opened Wrappers
  import opened PyValue
  import RedisUrl

  /** What loading the configuration file came to. */
  datatype LoadOutcome =
    | NoFile               // the file does not exist
    | LoadFailed           // reading or parsing it raised
    | Parsed(json: Value)  // the parsed document

  /**
   * The broker URL literal of the built-in default configuration. The source
   * writes it twice, as `broker_url` and `result_backend` at
   * config_manager.py:54-55; `DefaultCelerySection` keeps both copies, and
   * `ConfigProperties.DefaultUrlsCoincide` proves that each equals this one.
   */
  const DefaultBrokerUrl: string :=
    "redis://:instance-id:your-password@your-tair-instance.redis.rds.aliyuncs.com:6379/0"

  /** The placeholder host and password of the default `redis` section. */
  const DefaultHost := "your-tair-instance.redis.rds.aliyuncs.com"
  const DefaultPassword := "instance-id:your-password"

  /** The `redis` section of the default configuration. */
  const DefaultRedisSection: map<string, Value> := map[
    "type" := Str("aliyun_tair"),
    "host" := Str(DefaultHost),
    "port" := Int(6379),
    "password" := Str(DefaultPassword),
    "db" := Int(0),
    "ssl" := Bool(false),
    "connection_pool" := Dict(map[
      "max_connections" := Int(20),
      "retry_on_timeout" := Bool(true),
      "socket_timeout" := Int(5),
      "socket_connect_timeout" := Int(5)
    ])
  ]

  /** The `celery` section of the default configuration. */
  const DefaultCelerySection: map<string, Value> := map[
    "broker_url" := Str("redis://:instance-id:your-password@your-tair-instance.redis.rds.aliyuncs.com:6379/0"),
    "result_backend" := Str("redis://:instance-id:your-password@your-tair-instance.redis.rds.aliyuncs.com:6379/0"),
    "task_serializer" := Str("json"),
    "result_serializer" := Str("json"),
    "accept_content" := List([Str("json")]),
    "result_expires" := Int(3600),
    "timezone" := Str("Asia/Shanghai"),
    "enable_utc" := Bool(true),
    "worker_prefetch_multiplier" := Int(1),
    "task_acks_late" := Bool(true)
  ]

  /** The `flower` section of the default configuration. */
  const DefaultFlowerSection: map<string, Value> := map[
    "port" := Int(5555),
    "basic_auth" := Null,
    "url_prefix" := Str(""),
    "enable_events" := Bool(true)
  ]

  /** The configuration used when no file could be loaded. */
  function DefaultConfig(): (c: Value)
    ensures c.Dict? && c.entries.Keys == {"redis", "celery", "flower"}
    ensures c.entries["redis"] == Dict(DefaultRedisSection)
    ensures c.entries["celery"] == Dict(DefaultCelerySection)
    ensures c.entries["flower"] == Dict(DefaultFlowerSection)
  {
    Dict(map[
      "redis" := Dict(DefaultRedisSection),
      "celery" := Dict(DefaultCelerySection),
      "flower" := Dict(DefaultFlowerSection)
    ])
  }

  /**
   * The parts of the URL that the `redis` section describes: host, port and
   * db with their defaults, and the password only when it is truthy.
   */
  function SectionAddress(redis: map<string, Value>): (r: Outcome<RedisUrl.Address>)
    ensures var password := Lookup(redis, "password", Null);
      r.Success? <==>
        && Format(Lookup(redis, "host", Str("localhost"))).Success?
        && Format(Lookup(redis, "port", Int(6379))).Success?
        && Format(Lookup(redis, "db", Int(0))).Success?
        && (Truthy(password) ==> Format(password).Success?)
    ensures r.Success? ==>
      var password := Lookup(redis, "password", Null);
      && r.value.host == Format(Lookup(redis, "host", Str("localhost"))).value
      && r.value.port == Format(Lookup(redis, "port", Int(6379))).value
      && r.value.db == Format(Lookup(redis, "db", Int(0))).value
      && (r.value.password.Some? <==> Truthy(password))
      && (r.value.password.Some? ==> r.value.password.value == Format(password).value)
  {
    var host :- Format(Lookup(redis, "host", Str("localhost")));
    var port :- Format(Lookup(redis, "port", Int(6379)));
    var db :- Format(Lookup(redis, "db", Int(0)));
    var password := Lookup(redis, "password", Null);
    if Truthy(password) then
      var p :- Format(password);
      Success(RedisUrl.Address(Some(p), host, port, db))
    else
      Success(RedisUrl.Address(None, host, port, db))
  }

  /** The URL the broker falls back to when the `celery` section names none. */
  function RedisSectionUrl(redis: map<string, Value>): (r: Outcome<string>)
    ensures r.Success? <==> SectionAddress(redis).Success?
    ensures r.Success? ==> r.value == RedisUrl.Format(SectionAddress(redis).value)
  {
    var host := Lookup(redis, "host", Str("localhost"));
    var port := Lookup(redis, "port", Int(6379));
    var db := Lookup(redis, "db", Int(0));
    var password := Lookup(redis, "password", Null);
    if Truthy(password) then
      var p :- Format(password);
      var h :- Format(host);
      var po :- Format(port);
      var d :- Format(db);
      WithPasswordText(p, h, po, d);
      Success("redis://:" + p + "@" + h + ":" + po + "/" + d)
    else
      var h :- Format(host);
      var po :- Format(port);
      var d :- Format(db);
      WithoutPasswordText(h, po, d);
      Success("redis://" + h + ":" + po + "/" + d)
  }

  lemma WithPasswordText(p: string, h: string, po: string, d: string)
    ensures "redis://:" + p + "@" + h + ":" + po + "/" + d
         == RedisUrl.Format(RedisUrl.Address(Some(p), h, po, d))
  {
  }

  lemma WithoutPasswordText(h: string, po: string, d: string)
    ensures "redis://" + h + ":" + po + "/" + d == RedisUrl.Format(RedisUrl.Address(None, h, po, d))
  {
  }

  /** A URL result as the Python string value the getter returns. */
  function AsValue(url: Outcome<string>): Outcome<Value> {
    match url
    case Success(s) => Success(Str(s))
    case Failure(e) => Failure(e)
  }

  /** How building the Redis connection parameters ended. */
  datatype ParamsOutcome =
    | Built(params: map<string, Value>)
    | Raised(error: Error)    // raised before the try block: escapes the connection test
    | Reported(error: Error)  // raised inside the try block: reported as a failed connection test

  /** The parameters that are present whatever the configuration says. */
  const BaseParamKeys: set<string> := {
    "host", "port", "db", "decode_responses",
    "socket_timeout", "socket_connect_timeout", "retry_on_timeout", "max_connections"
  }

  /** The connection parameters present whatever the configuration says, with their defaults. */
  function BaseParams(redis: map<string, Value>, pool: map<string, Value>): (params: map<string, Value>)
    ensures params.Keys == BaseParamKeys
    ensures params["host"] == Lookup(redis, "host", Str("localhost"))
    ensures params["port"] == Lookup(redis, "port", Int(6379))
    ensures params["db"] == Lookup(redis, "db", Int(0))
    ensures params["decode_responses"] == Bool(true)
    ensures params["socket_timeout"] == Lookup(pool, "socket_timeout", Int(5))
    ensures params["socket_connect_timeout"] == Lookup(pool, "socket_connect_timeout", Int(5))
    ensures params["retry_on_timeout"] == Lookup(pool, "retry_on_timeout", Bool(true))
    ensures params["max_connections"] == Lookup(pool, "max_connections", Int(20))
  {
    map[
      "host" := Lookup(redis, "host", Str("localhost")),
      "port" := Lookup(redis, "port", Int(6379)),
      "db" := Lookup(redis, "db", Int(0)),
      "decode_responses" := Bool(true),
      "socket_timeout" := Lookup(pool, "socket_timeout", Int(5)),
      "socket_connect_timeout" := Lookup(pool, "socket_connect_timeout", Int(5)),
      "retry_on_timeout" := Lookup(pool, "retry_on_timeout", Bool(true)),
      "max_connections" := Lookup(pool, "max_connections", Int(20))
    ]
  }

  class ConfigManager {

    /** The configuration in use: the parsed file or the default. */
    const config: Value

    constructor (loaded: LoadOutcome)
      ensures loaded.Parsed? ==> config == loaded.json
      ensures !loaded.Parsed? ==> config == DefaultConfig()
    {
      config := if loaded.Parsed? then loaded.json else DefaultConfig();
    }

    function GetRedisConfig(): (r: Outcome<Value>)
      ensures config.Dict? && "redis" in config.entries ==> r == Success(config.entries["redis"])
      ensures config.Dict? && "redis" !in config.entries ==> r == Success(EmptyDict)
      ensures !config.Dict? ==> r == Failure(AttributeError)
    {
      Get(config, "redis", EmptyDict)
    }

    function GetCeleryConfig(): (r: Outcome<Value>)
      ensures config.Dict? && "celery" in config.entries ==> r == Success(config.entries["celery"])
      ensures config.Dict? && "celery" !in config.entries ==> r == Success(EmptyDict)
      ensures !config.Dict? ==> r == Failure(AttributeError)
    {
      Get(config, "celery", EmptyDict)
    }

    function GetFlowerConfig(): (r: Outcome<Value>)
      ensures config.Dict? && "flower" in config.entries ==> r == Success(config.entries["flower"])
      ensures config.Dict? && "flower" !in config.entries ==> r == Success(EmptyDict)
      ensures !config.Dict? ==> r == Failure(AttributeError)
    {
      Get(config, "flower", EmptyDict)
    }

    /**
     * A configured `broker_url` is returned as it is, whatever its value (the
     * test is key presence); otherwise the URL is built from the `redis` section.
     */
    function GetBrokerUrl(): (r: Outcome<Value>)
      ensures !config.Dict? ==> r == Failure(AttributeError)
      ensures config.Dict? ==>
        var celery := Lookup(config.entries, "celery", EmptyDict);
        var redis := Lookup(config.entries, "redis", EmptyDict);
        && (celery.Dict? && "broker_url" in celery.entries ==> r == Success(celery.entries["broker_url"]))
        && (celery.Dict? && "broker_url" !in celery.entries && redis.Dict? ==>
              r == AsValue(RedisSectionUrl(redis.entries)))
        && (celery.Dict? && "broker_url" !in celery.entries && !redis.Dict? ==> r == Failure(AttributeError))
        && (celery.Null? || celery.Bool? || celery.Int? ==> r == Failure(TypeError))
        && (celery.Str? || celery.List? ==>
              var present := Contains(celery, "broker_url").value;
              && (present ==> r == Failure(TypeError))
              && (!present && redis.Dict? ==> r == AsValue(RedisSectionUrl(redis.entries)))
              && (!present && !redis.Dict? ==> r == Failure(AttributeError)))
    {
      var celery :- GetCeleryConfig();
      var present :- Contains(celery, "broker_url");
      if present then Subscript(celery, "broker_url")
      else
        // `config` is a dict here, so looking up the `redis` section succeeds;
        // the first `.get` on that section raises when it is not a dict
        var redis := GetRedisConfig().value;
        if redis.Dict? then AsValue(RedisSectionUrl(redis.entries)) else Failure(AttributeError)
    }

    /** A configured `result_backend` is returned as it is; otherwise the broker URL. */
    function GetResultBackendUrl(): (r: Outcome<Value>)
      ensures !config.Dict? ==> r == Failure(AttributeError)
      ensures config.Dict? ==>
        var celery := Lookup(config.entries, "celery", EmptyDict);
        && (celery.Dict? && "result_backend" in celery.entries ==> r == Success(celery.entries["result_backend"]))
        && (celery.Dict? && "result_backend" !in celery.entries ==> r == GetBrokerUrl())
        && (celery.Null? || celery.Bool? || celery.Int? ==> r == Failure(TypeError))
        && (celery.Str? || celery.List? ==>
              var present := Contains(celery, "result_backend").value;
              && (present ==> r == Failure(TypeError))
              && (!present ==> r == GetBrokerUrl()))
    {
      var celery :- GetCeleryConfig();
      var present :- Contains(celery, "result_backend");
      if present then Subscript(celery, "result_backend") else GetBrokerUrl()
    }

    /** The entries of the `redis` section, when it is a dict. */
    ghost function RedisEntries(): map<string, Value> {
      var rc := GetRedisConfig();
      if rc.Success? && rc.value.Dict? then rc.value.entries else map[]
    }

    /**
     * The keyword arguments for the Redis client: the base keys always, with
     * their defaults; `password` exactly when the configured password is truthy;
     * `ssl` and `ssl_cert_reqs` exactly when `ssl` is truthy.
     */
    method ConnectionParams() returns (r: ParamsOutcome)
      ensures GetRedisConfig().Failure? ==> r == Raised(GetRedisConfig().error)
      ensures GetRedisConfig().Success? && !GetRedisConfig().value.Dict? ==> r == Reported(AttributeError)
      ensures GetRedisConfig().Success? && GetRedisConfig().value.Dict? ==>
        (r.Built? <==> Lookup(RedisEntries(), "connection_pool", EmptyDict).Dict?) &&
        (!r.Built? ==> r == Reported(AttributeError))
      ensures r.Built? ==>
        var redis := RedisEntries();
        var pool := Lookup(redis, "connection_pool", EmptyDict).entries;
        var hasPassword := Truthy(Lookup(redis, "password", Null));
        var hasSsl := Truthy(Lookup(redis, "ssl", Bool(false)));
        && r.params.Keys == BaseParamKeys + (if hasPassword then {"password"} else {})
                                          + (if hasSsl then {"ssl", "ssl_cert_reqs"} else {})
        && ("password" in r.params <==> hasPassword)
        && ("ssl" in r.params <==> hasSsl) && ("ssl_cert_reqs" in r.params <==> hasSsl)
        && r.params["host"] == Lookup(redis, "host", Str("localhost"))
        && r.params["port"] == Lookup(redis, "port", Int(6379))
        && r.params["db"] == Lookup(redis, "db", Int(0))
        && r.params["decode_responses"] == Bool(true)
        && r.params["socket_timeout"] == Lookup(pool, "socket_timeout", Int(5))
        && r.params["socket_connect_timeout"] == Lookup(pool, "socket_connect_timeout", Int(5))
        && r.params["retry_on_timeout"] == Lookup(pool, "retry_on_timeout", Bool(true))
        && r.params["max_connections"] == Lookup(pool, "max_connections", Int(20))
        && (hasPassword ==> r.params["password"] == redis["password"])
        && (hasSsl ==> r.params["ssl"] == Bool(true) && r.params["ssl_cert_reqs"] == Null)
    {
      var rc := GetRedisConfig();
      if rc.Failure? {
        return Raised(rc.error);
      }
      var section := rc.value;
      if !section.Dict? {
        return Reported(AttributeError);
      }
      var redis := section.entries;
      var pool := Lookup(redis, "connection_pool", EmptyDict);
      if !pool.Dict? {
        return Reported(AttributeError);
      }
      var params := BaseParams(redis, pool.entries);
      if Truthy(Lookup(redis, "password", Null)) {
        params := params["password" := redis["password"]];
      }
      if Truthy(Lookup(redis, "ssl", Bool(false))) {
        params := params["ssl" := Bool(true)];
        params := params["ssl_cert_reqs" := Null];
      }
      return Built(params);
    }
  }
}
