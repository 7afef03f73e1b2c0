/** Properties of the URLs the configuration manager derives. */
module ConfigProperties {

  import opened Wrappers
  import opened PyValue
  import opened Config
  import RedisUrl
  import Decimal

  /** The default port 6379 is written as the text "6379". */
  lemma DefaultPortText()
    ensures Format(Int(6379)) == Success("6379")
  {
    assert Decimal.NatToDecimal(6) == "6";
    assert Decimal.NatToDecimal(63) == "63";
    assert Decimal.NatToDecimal(637) == "637";
    assert Decimal.NatToDecimal(6379) == "6379";
  }

  /** With none of the keys present, the fall-back URL is `redis://localhost:6379/0`. */
  lemma DefaultsWhenKeysMissing(redis: map<string, Value>)
    requires "host" !in redis && "port" !in redis && "db" !in redis && "password" !in redis
    ensures SectionAddress(redis) == Success(RedisUrl.Address(None, "localhost", "6379", "0"))
    ensures RedisSectionUrl(redis) == Success("redis://localhost:6379/0")
  {
    DefaultPortText();
    assert RedisUrl.Format(RedisUrl.Address(None, "localhost", "6379", "0")) == "redis://localhost:6379/0";
  }

  /**
   * The fall-back URL reads back as the parts of the `redis` section: the
   * password part is there exactly when the configured password is truthy.
   */
  lemma SectionUrlReadsBack(redis: map<string, Value>)
    requires SectionAddress(redis).Success? && RedisUrl.WellFormed(SectionAddress(redis).value)
    ensures RedisSectionUrl(redis).Success?
    ensures RedisUrl.Parse(RedisSectionUrl(redis).value) == Some(SectionAddress(redis).value)
    ensures RedisUrl.Parse(RedisSectionUrl(redis).value).value.password.Some?
        <==> Truthy(Lookup(redis, "password", Null))
  {
    RedisUrl.ParseFormat(SectionAddress(redis).value);
  }

  /** Without a truthy password, the fall-back URL has an `@` only if host, port or db has one. */
  lemma NoAtWithoutPassword(redis: map<string, Value>)
    requires RedisSectionUrl(redis).Success? && !Truthy(Lookup(redis, "password", Null))
    ensures var a := SectionAddress(redis).value;
      '@' in RedisSectionUrl(redis).value <==> '@' in a.host || '@' in a.port || '@' in a.db
  {
  }

  /** A broker URL built from the `redis` section reads back as that section's parts. */
  lemma BrokerUrlReadsBack(cm: ConfigManager)
    requires cm.config.Dict?
    requires var celery := Lookup(cm.config.entries, "celery", EmptyDict);
      celery.Dict? && "broker_url" !in celery.entries
    requires var redis := Lookup(cm.config.entries, "redis", EmptyDict);
      && redis.Dict? && SectionAddress(redis.entries).Success?
      && RedisUrl.WellFormed(SectionAddress(redis.entries).value)
    ensures var redis := Lookup(cm.config.entries, "redis", EmptyDict).entries;
      && cm.GetBrokerUrl().Success? && cm.GetBrokerUrl().value.Str?
      && RedisUrl.Parse(cm.GetBrokerUrl().value.s) == Some(SectionAddress(redis).value)
  {
    SectionUrlReadsBack(Lookup(cm.config.entries, "redis", EmptyDict).entries);
  }

  /** The default configuration names the same URL for broker and result backend. */
  lemma DefaultUrlsCoincide(cm: ConfigManager)
    requires cm.config == DefaultConfig()
    ensures cm.GetBrokerUrl() == Success(Str(DefaultBrokerUrl))
    ensures cm.GetResultBackendUrl() == cm.GetBrokerUrl()
  {
    assert DefaultCelerySection["broker_url"] == Str(DefaultBrokerUrl);
    assert DefaultCelerySection["result_backend"] == Str(DefaultBrokerUrl);
  }

  lemma DefaultRedisLookups()
    ensures Lookup(DefaultRedisSection, "host", Str("localhost")) == Str(DefaultHost)
    ensures Lookup(DefaultRedisSection, "port", Int(6379)) == Int(6379)
    ensures Lookup(DefaultRedisSection, "db", Int(0)) == Int(0)
    ensures Lookup(DefaultRedisSection, "password", Null) == Str(DefaultPassword)
  {
  }

  lemma DefaultAddressText()
    ensures RedisUrl.Format(RedisUrl.Address(Some(DefaultPassword), DefaultHost, "6379", "0")) == DefaultBrokerUrl
  {
    WithPasswordText(DefaultPassword, DefaultHost, "6379", "0");
    UserInfoText();
    HostText();
    TailText();
  }

  // Literal concatenations, one per lemma so that each stays cheap.
  lemma UserInfoText()
    ensures "redis://:" + DefaultPassword + "@" == "redis://:instance-id:your-password@"
  {
    assert "redis://:" + DefaultPassword == "redis://:instance-id:your-password";
  }

  lemma HostText()
    ensures "redis://:instance-id:your-password@" + DefaultHost
         == "redis://:instance-id:your-password@your-tair-instance.redis.rds.aliyuncs.com"
  {
    HostHalves();
    HostFirstHalf();
    HostSecondHalf();
  }

  lemma HostHalves()
    ensures DefaultHost == "your-tair-instance" + ".redis.rds.aliyuncs.com"
  {
  }

  lemma HostFirstHalf()
    ensures "redis://:instance-id:your-password@" + "your-tair-instance"
         == "redis://:instance-id:your-password@your-tair-instance"
  {
  }

  lemma HostSecondHalf()
    ensures "redis://:instance-id:your-password@your-tair-instance" + ".redis.rds.aliyuncs.com"
         == "redis://:instance-id:your-password@your-tair-instance.redis.rds.aliyuncs.com"
  {
  }

  lemma TailText()
    ensures "redis://:instance-id:your-password@your-tair-instance.redis.rds.aliyuncs.com" + ":" + "6379" + "/" + "0"
         == DefaultBrokerUrl
  {
  }

  /**
   * The default broker URL literal is also what the `redis` section of the
   * default configuration would yield: the two parts of the default agree.
   */
  lemma DefaultLiteralMatchesRedisSection()
    ensures RedisSectionUrl(DefaultRedisSection) == Success(DefaultBrokerUrl)
  {
    DefaultRedisLookups();
    DefaultPortText();
    assert Format(Int(0)) == Success("0");
    var a := RedisUrl.Address(Some(DefaultPassword), DefaultHost, "6379", "0");
    assert SectionAddress(DefaultRedisSection) == Success(a);
    DefaultAddressText();
  }
}
