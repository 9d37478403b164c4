/** The Cypress plugins entry point (test/e2e/plugins/index.js): it is
    handed the resolved Cypress configuration, points `baseUrl` at the
    application under test and turns the `TEST_TAGS` environment value into
    a list of tags, updating the configuration object in place. */
module Plugins {
  import opened JsText

  /** The value of `config.env.TEST_TAGS` as Cypress may hand it over:
      already an array, absent, or a comma-separated string. */
  datatype TagsValue = TagList(tags: seq<string>) | Undefined | TagString(text: string)

  /** `config.env`: the Cypress environment variables. */
  class Env {
    var testTags: TagsValue

    constructor (testTags: TagsValue)
      ensures this.testTags == testTags
    {
      this.testTags := testTags;
    }
  }

  /** The resolved Cypress configuration: the fields the harness reads or writes. */
  class Config {
    var baseUrl: string
    var env: Env
    var isInteractive: bool
    var defaultCommandTimeout: nat

    constructor (baseUrl: string, env: Env, isInteractive: bool, defaultCommandTimeout: nat)
      ensures this.baseUrl == baseUrl && this.env == env
      ensures this.isInteractive == isInteractive
      ensures this.defaultCommandTimeout == defaultCommandTimeout
    {
      this.baseUrl := baseUrl;
      this.env := env;
      this.isInteractive := isInteractive;
      this.defaultCommandTimeout := defaultCommandTimeout;
    }
  }

  /** The URL of the application under test, `http://<host>:<port>`. */
  function BaseUrl(hostName: string, port: string): (url: string)
    ensures |url| == |hostName| + |port| + 8
    ensures url[..7] == "http://" && url[7..7 + |hostName|] == hostName
    ensures url[7 + |hostName|] == ':' && url[8 + |hostName|..] == port
  {
    "http://" + hostName + ":" + port
  }

  /** The base URL is an http URL from which the host name, and the port
      when it holds no colon, can be read back by splitting on ":". */
  lemma BaseUrlParts(hostName: string, port: string)
    requires ':' !in hostName
    ensures BaseUrl(hostName, port)[..7] == "http://"
    ensures Split(BaseUrl(hostName, port)[7..], ':') == [hostName] + Split(port, ':')
    ensures ':' !in port ==> Split(BaseUrl(hostName, port)[7..], ':') == [hostName, port]
  {
    assert BaseUrl(hostName, port)[7..] == hostName + [':'] + port;
    SplitAfterPart(hostName, ':', port);
    if ':' !in port {
      SplitNoSeparator(port, ':');
    }
  }

  /** The exported plugins function. `hostName` and `port` come from the
      application's environment configuration. The same configuration
      object is returned; only `baseUrl` and `env.TEST_TAGS` change, and
      afterwards `TEST_TAGS` is always a list. */
  method Configure(config: Config, hostName: string, port: string) returns (r: Config)
    modifies config`baseUrl, config.env`testTags
    ensures r == config && config.env == old(config.env)
    ensures config.baseUrl == BaseUrl(hostName, port)
    ensures config.env.testTags.TagList?
    ensures old(config.env.testTags).TagList? ==> config.env.testTags == old(config.env.testTags)
    ensures old(config.env.testTags).Undefined? ==> config.env.testTags.tags == []
    ensures old(config.env.testTags).TagString? ==>
              config.env.testTags.tags == Split(old(config.env.testTags).text, ',') &&
              Join(config.env.testTags.tags, ',') == old(config.env.testTags).text
    ensures old(config.env.testTags) == TagString("") ==> config.env.testTags.tags == [""]
  {
    config.baseUrl := BaseUrl(hostName, port);

    var tags := config.env.testTags;
    if !tags.TagList? {
      config.env.testTags := TagList([]);

      if !tags.Undefined? {
        config.env.testTags := TagList(Split(tags.text, ','));
        JoinSplit(tags.text, ',');
      }
    }
    return config;
  }
}
