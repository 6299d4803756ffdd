/**
 Environment-dependent base URLs (src/services/cdnConfig.ts). The browser's
 `window.location.hostname` is an input: `None` stands for a context where
 `window` is undefined.
 */
module CdnConfig {
  import opened Common

  datatype Config = Config(baseUrl: string, imageBaseUrl: string)

  const ProductionOrigin := "https://cdn.aistories.online"
  const DevelopmentPrefix := "/stories"

  /** A page served from the local machine. */
  predicate IsDevelopment(hostname: Option<string>) {
    hostname.Some? && (hostname.value == "localhost" || hostname.value == "127.0.0.1")
  }

  /** `createCDNConfig()` evaluated against the given hostname. */
  function CreateCdnConfig(hostname: Option<string>): (c: Config)
    ensures c.baseUrl == c.imageBaseUrl
    ensures c.baseUrl == (if IsDevelopment(hostname) then DevelopmentPrefix else ProductionOrigin)
  {
    var isDevelopment := IsDevelopment(hostname);
    Config(
      if isDevelopment then "/stories" else "https://cdn.aistories.online",
      if isDevelopment then "/stories" else "https://cdn.aistories.online")
  }

  /**
   The local prefix is chosen exactly for the two loopback hostnames; every
   other hostname, and a missing `window`, gets the production origin.
   */
  lemma DevelopmentIffLoopback(hostname: Option<string>)
    ensures CreateCdnConfig(hostname).baseUrl == DevelopmentPrefix
        <==> hostname == Some("localhost") || hostname == Some("127.0.0.1")
    ensures CreateCdnConfig(hostname).baseUrl == ProductionOrigin
        <==> !(hostname == Some("localhost") || hostname == Some("127.0.0.1"))
  {
    assert DevelopmentPrefix[0] != ProductionOrigin[0];
  }
}
