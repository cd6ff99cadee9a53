/** Remote write configurations; `R` is how their relabel rules are represented. */
module RemoteWrites {
  import opened Wrappers

  /** References to keys of Kubernetes secrets. */
  datatype SafeTLS = SafeTLS(caSecret: string, caKey: string, certSecret: string, certKey: string, keySecret: string, keyKey: string)

  /** Files on disk, and secret references. */
  datatype TLSConfig = TLSConfig(caFile: string, certFile: string, keyFile: string, safe: Option<SafeTLS>)

  /** `other` stands for the fields no component of the addon touches. */
  datatype RemoteWrite<+R> = RemoteWrite(
    url: string,
    name: Option<string>,
    remoteTimeout: Option<string>,
    basicAuth: Option<string>,
    authorization: Option<string>,
    oauth2: Option<string>,
    queueConfig: Option<string>,
    tls: Option<TLSConfig>,
    proxyURL: Option<string>,
    noProxy: Option<string>,
    headers: Option<map<string, string>>,
    rules: seq<R>,
    other: Option<string>)

  /** A remote write with relabel rules and nothing else. */
  function RulesOnly<R>(rules: seq<R>): RemoteWrite<R> {
    RemoteWrite("", None, None, None, None, None, None, None, None, None, None, rules, None)
  }

  const REMOTE_WRITE_NAME := "acm-observability"
  const HUB_CA_SECRET := "observability-managed-cluster-certs"
  const CLIENT_CERT_SECRET := "observability-controller-open-cluster-management.io-observability-signer-client-cert"
  const CA_KEY := "ca.crt"
  const CERT_KEY := "tls.crt"
  const KEY_KEY := "tls.key"

  function SecretPath(secret: string, file: string): string {
    "/etc/prometheus/secrets/" + secret + "/" + file
  }

  /** The addon's own remote write among those of an agent. */
  predicate IsMain<R>(rw: RemoteWrite<R>) {
    rw.name == Some(REMOTE_WRITE_NAME)
  }
}
