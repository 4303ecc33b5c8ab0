/** The cache of LLM clients, keyed by a text of everything a client was configured from. */
module LLMCache {

  import opened Decimals
  import opened Durations
  import opened Options
  import opened Text
  import opened Times

  const DEFAULT_TIMEOUT := 15 * SECOND
  const DEFAULT_MAX_TOKENS := 256

  // ---------------------------------------------------------------------------
  // The plan's spec and the Secrets it refers to
  // ---------------------------------------------------------------------------

  datatype HostedSpec = HostedSpec(secretRefName: string, secretKey: string, baseURL: string)

  datatype FastAPISpec = FastAPISpec(
    url: string, authSecretRefName: string, authSecretKey: string, tlsSkipVerify: bool, healthURL: string,
    failureThreshold: int, cooldown: int)

  datatype LLMSpec = LLMSpec(
    provider: string, model: string, timeout: int, maxTokens: int, temperature: Option<real>,
    openAI: HostedSpec, anthropic: HostedSpec, fastAPI: FastAPISpec, ollamaURL: string)

  datatype Name = Name(text: string)

  datatype Secret = Secret(resourceVersion: string, data: map<Name, string>)

  /** The Secrets of the operator's namespace that can be read. */
  type Secrets = map<Name, Secret>

  // ---------------------------------------------------------------------------
  // What a client is built from, and what its cache key shows of that
  // ---------------------------------------------------------------------------

  datatype Backend =
    | OpenAI(apiKey: string, baseURL: string)
    | Anthropic(apiKey: string, baseURL: string)
    | FastAPI(
        url: string, authToken: string, tlsSkipVerify: bool, healthURL: string, failureThreshold: int, cooldown: int)
    | Ollama(url: string)

  datatype Config = Config(
    model: string, timeout: int, maxTokens: int, temperature: Option<real>, backend: Backend)

  /** Where a secret value was read: never the value itself. */
  datatype SecretRef = SecretRef(name: string, key: string, resourceVersion: string)

  datatype Source =
    | FromOpenAI(baseURL: string, secret: SecretRef)
    | FromAnthropic(baseURL: string, secret: SecretRef)
    | FromFastAPI(
        url: string, tlsSkipVerify: bool, healthURL: string, failureThreshold: int, cooldown: int, secret: SecretRef)
    | FromOllama(url: string)

  datatype Identity = Identity(model: string, timeout: int, maxTokens: nat, temperature: Option<Decimal>, source: Source)

  datatype Built = Disabled | Failed | Configured(config: Config, identity: Identity)

  function DefaultSecretKey(v: string, fallback: string): string {
    if TrimSpace(v) == "" then fallback else TrimSpace(v)
  }

  /** The trimmed value and the version of the Secret it came from. */
  function ReadSecretValue(secrets: Secrets, name: string, key: string): Option<(string, string)> {
    var (n, k) := (Name(TrimSpace(name)), Name(TrimSpace(key)));
    if n.text == "" || k.text == "" || n !in secrets || k !in secrets[n].data then None
    else
      var value := TrimSpace(secrets[n].data[k]);
      if value == "" then None else Some((value, secrets[n].resourceVersion))
  }

  function HostedRef(spec: HostedSpec, resourceVersion: string): SecretRef {
    SecretRef(TrimSpace(spec.secretRefName), DefaultSecretKey(spec.secretKey, "apiKey"), resourceVersion)
  }

  function ReadHosted(secrets: Secrets, spec: HostedSpec): Option<(string, string)> {
    ReadSecretValue(secrets, spec.secretRefName, DefaultSecretKey(spec.secretKey, "apiKey"))
  }

  /** The token is optional: without a Secret name nothing is read. */
  function ReadFastAPI(secrets: Secrets, spec: FastAPISpec): Option<(string, string)> {
    if TrimSpace(spec.authSecretRefName) == "" then Some(("", ""))
    else ReadSecretValue(secrets, spec.authSecretRefName, DefaultSecretKey(spec.authSecretKey, "token"))
  }

  function ConfigureProvider(provider: string, spec: LLMSpec, secrets: Secrets): Option<(Backend, Source)> {
    if provider == "openai" then
      var read := ReadHosted(secrets, spec.openAI);
      var url := TrimSpace(spec.openAI.baseURL);
      if read.None? then None
      else Some((OpenAI(read.value.0, url), FromOpenAI(url, HostedRef(spec.openAI, read.value.1))))
    else if provider == "anthropic" then
      var read := ReadHosted(secrets, spec.anthropic);
      var url := TrimSpace(spec.anthropic.baseURL);
      if read.None? then None
      else Some((Anthropic(read.value.0, url), FromAnthropic(url, HostedRef(spec.anthropic, read.value.1))))
    else if provider == "fastapi" then
      var f := spec.fastAPI;
      var read := ReadFastAPI(secrets, f);
      var (url, health) := (TrimSpace(f.url), TrimSpace(f.healthURL));
      if read.None? then None
      else Some((FastAPI(url, read.value.0, f.tlsSkipVerify, health, f.failureThreshold, f.cooldown),
                 FromFastAPI(url, f.tlsSkipVerify, health, f.failureThreshold, f.cooldown,
                             SecretRef(TrimSpace(f.authSecretRefName), DefaultSecretKey(f.authSecretKey, "token"),
                                       read.value.1))))
    else if provider == "ollama" then
      Some((Ollama(TrimSpace(spec.ollamaURL)), FromOllama(TrimSpace(spec.ollamaURL))))
    else None
  }

  function BuildLLMProviderConfig(spec: LLMSpec, secrets: Secrets): Built {
    var provider := if TrimSpace(spec.provider) == "" then "disabled" else TrimSpace(spec.provider);
    var timeout := if spec.timeout <= 0 then DEFAULT_TIMEOUT else spec.timeout;
    var maxTokens := if spec.maxTokens <= 0 then DEFAULT_MAX_TOKENS else spec.maxTokens;
    var model := TrimSpace(spec.model);
    if provider == "disabled" then Disabled
    else
      var configured := ConfigureProvider(provider, spec, secrets);
      if configured.None? then Failed
      else
        var temperature := if spec.temperature.Some? then Some(Rounded(spec.temperature.value)) else None;
        Configured(
          Config(model, timeout, maxTokens, spec.temperature, configured.value.0),
          Identity(model, timeout, maxTokens, temperature, configured.value.1))
  }

  // ---------------------------------------------------------------------------
  // The cache key
  // ---------------------------------------------------------------------------

  datatype CacheKey = CacheKey(text: string)

  function Join(parts: seq<string>): string
    requires parts != []
  {
    if |parts| == 1 then parts[0] else parts[0] + "|" + Join(parts[1..])
  }

  function ProviderName(source: Source): string {
    match source
    case FromOpenAI(_, _) => "openai"
    case FromAnthropic(_, _) => "anthropic"
    case FromFastAPI(_, _, _, _, _, _) => "fastapi"
    case FromOllama(_) => "ollama"
  }

  function HostedParts(provider: string, url: string, s: SecretRef): seq<string> {
    [provider + ".baseURL=" + url, provider + ".secret=" + s.name, provider + ".secretKey=" + s.key,
     provider + ".secretRV=" + s.resourceVersion]
  }

  function EndpointParts(url: string, tlsSkipVerify: bool, health: string, threshold: int, cooldown: int): (r: seq<string>)
    ensures |r| == 5
  {
    ["fastapi.url=" + url, "fastapi.tlsSkipVerify=" + BoolText(tlsSkipVerify), "fastapi.healthURL=" + health,
     "fastapi.failureThreshold=" + Signed(threshold, 1), "fastapi.cooldown=" + DurationText(cooldown)]
  }

  function AuthParts(s: SecretRef): seq<string> {
    ["fastapi.authSecret=" + s.name, "fastapi.authSecretKey=" + s.key, "fastapi.authSecretRV=" + s.resourceVersion]
  }

  function SourceParts(source: Source): seq<string> {
    match source
    case FromOpenAI(url, s) => HostedParts("openai", url, s)
    case FromAnthropic(url, s) => HostedParts("anthropic", url, s)
    case FromFastAPI(url, tlsSkipVerify, health, threshold, cooldown, s) =>
      EndpointParts(url, tlsSkipVerify, health, threshold, cooldown) + AuthParts(s)
    case FromOllama(url) => ["ollama.url=" + url]
  }

  function TemperatureParts(temperature: Option<Decimal>): seq<string> {
    if temperature.Some? then ["temp=" + DecimalText(temperature.value)] else []
  }

  function BaseParts(i: Identity): (r: seq<string>)
    ensures |r| == 4
  {
    ["provider=" + ProviderName(i.source), "model=" + i.model, "timeout=" + DurationText(i.timeout),
     "maxTokens=" + Digits(i.maxTokens)]
  }

  function Parts(i: Identity): (r: seq<string>)
    ensures r != []
  {
    BaseParts(i) + (TemperatureParts(i.temperature) + SourceParts(i.source))
  }

  function KeyFor(i: Identity): CacheKey { CacheKey(Join(Parts(i))) }

  // ---------------------------------------------------------------------------
  // The cache
  // ---------------------------------------------------------------------------

  /** A client; all that is known of it is what it was built from. */
  datatype Generator = Generator(config: Config)

  type Cache = map<CacheKey, Generator>

  datatype Resolution = NoClient | ResolveError | Client(generator: Generator, provider: string, modelLabel: string)

  function DefaultModelLabel(model: string): string {
    if TrimSpace(model) == "" then "default" else TrimSpace(model)
  }

  class CapacityPlanReconciler {
    var llmClientCache: Cache

    constructor ()
      ensures llmClientCache == map[]
    {
      llmClientCache := map[];
    }

    /** `builds` tells whether the provider's constructor accepts the configuration. */
    method ResolvePlanLLMClient(spec: LLMSpec, secrets: Secrets, builds: bool) returns (r: Resolution)
      modifies this
      ensures r == Resolve(old(llmClientCache), Request(spec, secrets, builds)).0
      ensures llmClientCache == Resolve(old(llmClientCache), Request(spec, secrets, builds)).1
    {
      hide BuildLLMProviderConfig, KeyFor;
      var built := BuildLLMProviderConfig(spec, secrets);
      if built.Failed? {
        return ResolveError;
      }
      if built.Disabled? {
        return NoClient;
      }
      var provider, modelLabel := ProviderName(built.identity.source), DefaultModelLabel(built.config.model);
      var cacheKey := KeyFor(built.identity);
      if cacheKey in llmClientCache {
        return Client(llmClientCache[cacheKey], provider, modelLabel);
      }
      if !builds {
        return ResolveError;
      }
      var generator := Generator(built.config);
      llmClientCache := llmClientCache[cacheKey := generator];
      return Client(generator, provider, modelLabel);
    }
  }

  datatype Request = Request(spec: LLMSpec, secrets: Secrets, builds: bool)

  function Resolve(cache: Cache, request: Request): (Resolution, Cache) {
    match BuildLLMProviderConfig(request.spec, request.secrets)
    case Failed => (ResolveError, cache)
    case Disabled => (NoClient, cache)
    case Configured(config, identity) =>
      var (key, provider, modelLabel) := (KeyFor(identity), ProviderName(identity.source), DefaultModelLabel(config.model));
      if key in cache then (Client(cache[key], provider, modelLabel), cache)
      else if request.builds then
        (Client(Generator(config), provider, modelLabel), cache[key := Generator(config)])
      else (ResolveError, cache)
  }
}
