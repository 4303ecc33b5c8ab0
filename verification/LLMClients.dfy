/** Which fields of a plan and which Secret values the client it gets was built from. */
module LLMClients {

  import opened Decimals
  import opened LLMCache
  import opened LLMCacheRuns
  import opened OllamaKeys
  import opened Options
  import opened Text
  import opened Times

  /** The Secret's value under the key, or under a default key where none is named. */
  ghost predicate IsSecretText(secrets: Secrets, name: string, key: string, defaultKey: string, text: string) {
    var secret := Name(TrimSpace(name));
    var field := Name(if TrimSpace(key) == "" then defaultKey else TrimSpace(key));
    && TrimSpace(name) != "" && secret in secrets && field in secrets[secret].data
    && text == TrimSpace(secrets[secret].data[field]) && text != ""
  }

  ghost predicate UsesBackend(spec: LLMSpec, secrets: Secrets, backend: Backend) {
    match backend
    case OpenAI(apiKey, baseURL) =>
      && TrimSpace(spec.provider) == "openai" && baseURL == TrimSpace(spec.openAI.baseURL)
      && IsSecretText(secrets, spec.openAI.secretRefName, spec.openAI.secretKey, "apiKey", apiKey)
    case Anthropic(apiKey, baseURL) =>
      && TrimSpace(spec.provider) == "anthropic" && baseURL == TrimSpace(spec.anthropic.baseURL)
      && IsSecretText(secrets, spec.anthropic.secretRefName, spec.anthropic.secretKey, "apiKey", apiKey)
    case FastAPI(url, authToken, tlsSkipVerify, healthURL, failureThreshold, cooldown) =>
      && TrimSpace(spec.provider) == "fastapi" && url == TrimSpace(spec.fastAPI.url)
      && healthURL == TrimSpace(spec.fastAPI.healthURL) && tlsSkipVerify == spec.fastAPI.tlsSkipVerify
      && failureThreshold == spec.fastAPI.failureThreshold && cooldown == spec.fastAPI.cooldown
      && (if TrimSpace(spec.fastAPI.authSecretRefName) == "" then authToken == ""
          else IsSecretText(secrets, spec.fastAPI.authSecretRefName, spec.fastAPI.authSecretKey, "token", authToken))
    case Ollama(url) => TrimSpace(spec.provider) == "ollama" && url == TrimSpace(spec.ollamaURL)
  }

  /** The configuration is what the plan's spec says, with its Secret's present value. */
  ghost predicate UsesPlan(spec: LLMSpec, secrets: Secrets, c: Config) {
    && c.model == TrimSpace(spec.model) && c.temperature == spec.temperature
    && c.timeout == (if spec.timeout > 0 then spec.timeout else 15 * 1_000_000_000)
    && c.maxTokens == (if spec.maxTokens > 0 then spec.maxTokens else 256)
    && UsesBackend(spec, secrets, c.backend)
  }

  lemma SecretTextIsRead(secrets: Secrets, name: string, key: string, defaultKey: string, text: string)
    requires TrimSpace(defaultKey) == defaultKey && defaultKey != ""
    ensures
      var read := ReadSecretValue(secrets, name, DefaultSecretKey(key, defaultKey));
      IsSecretText(secrets, name, key, defaultKey, text) <==> read.Some? && read.value.0 == text
  {
    TrimmedTexts(key);
    TrimmedTexts(TrimSpace(key));
    hide TrimSpace;
  }

  lemma DefaultKeysAreTrimmed()
    ensures TrimSpace("apiKey") == "apiKey" && TrimSpace("token") == "token"
  {
    TrimmedTexts("apiKey");
    TrimmedTexts("token");
  }

  lemma ProviderNames()
    ensures TrimSpace("disabled") == "disabled" && "disabled" != ""
    ensures "openai" !in {"anthropic", "fastapi", "ollama", "disabled", ""}
    ensures "anthropic" !in {"fastapi", "ollama", "disabled", ""} && "fastapi" !in {"ollama", "disabled", ""}
    ensures "ollama" !in {"disabled", ""}
  {
    TrimmedTexts("disabled");
    assert "openai"[1] == 'p' && "ollama"[1] == 'l' && "anthropic"[0] == 'a' && "fastapi"[0] == 'f';
    assert "disabled"[0] == 'd' && "openai"[0] == 'o' && "ollama"[0] == 'o';
  }

  /** The plan names no provider, or the one that stands for none. */
  predicate NamesNone(spec: LLMSpec) { TrimSpace(spec.provider) in {"", "disabled"} }

  lemma SecretTextsAreRead(secrets: Secrets, spec: LLMSpec)
    ensures forall text :: IsSecretText(secrets, spec.openAI.secretRefName, spec.openAI.secretKey, "apiKey", text)
              <==> ReadHosted(secrets, spec.openAI).Some? && ReadHosted(secrets, spec.openAI).value.0 == text
    ensures forall text :: IsSecretText(secrets, spec.anthropic.secretRefName, spec.anthropic.secretKey, "apiKey", text)
              <==> ReadHosted(secrets, spec.anthropic).Some? && ReadHosted(secrets, spec.anthropic).value.0 == text
    ensures TrimSpace(spec.fastAPI.authSecretRefName) != "" ==> forall text ::
              IsSecretText(secrets, spec.fastAPI.authSecretRefName, spec.fastAPI.authSecretKey, "token", text)
              <==> ReadFastAPI(secrets, spec.fastAPI).Some? && ReadFastAPI(secrets, spec.fastAPI).value.0 == text
  {
    DefaultKeysAreTrimmed();
    hide IsSecretText, ReadSecretValue, DefaultSecretKey, TrimSpace;
    var o, a, f := spec.openAI, spec.anthropic, spec.fastAPI;
    forall text ensures IsSecretText(secrets, o.secretRefName, o.secretKey, "apiKey", text)
        <==> ReadHosted(secrets, o).Some? && ReadHosted(secrets, o).value.0 == text {
      SecretTextIsRead(secrets, o.secretRefName, o.secretKey, "apiKey", text);
    }
    forall text ensures IsSecretText(secrets, a.secretRefName, a.secretKey, "apiKey", text)
        <==> ReadHosted(secrets, a).Some? && ReadHosted(secrets, a).value.0 == text {
      SecretTextIsRead(secrets, a.secretRefName, a.secretKey, "apiKey", text);
    }
    if TrimSpace(f.authSecretRefName) != "" {
      forall text ensures IsSecretText(secrets, f.authSecretRefName, f.authSecretKey, "token", text)
          <==> ReadFastAPI(secrets, f).Some? && ReadFastAPI(secrets, f).value.0 == text {
        SecretTextIsRead(secrets, f.authSecretRefName, f.authSecretKey, "token", text);
      }
    }
  }

  /** The configuration built is the one that uses the plan, and there is none exactly when no configuration does. */
  lemma BuiltUsesPlan(spec: LLMSpec, secrets: Secrets, c: Config)
    ensures
      var built := BuildLLMProviderConfig(spec, secrets);
      built.Configured? && built.config == c <==> UsesPlan(spec, secrets, c)
  {
    ProviderNames();
    SecretTextsAreRead(secrets, spec);
    hide IsSecretText, ReadHosted, TrimSpace, DefaultSecretKey, Rounded;
  }

  lemma DisabledByName(spec: LLMSpec, secrets: Secrets)
    ensures BuildLLMProviderConfig(spec, secrets).Disabled? <==> NamesNone(spec)
  {
    ProviderNames();
    hide TrimSpace, ConfigureProvider, Rounded;
  }

  /**
   Over every run with unambiguous texts, a plan that names a provider gets a client built from
   its own present spec and Secret, up to the temperature's digits after the sixth; it fails only
   where the spec cannot be used or the provider refuses it.
   */
  lemma ClientUsesPlan(run: seq<Request>, i: nat)
    requires CleanRun(run) && i < |run|
    ensures
      var (now, resolution) := (run[i], Resolve(CacheAfter(run[..i]), run[i]).0);
      && (resolution.NoClient? <==> NamesNone(now.spec))
      && (resolution.Client? ==>
            && (exists c :: UsesPlan(now.spec, now.secrets, c) && SameConfig(resolution.generator.config, c))
            && resolution.provider == TrimSpace(now.spec.provider)
            && resolution.modelLabel == if TrimSpace(now.spec.model) == "" then "default" else TrimSpace(now.spec.model))
      && (resolution.ResolveError? ==>
            || !now.builds
            || (!NamesNone(now.spec) && forall c :: !UsesPlan(now.spec, now.secrets, c)))
  {
    hide BuildLLMProviderConfig, KeyFor, UsesPlan, SameConfig, CacheAfter, TrimSpace, ProviderName, NamesNone, CleanRun;
    var now := run[i];
    var built := BuiltFor(now);
    ClientIsCurrent(run, i);
    ResolutionOf(CacheAfter(run[..i]), now);
    PlanIsUsedOrUnusable(now);
    hide BuiltFor, Resolve;
  }

  lemma PlanIsUsedOrUnusable(r: Request)
    ensures
      var built := BuiltFor(r);
      && (built.Disabled? <==> NamesNone(r.spec))
      && (built.Configured? ==>
            && UsesPlan(r.spec, r.secrets, built.config)
            && ProviderName(built.identity.source) == TrimSpace(r.spec.provider)
            && TrimSpace(built.config.model) == built.config.model == TrimSpace(r.spec.model))
      && (built.Failed? ==> !NamesNone(r.spec) && forall c :: !UsesPlan(r.spec, r.secrets, c))
  {
    hide BuildLLMProviderConfig, UsesPlan, TrimSpace, ProviderName, NamesNone;
    var built := BuiltFor(r);
    DisabledByName(r.spec, r.secrets);
    forall c ensures built.Configured? && built.config == c <==> UsesPlan(r.spec, r.secrets, c) {
      BuiltUsesPlan(r.spec, r.secrets, c);
    }
    if built.Configured? {
      BuiltIsNamed(r.spec, r.secrets);
      TrimmedTexts(r.spec.model);
      TrimmedTexts(TrimSpace(r.spec.model));
    }
  }

  lemma ResolutionOf(cache: Cache, r: Request)
    ensures
      var (built, resolution) := (BuiltFor(r), Resolve(cache, r).0);
      && (resolution.NoClient? <==> built.Disabled?)
      && (resolution.Client? ==>
            built.Configured? && resolution.provider == ProviderName(built.identity.source)
            && resolution.modelLabel == DefaultModelLabel(built.config.model))
      && (resolution.ResolveError? ==> built.Failed? || !r.builds)
  {
    hide BuildLLMProviderConfig, KeyFor, ProviderName, DefaultModelLabel;
  }

  lemma BuiltIsNamed(spec: LLMSpec, secrets: Secrets)
    requires BuildLLMProviderConfig(spec, secrets).Configured?
    ensures
      var built := BuildLLMProviderConfig(spec, secrets);
      ProviderName(built.identity.source) == TrimSpace(spec.provider) && built.config.model == TrimSpace(spec.model)
  {
    hide TrimSpace, ReadHosted, ReadFastAPI, Rounded;
  }
}
