/** The cached client is the one the plan asks for, over any run of resolutions. */
module LLMCacheRuns {

  import opened Decimals
  import opened LLMCache
  import opened LLMCacheKeys
  import opened Options
  import opened Text

  // ---------------------------------------------------------------------------
  // Runs
  // ---------------------------------------------------------------------------

  /** Equal, up to the temperature's digits after the sixth. */
  predicate SameConfig(c: Config, d: Config) {
    && c.(temperature := None) == d.(temperature := None)
    && c.temperature.Some? == d.temperature.Some?
    && (c.temperature.Some? ==> Rounded(c.temperature.value) == Rounded(d.temperature.value))
  }

  /** A resource version names one state of a Secret. */
  ghost predicate SecretsAgree(s: Secrets, t: Secrets) {
    forall n :: n in s && n in t && s[n].resourceVersion == t[n].resourceVersion ==> s[n].data == t[n].data
  }

  lemma HostedValueAgrees(s: Secrets, t: Secrets, a: HostedSpec, b: HostedSpec)
    requires SecretsAgree(s, t) && ReadHosted(s, a).Some? && ReadHosted(t, b).Some?
    requires HostedRef(a, ReadHosted(s, a).value.1) == HostedRef(b, ReadHosted(t, b).value.1)
    ensures ReadHosted(s, a) == ReadHosted(t, b)
  {
    hide TrimSpace, DefaultSecretKey;
  }

  lemma FastAPIValueAgrees(s: Secrets, t: Secrets, a: FastAPISpec, b: FastAPISpec)
    requires SecretsAgree(s, t) && ReadFastAPI(s, a).Some? && ReadFastAPI(t, b).Some?
    requires TrimSpace(a.authSecretRefName) == TrimSpace(b.authSecretRefName)
    requires DefaultSecretKey(a.authSecretKey, "token") == DefaultSecretKey(b.authSecretKey, "token")
    requires ReadFastAPI(s, a).value.1 == ReadFastAPI(t, b).value.1
    ensures ReadFastAPI(s, a) == ReadFastAPI(t, b)
  {
    hide TrimSpace, DefaultSecretKey;
  }

  /** The identity stands for the configuration, the secret value included. */
  lemma IdentityDeterminesConfig(a: LLMSpec, s: Secrets, b: LLMSpec, t: Secrets)
    requires SecretsAgree(s, t)
    requires BuildLLMProviderConfig(a, s).Configured? && BuildLLMProviderConfig(b, t).Configured?
    requires BuildLLMProviderConfig(a, s).identity == BuildLLMProviderConfig(b, t).identity
    ensures SameConfig(BuildLLMProviderConfig(a, s).config, BuildLLMProviderConfig(b, t).config)
  {
    hide TrimSpace, DefaultSecretKey, Rounded, ReadSecretValue, SecretsAgree, ReadHosted, ReadFastAPI;
    match BuildLLMProviderConfig(a, s).identity.source
    case FromOpenAI(_, _) => HostedValueAgrees(s, t, a.openAI, b.openAI);
    case FromAnthropic(_, _) => HostedValueAgrees(s, t, a.anthropic, b.anthropic);
    case FromFastAPI(_, _, _, _, _, _) => FastAPIValueAgrees(s, t, a.fastAPI, b.fastAPI);
    case FromOllama(_) =>
  }

  function CacheAfter(run: seq<Request>): Cache {
    if run == [] then map[] else Resolve(CacheAfter(run[..|run| - 1]), run[|run| - 1]).1
  }

  function BuiltFor(r: Request): Built { BuildLLMProviderConfig(r.spec, r.secrets) }

  /** Every client in the cache was built by some earlier request with that key. */
  ghost predicate BuiltEarlier(cache: Cache, run: seq<Request>) {
    forall key :: key in cache ==> exists j :: 0 <= j < |run| && BuiltBy(run[j], key, cache[key])
  }

  ghost predicate BuiltBy(r: Request, key: CacheKey, generator: Generator) {
    var built := BuiltFor(r);
    built.Configured? && KeyFor(built.identity) == key && built.config == generator.config
  }

  lemma ResolveAddsBuilt(cache: Cache, r: Request, key: CacheKey)
    requires key in Resolve(cache, r).1
    ensures (key in cache && Resolve(cache, r).1[key] == cache[key]) || BuiltBy(r, key, Resolve(cache, r).1[key])
  {
    hide BuildLLMProviderConfig, KeyFor;
  }

  lemma {:induction false} CacheIsBuiltEarlier(run: seq<Request>)
    ensures BuiltEarlier(CacheAfter(run), run)
  {
    if run != [] {
      hide Resolve, BuiltBy;
      var front, last := run[..|run| - 1], run[|run| - 1];
      CacheIsBuiltEarlier(front);
      var before, after := CacheAfter(front), CacheAfter(run);
      forall key | key in after ensures exists j :: 0 <= j < |run| && BuiltBy(run[j], key, after[key]) {
        ResolveAddsBuilt(before, last, key);
        if key in before && after[key] == before[key] {
          var j :| 0 <= j < |front| && BuiltBy(front[j], key, before[key]);
          assert BuiltBy(run[j], key, after[key]);
        }
      }
    }
  }

  ghost predicate CleanRun(run: seq<Request>) {
    && (forall i :: 0 <= i < |run| ==> BuiltFor(run[i]).Configured? ==> Unambiguous(BuiltFor(run[i]).identity))
    && (forall i, j :: 0 <= i < |run| && 0 <= j < |run| ==> SecretsAgree(run[i].secrets, run[j].secrets))
  }

  /** Whichever client a plan gets, from the cache or new, was built from the plan's present configuration. */
  lemma ClientIsCurrent(run: seq<Request>, i: nat)
    requires CleanRun(run) && i < |run|
    ensures
      var (resolution, _) := Resolve(CacheAfter(run[..i]), run[i]);
      && (resolution.Client? ==>
            BuiltFor(run[i]).Configured? && SameConfig(resolution.generator.config, BuiltFor(run[i]).config))
      && (BuiltFor(run[i]).Disabled? <==> resolution.NoClient?)
  {
    hide BuildLLMProviderConfig, KeyFor, Unambiguous, SameConfig, SecretsAgree;
    var now, built, cache := run[i], BuiltFor(run[i]), CacheAfter(run[..i]);
    if built.Configured? {
      SameConfigReflexive(built.config);
      var key := KeyFor(built.identity);
      if key in cache {
        CacheIsBuiltEarlier(run[..i]);
        var j :| 0 <= j < i && BuiltBy(run[..i][j], key, cache[key]);
        assert run[..i][j] == run[j];
        KeyInjective(BuiltFor(run[j]).identity, built.identity);
        IdentityDeterminesConfig(run[j].spec, run[j].secrets, now.spec, now.secrets);
      }
    }
  }

  lemma SameConfigReflexive(c: Config)
    ensures SameConfig(c, c)
  {
  }

  lemma ResolveKeepsEntries(cache: Cache, r: Request, key: CacheKey)
    requires key in cache
    ensures key in Resolve(cache, r).1 && Resolve(cache, r).1[key] == cache[key]
  {
    hide BuildLLMProviderConfig, KeyFor;
  }

  lemma {:induction false} EntriesStay(run: seq<Request>, i: nat, j: nat, key: CacheKey)
    requires i <= j <= |run| && key in CacheAfter(run[..i])
    ensures key in CacheAfter(run[..j]) && CacheAfter(run[..j])[key] == CacheAfter(run[..i])[key]
  {
    hide Resolve, CacheAfter;
    if i < j {
      EntriesStay(run, i, j - 1, key);
      CacheStep(run, j - 1);
      ResolveKeepsEntries(CacheAfter(run[..j - 1]), run[j - 1], key);
    }
  }

  lemma CacheStep(run: seq<Request>, j: nat)
    requires j < |run|
    ensures CacheAfter(run[..j + 1]) == Resolve(CacheAfter(run[..j]), run[j]).1
  {
    hide Resolve;
    assert run[..j + 1][..j] == run[..j];
  }

  lemma ClientIsCached(cache: Cache, r: Request)
    requires Resolve(cache, r).0.Client?
    ensures
      var (resolution, after) := Resolve(cache, r);
      && BuiltFor(r).Configured?
      && KeyFor(BuiltFor(r).identity) in after && after[KeyFor(BuiltFor(r).identity)] == resolution.generator
  {
    hide BuildLLMProviderConfig, KeyFor;
  }

  lemma CachedClientIsUsed(cache: Cache, r: Request)
    requires BuiltFor(r).Configured? && KeyFor(BuiltFor(r).identity) in cache
    ensures Resolve(cache, r).0.Client? && Resolve(cache, r).0.generator == cache[KeyFor(BuiltFor(r).identity)]
    ensures Resolve(cache, r).1 == cache
  {
    hide BuildLLMProviderConfig, KeyFor;
  }

  /** A plan that asks for the same again gets the same client, however much later, and nothing is built for it. */
  lemma ClientIsReused(run: seq<Request>, i: nat, j: nat)
    requires i < j < |run|
    requires Resolve(CacheAfter(run[..i]), run[i]).0.Client?
    requires BuiltFor(run[i]).Configured? && BuiltFor(run[j]).Configured?
    requires BuiltFor(run[j]).identity == BuiltFor(run[i]).identity
    ensures
      var (resolution, after) := Resolve(CacheAfter(run[..j]), run[j]);
      && resolution.Client?
      && resolution.generator == Resolve(CacheAfter(run[..i]), run[i]).0.generator
      && after == CacheAfter(run[..j])
  {
    hide Resolve, BuiltFor, KeyFor, CacheAfter;
    ClientIsCached(CacheAfter(run[..i]), run[i]);
    CacheStep(run, i);
    EntriesStay(run, i + 1, j, KeyFor(BuiltFor(run[i]).identity));
    CachedClientIsUsed(CacheAfter(run[..j]), run[j]);
  }
}
