/**
 When two Ollama plans share a cache key, and so a client. Their keys hold two free texts, the
 model and the URL, and between them parts that a text can imitate.
 */
module OllamaKeys {

  import opened Decimals
  import opened Durations
  import opened LLMCache
  import opened LLMCacheKeys
  import opened LLMCacheRuns
  import opened Options
  import opened Text

  // ---------------------------------------------------------------------------
  // The identities there are
  // ---------------------------------------------------------------------------

  predicate Trimmed(s: string) {
    s != "" ==> !IsSpace(s[0]) && !IsSpace(s[|s| - 1])
  }

  lemma {:induction false} LeftTrimmed(s: string)
    ensures TrimLeft(s) != "" ==> !IsSpace(TrimLeft(s)[0])
    ensures s != "" && !IsSpace(s[0]) ==> TrimLeft(s) == s
  {
    if s != "" && IsSpace(s[0]) {
      LeftTrimmed(s[1..]);
    }
  }

  lemma {:induction false} RightTrimmed(s: string)
    ensures TrimRight(s) <= s
    ensures TrimRight(s) != "" ==> !IsSpace(TrimRight(s)[|TrimRight(s)| - 1])
    ensures s != "" && !IsSpace(s[|s| - 1]) ==> TrimRight(s) == s
  {
    if s != "" && IsSpace(s[|s| - 1]) {
      RightTrimmed(s[..|s| - 1]);
    }
  }

  lemma TrimmedTexts(s: string)
    ensures Trimmed(TrimSpace(s))
    ensures Trimmed(s) ==> TrimSpace(s) == s
  {
    LeftTrimmed(s);
    RightTrimmed(TrimLeft(s));
    hide IsSpace;
  }

  /** A spec from which this identity is built. */
  ghost predicate Arises(i: Identity) {
    exists spec, secrets, config :: BuildLLMProviderConfig(spec, secrets) == Configured(config, i)
  }

  predicate Plausible(i: Identity) {
    i.source.FromOllama? && i.timeout > 0 && i.maxTokens > 0 && Trimmed(i.model) && Trimmed(i.source.url)
  }

  function Temperature(t: Option<Decimal>): Option<real> {
    if t.None? then None
    else if !t.value.negative then Some(t.value.micros as real / MILLION as real)
    else if t.value.micros == 0 then Some(-0.0000001)
    else Some(-(t.value.micros as real / MILLION as real))
  }

  lemma WholeRounds(n: nat)
    ensures RoundHalfEven(n as real) == n
  {
  }

  lemma EveryDecimalArises(d: Decimal)
    ensures Rounded(Temperature(Some(d)).value) == d
  {
    var x := d.micros as real / MILLION as real;
    assert x * MILLION as real == d.micros as real;
    WholeRounds(d.micros);
  }

  function SpecOf(i: Identity): LLMSpec
    requires i.source.FromOllama?
  {
    LLMSpec("ollama", i.model, i.timeout, i.maxTokens, Temperature(i.temperature), HostedSpec("", "", ""),
            HostedSpec("", "", ""), FastAPISpec("", "", "", false, "", 0, 0), i.source.url)
  }

  lemma ProviderIsTrimmed()
    ensures TrimSpace("ollama") == "ollama"
    ensures "ollama" != "openai" && "ollama" != "anthropic" && "ollama" != "fastapi" && "ollama" != "disabled"
  {
    TrimmedTexts("ollama");
    assert "ollama"[0] == 'o' && "ollama"[1] == 'l' && "openai"[1] == 'p';
    assert "anthropic"[0] == 'a' && "fastapi"[0] == 'f' && "disabled"[0] == 'd';
  }

  /** The identities of Ollama plans are exactly the plausible ones. */
  lemma OllamaIdentities(i: Identity)
    requires i.source.FromOllama?
    ensures Arises(i) <==> Plausible(i)
  {
    if Plausible(i) {
      var spec := SpecOf(i);
      ProviderIsTrimmed();
      TrimmedTexts(i.model);
      TrimmedTexts(i.source.url);
      if i.temperature.Some? {
        EveryDecimalArises(i.temperature.value);
      }
      hide TrimSpace, Trimmed, Rounded, Temperature;
      assert BuildLLMProviderConfig(spec, map[]) ==
        Configured(Config(i.model, i.timeout, i.maxTokens, spec.temperature, Ollama(i.source.url)), i);
    }
    if spec, secrets, config :| BuildLLMProviderConfig(spec, secrets) == Configured(config, i) {
      TrimmedTexts(spec.model);
      TrimmedTexts(spec.ollamaURL);
      hide TrimSpace, Trimmed, Rounded, ReadHosted, ReadFastAPI;
    }
  }

  // ---------------------------------------------------------------------------
  // The text between model and URL
  // ---------------------------------------------------------------------------

  function TemperaturePart(t: Option<Decimal>): string {
    if t.Some? then "|temp=" + DecimalText(t.value) else ""
  }

  function Parts(timeout: int, maxTokens: nat, t: Option<Decimal>): string {
    "timeout=" + DurationText(timeout) + "|maxTokens=" + Digits(maxTokens) + TemperaturePart(t) + "|ollama.url="
  }

  /** What stands between the model and the URL. */
  function Between(timeout: int, maxTokens: nat, t: Option<Decimal>): string {
    "|" + Parts(timeout, maxTokens, t)
  }

  function BetweenOf(i: Identity): string { Between(i.timeout, i.maxTokens, i.temperature) }

  function Body(i: Identity): string
    requires i.source.FromOllama?
  {
    i.model + BetweenOf(i) + i.source.url
  }

  /** The text holds all that can stand between a model and a URL. */
  ghost predicate Imitates(text: string) {
    exists x, timeout: int, maxTokens: nat, t, y ::
      timeout > 0 && maxTokens > 0 && Trimmed(x) && Trimmed(y) && text == x + Between(timeout, maxTokens, t) + y
  }

  lemma TemperatureIsOn(i: Identity)
    requires i.source.FromOllama?
    ensures "|" + TemperatureOn(i) == TemperaturePart(i.temperature) + "|ollama.url=" + i.source.url
  {
    hide DecimalText, Join;
    JoinOne("ollama.url=" + i.source.url);
    assert SourceText(i.source) == "ollama.url=" + i.source.url;
  }

  lemma BodyIsOn(i: Identity)
    requires i.source.FromOllama?
    ensures ModelOn(i) == Body(i)
  {
    TemperatureIsOn(i);
    hide DurationText, Digits, TemperatureOn, TemperaturePart;
    Flatten(i.model, DurationText(i.timeout), Digits(i.maxTokens), TemperatureOn(i), TemperaturePart(i.temperature),
            i.source.url);
  }

  lemma Flatten(model: string, d: string, n: string, rest: string, t: string, url: string)
    requires "|" + rest == t + "|ollama.url=" + url
    ensures model + "|" + ("timeout=" + (d + "|" + ("maxTokens=" + (n + "|" + rest))))
            == model + ("|" + ("timeout=" + d + "|maxTokens=" + n + t + "|ollama.url=")) + url
  {
    var first, second := "|" + ("timeout=" + d), "|" + ("maxTokens=" + n);
    assert n + "|" + rest == n + (t + "|ollama.url=" + url);
    assert "|timeout=" + d == first && "|maxTokens=" + n == second;
    assert model + "|" + ("timeout=" + (d + "|" + ("maxTokens=" + (n + "|" + rest))))
           == model + (first + (second + ("|" + rest)));
  }

  /** Ollama keys are equal exactly when what follows the provider and the name of the model is. */
  lemma KeyIsBody(a: Identity, b: Identity)
    requires a.source.FromOllama?
    ensures KeyFor(a) == KeyFor(b) <==> b.source.FromOllama? && Body(a) == Body(b)
  {
    KeyText(a);
    KeyText(b);
    ProviderHasNoBar(a.source);
    ProviderHasNoBar(b.source);
    BodyIsOn(a);
    if b.source.FromOllama? {
      BodyIsOn(b);
    }
    hide ModelOn, Body;
    var p, q := "provider=" + ProviderName(a.source), "provider=" + ProviderName(b.source);
    if KeyFor(a) == KeyFor(b) {
      hide KeyFor;
      CutUnique(p, "model=" + ModelOn(a), q, "model=" + ModelOn(b), '|');
      Strip("provider=", ProviderName(a.source), ProviderName(b.source));
      Strip("model=", ModelOn(a), ModelOn(b));
      ProviderNamesDiffer(a.source, b.source);
    }
  }

  // ---------------------------------------------------------------------------
  // Imitations do not overlap
  // ---------------------------------------------------------------------------

  /** Every bar is followed by two characters that are not the first two of "timeout". */
  ghost predicate NoTimeout(s: string) {
    forall k :: 0 <= k < |s| && s[k] == '|' ==> k + 2 < |s| && !(s[k + 1] == 't' && s[k + 2] == 'i')
  }

  lemma NoTimeoutJoins(x: string, y: string)
    requires NoTimeout(x) && NoTimeout(y)
    ensures NoTimeout(x + y)
  {
  }

  lemma NoBarNoTimeout(s: string)
    requires '|' !in s
    ensures NoTimeout(s)
  {
  }

  lemma NamesAreNoTimeout()
    ensures NoTimeout("timeout=") && NoTimeout("|maxTokens=") && NoTimeout("|temp=") && NoTimeout("|ollama.url=")
    ensures NoTimeout("")
  {
    NoBarNoTimeout("timeout=");
    NoBarNoTimeout("maxTokens=");
    NoBarNoTimeout("temp=");
    NoBarNoTimeout("ollama.url=");
    assert "|maxTokens="[1] == 'm' && "|temp="[2] == 'e' && "|ollama.url="[1] == 'o';
    assert "|maxTokens="[1..] == "maxTokens=" && "|temp="[1..] == "temp=" && "|ollama.url="[1..] == "ollama.url=";
  }

  lemma PartsAreNoTimeout(timeout: int, maxTokens: nat, t: Option<Decimal>)
    ensures NoTimeout(Parts(timeout, maxTokens, t))
  {
    NamesAreNoTimeout();
    DurationTextHasNoBar(timeout);
    NoBarNoTimeout(DurationText(timeout));
    NoBarNoTimeout(Digits(maxTokens));
    if t.Some? {
      DecimalCharacters(t.value);
      NoBarNoTimeout(DecimalText(t.value));
      hide NoTimeout, DecimalText;
      NoTimeoutJoins("|temp=", DecimalText(t.value));
    }
    hide NoTimeout, DurationText, Digits, TemperaturePart;
    NoTimeoutJoins("timeout=", DurationText(timeout));
    NoTimeoutJoins("timeout=" + DurationText(timeout), "|maxTokens=");
    NoTimeoutJoins("timeout=" + DurationText(timeout) + "|maxTokens=", Digits(maxTokens));
    NoTimeoutJoins("timeout=" + DurationText(timeout) + "|maxTokens=" + Digits(maxTokens), TemperaturePart(t));
    NoTimeoutJoins("timeout=" + DurationText(timeout) + "|maxTokens=" + Digits(maxTokens) + TemperaturePart(t),
                   "|ollama.url=");
  }

  lemma BetweenStarts(i: Identity)
    ensures BetweenOf(i) == "|" + Parts(i.timeout, i.maxTokens, i.temperature)
    ensures |BetweenOf(i)| > 3 && BetweenOf(i)[0] == '|' && BetweenOf(i)[1] == 't' && BetweenOf(i)[2] == 'i'
  {
    hide DurationText, Digits, TemperaturePart;
    var rest := DurationText(i.timeout) + "|maxTokens=" + Digits(i.maxTokens) + TemperaturePart(i.temperature) + "|ollama.url=";
    assert BetweenOf(i) == "|timeout=" + rest;
  }

  lemma NoTimeoutAt(s: string, k: nat)
    requires NoTimeout(s) && k < |s| && s[k] == '|'
    ensures k + 2 < |s| && !(s[k + 1] == 't' && s[k + 2] == 'i')
  {
  }

  predicate StartsTimeout(s: string) {
    |s| > 2 && s[0] == '|' && s[1] == 't' && s[2] == 'i'
  }

  /** One text cut in two ways: the later cut begins behind the end of the earlier one. */
  lemma CutsDoNotOverlap(m: string, parts: string, u: string, m': string, mid': string, u': string)
    requires m + ("|" + parts) + u == m' + mid' + u' && |m| < |m'|
    requires NoTimeout(parts) && StartsTimeout(mid')
    ensures |m| + 1 + |parts| <= |m'|
  {
    hide NoTimeout;
    var whole, q := m' + mid' + u', |m'|;
    assert whole[q] == '|' && whole[q + 1] == 't' && whole[q + 2] == 'i';
    assert forall k :: 0 <= k < |parts| ==> parts[k] == whole[|m| + 1 + k];
    var k := q - |m| - 1;
    if k < |parts| {
      assert parts[k] == '|';
      NoTimeoutAt(parts, k);
    }
  }

  lemma CutTwice(m: string, mid: string, u: string, m': string, mid': string, u': string) returns (y: string)
    requires m + mid + u == m' + mid' + u' && |m| + |mid| <= |m'|
    ensures u == y + mid' + u' && m' == m + mid + y
  {
    var whole := m + mid + u;
    y := whole[|m| + |mid|..|m'|];
    assert u == whole[|m| + |mid|..] && m' == whole[..|m'|];
    assert mid' + u' == whole[|m'|..];
    assert m + mid == whole[..|m| + |mid|];
  }

  lemma MiddleIsTrimmed(front: string, y: string, back: string)
    requires Trimmed(front + y) && Trimmed(y + back)
    ensures Trimmed(y)
  {
    hide IsSpace;
    if y != "" {
      assert (front + y)[|front + y| - 1] == y[|y| - 1] && (y + back)[0] == y[0];
    }
  }

  lemma JoinIsTrimmed(x: string, mid: string, y: string)
    requires Trimmed(x) && Trimmed(y) && mid != "" && Trimmed(mid)
    ensures Trimmed(x + mid + y)
  {
    hide IsSpace;
    var s := x + mid + y;
    assert s[0] == if x != "" then x[0] else mid[0];
    assert s[|s| - 1] == if y != "" then y[|y| - 1] else mid[|mid| - 1];
  }

  lemma Regroup(a: string, b: string, c: string, d: string, e: string)
    ensures (a + b + c) + d + e == a + b + (c + d + e)
  {
  }

  lemma BetweenIsTrimmed(i: Identity)
    ensures Trimmed(BetweenOf(i)) && |BetweenOf(i)| > 0
  {
    hide DurationText, Digits, TemperaturePart;
    var s := BetweenOf(i);
    assert s[0] == '|' && s[|s| - 1] == '=';
  }

  // ---------------------------------------------------------------------------
  // Shared keys
  // ---------------------------------------------------------------------------

  lemma SameTimeoutOn(a: Identity, b: Identity)
    requires a.source.FromOllama? && b.source.FromOllama? && Body(a) == Body(b) && |a.model| == |b.model|
    ensures a.model == b.model && TimeoutOn(a) == TimeoutOn(b)
  {
    ModelAndRest(a);
    ModelAndRest(b);
    hide Body, TimeoutOn;
    SplitAtLength(a.model, "|" + ("timeout=" + TimeoutOn(a)), b.model, "|" + ("timeout=" + TimeoutOn(b)));
    Strip("|", "timeout=" + TimeoutOn(a), "timeout=" + TimeoutOn(b));
    Strip("timeout=", TimeoutOn(a), TimeoutOn(b));
  }

  lemma ModelAndRest(i: Identity)
    requires i.source.FromOllama?
    ensures Body(i) == i.model + ("|" + ("timeout=" + TimeoutOn(i)))
  {
    BodyIsOn(i);
    hide Body, TimeoutOn;
  }

  lemma SplitAtLength(m: string, s: string, m': string, s': string)
    requires m + s == m' + s' && |m| == |m'|
    ensures m == m' && s == s'
  {
    assert m == (m + s)[..|m|] && m' == (m' + s')[..|m'|];
    assert s == (m + s)[|m|..] && s' == (m' + s')[|m'|..];
  }

  /** The rest of the key does not depend on the model, and hides nothing. */
  lemma RestInjective(a: Identity, b: Identity)
    requires a.source.FromOllama? && b.source.FromOllama? && a.model == b.model == ""
    requires TemperatureOn(a) == TemperatureOn(b)
    ensures a.temperature == b.temperature && a.source == b.source
  {
    NoBarNoOccurrence("timeout=", "");
    hide Occurs, TemperatureOn;
    TemperatureInjective(a, b);
  }

  lemma SameModel(a: Identity, b: Identity)
    requires a.source.FromOllama? && b.source.FromOllama? && Body(a) == Body(b) && |a.model| == |b.model|
    ensures a == b
  {
    SameTimeoutOn(a, b);
    hide Body, TimeoutOn, TokensOn;
    TimeoutInjective(a, b);
    TokensInjective(a, b);
    SameTemperatureOn(a);
    SameTemperatureOn(b);
    hide TemperatureOn;
    RestInjective(a.(model := ""), b.(model := ""));
  }

  lemma SameTemperatureOn(i: Identity)
    ensures TemperatureOn(i.(model := "")) == TemperatureOn(i)
  {
  }

  /** What is behind the first cut and up to the second one makes both texts imitations. */
  lemma ImitationBehind(a: Identity, b: Identity)
    requires Plausible(a) && Plausible(b) && Body(a) == Body(b) && |a.model| < |b.model|
    ensures Imitates(a.source.url) && Imitates(b.model)
  {
    BetweenStarts(a);
    BetweenStarts(b);
    PartsAreNoTimeout(a.timeout, a.maxTokens, a.temperature);
    hide Parts, NoTimeout, Trimmed;
    var parts := Parts(a.timeout, a.maxTokens, a.temperature);
    CutsDoNotOverlap(a.model, parts, a.source.url, b.model, BetweenOf(b), b.source.url);
    var y := CutTwice(a.model, BetweenOf(a), a.source.url, b.model, BetweenOf(b), b.source.url);
    assert a.source.url == y + (BetweenOf(b) + b.source.url);
    MiddleIsTrimmed(a.model + BetweenOf(a), y, BetweenOf(b) + b.source.url);
    hide Between;
  }

  lemma ImitatedURLIsShared(a: Identity, x: string, timeout: int, maxTokens: nat, t: Option<Decimal>, y: string)
    returns (b: Identity)
    requires Plausible(a) && timeout > 0 && maxTokens > 0 && Trimmed(x) && Trimmed(y)
    requires a.source.url == x + Between(timeout, maxTokens, t) + y
    ensures Plausible(b) && b != a && Body(b) == Body(a)
  {
    b := Identity(a.model + BetweenOf(a) + x, timeout, maxTokens, t, FromOllama(y));
    BetweenIsTrimmed(a);
    hide Between, Trimmed;
    JoinIsTrimmed(a.model, BetweenOf(a), x);
    assert |b.model| > |a.model|;
    Regroup(a.model, BetweenOf(a), x, BetweenOf(b), y);
  }

  lemma ImitatedModelIsShared(a: Identity, x: string, timeout: int, maxTokens: nat, t: Option<Decimal>, y: string)
    returns (b: Identity)
    requires Plausible(a) && timeout > 0 && maxTokens > 0 && Trimmed(x) && Trimmed(y)
    requires a.model == x + Between(timeout, maxTokens, t) + y
    ensures Plausible(b) && b != a && Body(b) == Body(a)
  {
    b := Identity(x, timeout, maxTokens, t, FromOllama(y + BetweenOf(a) + a.source.url));
    BetweenIsTrimmed(a);
    BetweenIsTrimmed(b);
    hide Between, Trimmed;
    JoinIsTrimmed(y, BetweenOf(a), a.source.url);
    assert |b.model| < |a.model|;
    Regroup(x, BetweenOf(b), y, BetweenOf(a), a.source.url);
  }

  /**
   The exact condition: an Ollama plan shares its cache key with a plan that is configured
   otherwise if and only if its model or its URL imitates the text between the two.
   */
  lemma KeyIsSharedExactly(a: Identity)
    requires a.source.FromOllama? && Arises(a)
    ensures (exists b :: Arises(b) && b != a && KeyFor(b) == KeyFor(a)) <==> Imitates(a.model) || Imitates(a.source.url)
  {
    OllamaIdentities(a);
    hide Arises, KeyFor, Body, Plausible, Imitates;
    if b :| Arises(b) && b != a && KeyFor(b) == KeyFor(a) {
      SharedImitates(a, b);
    }
    if Imitates(a.model) || Imitates(a.source.url) {
      var b := ImitationIsShared(a);
      OllamaIdentities(b);
    }
  }

  lemma SharedImitates(a: Identity, b: Identity)
    requires a.source.FromOllama? && Arises(a) && Arises(b) && b != a && KeyFor(b) == KeyFor(a)
    ensures Imitates(a.model) || Imitates(a.source.url)
  {
    KeyIsBody(a, b);
    OllamaIdentities(a);
    OllamaIdentities(b);
    hide Arises, KeyFor, Body, Plausible, Imitates;
    if |a.model| < |b.model| {
      ImitationBehind(a, b);
    } else if |b.model| < |a.model| {
      ImitationBehind(b, a);
    } else {
      SameModel(a, b);
    }
  }

  lemma ImitationIsShared(a: Identity) returns (b: Identity)
    requires Plausible(a) && (Imitates(a.model) || Imitates(a.source.url))
    ensures Plausible(b) && b.source.FromOllama? && b != a && KeyFor(b) == KeyFor(a)
  {
    hide KeyFor, Body, Trimmed, Between;
    var url := Imitates(a.source.url);
    var x, timeout: int, maxTokens: nat, t, y :|
      timeout > 0 && maxTokens > 0 && Trimmed(x) && Trimmed(y)
      && (if url then a.source.url else a.model) == x + Between(timeout, maxTokens, t) + y;
    if url {
      b := ImitatedURLIsShared(a, x, timeout, maxTokens, t, y);
    } else {
      b := ImitatedModelIsShared(a, x, timeout, maxTokens, t, y);
    }
    KeyIsBody(a, b);
  }

  // ---------------------------------------------------------------------------
  // What that does to the clients
  // ---------------------------------------------------------------------------

  /** The configuration of an Ollama plan is its identity, up to the temperature's later digits. */
  lemma SameIdentityIsSameConfig(r: Request, s: Request)
    requires BuiltFor(r).Configured? && BuiltFor(s).Configured? && BuiltFor(s).identity.source.FromOllama?
    ensures BuiltFor(r).identity == BuiltFor(s).identity <==> SameConfig(BuiltFor(r).config, BuiltFor(s).config)
  {
    hide TrimSpace, Rounded, ReadHosted, ReadFastAPI;
  }

  lemma SharedKeyConfuses(r: Request, s: Request)
    requires BuiltFor(r).Configured? && BuiltFor(s).Configured? && r.builds
    requires KeyFor(BuiltFor(r).identity) == KeyFor(BuiltFor(s).identity)
    ensures Resolve(CacheAfter([r]), s).0.Client?
    ensures Resolve(CacheAfter([r]), s).0.generator.config == BuiltFor(r).config
  {
    hide BuildLLMProviderConfig, KeyFor;
    assert [r][..0] == [];
    assert CacheAfter([r]) == map[KeyFor(BuiltFor(r).identity) := Generator(BuiltFor(r).config)];
  }

  /**
   The exact condition for clients: some run before it hands an Ollama plan a client that is
   configured otherwise if and only if its model or its URL imitates the text between the two.
   */
  lemma WrongClientExactly(s: Request)
    requires BuiltFor(s).Configured? && BuiltFor(s).identity.source.FromOllama?
    ensures
      (exists run :: var resolution := Resolve(CacheAfter(run), s).0;
         resolution.Client? && !SameConfig(resolution.generator.config, BuiltFor(s).config))
      <==> Imitates(BuiltFor(s).identity.model) || Imitates(BuiltFor(s).identity.source.url)
  {
    var a := BuiltFor(s).identity;
    BuiltArises(s);
    hide Imitates;
    if run :| var resolution := Resolve(CacheAfter(run), s).0;
        resolution.Client? && !SameConfig(resolution.generator.config, BuiltFor(s).config) {
      var r := WrongClientHasSource(run, s);
      BuiltArises(r);
      SameIdentityIsSameConfig(r, s);
      hide Arises, BuiltFor, KeyFor, SameConfig, Resolve;
      SharedImitates(a, BuiltFor(r).identity);
    }
    if Imitates(a.model) || Imitates(a.source.url) {
      var r := ImitatingRequest(a);
      SameIdentityIsSameConfig(r, s);
      SharedKeyConfuses(r, s);
      hide Arises, BuiltFor, KeyFor, SameConfig, Resolve;
      var run := [r];
      assert !SameConfig(Resolve(CacheAfter(run), s).0.generator.config, BuiltFor(s).config);
    }
  }

  lemma BuiltArises(r: Request)
    requires BuiltFor(r).Configured?
    ensures Arises(BuiltFor(r).identity)
  {
    hide BuildLLMProviderConfig;
  }

  /** A client that is configured otherwise was built for an earlier request with the same key. */
  lemma WrongClientHasSource(run: seq<Request>, s: Request) returns (r: Request)
    requires BuiltFor(s).Configured? && Resolve(CacheAfter(run), s).0.Client?
    requires !SameConfig(Resolve(CacheAfter(run), s).0.generator.config, BuiltFor(s).config)
    ensures BuiltFor(r).Configured? && KeyFor(BuiltFor(r).identity) == KeyFor(BuiltFor(s).identity)
    ensures BuiltFor(r).config == Resolve(CacheAfter(run), s).0.generator.config
  {
    hide BuildLLMProviderConfig, KeyFor, SameConfig;
    SameConfigReflexive(BuiltFor(s).config);
    CacheIsBuiltEarlier(run);
    var key := KeyFor(BuiltFor(s).identity);
    var j :| 0 <= j < |run| && BuiltBy(run[j], key, CacheAfter(run)[key]);
    r := run[j];
  }

  lemma ImitatingRequest(a: Identity) returns (r: Request)
    requires a.source.FromOllama? && Arises(a) && (Imitates(a.model) || Imitates(a.source.url))
    ensures r.builds && BuiltFor(r).Configured?
    ensures BuiltFor(r).identity != a && KeyFor(BuiltFor(r).identity) == KeyFor(a)
  {
    OllamaIdentities(a);
    hide Imitates, BuildLLMProviderConfig, KeyFor, Plausible;
    var b := ImitationIsShared(a);
    OllamaIdentities(b);
    var spec, secrets, config :| BuildLLMProviderConfig(spec, secrets) == Configured(config, b);
    r := Request(spec, secrets, true);
  }

  /** Two plans' requests, one after the other, whose model and URL imitate each other's parts. */
  function ConfusingRun(spec: LLMSpec, secrets: Secrets): seq<Request>
    requires spec.maxTokens > 0
  {
    var mid := Between(spec.timeout, spec.maxTokens, None);
    var ollama := spec.(provider := "ollama", temperature := None);
    [Request(ollama.(model := "x", ollamaURL := "u" + mid + "v"), secrets, true),
     Request(ollama.(model := "x" + mid + "u", ollamaURL := "v"), secrets, true)]
  }

  lemma OllamaBuilds(spec: LLMSpec, secrets: Secrets)
    requires spec.provider == "ollama" && spec.timeout > 0 && spec.maxTokens > 0 && spec.temperature.None?
    requires Trimmed(spec.model) && Trimmed(spec.ollamaURL)
    ensures BuildLLMProviderConfig(spec, secrets)
            == Configured(
                 Config(spec.model, spec.timeout, spec.maxTokens, None, Ollama(spec.ollamaURL)),
                 Identity(spec.model, spec.timeout, spec.maxTokens, None, FromOllama(spec.ollamaURL)))
  {
    ProviderIsTrimmed();
    TrimmedTexts(spec.model);
    TrimmedTexts(spec.ollamaURL);
    hide TrimSpace, Trimmed;
  }

  /** The second plan is handed the client that was built for the first one's model and URL. */
  lemma BarsConfuse(spec: LLMSpec, secrets: Secrets)
    requires spec.timeout > 0 && spec.maxTokens > 0
    ensures
      var run := ConfusingRun(spec, secrets);
      var (resolution, _) := Resolve(CacheAfter(run[..1]), run[1]);
      && resolution.Client? && BuiltFor(run[0]).Configured? && BuiltFor(run[1]).Configured?
      && resolution.generator.config == BuiltFor(run[0]).config
      && !SameConfig(resolution.generator.config, BuiltFor(run[1]).config)
  {
    var run, mid := ConfusingRun(spec, secrets), Between(spec.timeout, spec.maxTokens, None);
    var r, s := run[0], run[1];
    assert run[..1] == [r];
    hide Between;
    OllamaBuilds(r.spec, secrets);
    OllamaBuilds(s.spec, secrets);
    hide BuildLLMProviderConfig, Resolve, Trimmed;
    var a, b := BuiltFor(r).identity, BuiltFor(s).identity;
    Regroup("x", mid, "u", mid, "v");
    assert Body(a) == Body(b) && |a.model| < |b.model|;
    KeyIsBody(a, b);
    hide KeyFor, Body;
    SharedKeyConfuses(r, s);
    SameIdentityIsSameConfig(r, s);
  }
}
