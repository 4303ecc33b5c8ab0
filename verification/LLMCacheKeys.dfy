/** What the cache key of an LLM client gives away: everything, unless a text in it imitates a later part. */
module LLMCacheKeys {

  import opened Decimals
  import opened Durations
  import opened LLMCache
  import opened Text

  // ---------------------------------------------------------------------------
  // Named parts
  // ---------------------------------------------------------------------------

  function Named(names: seq<string>, values: seq<string>): (r: seq<string>)
    requires |names| == |values|
    ensures |r| == |names|
  {
    seq(|names|, k requires 0 <= k < |names| => names[k] + values[k])
  }

  /** No value holds the bar and the name that come after it. */
  ghost predicate Clear(names: seq<string>, values: seq<string>)
    requires |names| == |values|
  {
    forall k :: 0 <= k < |names| - 1 ==> !Occurs("|" + names[k + 1], values[k])
  }

  ghost predicate NoBarIn(names: seq<string>) {
    forall n :: n in names ==> '|' !in n
  }

  lemma Strip(prefix: string, x: string, y: string)
    requires prefix + x == prefix + y
    ensures x == y
  {
    assert x == (prefix + x)[|prefix|..] && y == (prefix + y)[|prefix|..];
  }

  /** A named value in front of a named rest. */
  lemma Peel(name: string, x: string, next: string, rest: string, x': string, rest': string)
    requires '|' !in next && !Occurs("|" + next, x) && !Occurs("|" + next, x')
    requires (name + x) + "|" + (next + rest) == (name + x') + "|" + (next + rest')
    ensures x == x' && rest == rest'
  {
    assert (name + x) + "|" + (next + rest) == name + (x + ("|" + next) + rest);
    assert (name + x') + "|" + (next + rest') == name + (x' + ("|" + next) + rest');
    Strip(name, x + ("|" + next) + rest, x' + ("|" + next) + rest');
    assert ("|" + next)[1..] == next;
    CutAtUnique(x, rest, x', rest', "|" + next);
  }

  lemma NoBarNoOccurrence(next: string, x: string)
    requires '|' !in x
    ensures !Occurs("|" + next, x)
  {
    var part := "|" + next;
    assert part[0] == '|';
    forall k: nat ensures !StandsAt(part, x, k) {
      assert k + |part| <= |x| ==> x[k..k + |part|][0] == x[k];
    }
  }

  lemma JoinCons(p: seq<string>)
    requires |p| > 1
    ensures Join(p) == p[0] + "|" + Join(p[1..])
  {
  }

  /** What follows the name of the first part. */
  function AfterName(names: seq<string>, values: seq<string>): string
    requires |names| == |values| > 0
  {
    if |names| == 1 then values[0] else values[0] + "|" + Join(Named(names, values)[1..])
  }

  lemma JoinStartsWithName(names: seq<string>, values: seq<string>)
    requires |names| == |values| > 0
    ensures Join(Named(names, values)) == names[0] + AfterName(names, values)
  {
    hide Join;
    var p := Named(names, values);
    if |names| == 1 {
      assert p == [names[0] + values[0]];
      JoinOne(p[0]);
    } else {
      JoinCons(p);
    }
  }

  lemma JoinOne(x: string)
    ensures Join([x]) == x
  {
  }

  lemma NamedTail(names: seq<string>, values: seq<string>)
    requires |names| == |values| > 0
    ensures Named(names, values)[1..] == Named(names[1..], values[1..])
  {
  }

  lemma ClearTail(names: seq<string>, values: seq<string>)
    requires |names| == |values| > 1 && NoBarIn(names) && Clear(names, values)
    ensures Clear(names[1..], values[1..]) && NoBarIn(names[1..])
    ensures '|' !in names[1] && !Occurs("|" + names[1], values[0])
  {
    hide Occurs;
  }

  lemma FirstPeels(names: seq<string>, v: seq<string>, w: seq<string>)
    requires |v| == |names| && |w| == |names| && |names| > 1 && '|' !in names[1]
    requires !Occurs("|" + names[1], v[0]) && !Occurs("|" + names[1], w[0])
    requires Join(Named(names, v)) == Join(Named(names, w))
    ensures v[0] == w[0] && Join(Named(names[1..], v[1..])) == Join(Named(names[1..], w[1..]))
  {
    NamedTail(names, v);
    NamedTail(names, w);
    JoinCons(Named(names, v));
    JoinCons(Named(names, w));
    JoinStartsWithName(names[1..], v[1..]);
    JoinStartsWithName(names[1..], w[1..]);
    hide Join, Occurs, AfterName;
    Peel(names[0], v[0], names[1], AfterName(names[1..], v[1..]), w[0], AfterName(names[1..], w[1..]));
  }

  /** Parts with the same names, joined, are equal only for equal values. */
  lemma {:induction false} NamedInjective(names: seq<string>, v: seq<string>, w: seq<string>)
    requires |v| == |names| && |w| == |names| && |names| > 0 && NoBarIn(names)
    requires Clear(names, v) && Clear(names, w)
    requires Join(Named(names, v)) == Join(Named(names, w))
    ensures v == w
  {
    if |names| == 1 {
      assert Named(names, v) == [names[0] + v[0]] && Named(names, w) == [names[0] + w[0]];
      Strip(names[0], v[0], w[0]);
      assert v == [v[0]] && w == [w[0]];
    } else {
      ClearTail(names, v);
      ClearTail(names, w);
      hide Join, Named, Occurs, Clear, NoBarIn;
      FirstPeels(names, v, w);
      NamedInjective(names[1..], v[1..], w[1..]);
      assert v == [v[0]] + v[1..] && w == [w[0]] + w[1..];
    }
  }

  // ---------------------------------------------------------------------------
  // The backend's parts
  // ---------------------------------------------------------------------------

  function HostedNames(provider: string): seq<string> {
    [provider + ".baseURL=", provider + ".secret=", provider + ".secretKey=", provider + ".secretRV="]
  }

  function EndpointNames(): seq<string> {
    ["fastapi.url=", "fastapi.tlsSkipVerify=", "fastapi.healthURL=", "fastapi.failureThreshold=", "fastapi.cooldown="]
  }

  function AuthNames(): seq<string> {
    ["fastapi.authSecret=", "fastapi.authSecretKey=", "fastapi.authSecretRV="]
  }

  function SourceNames(s: Source): (r: seq<string>)
    ensures r != []
  {
    match s
    case FromOpenAI(_, _) => HostedNames("openai")
    case FromAnthropic(_, _) => HostedNames("anthropic")
    case FromFastAPI(_, _, _, _, _, _) => EndpointNames() + AuthNames()
    case FromOllama(_) => ["ollama.url="]
  }

  function EndpointValues(url: string, tls: bool, health: string, threshold: int, cooldown: int): seq<string> {
    [url, BoolText(tls), health, Signed(threshold, 1), DurationText(cooldown)]
  }

  function SourceValues(s: Source): (r: seq<string>)
    ensures |r| == |SourceNames(s)|
  {
    match s
    case FromOpenAI(url, secret) => [url, secret.name, secret.key, secret.resourceVersion]
    case FromAnthropic(url, secret) => [url, secret.name, secret.key, secret.resourceVersion]
    case FromFastAPI(url, tls, health, threshold, cooldown, secret) =>
      EndpointValues(url, tls, health, threshold, cooldown) + [secret.name, secret.key, secret.resourceVersion]
    case FromOllama(url) => [url]
  }

  lemma SourceIsNamed(s: Source)
    ensures SourceParts(s) == Named(SourceNames(s), SourceValues(s))
  {
    hide BoolText, Signed, DurationText;
  }

  ghost predicate HostedClear(provider: string, url: string, s: SecretRef) {
    && !Occurs("|" + (provider + ".secret="), url)
    && !Occurs("|" + (provider + ".secretKey="), s.name)
    && !Occurs("|" + (provider + ".secretRV="), s.key)
  }

  /**
   No text that a user or the cluster chooses holds a bar followed by the name of the part that
   comes next. The last text of a key may hold anything.
   */
  ghost predicate Unambiguous(i: Identity) {
    && !Occurs("|" + "timeout=", i.model)
    && match i.source {
         case FromOpenAI(url, s) => HostedClear("openai", url, s)
         case FromAnthropic(url, s) => HostedClear("anthropic", url, s)
         case FromFastAPI(url, _, health, _, _, s) =>
           && !Occurs("|" + "fastapi.tlsSkipVerify=", url)
           && !Occurs("|" + "fastapi.failureThreshold=", health)
           && !Occurs("|" + "fastapi.authSecretKey=", s.name)
           && !Occurs("|" + "fastapi.authSecretRV=", s.key)
         case FromOllama(_) => true
       }
  }

  lemma SignedHasNoBar(n: int)
    ensures '|' !in Signed(n, 1)
  {
    hide Padded;
  }

  lemma HostedIsClear(provider: string, url: string, s: SecretRef)
    requires HostedClear(provider, url, s)
    ensures Clear(HostedNames(provider), [url, s.name, s.key, s.resourceVersion])
  {
    hide Occurs;
  }

  lemma FastAPIIsClear(i: Identity)
    requires Unambiguous(i) && i.source.FromFastAPI?
    ensures Clear(SourceNames(i.source), SourceValues(i.source))
  {
    hide Occurs, BoolText, Signed, DurationText;
    var s := i.source;
    BoolHasNoBar(s.tlsSkipVerify);
    SignedHasNoBar(s.failureThreshold);
    DurationTextHasNoBar(s.cooldown);
    NoBarNoOccurrence("fastapi.healthURL=", BoolText(s.tlsSkipVerify));
    NoBarNoOccurrence("fastapi.cooldown=", Signed(s.failureThreshold, 1));
    NoBarNoOccurrence("fastapi.authSecret=", DurationText(s.cooldown));
  }

  lemma BoolHasNoBar(b: bool)
    ensures '|' !in BoolText(b)
  {
  }

  lemma SourceIsClear(i: Identity)
    requires Unambiguous(i)
    ensures Clear(SourceNames(i.source), SourceValues(i.source))
  {
    hide Occurs, HostedClear, Clear;
    match i.source
    case FromOpenAI(url, s) => HostedIsClear("openai", url, s);
    case FromAnthropic(url, s) => HostedIsClear("anthropic", url, s);
    case FromFastAPI(_, _, _, _, _, _) => FastAPIIsClear(i);
    case FromOllama(url) => NothingFollows("ollama.url=", url);
  }

  lemma NothingFollows(name: string, value: string)
    ensures Clear([name], [value])
  {
  }

  lemma HostedNamesHaveNoBars(provider: string)
    requires '|' !in provider
    ensures NoBarIn(HostedNames(provider))
  {
  }

  lemma EndpointNamesHaveNoBars()
    ensures NoBarIn(EndpointNames())
  {
  }

  lemma AuthNamesHaveNoBars()
    ensures NoBarIn(AuthNames())
  {
  }

  lemma NamesHaveNoBars(s: Source)
    ensures NoBarIn(SourceNames(s))
  {
    hide HostedNames, EndpointNames, AuthNames;
    HostedNamesHaveNoBars("openai");
    HostedNamesHaveNoBars("anthropic");
    EndpointNamesHaveNoBars();
    AuthNamesHaveNoBars();
  }

  lemma ProviderNamesDiffer(s: Source, t: Source)
    requires ProviderName(s) == ProviderName(t)
    ensures s.FromOpenAI? == t.FromOpenAI? && s.FromAnthropic? == t.FromAnthropic?
    ensures s.FromFastAPI? == t.FromFastAPI? && s.FromOllama? == t.FromOllama?
  {
    assert "openai"[1] == 'p' && "anthropic"[1] == 'n' && "fastapi"[1] == 'a' && "ollama"[1] == 'l';
    assert ProviderName(s)[1] == ProviderName(t)[1];
  }

  lemma TextsOf<T>(p: seq<T>, q: seq<T>)
    requires p == q
    ensures |p| == |q| && forall i :: 0 <= i < |p| ==> p[i] == q[i]
  {
  }

  lemma FastAPIValuesInjective(s: Source, t: Source)
    requires s.FromFastAPI? && t.FromFastAPI? && SourceValues(s) == SourceValues(t)
    ensures s == t
  {
    hide BoolText, Signed, DurationText;
    var v, w := SourceValues(s), SourceValues(t);
    TextsOf(v, w);
    assert v[0] == w[0] && v[1] == w[1] && v[2] == w[2] && v[3] == w[3];
    assert v[4] == w[4] && v[5] == w[5] && v[6] == w[6] && v[7] == w[7];
    BoolTextInjective(s.tlsSkipVerify, t.tlsSkipVerify);
    SignedInjective(s.failureThreshold, t.failureThreshold, 1);
    DurationTextInjective(s.cooldown, t.cooldown);
  }

  lemma ValuesInjective(s: Source, t: Source)
    requires ProviderName(s) == ProviderName(t) && SourceValues(s) == SourceValues(t)
    ensures s == t
  {
    ProviderNamesDiffer(s, t);
    hide ProviderName, BoolText, Signed, DurationText;
    if s.FromFastAPI? {
      FastAPIValuesInjective(s, t);
    } else {
      TextsOf(SourceValues(s), SourceValues(t));
    }
  }

  lemma SameNames(s: Source, t: Source)
    requires ProviderName(s) == ProviderName(t)
    ensures SourceNames(s) == SourceNames(t)
  {
    ProviderNamesDiffer(s, t);
    hide ProviderName;
  }

  lemma SourceInjective(a: Identity, b: Identity)
    requires Unambiguous(a) && Unambiguous(b) && ProviderName(a.source) == ProviderName(b.source)
    requires SourceText(a.source) == SourceText(b.source)
    ensures a.source == b.source
  {
    var s, t := a.source, b.source;
    SourceIsNamed(s);
    SourceIsNamed(t);
    SameNames(s, t);
    SourceIsClear(a);
    SourceIsClear(b);
    NamesHaveNoBars(s);
    hide Named, SourceNames, SourceValues, SourceParts, ProviderName, Join, Clear, NoBarIn, Unambiguous;
    NamedInjective(SourceNames(s), SourceValues(s), SourceValues(t));
    ValuesInjective(s, t);
  }

  // ---------------------------------------------------------------------------
  // The whole key
  // ---------------------------------------------------------------------------

  function SourceText(s: Source): string
  {
    SourceIsNamed(s);
    Join(SourceParts(s))
  }

  function TemperatureOn(i: Identity): string {
    if i.temperature.Some? then ("temp=" + DecimalText(i.temperature.value)) + "|" + SourceText(i.source)
    else SourceText(i.source)
  }

  function TokensOn(i: Identity): string { Digits(i.maxTokens) + "|" + TemperatureOn(i) }
  function TimeoutOn(i: Identity): string { DurationText(i.timeout) + "|" + ("maxTokens=" + TokensOn(i)) }
  function ModelOn(i: Identity): string { i.model + "|" + ("timeout=" + TimeoutOn(i)) }

  lemma TemperatureText(i: Identity)
    ensures TemperatureParts(i.temperature) + SourceParts(i.source) != []
    ensures Join(TemperatureParts(i.temperature) + SourceParts(i.source)) == TemperatureOn(i)
  {
    hide DecimalText, Join, SourceParts;
    SourceIsNamed(i.source);
    var q := TemperatureParts(i.temperature) + SourceParts(i.source);
    if i.temperature.Some? {
      JoinCons(q);
      assert q[1..] == SourceParts(i.source);
    } else {
      assert q == SourceParts(i.source);
    }
  }

  lemma JoinFour(a: string, b: string, c: string, d: string, rest: seq<string>)
    requires rest != []
    ensures Join([a, b, c, d] + rest) == a + "|" + (b + "|" + (c + "|" + (d + "|" + Join(rest))))
  {
    hide Join;
    var p := [a, b, c, d] + rest;
    JoinCons(p);
    JoinCons(p[1..]);
    JoinCons(p[1..][1..]);
    JoinCons(p[1..][1..][1..]);
    assert p[1..][1..][1..][1..] == rest;
  }

  lemma KeyText(i: Identity)
    ensures KeyFor(i).text == "provider=" + ProviderName(i.source) + "|" + ("model=" + ModelOn(i))
  {
    hide ProviderName, DurationText, Digits, TemperatureOn, Join, SourceParts, TemperatureParts;
    TemperatureText(i);
    JoinFour("provider=" + ProviderName(i.source), "model=" + i.model, "timeout=" + DurationText(i.timeout),
             "maxTokens=" + Digits(i.maxTokens), TemperatureParts(i.temperature) + SourceParts(i.source));
  }

  lemma ProviderHasNoBar(s: Source)
    ensures '|' !in "provider=" + ProviderName(s)
  {
  }

  lemma SourceStarts(s: Source)
    ensures SourceText(s) != "" && SourceText(s)[0] in {'o', 'a', 'f'}
  {
    SourceIsNamed(s);
    hide Join;
    JoinStartsWithName(SourceNames(s), SourceValues(s));
  }

  lemma TemperatureInjective(a: Identity, b: Identity)
    requires Unambiguous(a) && Unambiguous(b) && ProviderName(a.source) == ProviderName(b.source)
    requires TemperatureOn(a) == TemperatureOn(b)
    ensures a.temperature == b.temperature && a.source == b.source
  {
    hide DecimalText, SourceText, Unambiguous, ProviderName;
    SourceStarts(a.source);
    SourceStarts(b.source);
    assert "temp="[0] == 't';
    assert a.temperature.Some? <==> TemperatureOn(a)[0] == 't';
    assert b.temperature.Some? <==> TemperatureOn(b)[0] == 't';
    if a.temperature.Some? {
      var x, y := DecimalText(a.temperature.value), DecimalText(b.temperature.value);
      DecimalCharacters(a.temperature.value);
      DecimalCharacters(b.temperature.value);
      CutUnique("temp=" + x, SourceText(a.source), "temp=" + y, SourceText(b.source), '|');
      Strip("temp=", x, y);
      DecimalInjective(a.temperature.value, b.temperature.value);
    }
    SourceInjective(a, b);
  }

  lemma TokensInjective(a: Identity, b: Identity)
    requires TokensOn(a) == TokensOn(b)
    ensures a.maxTokens == b.maxTokens && TemperatureOn(a) == TemperatureOn(b)
  {
    hide Digits, TemperatureOn;
    CutUnique(Digits(a.maxTokens), TemperatureOn(a), Digits(b.maxTokens), TemperatureOn(b), '|');
    DigitsInjective(a.maxTokens, b.maxTokens);
  }

  lemma TimeoutInjective(a: Identity, b: Identity)
    requires TimeoutOn(a) == TimeoutOn(b)
    ensures a.timeout == b.timeout && TokensOn(a) == TokensOn(b)
  {
    hide DurationText, TokensOn;
    DurationTextHasNoBar(a.timeout);
    DurationTextHasNoBar(b.timeout);
    CutUnique(DurationText(a.timeout), "maxTokens=" + TokensOn(a), DurationText(b.timeout), "maxTokens=" + TokensOn(b), '|');
    DurationTextInjective(a.timeout, b.timeout);
    Strip("maxTokens=", TokensOn(a), TokensOn(b));
  }

  lemma ModelInjective(a: Identity, b: Identity)
    requires !Occurs("|" + "timeout=", a.model) && !Occurs("|" + "timeout=", b.model)
    requires ModelOn(a) == ModelOn(b)
    ensures a.model == b.model && TimeoutOn(a) == TimeoutOn(b)
  {
    hide TimeoutOn, Occurs;
    assert "" + a.model == a.model && "" + b.model == b.model;
    Peel("", a.model, "timeout=", TimeoutOn(a), b.model, TimeoutOn(b));
  }

  /** Equal keys are of equal identities, unless a text imitates the part that comes after it. */
  lemma KeyInjective(a: Identity, b: Identity)
    requires Unambiguous(a) && Unambiguous(b) && KeyFor(a) == KeyFor(b)
    ensures a == b
  {
    KeyText(a);
    KeyText(b);
    ProviderHasNoBar(a.source);
    ProviderHasNoBar(b.source);
    hide KeyFor, ModelOn, ProviderName, TemperatureOn;
    var p, q := "provider=" + ProviderName(a.source), "provider=" + ProviderName(b.source);
    CutUnique(p, "model=" + ModelOn(a), q, "model=" + ModelOn(b), '|');
    Strip("provider=", ProviderName(a.source), ProviderName(b.source));
    Strip("model=", ModelOn(a), ModelOn(b));
    ModelInjective(a, b);
    TimeoutInjective(a, b);
    TokensInjective(a, b);
    TemperatureInjective(a, b);
  }
}
