/** Choice of text-generation model from a "provider:model-id" key. The key
    comes from the environment; an unset or empty key means the default. */
module ModelKey {

  import opened Wrappers

  /** The key used when none is configured. */
  const DefaultKey: string := "google" + ":" + DefaultModelId

  /** The model id of the default key. */
  const DefaultModelId: string := "gemini-2.5-flash-lite"

  /** The model a key selects; the SDK model object itself is not modelled. */
  datatype Model = Google(id: string) | Anthropic(id: string)

  datatype KeyError =
    | MalformedKey(key: string)          // no colon in the key
    | UnsupportedProvider(provider: string)

  /** The key in effect: the configured one, unless it is unset or empty. */
  function EffectiveKey(configured: Option<string>): (k: string)
    ensures configured.None? ==> k == DefaultKey
    ensures configured.Some? && configured.value == [] ==> k == DefaultKey
    ensures configured.Some? && configured.value != [] ==> k == configured.value
  {
    match configured
    case None => DefaultKey
    case Some(s) => if s == [] then DefaultKey else s
  }

  /** Index of the first occurrence of c in s, or None when c does not occur. */
  function IndexOf(s: string, c: char): (r: Option<nat>)
    ensures r.Some? ==> r.value < |s| && s[r.value] == c
    ensures r.Some? ==> forall j :: 0 <= j < r.value ==> s[j] != c
    ensures r.None? <==> c !in s
  {
    if s == [] then None
    else if s[0] == c then Some(0)
    else match IndexOf(s[1..], c)
      case None => None
      case Some(i) => Some(i + 1)
  }

  /** The provider name a model is selected by. */
  function ProviderName(m: Model): string {
    match m
    case Google(_) => "google"
    case Anthropic(_) => "anthropic"
  }

  /** Splits the key at its first colon and dispatches on the provider. */
  function ParseKey(key: string): (r: Result<Model, KeyError>)
    ensures r.Failure? && r.error.MalformedKey? <==> ':' !in key
    ensures r.Failure? && r.error.MalformedKey? ==> r.error.key == key
    ensures r.Success? ==> key == ProviderName(r.value) + ":" + r.value.id
  {
    match IndexOf(key, ':')
    case None => Failure(MalformedKey(key))
    case Some(i) =>
      var provider := key[..i];
      var modelId := key[i + 1..];
      assert key == provider + ":" + modelId;
      if provider == "google" then Success(Google(modelId))
      else if provider == "anthropic" then Success(Anthropic(modelId))
      else Failure(UnsupportedProvider(provider))
  }

  /** The model selected by the configured key. */
  function GetModel(configured: Option<string>): (r: Result<Model, KeyError>)
    ensures configured.None? || configured == Some([]) ==> r == Success(Google(DefaultModelId))
    ensures r.Failure? && r.error.MalformedKey? <==> ':' !in EffectiveKey(configured)
    ensures r.Success? ==> EffectiveKey(configured) == ProviderName(r.value) + ":" + r.value.id
  {
    DefaultKeyParses();
    ParseKey(EffectiveKey(configured))
  }

  /** The default key selects Google's flash-lite model. */
  lemma DefaultKeyParses()
    ensures ParseKey(DefaultKey) == Success(Google(DefaultModelId))
  {
    ParseKeyRoundTrip(Google(DefaultModelId));
    assert ProviderName(Google(DefaultModelId)) == "google";
  }

  /** Round trip: writing a model as "provider:id" and parsing it back gives
      the same model, whatever the id holds (colons included). */
  lemma ParseKeyRoundTrip(m: Model)
    ensures ParseKey(ProviderName(m) + ":" + m.id) == Success(m)
  {
    var key := ProviderName(m) + ":" + m.id;
    var p := ProviderName(m);
    assert key[|p|] == ':';
    assert forall j :: 0 <= j < |p| ==> key[j] == p[j] && p[j] != ':';
    IndexOfFirst(key, ':', |p|);
    assert key[..|p|] == p;
    assert key[|p| + 1..] == m.id;
  }

  /** The first position holding c, characterised by the positions before it. */
  lemma IndexOfFirst(s: string, c: char, i: nat)
    requires i < |s| && s[i] == c
    requires forall j :: 0 <= j < i ==> s[j] != c
    ensures IndexOf(s, c) == Some(i)
  {
    assert c in s;
  }

  /** A key whose text before the first colon is neither provider name is
      rejected, naming that text. */
  lemma ParseKeyErrors(provider: string, rest: string)
    requires ':' !in provider
    requires provider != "google" && provider != "anthropic"
    ensures ParseKey(provider + ":" + rest) == Failure(UnsupportedProvider(provider))
  {
    var key := provider + ":" + rest;
    assert key[|provider|] == ':';
    assert forall j :: 0 <= j < |provider| ==> key[j] == provider[j];
    IndexOfFirst(key, ':', |provider|);
    assert key[..|provider|] == provider;
  }
}
