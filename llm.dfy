/**
  The pure parts of the LLM client (app/core/llm.py): the Ollama model-name normalisation,
  the OpenAI model id, the installed-model tag match and which backend generate calls. The
  HTTP requests themselves are left out; generate is modelled by the request it would send.
*/
module Llm {
  import opened Wrappers
  import opened Text

  const DefaultOllamaModel := "llama3.1"

  const DefaultOpenAiModel := "gpt-4o-mini"

  const OllamaPrefix := "ollama/"

  /** _normalize_ollama_name: a default for the empty name, and one "ollama/" prefix removed. */
  function NormalizeOllamaName(name: string): (r: string)
    ensures name == "" ==> r == DefaultOllamaModel
    ensures name != "" && !StartsWith(name, OllamaPrefix) ==> r == name
    ensures StartsWith(name, OllamaPrefix) ==> name == OllamaPrefix + r
  {
    if name == "" then DefaultOllamaModel
    else if StartsWith(name, OllamaPrefix) then name[|OllamaPrefix|..]
    else name
  }

  /** Prefixing "ollama/" is undone by the normalisation, whatever follows. */
  lemma NormalizeDropsPrefix(x: string)
    ensures NormalizeOllamaName(OllamaPrefix + x) == x
  {
    assert StartsWith(OllamaPrefix + x, OllamaPrefix);
  }

  /** Only one prefix is removed, so normalising twice differs from normalising once. */
  lemma NormalizeNotIdempotent()
    ensures NormalizeOllamaName("ollama/ollama/x") == "ollama/x"
    ensures NormalizeOllamaName(NormalizeOllamaName("ollama/ollama/x")) == "x"
  {
    NormalizeDropsPrefix("ollama/x");
    assert "ollama/ollama/x" == OllamaPrefix + "ollama/x";
    NormalizeDropsPrefix("x");
    assert "ollama/x" == OllamaPrefix + "x";
  }

  /** s.split(sep, 1)[-1]: what follows the first sep, or all of s without one. */
  function AfterFirst(s: string, sep: char): (r: string)
    ensures Find(s, sep) == -1 ==> r == s
    ensures Find(s, sep) >= 0 ==> s == s[..Find(s, sep)] + [sep] + r
  {
    var i := Find(s, sep);
    if i == -1 then s else s[i + 1..]
  }

  /** s.split(sep, 1)[0]: what precedes the first sep, or all of s without one. */
  function BeforeFirst(s: string, sep: char): (r: string)
    ensures forall j :: 0 <= j < |r| ==> r[j] != sep
    ensures |r| <= |s| && r == s[..|r|]
    ensures |r| < |s| ==> s[|r|] == sep
  {
    var i := Find(s, sep);
    if i == -1 then s else s[..i]
  }

  /** (primary or "gpt-4o-mini").split("/", 1)[-1]. */
  function OpenAiModelId(primary: Option<string>): string {
    AfterFirst(if primary.Some? && primary.value != "" then primary.value else DefaultOpenAiModel, '/')
  }

  lemma FindAfterPrefix(p: string, c: char, rest: string)
    requires forall j :: 0 <= j < |p| ==> p[j] != c
    ensures Find(p + [c] + rest, c) == |p|
  {
    var s := p + [c] + rest;
    assert s[|p|] == c;
    assert forall j :: 0 <= j < |p| ==> s[j] != c;
  }

  /** A provider-qualified name gives the model part; everything after the first "/" is kept. */
  lemma OpenAiModelIdStripsProvider(provider: string, model: string)
    requires forall j :: 0 <= j < |provider| ==> provider[j] != '/'
    ensures OpenAiModelId(Some(provider + "/" + model)) == model
  {
    var s := provider + "/" + model;
    FindAfterPrefix(provider, '/', model);
    assert s[|provider| + 1..] == model;
  }

  /** A name without "/" is used as is, and a missing or empty name gives the default. */
  lemma OpenAiModelIdPlain(primary: Option<string>)
    requires primary.Some? ==> forall j :: 0 <= j < |primary.value| ==> primary.value[j] != '/'
    ensures primary.Some? && primary.value != "" ==> OpenAiModelId(primary) == primary.value
    ensures (primary.None? || primary.value == "") ==> OpenAiModelId(primary) == DefaultOpenAiModel
  {
    assert forall j :: 0 <= j < |DefaultOpenAiModel| ==> DefaultOpenAiModel[j] != '/';
  }

  /** One entry of the /api/tags listing; each key may be absent. */
  datatype ModelEntry = ModelEntry(name: Option<string>, model: Option<string>)

  /** m.get("name") or m.get("model") or "". */
  function EntryName(m: ModelEntry): string {
    if m.name.Some? && m.name.value != "" then m.name.value
    else if m.model.Some? && m.model.value != "" then m.model.value
    else ""
  }

  /** The name before any ":tag". */
  function TagBase(s: string): string {
    BeforeFirst(s, ':')
  }

  /** The listing holds the model when some entry has the same name before its tag. */
  predicate Installed(models: seq<ModelEntry>, model: string) {
    exists k :: 0 <= k < |models| && TagBase(EntryName(models[k])) == TagBase(model)
  }

  lemma TagBaseOfTagged(base: string, tag: string)
    requires forall j :: 0 <= j < |base| ==> base[j] != ':'
    ensures TagBase(base + ":" + tag) == base
  {
    FindAfterPrefix(base, ':', tag);
    assert (base + ":" + tag)[..|base|] == base;
  }

  /** The tag is ignored on both sides: any tag of an installed base name counts as installed. */
  lemma InstalledIgnoresTag(models: seq<ModelEntry>, base: string, tag: string, tag': string)
    requires forall j :: 0 <= j < |base| ==> base[j] != ':'
    ensures Installed(models, base + ":" + tag) <==> Installed(models, base + ":" + tag')
    ensures Installed(models, base + ":" + tag) <==> Installed(models, base)
  {
    TagBaseOfTagged(base, tag);
    TagBaseOfTagged(base, tag');
    assert TagBase(base) == base;
  }

  /** An entry with only a "model" key is matched by that key. */
  lemma ModelKeyFallback(m: string, tag: string)
    requires m != "" && forall j :: 0 <= j < |m| ==> m[j] != ':'
    ensures Installed([ModelEntry(None, Some(m + ":" + tag))], m)
  {
    TagBaseOfTagged(m, tag);
    var models := [ModelEntry(None, Some(m + ":" + tag))];
    assert EntryName(models[0]) == m + ":" + tag;
    assert Find(m, ':') == -1;
    assert TagBase(EntryName(models[0])) == TagBase(m);
  }

  /** The client's settings, only read by generate. */
  datatype Client = Client(primary: Option<string>, local: Option<string>, useLocal: bool, openAiKey: Option<string>)

  /** What generate would send. */
  datatype Request =
    | OllamaRequest(model: string, prompt: string, jsonFormat: bool)
    | OpenAiRequest(model: string, system: string, user: string, jsonMode: bool)
    | MissingApiKey

  /** The Ollama prompt: the system text and the user text under their headers. */
  function OllamaPrompt(system: string, user: string): string {
    "System:\n" + system + "\n\nUser:\n" + user
  }

  /** generate: Ollama when use_local is set, otherwise OpenAI, which needs a non-empty key. */
  function Generate(c: Client, system: string, user: string, expectJson: bool): (r: Request)
    ensures r.OllamaRequest? <==> c.useLocal
    ensures r.MissingApiKey? <==> !c.useLocal && (c.openAiKey.None? || c.openAiKey.value == "")
    ensures r.OllamaRequest? ==> r.jsonFormat == expectJson
    ensures r.OpenAiRequest? ==> r.jsonMode == expectJson && r.system == system && r.user == user
  {
    if c.useLocal then
      OllamaRequest(NormalizeOllamaName(if c.local.Some? && c.local.value != "" then c.local.value else DefaultOllamaModel),
                    OllamaPrompt(system, user), expectJson)
    else if c.openAiKey.None? || c.openAiKey.value == "" then MissingApiKey
    else OpenAiRequest(OpenAiModelId(c.primary), system, user, expectJson)
  }

  /** Without a local model name the default llama3.1 is requested. */
  lemma OllamaDefaultModel(c: Client, system: string, user: string, expectJson: bool)
    requires c.useLocal && (c.local.None? || c.local.value == "")
    ensures Generate(c, system, user, expectJson).model == DefaultOllamaModel
  {
    assert DefaultOllamaModel[..|OllamaPrefix|][0] != OllamaPrefix[0];
  }

  /** The Ollama prompt can be read back: it opens with the system header and ends with the user text. */
  lemma OllamaPromptReadBack(system: string, user: string)
    ensures StartsWith(OllamaPrompt(system, user), "System:\n")
    ensures OllamaPrompt(system, user)[8..8 + |system|] == system
    ensures EndsWith(OllamaPrompt(system, user), "\n\nUser:\n" + user)
  {
    var p := OllamaPrompt(system, user);
    assert p == "System:\n" + system + ("\n\nUser:\n" + user);
  }
}
