/**
 * The two provider clients of app.py: which credential each one needs, the
 * check made when one is built, and the placeholder `generate`. The abstract
 * base class becomes a two-variant datatype.
 */
module Providers {
  import opened Wrappers

  /** The environment, as the name-to-value map `os.getenv` reads from. */
  type Env = map<string, string>

  datatype Provider = OpenAI | Anthropic

  /** A built client: its kind and the non-empty key it was built with. */
  datatype Client = Client(provider: Provider, apiKey: string)

  /** Why loading the clients aborted; each case is one `ValueError` of app.py. */
  datatype LoadError =
    | MissingKey(missing: Provider)
    | UnknownProvider(name: string)
    | NoProviders

  /** The lower-case name that selects a provider in the provider list. */
  function Name(p: Provider): string {
    match p
    case OpenAI => "openai"
    case Anthropic => "anthropic"
  }

  /** The environment variable holding a provider's credential. */
  function CredentialVar(p: Provider): string {
    match p
    case OpenAI => "OPENAI_API_KEY"
    case Anthropic => "ANTHROPIC_API_KEY"
  }

  /** The fixed text every response of a provider starts with. */
  function ResponsePrefix(p: Provider): string {
    match p
    case OpenAI => "[OpenAI] Response to: "
    case Anthropic => "[Anthropic] Response to: "
  }

  /** The `ValueError` text for each load error. */
  function Message(e: LoadError): string {
    match e
    case MissingKey(p) => "Missing " + CredentialVar(p)
    case UnknownProvider(n) => "Unknown LLM provider: " + n
    case NoProviders => "No LLM providers configured"
  }

  /** Maps a normalised provider-list entry to its provider, if it names one. */
  function Resolve(name: string): Option<Provider> {
    if name == "openai" then Some(OpenAI)
    else if name == "anthropic" then Some(Anthropic)
    else None
  }

  /** The provider's credential is set and is not the empty string
      (`os.getenv` returns neither `None` nor `""`). */
  predicate KeyOk(env: Env, p: Provider) {
    CredentialVar(p) in env && env[CredentialVar(p)] != ""
  }

  /** Building a client (`OpenAILLM()` / `AnthropicLLM()`): it succeeds with the
      key read from the environment, or fails naming the missing variable. */
  function Construct(p: Provider, env: Env): (r: Result<Client, LoadError>)
    ensures r.Success? <==> KeyOk(env, p)
    ensures r.Success? ==> r.value.provider == p && r.value.apiKey != ""
                           && r.value.apiKey == env[CredentialVar(p)]
    ensures r.Failure? ==> Message(r.error) == "Missing " + CredentialVar(p)
  {
    if KeyOk(env, p) then Success(Client(p, env[CredentialVar(p)]))
    else Failure(MissingKey(p))
  }

  /** The placeholder `generate`: the provider's fixed prefix, then the prompt. */
  function Generate(c: Client, prompt: string): string {
    ResponsePrefix(c.provider) + prompt
  }

  /** A response names the provider that produced it and carries the prompt
      unchanged: `ParseResponse` recovers both. */
  lemma ParseGenerate(c: Client, prompt: string)
    ensures ParseResponse(Generate(c, prompt)) == Some((c.provider, prompt))
  {
    var pre := ResponsePrefix(c.provider);
    var r := Generate(c, prompt);
    assert r[..|pre|] == pre && r[|pre|..] == prompt;
    if c.provider == Anthropic {
      assert r[1] == 'A';
    }
  }

  /** Reads a response back into the provider that produced it and the prompt
      it answered; `None` for text no client produces. */
  function ParseResponse(r: string): Option<(Provider, string)> {
    var o := ResponsePrefix(OpenAI);
    var a := ResponsePrefix(Anthropic);
    if o <= r then Some((OpenAI, r[|o|..]))
    else if a <= r then Some((Anthropic, r[|a|..]))
    else None
  }

  /** A provider name resolves to exactly the provider it names, and no other
      string resolves to anything. */
  lemma ResolveName(name: string, p: Provider)
    ensures Resolve(name) == Some(p) <==> name == Name(p)
    ensures Resolve(name).None? <==> name != Name(OpenAI) && name != Name(Anthropic)
  {
  }

  /** Building a client reads only that provider's own credential variable. */
  lemma ConstructReadsOwnKey(p: Provider, env1: Env, env2: Env)
    requires CredentialVar(p) in env1 <==> CredentialVar(p) in env2
    requires CredentialVar(p) in env1 ==> env1[CredentialVar(p)] == env2[CredentialVar(p)]
    ensures Construct(p, env1) == Construct(p, env2)
  {
  }

  /** Different providers, or different prompts, never give the same response;
      the key a client holds plays no part in it. */
  lemma GenerateInjective(c1: Client, c2: Client, x1: string, x2: string)
    ensures Generate(c1, x1) == Generate(c2, x2) <==> c1.provider == c2.provider && x1 == x2
  {
    ParseGenerate(c1, x1);
    ParseGenerate(c2, x2);
  }

  /** Distinct load errors never print the same message. */
  lemma MessageInjective(e1: LoadError, e2: LoadError)
    ensures Message(e1) == Message(e2) <==> e1 == e2
  {
    if Message(e1) == Message(e2) {
      var m := Message(e1);
      match e1
      case MissingKey(p) =>
        assert m[0] == 'M';
        if p == OpenAI { assert m[8] == 'O'; } else { assert m[8] == 'A'; }
      case UnknownProvider(n) =>
        assert m[0] == 'U';
        if e2.UnknownProvider? {
          var pre := "Unknown LLM provider: ";
          assert n == m[|pre|..] == e2.name;
        }
      case NoProviders =>
        assert m[0] == 'N';
    }
  }
}
