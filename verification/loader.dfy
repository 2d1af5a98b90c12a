/**
 * `load_llms`: the comma-separated `LLM_PROVIDERS` value is split, each entry
 * is stripped and lowercased, empty entries are skipped, and every other entry
 * must name a provider whose client is built on the spot. The first entry that
 * fails, in list order, decides the error; a list that names no provider at
 * all is an error too.
 *
 * Normalising an entry is pure, so the entries are normalised up front
 * (`Names`) and the loop runs over the normalised names; this is the same as
 * normalising each entry as the loop reaches it.
 */
module Loader {
  import opened Wrappers
  import opened Text
  import opened Providers

  const ProvidersVar := "LLM_PROVIDERS"

  /** `os.getenv("LLM_PROVIDERS", "")`. */
  function ProviderList(env: Env): string {
    if ProvidersVar in env then env[ProvidersVar] else ""
  }

  /** `provider.strip().lower()`. */
  function Normalize(token: string): string {
    Lower(Strip(token))
  }

  /** The normalised entries of a list, in order. */
  function NormalizeAll(ts: seq<string>): (ns: seq<string>)
    ensures |ns| == |ts|
  {
    seq(|ts|, i requires 0 <= i < |ts| => Normalize(ts[i]))
  }

  /** The normalised entries of the provider list. */
  function Names(env: Env): seq<string> {
    NormalizeAll(Split(ProviderList(env), ','))
  }

  /** A normalised entry that does not stop loading: blank, or a known
      provider whose key is set. */
  predicate EntryOk(n: string, env: Env) {
    n == "" || (Resolve(n).Some? && KeyOk(env, Resolve(n).value))
  }

  /** The error raised by a normalised entry that stops loading. */
  function EntryError(n: string, env: Env): (e: LoadError)
    requires !EntryOk(n, env)
  {
    if Resolve(n).Some? then MissingKey(Resolve(n).value) else UnknownProvider(n)
  }

  predicate AllOk(ns: seq<string>, env: Env) {
    forall i :: 0 <= i < |ns| ==> EntryOk(ns[i], env)
  }

  lemma AllOkCons(ns: seq<string>, env: Env)
    requires ns != []
    ensures AllOk(ns, env) <==> EntryOk(ns[0], env) && AllOk(ns[1..], env)
  {
    var rest := ns[1..];
    assert forall i :: 0 < i < |ns| ==> ns[i] == rest[i - 1];
  }

  /** The position of the first entry, in list order, that stops loading;
      `|ns|` when none does. */
  function FirstBad(ns: seq<string>, env: Env): (i: nat)
    ensures i <= |ns|
    ensures AllOk(ns[..i], env)
    ensures i < |ns| ==> !EntryOk(ns[i], env)
    decreases |ns|
  {
    if ns == [] || !EntryOk(ns[0], env) then 0
    else
      var j := FirstBad(ns[1..], env);
      assert ns[..j + 1] == [ns[0]] + ns[1..][..j];
      AllOkCons(ns[..j + 1], env);
      1 + j
  }

  /** The providers the list asks for, in list order, duplicates kept:
      the reference against which loading is judged. */
  function Requested(ns: seq<string>): seq<Provider> {
    if ns == [] then []
    else
      match Resolve(ns[0])
      case Some(p) => [p] + Requested(ns[1..])
      case None => Requested(ns[1..])
  }

  /** One client per requested provider, each holding its key from `env`. */
  function ClientsFor(ps: seq<Provider>, env: Env): seq<Client>
    requires forall i :: 0 <= i < |ps| ==> KeyOk(env, ps[i])
  {
    seq(|ps|, i requires 0 <= i < |ps| => assert KeyOk(env, ps[i]); Client(ps[i], env[CredentialVar(ps[i])]))
  }

  /** The `for` loop of `load_llms`, over the normalised entries `ns`. */
  function LoadEntries(ns: seq<string>, env: Env): Result<seq<Client>, LoadError>
    decreases |ns|
  {
    if ns == [] then Success([])
    else
      match Resolve(ns[0])
      case None =>
        if ns[0] == "" then LoadEntries(ns[1..], env) else Failure(UnknownProvider(ns[0]))
      case Some(p) =>
        match Construct(p, env)
        case Failure(e) => Failure(e)
        case Success(c) =>
          match LoadEntries(ns[1..], env)
          case Failure(e) => Failure(e)
          case Success(cs) => Success([c] + cs)
  }

  /** The final check of `load_llms`: no client at all is an error. */
  function RequireSome(r: Result<seq<Client>, LoadError>): (r': Result<seq<Client>, LoadError>)
    ensures r'.Success? ==> r'.value != [] && r' == r
    ensures r.Failure? ==> r' == r
    ensures r == Success([]) ==> r' == Failure(NoProviders)
    ensures r.Success? && r.value != [] ==> r' == r
  {
    match r
    case Failure(e) => Failure(e)
    case Success(cs) => if cs == [] then Failure(NoProviders) else Success(cs)
  }

  /** `load_llms`: fails on the first bad entry, then fails if no client was
      built, and otherwise returns the clients in list order. */
  function LoadLlms(env: Env): (r: Result<seq<Client>, LoadError>)
    ensures r.Success? ==> r.value != []
  {
    RequireSome(LoadEntries(Names(env), env))
  }

  /** Loading the entries succeeds exactly when no entry stops it. */
  lemma {:induction false} LoadEntriesSucceeds(ns: seq<string>, env: Env)
    ensures LoadEntries(ns, env).Success? <==> AllOk(ns, env)
    decreases |ns|
  {
    if ns != [] {
      LoadEntriesSucceeds(ns[1..], env);
      AllOkCons(ns, env);
    }
  }

  lemma ClientsForCons(p: Provider, ps: seq<Provider>, env: Env)
    requires KeyOk(env, p)
    requires forall i :: 0 <= i < |ps| ==> KeyOk(env, ps[i])
    ensures forall i :: 0 <= i < |[p] + ps| ==> KeyOk(env, ([p] + ps)[i])
    ensures ClientsFor([p] + ps, env) == [Client(p, env[CredentialVar(p)])] + ClientsFor(ps, env)
  {
    assert forall i :: 0 < i < |[p] + ps| ==> ([p] + ps)[i] == ps[i - 1];
  }

  /** A successful load yields one client per requested provider, in list
      order and duplicates kept, each holding its key from the environment. */
  lemma {:induction false} LoadEntriesClients(ns: seq<string>, env: Env)
    requires AllOk(ns, env)
    ensures forall i :: 0 <= i < |Requested(ns)| ==> KeyOk(env, Requested(ns)[i])
    ensures LoadEntries(ns, env) == Success(ClientsFor(Requested(ns), env))
    decreases |ns|
  {
    if ns == [] {
      assert ClientsFor([], env) == [];
    } else {
      var rest := ns[1..];
      AllOkCons(ns, env);
      LoadEntriesClients(rest, env);
      if Resolve(ns[0]).None? {
        assert Requested(ns) == Requested(rest);
      } else {
        var p := Resolve(ns[0]).value;
        assert Requested(ns) == [p] + Requested(rest);
        ClientsForCons(p, Requested(rest), env);
      }
    }
  }

  /** A failed load reports the error of the first entry that stops it:
      entries after it are never looked at. */
  lemma {:induction false} LoadEntriesFirstError(ns: seq<string>, env: Env)
    requires !AllOk(ns, env)
    ensures FirstBad(ns, env) < |ns|
    ensures LoadEntries(ns, env) == Failure(EntryError(ns[FirstBad(ns, env)], env))
    decreases |ns|
  {
    AllOkCons(ns, env);
    if EntryOk(ns[0], env) {
      LoadEntriesSucceeds(ns[1..], env);
      LoadEntriesFirstError(ns[1..], env);
    }
  }

  /** Whether loading succeeds, and with what, never depends on the key of a
      provider the list does not ask for: such keys are never read. */
  lemma {:induction false} UnrequestedKeysIgnored(ns: seq<string>, env1: Env, env2: Env)
    requires forall p :: p in Requested(ns) ==>
               (CredentialVar(p) in env1 <==> CredentialVar(p) in env2)
               && (CredentialVar(p) in env1 ==> env1[CredentialVar(p)] == env2[CredentialVar(p)])
    ensures LoadEntries(ns, env1) == LoadEntries(ns, env2)
    decreases |ns|
  {
    if ns != [] {
      var rest := ns[1..];
      match Resolve(ns[0])
      case None =>
        assert Requested(ns) == Requested(rest);
        UnrequestedKeysIgnored(rest, env1, env2);
      case Some(p) =>
        assert Requested(ns) == [p] + Requested(rest);
        ConstructReadsOwnKey(p, env1, env2);
        UnrequestedKeysIgnored(rest, env1, env2);
    }
  }

  /** The loop and the final check together, over any normalised entries:
      the first entry that stops loading decides the error; with no such
      entry, entries naming no provider fail with `NoProviders`; otherwise the
      result is one client per requested provider, in list order. */
  lemma LoadOutcome(ns: seq<string>, env: Env)
    ensures !AllOk(ns, env) ==>
              FirstBad(ns, env) < |ns|
              && RequireSome(LoadEntries(ns, env)) == Failure(EntryError(ns[FirstBad(ns, env)], env))
    ensures AllOk(ns, env) && Requested(ns) == [] ==>
              RequireSome(LoadEntries(ns, env)) == Failure(NoProviders)
    ensures AllOk(ns, env) && Requested(ns) != [] ==>
              (forall i :: 0 <= i < |Requested(ns)| ==> KeyOk(env, Requested(ns)[i]))
              && RequireSome(LoadEntries(ns, env)) == Success(ClientsFor(Requested(ns), env))
  {
    if AllOk(ns, env) {
      LoadEntriesClients(ns, env);
      assert |ClientsFor(Requested(ns), env)| == |Requested(ns)|;
    } else {
      LoadEntriesFirstError(ns, env);
    }
  }

  /** `load_llms` in full, for the entries of the provider list. */
  lemma LoadLlmsSpec(env: Env)
    ensures !AllOk(Names(env), env) ==>
              FirstBad(Names(env), env) < |Names(env)|
              && LoadLlms(env) == Failure(EntryError(Names(env)[FirstBad(Names(env), env)], env))
    ensures AllOk(Names(env), env) && Requested(Names(env)) == [] ==>
              LoadLlms(env) == Failure(NoProviders)
    ensures AllOk(Names(env), env) && Requested(Names(env)) != [] ==>
              (forall i :: 0 <= i < |Requested(Names(env))| ==> KeyOk(env, Requested(Names(env))[i]))
              && LoadLlms(env) == Success(ClientsFor(Requested(Names(env)), env))
  {
    LoadOutcome(Names(env), env);
  }

  /** The keys of providers the list does not ask for are never read. */
  lemma LoadLlmsReadsOnlyRequestedKeys(env1: Env, env2: Env)
    requires ProviderList(env1) == ProviderList(env2)
    requires forall p :: p in Requested(Names(env1)) ==>
               (CredentialVar(p) in env1 <==> CredentialVar(p) in env2)
               && (CredentialVar(p) in env1 ==> env1[CredentialVar(p)] == env2[CredentialVar(p)])
    ensures LoadLlms(env1) == LoadLlms(env2)
  {
    var ns := Names(env1);
    assert Names(env2) == ns;
    UnrequestedKeysIgnored(ns, env1, env2);
  }

  /** An entry whose every character is whitespace normalises to the empty
      name, so it is skipped. */
  lemma BlankEntryIgnored(t: string)
    requires AllSpace(t)
    ensures Normalize(t) == ""
  {
    StripPadded(t, [], []);
    assert t + [] + [] == t;
    assert Lower([]) == [];
  }

  /** A list of blank entries only (an unset variable, `""`, `",,"`, `" , "`)
      fails with `NoProviders`. */
  lemma BlankListFails(env: Env)
    requires forall i :: 0 <= i < |Split(ProviderList(env), ',')| ==> AllSpace(Split(ProviderList(env), ',')[i])
    ensures LoadLlms(env) == Failure(NoProviders)
  {
    var ts := Split(ProviderList(env), ',');
    var ns := Names(env);
    forall i | 0 <= i < |ns| ensures ns[i] == "" {
      BlankEntryIgnored(ts[i]);
    }
    BlankRequestsNothing(ns, env);
    LoadLlmsSpec(env);
  }

  lemma {:induction false} BlankRequestsNothing(ns: seq<string>, env: Env)
    requires forall i :: 0 <= i < |ns| ==> ns[i] == ""
    ensures AllOk(ns, env) && Requested(ns) == []
    decreases |ns|
  {
    if ns != [] {
      assert Resolve(ns[0]).None?;
      BlankRequestsNothing(ns[1..], env);
      AllOkCons(ns, env);
    }
  }

  /** An unset `LLM_PROVIDERS` loads nothing and fails with `NoProviders`. */
  lemma UnsetListFails(env: Env)
    requires ProvidersVar !in env
    ensures LoadLlms(env) == Failure(NoProviders)
  {
    assert Split(ProviderList(env), ',') == [""];
    BlankListFails(env);
  }

  /** `",,"` is three blank entries and fails with `NoProviders`. */
  lemma CommasOnlyFails(env: Env)
    requires ProviderList(env) == ",,"
    ensures LoadLlms(env) == Failure(NoProviders)
  {
    SplitJoin(["", "", ""], ',');
    assert Join(["", "", ""], ',') == ",,";
    BlankListFails(env);
  }

  /** Matching ignores letter case and surrounding whitespace: any padding of
      any capitalisation of a provider's name normalises to that name. */
  lemma NormalizeIgnoresCaseAndPadding(a: string, m: string, b: string, p: Provider)
    requires AllSpace(a) && AllSpace(b)
    requires Lower(m) == Name(p)
    ensures Normalize(a + m + b) == Name(p)
    ensures Resolve(Normalize(a + m + b)) == Some(p)
  {
    assert |m| > 0 && Lower(m)[0] == LowerChar(m[0]);
    assert Lower(m)[|m| - 1] == LowerChar(m[|m| - 1]);
    assert IsStripped(m);
    StripPadded(a, m, b);
  }

  /** The example `" OpenAI "` requests an OpenAI client. */
  lemma PaddedMixedCaseExample()
    ensures Resolve(Normalize(" OpenAI ")) == Some(OpenAI)
  {
    MixedCaseOpenAI();
    PaddedOpenAI();
    NormalizeIgnoresCaseAndPadding(" ", "OpenAI", " ", OpenAI);
  }

  lemma MixedCaseOpenAI()
    ensures Lower("OpenAI") == Name(OpenAI)
  {
    var r := Lower("OpenAI");
    assert r[0] == 'o' && r[1] == 'p' && r[2] == 'e' && r[3] == 'n' && r[4] == 'a' && r[5] == 'i';
  }

  lemma PaddedOpenAI()
    ensures " " + "OpenAI" + " " == " OpenAI "
    ensures AllSpace(" ")
  {
  }

  /** A list of entries that are already normalised (stripped, lower-case,
      comma-free) normalises to itself. */
  lemma {:induction false} NamesOfJoinedList(ns: seq<string>, env: Env)
    requires |ns| >= 1
    requires forall i :: 0 <= i < |ns| ==> ',' !in ns[i] && IsStripped(ns[i]) && Lower(ns[i]) == ns[i]
    requires ProviderList(env) == Join(ns, ',')
    ensures Names(env) == ns
  {
    SplitJoin(ns, ',');
    forall i | 0 <= i < |ns| ensures Names(env)[i] == ns[i] {
      StripFixedPoint(ns[i]);
    }
  }

  lemma NameIsNormal(p: Provider)
    ensures ',' !in Name(p) && IsStripped(Name(p)) && Lower(Name(p)) == Name(p)
  {
    assert Lower(Name(p)) == Name(p);
  }

  /** The names of the given providers, in order. */
  function NamesOf(ks: seq<Provider>): (ns: seq<string>)
    ensures |ns| == |ks|
  {
    seq(|ks|, i requires 0 <= i < |ks| => Name(ks[i]))
  }

  lemma {:induction false} RequestedNames(ks: seq<Provider>)
    ensures Requested(NamesOf(ks)) == ks
    decreases |ks|
  {
    if ks != [] {
      assert NamesOf(ks)[1..] == NamesOf(ks[1..]);
      RequestedNames(ks[1..]);
      ResolveName(Name(ks[0]), ks[0]);
      assert ks == [ks[0]] + ks[1..];
    }
  }

  /** A provider list written as the comma-joined names of `ks` (duplicates
      allowed), with every needed key set, loads exactly one client per
      entry, in the same order. */
  lemma LoadNamedProviders(ks: seq<Provider>, env: Env)
    requires |ks| >= 1
    requires forall i :: 0 <= i < |ks| ==> KeyOk(env, ks[i])
    requires ProviderList(env) == Join(NamesOf(ks), ',')
    ensures LoadLlms(env) == Success(ClientsFor(ks, env))
  {
    var ns := NamesOf(ks);
    forall i | 0 <= i < |ns| ensures ',' !in ns[i] && IsStripped(ns[i]) && Lower(ns[i]) == ns[i] {
      NameIsNormal(ks[i]);
    }
    NamesOfJoinedList(ns, env);
    RequestedNames(ks);
    forall i | 0 <= i < |ns| ensures EntryOk(ns[i], env) {
      ResolveName(ns[i], ks[i]);
    }
    LoadLlmsSpec(env);
  }

  /** `"openai,openai"` builds two OpenAI clients. */
  lemma DuplicatesKept(env: Env)
    requires KeyOk(env, OpenAI)
    requires ProviderList(env) == "openai,openai"
    ensures LoadLlms(env) == Success([Client(OpenAI, env["OPENAI_API_KEY"]), Client(OpenAI, env["OPENAI_API_KEY"])])
  {
    LoadPair(OpenAI, OpenAI, env);
  }

  /** With `"openai,bogus"` and no OpenAI key, the missing key is reported:
      the client is built before the unknown entry is reached. */
  lemma MissingKeyPreemptsLaterUnknown(env: Env)
    requires !KeyOk(env, OpenAI)
    requires ProviderList(env) == "openai,bogus"
    ensures LoadLlms(env) == Failure(MissingKey(OpenAI))
  {
    var ns := ["openai", "bogus"];
    assert Join(ns, ',') == "openai,bogus";
    assert Lower("bogus") == "bogus";
    NamesOfJoinedList(ns, env);
    assert !EntryOk(ns[0], env);
    assert FirstBad(ns, env) == 0;
    LoadLlmsSpec(env);
  }

  /** With `"bogus,openai"` the unknown entry is reported whatever the keys:
      loading stops there and no client is built. */
  lemma UnknownPreemptsLaterEntries(env: Env)
    requires ProviderList(env) == "bogus,openai"
    ensures LoadLlms(env) == Failure(UnknownProvider("bogus"))
  {
    var ns := ["bogus", "openai"];
    assert Join(ns, ',') == "bogus,openai";
    assert Lower("bogus") == "bogus";
    NamesOfJoinedList(ns, env);
    assert !EntryOk(ns[0], env);
    assert FirstBad(ns, env) == 0;
    LoadLlmsSpec(env);
  }

  lemma PairNames(p: Provider, q: Provider)
    ensures Join(NamesOf([p, q]), ',') == Name(p) + "," + Name(q)
  {
    assert NamesOf([p, q]) == [Name(p), Name(q)];
  }

  lemma PairClients(p: Provider, q: Provider, env: Env)
    requires KeyOk(env, p) && KeyOk(env, q)
    ensures ClientsFor([p, q], env) == [Client(p, env[CredentialVar(p)]), Client(q, env[CredentialVar(q)])]
  {
  }

  /** Loading a two-entry list of recognised names with both keys set. */
  lemma LoadPair(p: Provider, q: Provider, env: Env)
    requires KeyOk(env, p) && KeyOk(env, q)
    requires ProviderList(env) == Name(p) + "," + Name(q)
    ensures LoadLlms(env) == Success([Client(p, env[CredentialVar(p)]), Client(q, env[CredentialVar(q)])])
  {
    PairNames(p, q);
    PairClients(p, q, env);
    LoadNamedProviders([p, q], env);
  }

  /** `"openai,anthropic"` with both keys set loads an OpenAI client, then
      an Anthropic one. */
  lemma OpenAIAndAnthropic(env: Env)
    requires ProviderList(env) == "openai,anthropic"
    requires KeyOk(env, OpenAI) && KeyOk(env, Anthropic)
    ensures LoadLlms(env) == Success([Client(OpenAI, env["OPENAI_API_KEY"]), Client(Anthropic, env["ANTHROPIC_API_KEY"])])
  {
    LoadPair(OpenAI, Anthropic, env);
  }
}
