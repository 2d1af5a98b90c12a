# Libenter prompt fan-out, modelled in Dafny

Libenter is a small command-line program, `app.py`. It reads the list of
LLM providers from the `LLM_PROVIDERS` environment variable and builds one
placeholder client per listed provider. Each client checks its own API-key
variable (`OPENAI_API_KEY` or `ANTHROPIC_API_KEY`) when it is built. The
program then reads one comma-separated line of prompts. For every prompt it
prints a `Prompt:` header followed by each client's response, in load order.

The model has five modules:

- `Wrappers` (`wrappers.dfy`): `Option` and `Result`.
- `Text` (`text.dfy`): the string operations the program relies on.
  These are `str.split(",")`, `str.strip()` and `str.lower()`, with Python's
  ASCII whitespace and ASCII case.
- `Providers` (`providers.dfy`): the two provider kinds and the credential
  check of their constructors (`Construct`). It also has `generate`
  (`Generate`) and the four `ValueError` texts of its three error kinds (`Message`).
- `Loader` (`loader.dfy`): `load_llms` (`LoadLlms`). The entries are
  normalised up front (`Names`), then loaded in order (`LoadEntries`), then
  checked for emptiness (`RequireSome`). `Requested` and `ClientsFor` are
  the reference the loader is judged against: the providers the list names,
  and one client per provider.
- `Dispatch` (`dispatch.dfy`): the rest of `main`:
  - the prompt list comprehension (`SplitPrompts`);
  - the "no prompts" branch and the nested print loops, as a pure function
    (`Output`) and as the loop itself (`Run`);
  - what `main` does with the outcome of loading (`Respond`): an error stops
    the run before any prompt is read;
  - a whole run (`Session`), which loads from the environment and then
    responds.

Each `print` call is a structured `Line`, and `Render` gives its exact text.

The environment is a map from names to values. An absent name reads as
`os.getenv` reads it: as `None` for a key variable, or as `""` for
`LLM_PROVIDERS`. Python's `not api_key` holds for both `None` and `""`. The
input line is a parameter. The printed output is the returned sequence of
strings, one element per `print` call.

## Model

| member | source | states |
|---|---|---|
| Providers.KeyOk | app.py:14-15 | Python's `not self.api_key` negated: the key variable is present and non-empty (the same check at app.py:25-26); its use is stated by `Providers.Construct` |
| Providers.Construct | app.py:13-27 | building a client succeeds exactly when the provider's own key variable is set to a non-empty value; the client then holds that key, and otherwise the error text is `Missing <VAR>` |
| Providers.ConstructReadsOwnKey | app.py:13-27 | two environments that agree on a provider's key variable build the same client or the same error |
| Providers.Generate | app.py:18-31 | the placeholder `generate` of both clients; what it returns is stated by `Providers.ParseGenerate` and `Providers.GenerateInjective` |
| Providers.Resolve | app.py:45-50 | the `provider == "openai"` / `provider == "anthropic"` comparisons; their meaning is stated by `Providers.ResolveName` |
| Providers.Message | app.py:15-53 | the texts of the four `ValueError`s; that they are distinct, and what each names, is stated by `Providers.MessageInjective` and `Providers.Construct` |
| Providers.ParseGenerate | app.py:18-31 | a response starts with `[OpenAI] Response to: ` or `[Anthropic] Response to: `; reading it back gives the provider that produced it and the unchanged prompt |
| Providers.GenerateInjective | app.py:18-31 | two responses are equal exactly when provider and prompt are equal; the key a client holds never changes its response |
| Providers.ResolveName | app.py:45-50 | an entry selects a provider exactly when it equals that provider's lower-case name; any other entry selects none |
| Providers.MessageInjective | app.py:15-53 | the four error texts (two missing-key, unknown provider, none configured) are pairwise distinct, and the unknown-provider text determines the entry it names |
| Loader.FirstBad | app.py:42-50 | the position of the first entry, in list order, that stops loading: every entry before it is blank or a provider with its key set |
| Loader.RequireSome | app.py:52-55 | an empty client list becomes the `No LLM providers configured` error; any error or non-empty list passes unchanged |
| Loader.LoadLlms | app.py:38-55 | a successful load never returns an empty list |
| Loader.LoadEntries | app.py:42-50 | the `for` loop of `load_llms` over the normalised entries; its outcomes are stated by `Loader.LoadEntriesSucceeds`, `Loader.LoadEntriesClients`, `Loader.LoadEntriesFirstError` and `Loader.UnrequestedKeysIgnored` |
| Loader.LoadEntriesSucceeds | app.py:42-50 | the loop finishes without error exactly when every entry is blank or names a provider whose key is set |
| Loader.LoadEntriesClients | app.py:42-48 | a loop that finishes returns one client per provider the list names, in list order and with duplicates kept, each holding its key from the environment |
| Loader.LoadEntriesFirstError | app.py:42-50 | a loop that fails reports the first bad entry's error: an unknown name or that provider's missing key; later entries play no part |
| Loader.UnrequestedKeysIgnored | app.py:42-50 | the loop's result does not depend on the key variable of any provider the list does not name |
| Loader.LoadOutcome | app.py:42-55 | for any normalised entries, the loop plus the final check has exactly three outcomes: the first bad entry's error; otherwise `No LLM providers configured` when no entry names a provider; otherwise one client per named provider, in order |
| Loader.LoadLlmsSpec | app.py:38-55 | `load_llms` has exactly three outcomes: the first bad entry's error; otherwise `No LLM providers configured` when no provider is named; otherwise one client per named provider, in order |
| Loader.LoadLlmsReadsOnlyRequestedKeys | app.py:38-55 | environments with the same provider list that agree on the named providers' keys load the same result |
| Loader.BlankEntryIgnored | app.py:43-49 | an all-whitespace entry normalises to the empty name, which the loop skips without error |
| Loader.BlankListFails | app.py:39-53 | a list whose entries are all blank fails with `No LLM providers configured` |
| Loader.UnsetListFails | app.py:39-53 | an unset `LLM_PROVIDERS` fails with `No LLM providers configured` |
| Loader.CommasOnlyFails | app.py:42-53 | the list `",,"` fails with `No LLM providers configured` |
| Loader.ProviderList | app.py:39 | `os.getenv("LLM_PROVIDERS", "")`: the variable's value, or `""` when unset; its use is stated by `Loader.UnsetListFails` and `Loader.LoadLlmsSpec` |
| Loader.Normalize | app.py:43 | `provider.strip().lower()`; stated by `Loader.NormalizeIgnoresCaseAndPadding` and `Loader.BlankEntryIgnored` |
| Loader.Names | app.py:42-43 | the normalised comma pieces of the provider list, in order; stated by `Loader.NamesOfJoinedList` and `Loader.LoadLlmsSpec` |
| Loader.NormalizeIgnoresCaseAndPadding | app.py:43-48 | any capitalisation of a provider's name, padded with any whitespace on either side, normalises to that name and selects that provider |
| Loader.PaddedMixedCaseExample | app.py:43-46 | the entry `" OpenAI "` selects the OpenAI client |
| Loader.NamesOfJoinedList | app.py:42-43 | a list written as comma-joined entries that are already stripped, lower-case and comma-free normalises to exactly those entries |
| Loader.LoadNamedProviders | app.py:38-55 | a list of provider names, with duplicates allowed and every needed key set, loads exactly one client per name, in list order |
| Loader.LoadPair | app.py:38-55 | a two-name list with both keys set loads the two clients in list order |
| Loader.DuplicatesKept | app.py:42-48 | `"openai,openai"` loads two OpenAI clients |
| Loader.OpenAIAndAnthropic | app.py:38-55 | `"openai,anthropic"` with both keys set loads an OpenAI client, then an Anthropic one |
| Loader.MissingKeyPreemptsLaterUnknown | app.py:42-50 | with `"openai,bogus"` and no OpenAI key the missing key is reported, not the unknown name |
| Loader.UnknownPreemptsLaterEntries | app.py:42-50 | with `"bogus,openai"` the unknown name `bogus` is reported whatever keys are set |
| Text.Split | app.py:42 | `split(",")` yields at least one piece, even for the empty string |
| Text.SplitPiecesFree | app.py:42 | no piece of a split holds the separator |
| Text.JoinSplit | app.py:42 | joining the pieces of a split with the separator gives back the original string |
| Text.SplitJoin | app.py:69 | splitting a separator-free list's join gives back that list: no piece is lost, merged or reordered |
| Text.TrimLeft | app.py:43 | the result is a suffix of the input, what was removed is whitespace, and the result does not start with whitespace |
| Text.TrimRight | app.py:43 | the result is a prefix of the input, what was removed is whitespace, and the result does not end with whitespace |
| Text.Strip | app.py:43 | neither end of the result is whitespace |
| Text.StripRemovesOnlySpace | app.py:43 | the input is whitespace, then the stripped result, then whitespace |
| Text.StripPadded | app.py:43 | stripping any whitespace padding around a string with no whitespace at either end gives back that string |
| Text.StripFixedPoint | app.py:43 | a string is unchanged by stripping exactly when neither end is whitespace |
| Text.StripIdempotent | app.py:69 | stripping twice is the same as stripping once |
| Text.StripAddsNothing | app.py:69 | stripping never introduces a character, so a stripped piece of a comma split holds no comma |
| Text.Lower | app.py:43 | `str.lower()` on ASCII letters, keeping the length; stated by `Text.LowerSpec` |
| Text.LowerSpec | app.py:43 | lowercasing maps each capital ASCII letter to its small letter, keeps every other character, and leaves no capital letter |
| Text.LowerIdempotent | app.py:43 | lowercasing twice is the same as lowercasing once |
| Text.LowerKeepsStripped | app.py:43 | lowercasing a stripped string leaves it stripped |
| Dispatch.StripAll | app.py:69 | every stripped piece has no whitespace at either end, and there is one per input piece |
| Dispatch.DropEmptyMembers | app.py:69 | a string is kept exactly when it is one of the pieces and is not empty |
| Dispatch.DropEmptyAppend | app.py:69 | filtering a concatenation filters each part and keeps the parts in order; with `Dispatch.DropEmptyOne` this pins the filter down as "keep the non-empty strings, in order, duplicates kept" |
| Dispatch.DropEmptyOne | app.py:69 | a single piece is dropped when empty and kept otherwise |
| Dispatch.SplitPrompts | app.py:69 | the list comprehension producing the prompts; stated by `Dispatch.SplitPromptsOfPieces`, `Dispatch.PromptsWellFormed`, `Dispatch.SplitPromptsJoin` and `Dispatch.DropEmptyAppend` |
| Dispatch.SplitPromptsOfPieces | app.py:69 | for any line written as comma-free pieces, the prompts are the pieces stripped with the empty ones dropped, so in line order and with duplicates kept |
| Dispatch.DropEmptyFour | app.py:69 | the stripped pieces `a`, `""`, `b`, `a` give the prompts `a`, `b`, `a`: the blank piece is dropped, order and the repeat are kept |
| Dispatch.PromptsWellFormed | app.py:69 | every prompt is non-empty, has no whitespace at either end and holds no comma |
| Dispatch.SplitPromptsJoin | app.py:69 | joining well-formed prompts with commas and splitting the line again gives back the same prompts, in order, with duplicates kept |
| Dispatch.DropEmptyKeepsNonEmpty | app.py:69 | a list with no empty string passes the filter unchanged |
| Dispatch.DropEmptyAllEmpty | app.py:69 | a list of empty strings filters to nothing |
| Dispatch.BlankInputPrintsNotice | app.py:69-73 | an input whose comma pieces are all whitespace has no prompts, so a run that loads prints only `No prompts provided.` |
| Dispatch.HelloWorldPrompts | app.py:69 | the input `"Hello, World"` gives the prompts `Hello` and `World` |
| Dispatch.RepliesAt | app.py:77-79 | reply `j` of a prompt's block is client `j`'s response to that prompt |
| Dispatch.BlockAt | app.py:76-79 | a prompt's block has `|llms| + 1` lines: the header, then client `j`'s reply at position `1 + j` |
| Dispatch.TranscriptLength | app.py:75-79 | the prompts produce `|prompts| * (|llms| + 1)` lines |
| Dispatch.TranscriptAt | app.py:75-79 | line `k` of prompt `i`'s block is printed at position `i * (|llms| + 1) + k`, so blocks appear in prompt order and replies in load order |
| Dispatch.Output | app.py:71-79 | the lines `main` prints for loaded clients; stated by `Dispatch.OutputLength`, `Dispatch.TranscriptAt`, `Dispatch.BlockAt` and `Dispatch.Run` |
| Dispatch.OutputLength | app.py:71-79 | no prompts give the notice line alone; otherwise `|prompts| * (|llms| + 1)` lines are printed |
| Dispatch.Run | app.py:71-79 | the nested loops print exactly the lines of `Output`: the notice alone, or every prompt's header followed by one reply per client |
| Dispatch.TwoByTwoOutput | app.py:75-79 | two prompts and two clients give header, reply, reply, header, reply, reply |
| Dispatch.Render | app.py:72-79 | the three printed texts: `No prompts provided.`, `"\nPrompt: "` and the prompt, and the client's response; stated by `Dispatch.BlockText` and `Dispatch.RespondLineAt` |
| Dispatch.BlockText | app.py:76-79 | the exact text of a block for an OpenAI client followed by an Anthropic one |
| Dispatch.HelloWorldText | app.py:75-79 | the exact six lines printed for prompts `Hello` and `World` with an OpenAI and an Anthropic client |
| Dispatch.Respond | app.py:63-79 | a run fails exactly when loading failed, with the same error, and prints nothing else; a run whose clients loaded prints at least one line, and what it prints is stated line by line by `Dispatch.RespondLineAt` and `Dispatch.RespondNoPrompts` |
| Dispatch.RespondLineAt | app.py:71-79 | for any input line, a loaded run with `n` clients and `m` prompts prints `m * (n + 1)` lines; at `i * (n + 1) + k` it prints `"\nPrompt: "` and prompt `i` for `k == 0`, and client `k - 1`'s response to prompt `i` otherwise |
| Dispatch.RespondNoPrompts | app.py:69-73 | a loaded run prints `No prompts provided.` alone exactly when the input line has no prompt |
| Dispatch.Session | app.py:62-79 | `main` as a whole: `load_llms`, then the prompts; stated by `Loader.LoadLlmsSpec` for the loading, by `Dispatch.Respond`, `Dispatch.RespondLineAt` and `Dispatch.RespondNoPrompts` for what is printed after it, and by `Dispatch.HelloWorldSession` for one example |
| Dispatch.HelloWorldSession | app.py:62-79 | with `LLM_PROVIDERS="openai,anthropic"`, both keys set and the input `"Hello, World"`, the run prints the six expected lines in order |

## Left out

- Environment access (`os.getenv`), reading the input line and `print` are
  not modelled as I/O. The environment is a parameter map, the input line is
  a parameter, and the printed lines are the returned value.
- The text `Enter prompts (comma-separated): `, which `input()` writes to
  stdout before reading the line, is not among the returned lines.
- The `if __name__ == "__main__"` entry point is left out; `Session` is `main`.
- A failed load in Python raises `ValueError`, which ends the program with a
  traceback. The model returns `Failure` with a `LoadError` instead, and
  `Message` gives the exception text.
- `BaseLLM.generate` raising `NotImplementedError` is left out. The base
  class is never instantiated, so the provider datatype has only the two
  concrete kinds.
- No network call is made. The clients are placeholders in the source too.
- Text.Strip: whitespace is Python's ASCII whitespace only (9-13 and
  28-32). `str.strip()` also removes Unicode whitespace such as U+00A0 and
  U+2028, and that is not modelled.
- Text.Lower: only ASCII capitals are lowercased. `str.lower()` also
  lowercases non-ASCII letters. Such letters cannot make an entry equal
  `openai` or `anthropic` except through Unicode special cases (for example
  U+212A KELVIN SIGN lowercases to `k`, which neither name contains).
- Responses carry no language tag and no instruction prefix, and there are
  no command-line options. `app.py` has none of these: every response is
  exactly `[<Provider>] Response to: <prompt>` (`Providers.ParseGenerate`).
- `load_llms` strips and lowercases each entry when the loop reaches it. The
  model normalises all entries first. This gives the same result, because
  normalising an entry reads nothing and cannot fail.
