/**
 * The body of `main` after the clients are loaded: the input line is split
 * into prompts, and every prompt is printed as a header followed by one
 * response per client. Console output is the returned sequence of printed
 * strings, one element per `print` call; the loop itself produces structured
 * `Line`s, and `Render` gives each one's exact text.
 */
module Dispatch {
  import opened Wrappers
  import opened Text
  import opened Providers
  import opened Loader

  /** One `print` call of `main`. */
  datatype Line =
    | PromptHeader(prompt: string)
    | Reply(client: Client, prompt: string)
    | NoPrompts

  /** The text a line prints; `print` adds the final newline, the leading
      newline of a header is part of the printed string. */
  function Render(l: Line): string {
    match l
    case PromptHeader(p) => "\nPrompt: " + p
    case Reply(c, p) => Generate(c, p)
    case NoPrompts => "No prompts provided."
  }

  function RenderAll(ls: seq<Line>): (out: seq<string>)
    ensures |out| == |ls|
  {
    seq(|ls|, i requires 0 <= i < |ls| => Render(ls[i]))
  }

  /** A well-formed prompt: non-empty, stripped, and free of commas. */
  predicate IsPrompt(p: string) {
    p != "" && IsStripped(p) && ',' !in p
  }

  /** `p.strip()` for every piece, in order. */
  function StripAll(pieces: seq<string>): (ss: seq<string>)
    ensures |ss| == |pieces|
    ensures forall i :: 0 <= i < |ss| ==> IsStripped(ss[i])
  {
    seq(|pieces|, i requires 0 <= i < |pieces| => Strip(pieces[i]))
  }

  /** The `if p.strip()` filter: drops the empty strings and keeps the rest in
      order. */
  function DropEmpty(ss: seq<string>): (r: seq<string>)
    ensures |r| <= |ss|
    decreases |ss|
  {
    if ss == [] then []
    else if ss[0] == "" then DropEmpty(ss[1..])
    else [ss[0]] + DropEmpty(ss[1..])
  }

  /** The filter keeps a string exactly when it is one of the pieces and is
      not empty. */
  lemma {:induction false} DropEmptyMembers(ss: seq<string>)
    ensures forall x :: x in DropEmpty(ss) <==> x in ss && x != ""
    decreases |ss|
  {
    if ss != [] {
      DropEmptyMembers(ss[1..]);
      assert forall x :: x in ss <==> x == ss[0] || x in ss[1..];
    }
  }

  /** `[p.strip() for p in input.split(",") if p.strip()]`: the prompts,
      in input order. */
  function SplitPrompts(input: string): seq<string> {
    DropEmpty(StripAll(Split(input, ',')))
  }

  /** Every prompt is non-empty, stripped and free of commas. */
  lemma PromptsWellFormed(input: string)
    ensures forall i :: 0 <= i < |SplitPrompts(input)| ==> IsPrompt(SplitPrompts(input)[i])
  {
    var pieces := Split(input, ',');
    SplitPiecesFree(input, ',');
    var ss := StripAll(pieces);
    var ps := DropEmpty(ss);
    DropEmptyMembers(ss);
    forall i | 0 <= i < |ps| ensures IsPrompt(ps[i]) {
      assert ps[i] in ss;
      var j :| 0 <= j < |ss| && ss[j] == ps[i];
      StripAddsNothing(pieces[j], ',');
    }
  }

  /** One reply per client, in load order. */
  function Replies(llms: seq<Client>, prompt: string): (rs: seq<Line>)
    ensures |rs| == |llms|
    decreases |llms|
  {
    if llms == [] then []
    else Replies(llms[..|llms| - 1], prompt) + [Reply(llms[|llms| - 1], prompt)]
  }

  /** A prompt's header followed by its replies. */
  function Block(llms: seq<Client>, prompt: string): seq<Line> {
    [PromptHeader(prompt)] + Replies(llms, prompt)
  }

  /** The lines for a list of prompts, block after block. */
  function Transcript(llms: seq<Client>, ps: seq<string>): seq<Line>
    decreases |ps|
  {
    if ps == [] then [] else Transcript(llms, ps[..|ps| - 1]) + Block(llms, ps[|ps| - 1])
  }

  /** Lines 71-79 of `main`: the notice alone when there is no prompt,
      otherwise the transcript. */
  function Output(llms: seq<Client>, ps: seq<string>): seq<Line> {
    if ps == [] then [NoPrompts] else Transcript(llms, ps)
  }

  /** What `main` does with the outcome of `load_llms`: an error aborts
      before any prompt is answered; loaded clients answer every prompt of the
      input line. */
  function Respond(loaded: Result<seq<Client>, LoadError>, input: string): (r: Result<seq<string>, LoadError>)
    ensures r.Failure? <==> loaded.Failure?
    ensures r.Failure? ==> r.error == loaded.error
    ensures r.Success? ==> |r.value| >= 1
  {
    match loaded
    case Failure(e) => Failure(e)
    case Success(llms) => Success(RenderAll(Output(llms, SplitPrompts(input))))
  }

  /** The line `k` of a prompt's block: its header first, then one reply
      per client in load order. */
  function BlockLine(llms: seq<Client>, prompt: string, k: int): Line
    requires 0 <= k <= |llms|
  {
    if k == 0 then PromptHeader(prompt) else Reply(llms[k - 1], prompt)
  }

  /** Line `k` of prompt `i`'s block sits at `i * (|llms| + 1) + k` of the
      printed lines `out`: the prompt's header `"\nPrompt: " + ps[i]` for
      `k == 0`, and client `k - 1`'s response otherwise. */
  predicate PrintedAt(out: seq<string>, llms: seq<Client>, ps: seq<string>, i: int, k: int) {
    0 <= i < |ps| && 0 <= k <= |llms| && i * (|llms| + 1) + k < |out| &&
    out[i * (|llms| + 1) + k] == Render(BlockLine(llms, ps[i], k))
  }

  /** A block lists exactly its `BlockLine`s. */
  lemma BlockLineAt(llms: seq<Client>, prompt: string, k: int)
    requires 0 <= k <= |llms|
    ensures k < |Block(llms, prompt)| && Block(llms, prompt)[k] == BlockLine(llms, prompt, k)
  {
    BlockAt(llms, prompt);
    if k > 0 {
      assert Block(llms, prompt)[1 + (k - 1)] == Reply(llms[k - 1], prompt);
    }
  }

  /** Line `k` of prompt `i`'s block in the output of a line with prompts. */
  lemma OutputLineAt(llms: seq<Client>, ps: seq<string>, i: int, k: int)
    requires 0 <= i < |ps| && 0 <= k <= |llms|
    ensures i * (|llms| + 1) + k < |Output(llms, ps)|
    ensures Output(llms, ps)[i * (|llms| + 1) + k] == BlockLine(llms, ps[i], k)
  {
    TranscriptAt(llms, ps, i, k);
    BlockLineAt(llms, ps[i], k);
  }

  /** Rendering prints each line at its own position. */
  lemma RenderedAt(ls: seq<Line>, llms: seq<Client>, ps: seq<string>, i: int, k: int)
    requires 0 <= i < |ps| && 0 <= k <= |llms|
    requires i * (|llms| + 1) + k < |ls| && ls[i * (|llms| + 1) + k] == BlockLine(llms, ps[i], k)
    ensures PrintedAt(RenderAll(ls), llms, ps, i, k)
  {
  }

  /** The printed text of every line of the transcript. */
  lemma OutputTextAt(llms: seq<Client>, ps: seq<string>, i: int, k: int)
    requires 0 <= i < |ps| && 0 <= k <= |llms|
    ensures |RenderAll(Output(llms, ps))| == |ps| * (|llms| + 1)
    ensures PrintedAt(RenderAll(Output(llms, ps)), llms, ps, i, k)
  {
    OutputLength(llms, ps);
    OutputLineAt(llms, ps, i, k);
    RenderedAt(Output(llms, ps), llms, ps, i, k);
  }

  /** The notice is printed alone exactly when there is no prompt. */
  lemma NoticeIffNoPrompts(llms: seq<Client>, ps: seq<string>)
    ensures ps == [] <==> RenderAll(Output(llms, ps)) == ["No prompts provided."]
  {
    if ps != [] {
      OutputLineAt(llms, ps, 0, 0);
      var first := RenderAll(Output(llms, ps))[0];
      assert first == "\nPrompt: " + ps[0];
      assert first[0] == '\n';
      assert "No prompts provided."[0] == 'N';
    }
  }

  /** Loaded clients answer the prompts of the input line. */
  lemma RespondRenders(loaded: Result<seq<Client>, LoadError>, input: string)
    requires loaded.Success?
    ensures Respond(loaded, input) == Success(RenderAll(Output(loaded.value, SplitPrompts(input))))
  {
  }

  /** What a loaded run prints for any input line: one header and one
      response per client for each prompt, in prompt order and then load
      order. */
  lemma RespondLineAt(loaded: Result<seq<Client>, LoadError>, input: string, i: int, k: int)
    requires loaded.Success?
    requires 0 <= i < |SplitPrompts(input)| && 0 <= k <= |loaded.value|
    ensures Respond(loaded, input).Success?
    ensures |Respond(loaded, input).value| == |SplitPrompts(input)| * (|loaded.value| + 1)
    ensures PrintedAt(Respond(loaded, input).value, loaded.value, SplitPrompts(input), i, k)
  {
    RespondRenders(loaded, input);
    OutputTextAt(loaded.value, SplitPrompts(input), i, k);
  }

  /** A loaded run prints the notice alone exactly when the line has no
      prompt. */
  lemma RespondNoPrompts(loaded: Result<seq<Client>, LoadError>, input: string)
    requires loaded.Success?
    ensures SplitPrompts(input) == [] <==> Respond(loaded, input) == Success(["No prompts provided."])
  {
    NoticeIffNoPrompts(loaded.value, SplitPrompts(input));
  }

  /** `main`: load the clients from the environment, then respond. */
  function Session(env: Env, input: string): Result<seq<string>, LoadError> {
    Respond(LoadLlms(env), input)
  }

  /** The nested `for` loops of `main`. */
  method Run(llms: seq<Client>, prompts: seq<string>) returns (out: seq<Line>)
    ensures out == Output(llms, prompts)
  {
    if prompts == [] {
      return [NoPrompts];
    }
    out := [];
    var i := 0;
    while i < |prompts|
      invariant 0 <= i <= |prompts|
      invariant out == Transcript(llms, prompts[..i])
    {
      var prompt := prompts[i];
      out := out + [PromptHeader(prompt)];
      var j := 0;
      while j < |llms|
        invariant 0 <= j <= |llms|
        invariant out == Transcript(llms, prompts[..i]) + [PromptHeader(prompt)] + Replies(llms[..j], prompt)
      {
        out := out + [Reply(llms[j], prompt)];
        assert llms[..j + 1][..j] == llms[..j];
        j := j + 1;
      }
      assert llms[..j] == llms;
      assert prompts[..i + 1][..i] == prompts[..i];
      i := i + 1;
    }
    assert prompts[..i] == prompts;
  }

  /** Reply `j` of a block is client `j`'s. */
  lemma {:induction false} RepliesAt(llms: seq<Client>, prompt: string, j: int)
    requires 0 <= j < |llms|
    ensures Replies(llms, prompt)[j] == Reply(llms[j], prompt)
    decreases |llms|
  {
    if j < |llms| - 1 {
      RepliesAt(llms[..|llms| - 1], prompt, j);
    }
  }

  lemma MulStep(i: int, m: int, w: int)
    requires 0 <= i < m && w > 0
    ensures i * w + w <= m * w
  {
    assert (m - i) * w >= w by {
      assert m - i >= 1;
    }
  }

  /** The transcript has `|ps| * (|llms| + 1)` lines. */
  lemma {:induction false} TranscriptLength(llms: seq<Client>, ps: seq<string>)
    ensures |Transcript(llms, ps)| == |ps| * (|llms| + 1)
    decreases |ps|
  {
    if ps != [] {
      TranscriptLength(llms, ps[..|ps| - 1]);
      assert |ps| * (|llms| + 1) == (|ps| - 1) * (|llms| + 1) + (|llms| + 1);
    }
  }

  /** With no prompt the notice is the only line printed; otherwise
      `|ps| * (|llms| + 1)` lines are printed: a header and one response per
      client for every prompt. */
  lemma OutputLength(llms: seq<Client>, ps: seq<string>)
    ensures ps == [] ==> Output(llms, ps) == [NoPrompts]
    ensures ps != [] ==> |Output(llms, ps)| == |ps| * (|llms| + 1)
  {
    if ps != [] {
      TranscriptLength(llms, ps);
    }
  }

  /** The transcript is the prompts' blocks laid end to end, in input order:
      line `k` of prompt `i`'s block sits at `i * (|llms| + 1) + k`. */
  lemma {:induction false} TranscriptAt(llms: seq<Client>, ps: seq<string>, i: int, k: int)
    requires 0 <= i < |ps| && 0 <= k <= |llms|
    ensures i * (|llms| + 1) + k < |Transcript(llms, ps)|
    ensures Transcript(llms, ps)[i * (|llms| + 1) + k] == Block(llms, ps[i])[k]
    decreases |ps|
  {
    var w := |llms| + 1;
    var init := ps[..|ps| - 1];
    TranscriptLength(llms, init);
    TranscriptLength(llms, ps);
    var t0 := Transcript(llms, init);
    if i < |init| {
      TranscriptAt(llms, init, i, k);
      MulStep(i, |init|, w);
      assert ps[i] == init[i];
    } else {
      assert i * w == |t0|;
    }
  }

  /** A block is the header, then client `j`'s reply at position `1 + j`. */
  lemma BlockAt(llms: seq<Client>, prompt: string)
    ensures |Block(llms, prompt)| == |llms| + 1
    ensures Block(llms, prompt)[0] == PromptHeader(prompt)
    ensures forall j :: 0 <= j < |llms| ==> Block(llms, prompt)[1 + j] == Reply(llms[j], prompt)
  {
    forall j | 0 <= j < |llms| ensures Block(llms, prompt)[1 + j] == Reply(llms[j], prompt) {
      RepliesAt(llms, prompt, j);
    }
  }

  lemma {:induction false} DropEmptyKeepsNonEmpty(ss: seq<string>)
    requires forall i :: 0 <= i < |ss| ==> ss[i] != ""
    ensures DropEmpty(ss) == ss
    decreases |ss|
  {
    if ss != [] {
      DropEmptyKeepsNonEmpty(ss[1..]);
    }
  }

  /** The filter works piece by piece: filtering a concatenation filters
      each part and keeps them in order. */
  lemma {:induction false} DropEmptyAppend(a: seq<string>, b: seq<string>)
    ensures DropEmpty(a + b) == DropEmpty(a) + DropEmpty(b)
    decreases |a|
  {
    if a == [] {
      assert a + b == b;
    } else {
      assert (a + b)[0] == a[0];
      assert (a + b)[1..] == a[1..] + b;
      DropEmptyAppend(a[1..], b);
    }
  }

  /** A single piece is dropped when empty and kept otherwise. */
  lemma DropEmptyOne(x: string)
    ensures DropEmpty([x]) == if x == "" then [] else [x]
  {
  }

  /** For any line written as comma-free pieces, the prompts are the pieces
      stripped, with the empty ones dropped, in line order and with
      duplicates kept. */
  lemma SplitPromptsOfPieces(pieces: seq<string>)
    requires |pieces| >= 1
    requires forall i :: 0 <= i < |pieces| ==> ',' !in pieces[i]
    ensures SplitPrompts(Join(pieces, ',')) == DropEmpty(StripAll(pieces))
  {
    SplitJoin(pieces, ',');
  }

  /** Stripped pieces like those of `"a, , b, a"`: the blank one is dropped,
      the order and the repeated prompt are kept. */
  lemma DropEmptyFour(p: string, q: string)
    requires p != "" && q != ""
    ensures DropEmpty([p, "", q, p]) == [p, q, p]
  {
    assert [p, "", q, p] == [p, ""] + [q, p];
    assert [p, ""] == [p] + [""];
    assert [q, p] == [q] + [p];
    DropEmptyAppend([p, ""], [q, p]);
    DropEmptyAppend([p], [""]);
    DropEmptyAppend([q], [p]);
    DropEmptyOne(p);
    DropEmptyOne("");
    DropEmptyOne(q);
  }

  lemma {:induction false} DropEmptyAllEmpty(ss: seq<string>)
    requires forall i :: 0 <= i < |ss| ==> ss[i] == ""
    ensures DropEmpty(ss) == []
    decreases |ss|
  {
    if ss != [] {
      DropEmptyAllEmpty(ss[1..]);
    }
  }

  /** Joining well-formed prompts with commas and splitting the line again
      gives back the same prompts, in the same order, duplicates kept. */
  lemma SplitPromptsJoin(ps: seq<string>)
    requires |ps| >= 1
    requires forall i :: 0 <= i < |ps| ==> IsPrompt(ps[i])
    ensures SplitPrompts(Join(ps, ',')) == ps
  {
    SplitJoin(ps, ',');
    var ss := StripAll(ps);
    forall i | 0 <= i < |ps| ensures ss[i] == ps[i] {
      StripFixedPoint(ps[i]);
    }
    assert ss == ps;
    DropEmptyKeepsNonEmpty(ps);
  }

  /** An input whose comma pieces are all whitespace (the empty line, `" "`,
      `" , ,"`) has no prompts, so a session that loads prints the notice
      alone and calls no client. */
  lemma BlankInputPrintsNotice(env: Env, input: string)
    requires forall i :: 0 <= i < |Split(input, ',')| ==> AllSpace(Split(input, ',')[i])
    ensures SplitPrompts(input) == []
    ensures LoadLlms(env).Success? ==> Session(env, input) == Success(["No prompts provided."])
  {
    BlankInputHasNoPrompts(input);
    if LoadLlms(env).Success? {
      RespondNoPrompts(LoadLlms(env), input);
    }
  }

  /** Every piece is stripped to `""` and dropped. */
  lemma BlankInputHasNoPrompts(input: string)
    requires forall i :: 0 <= i < |Split(input, ',')| ==> AllSpace(Split(input, ',')[i])
    ensures SplitPrompts(input) == []
  {
    var pieces := Split(input, ',');
    var ss := StripAll(pieces);
    forall i | 0 <= i < |ss| ensures ss[i] == "" {
      BlankEntryIgnored(pieces[i]);
      assert Lower(Strip(pieces[i])) == "";
    }
    DropEmptyAllEmpty(ss);
  }

  lemma HelloWorldPieces()
    ensures Split("Hello, World", ',') == ["Hello", " World"]
  {
    assert Join(["Hello", " World"], ',') == "Hello, World";
    SplitJoin(["Hello", " World"], ',');
  }

  lemma StripAllPair(a: string, b: string)
    ensures StripAll([a, b]) == [Strip(a), Strip(b)]
  {
    var r := StripAll([a, b]);
    assert |r| == 2 && r[0] == Strip(a) && r[1] == Strip(b);
  }

  lemma HelloWorldStripped()
    ensures StripAll(["Hello", " World"]) == ["Hello", "World"]
  {
    StripPadded("", "Hello", "");
    assert "" + "Hello" + "" == "Hello";
    StripPadded(" ", "World", "");
    assert " " + "World" + "" == " World";
    StripAllPair("Hello", " World");
  }

  /** `"Hello, World"` holds the prompts `"Hello"` and `"World"`. */
  lemma HelloWorldPrompts()
    ensures SplitPrompts("Hello, World") == ["Hello", "World"]
  {
    HelloWorldPieces();
    HelloWorldStripped();
    KeepPair("Hello", "World");
  }

  lemma KeepPair(a: string, b: string)
    requires a != "" && b != ""
    ensures DropEmpty([a, b]) == [a, b]
  {
    DropEmptyKeepsNonEmpty([a, b]);
  }

  /** Two prompts and two clients give header, reply, reply, header, reply, reply. */
  lemma TwoByTwoOutput(o: Client, a: Client, p: string, q: string)
    ensures Output([o, a], [p, q]) ==
              [PromptHeader(p), Reply(o, p), Reply(a, p), PromptHeader(q), Reply(o, q), Reply(a, q)]
  {
    var llms := [o, a];
    assert llms[..1] == [o] && [o][..0] == [];
    assert Replies(llms, p) == [Reply(o, p), Reply(a, p)];
    assert Replies(llms, q) == [Reply(o, q), Reply(a, q)];
    assert [p, q][..1] == [p] && [p][..0] == [];
    assert Transcript(llms, [p]) == Block(llms, p);
  }

  lemma RenderAllAppend(a: seq<Line>, b: seq<Line>)
    ensures RenderAll(a + b) == RenderAll(a) + RenderAll(b)
  {
  }

  /** The text of one block for an OpenAI client followed by an Anthropic one. */
  lemma BlockText(o: Client, a: Client, p: string)
    requires o.provider == OpenAI && a.provider == Anthropic
    ensures RenderAll([PromptHeader(p), Reply(o, p), Reply(a, p)]) ==
              ["\nPrompt: " + p, "[OpenAI] Response to: " + p, "[Anthropic] Response to: " + p]
  {
  }

  /** The text printed for prompts `Hello` and `World` with an OpenAI client
      followed by an Anthropic one. */
  lemma HelloWorldText(o: Client, a: Client)
    requires o.provider == OpenAI && a.provider == Anthropic
    ensures RenderAll(Output([o, a], ["Hello", "World"])) == [
              "\nPrompt: Hello", "[OpenAI] Response to: Hello", "[Anthropic] Response to: Hello",
              "\nPrompt: World", "[OpenAI] Response to: World", "[Anthropic] Response to: World"]
  {
    TwoByTwoOutput(o, a, "Hello", "World");
    var b1 := [PromptHeader("Hello"), Reply(o, "Hello"), Reply(a, "Hello")];
    var b2 := [PromptHeader("World"), Reply(o, "World"), Reply(a, "World")];
    assert Output([o, a], ["Hello", "World"]) == b1 + b2;
    RenderAllAppend(b1, b2);
    BlockText(o, a, "Hello");
    BlockText(o, a, "World");
    assert "\nPrompt: " + "Hello" == "\nPrompt: Hello";
    assert "[OpenAI] Response to: " + "Hello" == "[OpenAI] Response to: Hello";
    assert "[Anthropic] Response to: " + "Hello" == "[Anthropic] Response to: Hello";
    assert "\nPrompt: " + "World" == "\nPrompt: World";
    assert "[OpenAI] Response to: " + "World" == "[OpenAI] Response to: World";
    assert "[Anthropic] Response to: " + "World" == "[Anthropic] Response to: World";
  }

  lemma SessionOfLoaded(env: Env, input: string, llms: seq<Client>)
    requires LoadLlms(env) == Success(llms)
    ensures Session(env, input) == Success(RenderAll(Output(llms, SplitPrompts(input))))
  {
  }

  /** The example session: clients for `"openai,anthropic"` with both keys
      set, and the input line `"Hello, World"`, print the `Hello` header and
      the two responses to it, then the same for `World`. */
  lemma HelloWorldSession(env: Env)
    requires ProviderList(env) == "openai,anthropic"
    requires KeyOk(env, OpenAI) && KeyOk(env, Anthropic)
    ensures Session(env, "Hello, World") == Success([
              "\nPrompt: Hello", "[OpenAI] Response to: Hello", "[Anthropic] Response to: Hello",
              "\nPrompt: World", "[OpenAI] Response to: World", "[Anthropic] Response to: World"])
  {
    var o := Client(OpenAI, env["OPENAI_API_KEY"]);
    var a := Client(Anthropic, env["ANTHROPIC_API_KEY"]);
    OpenAIAndAnthropic(env);
    HelloWorldPrompts();
    SessionOfLoaded(env, "Hello, World", [o, a]);
    HelloWorldText(o, a);
  }
}
