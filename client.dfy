/** The AI client: it picks one provider once, from the name in the
    `AI_PROVIDER` environment variable, and sends every request to it. The
    providers themselves (HTTP calls to OpenAI, Gemini or Ollama) are outside
    the model; each is given as the answers it would return. */
module Client {
  import opened Wrappers
  import opened Text
  import opened Models

  datatype ProviderKind = OpenAi | Gemini | Ollama

  /** One provider as the client sees it: what it answers to a prompt, to a
      conversation, to a request for its models or for a token count, and
      the line describing its configuration. */
  datatype Provider = Provider(
    kind: ProviderKind,
    ask: string -> Result<string, string>,
    chat: seq<ChatMessage> -> Result<string, string>,
    listModels: Result<seq<string>, string>,
    countTokens: string -> Result<nat, string>,
    info: string)

  /** The three providers, each built from its own configuration. */
  datatype Providers = Providers(openAi: Provider, gemini: Provider, ollama: Provider) {
    predicate Labelled() {
      openAi.kind == OpenAi && gemini.kind == Gemini && ollama.kind == Ollama
    }

    function For(k: ProviderKind): Provider {
      match k
      case OpenAi => openAi
      case Gemini => gemini
      case Ollama => ollama
    }
  }

  /** The provider a value of `AI_PROVIDER` selects; an unset variable counts
      as "ollama". The lower-cased name is matched against "openai" and
      "gemini", and anything else means Ollama. */
  function SelectProvider(env: Option<string>): (k: ProviderKind)
    ensures k == OpenAi <==> env.Some? && ToLower(env.value) == "openai"
    ensures k == Gemini <==> env.Some? && ToLower(env.value) == "gemini"
    ensures env.None? ==> k == Ollama
  {
    var name := if env.Some? then env.value else "ollama";
    var lower := ToLower(name);
    assert env.None? ==> lower == "ollama";
    if lower == "openai" then OpenAi
    else if lower == "gemini" then Gemini
    else Ollama
  }

  /** Two names that differ only in the case of their letters select the
      same provider. */
  lemma SelectionIgnoresCase(a: string, b: string)
    requires |a| == |b| && forall i :: 0 <= i < |a| ==> LowerChar(a[i]) == LowerChar(b[i])
    ensures SelectProvider(Some(a)) == SelectProvider(Some(b))
  {
    assert ToLower(a) == ToLower(b);
  }

  /** "OpenAI", "OPENAI" and "openai" all choose OpenAI; "GEMINI" chooses
      Gemini; a misspelt or empty name falls back to Ollama. */
  lemma SelectionExamples()
    ensures SelectProvider(Some("OpenAI")) == OpenAi
    ensures SelectProvider(Some("OPENAI")) == OpenAi
    ensures SelectProvider(Some("openai")) == OpenAi
    ensures SelectProvider(Some("GEMINI")) == Gemini
    ensures SelectProvider(Some("open ai")) == Ollama
    ensures SelectProvider(Some("")) == Ollama
  {
    assert ToLower("OpenAI") == "openai";
    assert ToLower("OPENAI") == "openai";
    assert ToLower("openai") == "openai";
    assert ToLower("GEMINI") == "gemini";
    assert ToLower("open ai")[4] == ' ';
    assert ToLower("") == "";
  }

  /** The client holds a single provider, fixed when it is built. */
  datatype AiClient = AiClient(provider: Provider) {
    /** `ask`: the provider's answer to the question. */
    function Ask(question: string): Result<string, string>
    {
      provider.ask(question)
    }

    /** `ask_with_context`: the provider's answer to the question placed
        after the context. */
    function AskWithContext(question: string, context: string): Result<string, string>
    {
      Ask(ContextPrompt(question, context))
    }

    /** `chat`: the provider's reply to the whole conversation. */
    function Chat(messages: seq<ChatMessage>): Result<string, string>
    {
      provider.chat(messages)
    }

    function ListModels(): Result<seq<string>, string>
    {
      provider.listModels
    }

    function CountTokens(text: string): Result<nat, string>
    {
      provider.countTokens(text)
    }

    function ProviderInfo(): string
    {
      provider.info
    }
  }

  /** `AiClient::new`: the provider named by the environment. */
  function New(env: Option<string>, providers: Providers): (c: AiClient)
    ensures providers.Labelled() ==> c.provider.kind == SelectProvider(env)
    ensures c.provider == providers.For(SelectProvider(env))
  {
    AiClient(providers.For(SelectProvider(env)))
  }

  /** Every operation of a client built from the environment reaches the
      provider the environment selects, and `ask_with_context` hands that
      provider exactly the context prompt. */
  lemma DelegatesToSelected(env: Option<string>, providers: Providers, q: string, ctx: string,
                            msgs: seq<ChatMessage>, text: string)
    ensures var p := providers.For(SelectProvider(env)); var c := New(env, providers);
      c.Ask(q) == p.ask(q) && c.AskWithContext(q, ctx) == p.ask(ContextPrompt(q, ctx))
      && c.Chat(msgs) == p.chat(msgs) && c.ListModels() == p.listModels
      && c.CountTokens(text) == p.countTokens(text) && c.ProviderInfo() == p.info
  {
  }

  /** The prompt of `ask_with_context`: "Context:", a line break, the
      context, a blank line, "Question: " and the question. */
  function ContextPrompt(question: string, context: string): (p: string)
    ensures |p| == 9 + |context| + 12 + |question|
    ensures p[..9] == "Context:\n"
    ensures p[9..9 + |context|] == context
    ensures p[9 + |context|..21 + |context|] == "\n\nQuestion: "
    ensures p[21 + |context|..] == question
  {
    "Context:\n" + context + "\n\nQuestion: " + question
  }

  /** Context and question can be told apart again: the prompt determines
      both once the length of the context is known. */
  lemma ContextPromptInjective(q1: string, c1: string, q2: string, c2: string)
    requires |c1| == |c2| && ContextPrompt(q1, c1) == ContextPrompt(q2, c2)
    ensures q1 == q2 && c1 == c2
  {
    var p := ContextPrompt(q1, c1);
    assert c1 == p[9..9 + |c1|] == c2;
    assert q1 == p[21 + |c1|..] == q2;
  }
}
