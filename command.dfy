/** The slash commands the bot understands and their parser. A command is
    read from the whitespace-separated words of the message; the number of
    words decides which command, if any, it is. */
module Command {
  import opened Wrappers
  import opened Text

  datatype SystemCommand =
    | GetStatus
    | Help
    | AddServer(alias: string, host: string, user: string)
    | RemoveServer(alias: string)
    | ListServers
    | Exec(alias: string, cmd: string)
    | Ask(question: string)
    | ConfigOllama(model: string, baseUrl: Option<string>)
    | ListAiModels
    | Unknown

  /** The command named by a sequence of words. Each command is recognised
      for exactly one arity (two for `/config_ollama`, any from two up for
      `/exec`); every other sequence, the empty one included, is Unknown. */
  function FromTokens(ts: seq<string>): (r: SystemCommand)
    ensures r == GetStatus <==> ts == ["/status"]
    ensures r == Help <==> ts == ["/help"]
    ensures r == ListServers <==> ts == ["/servers"]
    ensures r == ListAiModels <==> ts == ["/models"] || ts == ["/ai_models"]
    ensures r.AddServer? <==> |ts| == 4 && ts[0] == "/add"
    ensures r.AddServer? ==> r.alias == ts[1] && r.host == ts[2] && r.user == ts[3]
    ensures r.RemoveServer? <==> |ts| == 2 && ts[0] == "/remove"
    ensures r.RemoveServer? ==> r.alias == ts[1]
    ensures r.Ask? <==> |ts| == 2 && ts[0] == "/ask"
    ensures r.Ask? ==> r.question == ts[1]
    ensures r.ConfigOllama? <==> 2 <= |ts| <= 3 && ts[0] == "/config_ollama"
    ensures r.ConfigOllama? ==> r.model == ts[1] && (r.baseUrl.Some? <==> |ts| == 3)
    ensures r.ConfigOllama? && |ts| == 3 ==> r.baseUrl == Some(ts[2])
    ensures r.Exec? <==> |ts| >= 2 && ts[0] == "/exec"
    ensures r.Exec? ==> r.alias == ts[1] && r.cmd == Join(ts[2..], " ")
  {
    if ts == ["/status"] then GetStatus
    else if ts == ["/help"] then Help
    else if ts == ["/servers"] then ListServers
    else if |ts| == 4 && ts[0] == "/add" then AddServer(ts[1], ts[2], ts[3])
    else if |ts| == 2 && ts[0] == "/remove" then RemoveServer(ts[1])
    else if |ts| == 2 && ts[0] == "/ask" then Ask(ts[1])
    else if |ts| == 2 && ts[0] == "/config_ollama" then ConfigOllama(ts[1], None)
    else if |ts| == 3 && ts[0] == "/config_ollama" then ConfigOllama(ts[1], Some(ts[2]))
    else if ts == ["/models"] || ts == ["/ai_models"] then ListAiModels
    else if |ts| >= 2 && ts[0] == "/exec" then Exec(ts[1], Join(ts[2..], " "))
    else Unknown
  }

  /** `SystemCommand::from_str`: the command named by the message's words.
      Only a message whose first word starts with '/' names a command; an
      empty or blank message is Unknown. */
  function FromStr(input: string): (r: SystemCommand)
    ensures SplitWhitespace(input) == [] ==> r == Unknown
    ensures r != Unknown ==> SplitWhitespace(input) != [] && IsPrefix("/", SplitWhitespace(input)[0])
  {
    FromTokens(SplitWhitespace(input))
  }

  /** The parse sees only the words: texts that differ only in how their
      words are separated parse alike. */
  lemma FromStrIgnoresSpacing(a: string, b: string)
    requires SplitWhitespace(a) == SplitWhitespace(b)
    ensures FromStr(a) == FromStr(b)
  {
  }

  /** A text that a user would type for the command: its words joined by
      single spaces. Unknown is written as the empty message. */
  function Render(c: SystemCommand): string {
    match c
    case GetStatus => "/status"
    case Help => "/help"
    case ListServers => "/servers"
    case AddServer(a, h, u) => Join(["/add", a, h, u], " ")
    case RemoveServer(a) => Join(["/remove", a], " ")
    case Ask(q) => Join(["/ask", q], " ")
    case ConfigOllama(m, None) => Join(["/config_ollama", m], " ")
    case ConfigOllama(m, Some(u)) => Join(["/config_ollama", m, u], " ")
    case ListAiModels => "/models"
    case Exec(a, cmd) => Join(["/exec", a] + SplitWhitespace(cmd), " ")
    case Unknown => ""
  }

  /** The commands a message can produce: every argument is one word, and
      the command line of Exec has its words separated by single spaces. */
  predicate Parsable(c: SystemCommand) {
    match c
    case AddServer(a, h, u) => IsToken(a) && IsToken(h) && IsToken(u)
    case RemoveServer(a) => IsToken(a)
    case Ask(q) => IsToken(q)
    case ConfigOllama(m, u) => IsToken(m) && (u.Some? ==> IsToken(u.value))
    case Exec(a, cmd) => IsToken(a) && cmd == Join(SplitWhitespace(cmd), " ")
    case _ => true
  }

  lemma SlashWordIsToken(w: string)
    requires |w| > 0 && forall i :: 0 <= i < |w| ==> 'A' <= w[i] <= 'z' || w[i] == '/'
    ensures IsToken(w)
  {
  }

  /** Words joined by single spaces parse as those words. */
  lemma ParseWords(ts: seq<string>)
    requires AllTokens(ts)
    ensures FromStr(Join(ts, " ")) == FromTokens(ts)
  {
    SplitJoin(ts);
  }

  lemma ExecWordsAreTokens(a: string, cmd: string)
    requires IsToken(a)
    ensures AllTokens(["/exec", a] + SplitWhitespace(cmd))
  {
    SlashWordIsToken("/exec");
    AllTokensConcat(["/exec", a], SplitWhitespace(cmd));
  }

  lemma ParseRenderWord(c: SystemCommand)
    requires c.GetStatus? || c.Help? || c.ListServers? || c.ListAiModels?
    ensures FromStr(Render(c)) == c
  {
    var w := Render(c);
    SlashWordIsToken(w);
    SplitToken(w);
  }

  lemma ParseRenderArgs(c: SystemCommand)
    requires c.AddServer? || c.RemoveServer? || c.Ask? || c.ConfigOllama?
    requires Parsable(c)
    ensures FromStr(Render(c)) == c
  {
    match c
    case AddServer(a, h, u) =>
      SlashWordIsToken("/add");
      ParseWords(["/add", a, h, u]);
    case RemoveServer(a) =>
      SlashWordIsToken("/remove");
      ParseWords(["/remove", a]);
    case Ask(q) =>
      SlashWordIsToken("/ask");
      ParseWords(["/ask", q]);
    case ConfigOllama(m, u) =>
      SlashWordIsToken("/config_ollama");
      if u.Some? {
        ParseWords(["/config_ollama", m, u.value]);
      } else {
        ParseWords(["/config_ollama", m]);
      }
  }

  lemma ParseRenderExec(a: string, cmd: string)
    requires Parsable(Exec(a, cmd))
    ensures FromStr(Render(Exec(a, cmd))) == Exec(a, cmd)
  {
    var ts := ["/exec", a] + SplitWhitespace(cmd);
    ExecWordsAreTokens(a, cmd);
    ParseWords(ts);
    assert ts[2..] == SplitWhitespace(cmd);
  }

  /** Parsing the text of a parsable command gives the command back. */
  lemma ParseRender(c: SystemCommand)
    requires Parsable(c)
    ensures FromStr(Render(c)) == c
  {
    if c.Unknown? {
      assert TrimStart("") == "";
    } else if c.Exec? {
      ParseRenderExec(c.alias, c.cmd);
    } else if c.AddServer? || c.RemoveServer? || c.Ask? || c.ConfigOllama? {
      ParseRenderArgs(c);
    } else {
      ParseRenderWord(c);
    }
  }

  /** `/exec` takes the rest of the line as the command, re-joined with
      single spaces; with no words after the alias the command is empty. */
  lemma ExecJoinsArguments(alias: string, args: seq<string>)
    requires IsToken(alias)
    requires AllTokens(args)
    ensures FromStr(Join(["/exec", alias] + args, " ")) == Exec(alias, Join(args, " "))
  {
    SlashWordIsToken("/exec");
    var ts := ["/exec", alias] + args;
    AllTokensConcat(["/exec", alias], args);
    ParseWords(ts);
    assert ts[2..] == args;
  }

  /** With nothing after the alias, `/exec` runs the empty command. */
  lemma ExecWithoutCommand(alias: string)
    requires IsToken(alias)
    ensures FromStr(Join(["/exec", alias], " ")) == Exec(alias, "")
  {
    ExecJoinsArguments(alias, []);
    assert ["/exec", alias] + [] == ["/exec", alias];
  }

  /** `/ask` takes exactly one word: a question of two or more words is not
      understood. */
  lemma AskTakesOneWord(words: seq<string>)
    requires |words| >= 2
    requires AllTokens(words)
    ensures FromStr(Join(["/ask"] + words, " ")) == Unknown
  {
    SlashWordIsToken("/ask");
    var ts := ["/ask"] + words;
    AllTokensConcat(["/ask"], words);
    ParseWords(ts);
  }

  /** `all_commands_info`: the usage line and description of each command,
      in the order the help message lists them. */
  function AllCommandsInfo(): (r: seq<(string, string)>)
    ensures |r| == 9
    ensures forall i :: 0 <= i < |r| ==> IsPrefix("/", r[i].0) && r[i].1 != []
  {
    [ ("/status", "Check bot status"),
      ("/help", "Show this help message"),
      ("/servers", "List configured servers"),
      ("/add <alias> <host> <user>", "Add a new server"),
      ("/remove <alias>", "Remove a server by alias"),
      ("/exec <alias> <cmd>", "Execute a shell command on a server"),
      ("/ask <question>", "Ask the AI a question"),
      ("/config_ollama <model> [url]", "Configure Ollama model/URL"),
      ("/models", "List available AI models") ]
  }
}
