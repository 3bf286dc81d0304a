/** The conversation engine. Each chat with an open session talks to the AI
    about one server; the AI may answer with a `RUN:` directive, which the
    engine turns into a confirmation with "Run" and "Skip" buttons, and the
    output of a confirmed command goes back into the conversation. */
module Session {
  import opened Wrappers
  import opened Text
  import Utf8
  import Base64
  import opened Models
  import opened Client

  /** The server a chat is about and the conversation so far. */
  datatype Session = Session(serverAlias: string, history: seq<ChatMessage>)

  /** What the server store answers for an alias. */
  datatype Lookup = Found(server: ManagedServer) | NotFound | DbError(message: string)

  const NoSession: string := "No active session."
  const Marker: string := "RUN:"
  const RunLabel: string := "\U{2705} Run"
  const SkipLabel: string := "\U{274C} Skip"
  const AnalyzePrompt: string := "Command executed. Analyze results."

  /** The copy of the history sent to the AI: the reminder is appended to
      the last turn when that turn is the user's, and nothing else differs. */
  function WithReminder(history: seq<ChatMessage>, reminder: string): (r: seq<ChatMessage>)
    ensures |r| == |history|
    ensures forall i :: 0 <= i < |history| - 1 ==> r[i] == history[i]
    ensures history != [] ==> r[|r| - 1].role == history[|history| - 1].role
    ensures history != [] && history[|history| - 1].role == "user" ==>
      r[|r| - 1].content == history[|history| - 1].content + reminder
    ensures history != [] && history[|history| - 1].role != "user" ==> r == history
  {
    if history == [] || history[|history| - 1].role != "user" then history
    else
      var last := history[|history| - 1];
      history[|history| - 1 := ChatMessage(last.role, last.content + reminder)]
  }

  /** The six tag literals removed from a proposed command, in the order
      they are removed. */
  function StripTags(s: string): (r: string)
    ensures |r| <= |s|
    ensures '<' !in s ==> r == s
  {
    var s1 := RemoveAll(s, "<code>");
    var s2 := RemoveAll(s1, "</code>");
    var s3 := RemoveAll(s2, "<b>");
    var s4 := RemoveAll(s3, "</b>");
    var s5 := RemoveAll(s4, "<i>");
    var s6 := RemoveAll(s5, "</i>");
    assert '<' !in s ==> s6 == s by {
      if '<' !in s {
        RemoveAllWithoutHead(s, "<code>");
        RemoveAllWithoutHead(s, "</code>");
        RemoveAllWithoutHead(s, "<b>");
        RemoveAllWithoutHead(s, "</b>");
        RemoveAllWithoutHead(s, "<i>");
        RemoveAllWithoutHead(s, "</i>");
      }
    }
    s6
  }

  /** The command in the text from the first "RUN:" on: every leading
      "RUN:" removed, trimmed, its tags removed and trimmed again. */
  function CommandAfterMarker(after: string): (cmd: string)
    ensures Trimmed(cmd)
  {
    Trim(StripTags(Trim(TrimStartMatches(after, Marker))))
  }

  /** The directive in an AI reply: the text before the first "RUN:" and the
      command after it; None when there is no marker or the command comes
      out empty. */
  function ExtractDirective(reply: string): (r: Option<(string, string)>)
    ensures r.Some? ==>
      var p := r.value.0;
      |p| + |Marker| <= |reply| && p == reply[..|p|] && IsPrefix(Marker, reply[|p|..])
      && (forall j :: 0 <= j < |p| ==> !IsPrefix(Marker, reply[j..]))
      && r.value.1 == CommandAfterMarker(reply[|p|..]) && r.value.1 != []
    ensures r.None? <==> !Contains(reply, Marker) || CommandAfterMarker(reply[Find(reply, Marker).value..]) == []
  {
    match Find(reply, Marker)
    case None => None
    case Some(idx) =>
      var cmd := CommandAfterMarker(reply[idx..]);
      if cmd == [] then None else Some((reply[..idx], cmd))
  }

  /** The callback prefix carrying a command: "tool_run:", the base 64
      encoding of its UTF-8 bytes, and ":". */
  function ToolToken(cmd: string): (t: string)
    ensures t == "tool_run:" + Base64.Encode(Utf8.Encode(cmd)) + ":"
    ensures ':' !in Base64.Encode(Utf8.Encode(cmd))
  {
    Base64.NoColonInEncoding(Utf8.Encode(cmd));
    "tool_run:" + Base64.Encode(Utf8.Encode(cmd)) + ":"
  }

  /** The title shown above the buttons: the command alone when the AI said
      nothing before it, else the trimmed explanation and then the command.
      The stated head, the command in `<code>` tags at the end, and the
      length leave nothing between the two. */
  function ConfirmTitle(preamble: string, cmd: string): (t: string)
    ensures IsSuffix(CodeOpen + cmd + CodeClose, t)
    ensures Trim(preamble) == [] ==> IsPrefix(SuggestsHead, t)
    ensures Trim(preamble) != [] ==> IsPrefix(Trim(preamble) + Gap, t)
    ensures Trim(preamble) != [] ==> IsPrefix(Trim(preamble) + Gap + RunningHead, t)
    ensures |t| == (if Trim(preamble) == [] then |SuggestsHead| else |Trim(preamble)| + |Gap| + |RunningHead|)
                   + |CodeOpen| + |cmd| + |CodeClose|
  {
    TitleOf(Trim(preamble), cmd)
  }

  /** The title for an already trimmed preamble `p`. */
  function TitleOf(p: string, cmd: string): (t: string)
    ensures IsSuffix(CodeOpen + cmd + CodeClose, t)
    ensures p == [] ==> IsPrefix(SuggestsHead, t)
    ensures p != [] ==> IsPrefix(p + Gap, t)
    ensures p != [] ==> IsPrefix(p + Gap + RunningHead, t)
    ensures |t| == (if p == [] then |SuggestsHead| else |p| + |Gap| + |RunningHead|)
                   + |CodeOpen| + |cmd| + |CodeClose|
  {
    var code := CodeOpen + cmd + CodeClose;
    if p == [] then
      CatEnds(SuggestsHead, code);
      SuggestsHead + code
    else
      CatEnds(p + Gap + RunningHead, code);
      CatEnds(p + Gap, RunningHead + code);
      assert p + Gap + RunningHead + code == p + Gap + (RunningHead + code);
      p + Gap + RunningHead + code
  }

  const SuggestsHead: string := "AI suggests running: "
  const RunningHead: string := "Running command: "
  const Gap: string := "\n\n"
  const CodeOpen: string := "<code>"
  const CodeClose: string := "</code>"

  lemma CatEnds(a: string, b: string)
    ensures IsPrefix(a, a + b) && IsSuffix(b, a + b)
  {
    assert (a + b)[..|a|] == a;
  }

  /** What the chat shows for an AI reply: a confirmation when the reply
      carries a command, the reply itself as HTML otherwise. */
  function ParseReply(reply: string): (r: CommandResponse)
    ensures r.Html? || r.InteractiveList?
    ensures r.Html? <==> ExtractDirective(reply).None?
    ensures r.Html? ==> r.html == reply
    ensures r.InteractiveList? ==>
      var (preamble, cmd) := ExtractDirective(reply).value;
      r.options == [RunLabel, SkipLabel] && r.callbackPrefix == ToolToken(cmd)
      && r.title == ConfirmTitle(preamble, cmd)
  {
    match ExtractDirective(reply)
    case None => Html(reply)
    case Some((preamble, cmd)) => InteractiveList(ConfirmTitle(preamble, cmd), [RunLabel, SkipLabel], ToolToken(cmd))
  }

  /** A reply without "RUN:" is shown as it is. */
  lemma NoMarkerIsHtml(reply: string)
    requires !Contains(reply, Marker)
    ensures ParseReply(reply) == Html(reply)
  {
  }

  /** The way the AI is asked to propose a command: an optional explanation,
      then "RUN: " and the command. */
  function Directive(preamble: string, cmd: string): string {
    preamble + Marker + " " + cmd
  }

  /** A plain command: one that the tag removal and trimming leave alone. */
  predicate PlainCommand(cmd: string) {
    cmd != [] && Trimmed(cmd) && '<' !in cmd
  }

  lemma MarkerHeadIsUnique()
    ensures forall k :: 0 < k < |Marker| ==> Marker[k] != Marker[0]
  {
  }

  lemma TrimStartMatchesOnce(cmd: string)
    ensures TrimStartMatches(Marker + " " + cmd, Marker) == " " + cmd
  {
    var after := Marker + " " + cmd;
    assert after[|Marker|..] == " " + cmd;
    assert (" " + cmd)[0] == ' ';
  }

  lemma TrimAfterSpace(cmd: string)
    requires Trimmed(cmd)
    ensures Trim(" " + cmd) == cmd
  {
    assert forall i :: 0 <= i < |" "| ==> IsWhitespace(" "[i]);
    TrimPadded(" ", cmd, []);
    assert " " + cmd + [] == " " + cmd;
  }

  /** After "RUN: ", a trimmed command comes out as what the tag removal
      makes of it, provided that is trimmed. */
  lemma CommandAfterMarkerOf(cmd: string, plain: string)
    requires Trimmed(cmd) && StripTags(cmd) == plain && Trimmed(plain)
    ensures CommandAfterMarker(Marker + " " + cmd) == plain
  {
    TrimStartMatchesOnce(cmd);
    TrimAfterSpace(cmd);
    TrimOfTrimmed(plain);
  }

  lemma ExtractDirectiveAt(reply: string, preamble: string, cmd: string, plain: string)
    requires |preamble| <= |reply| && Find(reply, Marker) == Some(|preamble|) && reply[..|preamble|] == preamble
    requires reply[|preamble|..] == Marker + " " + cmd
    requires Trimmed(cmd) && StripTags(cmd) == plain && PlainCommand(plain)
    ensures ExtractDirective(reply) == Some((preamble, plain))
  {
    CommandAfterMarkerOf(cmd, plain);
  }

  lemma FindInDirective(preamble: string, cmd: string)
    requires !Contains(preamble, Marker)
    ensures Find(Directive(preamble, cmd), Marker) == Some(|preamble|)
  {
    assert Directive(preamble, cmd) == preamble + Marker + (" " + cmd);
    MarkerHeadIsUnique();
    FindAfterFreePrefix(preamble, Marker, " " + cmd);
  }

  /** Proposing a plain command after an explanation without "RUN:" gives
      back both exactly. */
  lemma ExtractDirectiveOfDirective(preamble: string, cmd: string)
    requires !Contains(preamble, Marker) && PlainCommand(cmd)
    ensures ExtractDirective(Directive(preamble, cmd)) == Some((preamble, cmd))
  {
    var reply := Directive(preamble, cmd);
    FindInDirective(preamble, cmd);
    assert reply[..|preamble|] == preamble && reply[|preamble|..] == Marker + " " + cmd;
    ExtractDirectiveAt(reply, preamble, cmd, cmd);
  }

  /** Hence the confirmation offered for such a reply carries that command. */
  lemma ConfirmationOfDirective(preamble: string, cmd: string)
    requires !Contains(preamble, Marker) && PlainCommand(cmd)
    ensures ParseReply(Directive(preamble, cmd))
      == InteractiveList(ConfirmTitle(preamble, cmd), [RunLabel, SkipLabel], ToolToken(cmd))
  {
    ExtractDirectiveOfDirective(preamble, cmd);
  }

  /** The markup the AI may wrap a command in. */
  predicate TagPair(open: string, close: string) {
    (open == "<code>" && close == "</code>") || (open == "<b>" && close == "</b>")
    || (open == "<i>" && close == "</i>")
  }

  /** Removing a tag that is neither end of the wrapped text keeps it. */
  lemma KeepWrapped(open: string, c: string, close: string, pat: string, ko: nat, kc: nat)
    requires |pat| > 0 && pat[0] == '<' && '<' !in c
    requires ko < |open| && ko < |pat| && open[ko] != pat[ko] && '<' !in open[1..]
    requires kc < |close| && kc < |pat| && close[kc] != pat[kc] && '<' !in close[1..]
    ensures RemoveAll(open + c + close, pat) == open + c + close
  {
    assert open + c + close == open + (c + close);
    RemoveAllPastMismatch(open, c + close, pat, ko);
    RemoveAllAfterFree(c, close, pat);
    assert close + [] == close;
    RemoveAllPastMismatch(close, [], pat, kc);
  }

  /** Removing the opening tag of the wrapped text drops exactly it. */
  lemma DropOpen(open: string, c: string, close: string, kc: nat)
    requires |open| > 0 && open[0] == '<' && '<' !in c
    requires kc < |close| && kc < |open| && close[kc] != open[kc] && '<' !in close[1..]
    ensures RemoveAll(open + c + close, open) == c + close
  {
    assert open + c + close == open + (c + close);
    RemoveAllAtHead(open, c + close);
    RemoveAllAfterFree(c, close, open);
    assert close + [] == close;
    RemoveAllPastMismatch(close, [], open, kc);
  }

  /** Removing the closing tag after the command drops exactly it. */
  lemma DropClose(c: string, close: string)
    requires |close| > 0 && close[0] == '<' && '<' !in c
    ensures RemoveAll(c + close, close) == c
  {
    RemoveAllAfterFree(c, close, close);
    assert close + [] == close;
    RemoveAllAtHead(close, []);
  }

  /** A command without '<' is left alone by the tag removal. */
  lemma KeepPlain(c: string)
    requires '<' !in c
    ensures RemoveAll(c, "<code>") == c && RemoveAll(c, "</code>") == c && RemoveAll(c, "<b>") == c
    ensures RemoveAll(c, "</b>") == c && RemoveAll(c, "<i>") == c && RemoveAll(c, "</i>") == c
  {
    RemoveAllWithoutHead(c, "<code>");
    RemoveAllWithoutHead(c, "</code>");
    RemoveAllWithoutHead(c, "<b>");
    RemoveAllWithoutHead(c, "</b>");
    RemoveAllWithoutHead(c, "<i>");
    RemoveAllWithoutHead(c, "</i>");
  }

  lemma StripCode(c: string)
    requires '<' !in c
    ensures StripTags("<code>" + c + "</code>") == c
  {
    DropOpen("<code>", c, "</code>", 1);
    DropClose(c, "</code>");
    KeepPlain(c);
  }

  lemma StripBold(c: string)
    requires '<' !in c
    ensures StripTags("<b>" + c + "</b>") == c
  {
    KeepWrapped("<b>", c, "</b>", "<code>", 1, 1);
    KeepWrapped("<b>", c, "</b>", "</code>", 1, 2);
    DropOpen("<b>", c, "</b>", 1);
    DropClose(c, "</b>");
    KeepPlain(c);
  }

  lemma StripItalic(c: string)
    requires '<' !in c
    ensures StripTags("<i>" + c + "</i>") == c
  {
    KeepWrapped("<i>", c, "</i>", "<code>", 1, 1);
    KeepWrapped("<i>", c, "</i>", "</code>", 1, 2);
    KeepWrapped("<i>", c, "</i>", "<b>", 1, 1);
    KeepWrapped("<i>", c, "</i>", "</b>", 1, 2);
    DropOpen("<i>", c, "</i>", 1);
    DropClose(c, "</i>");
    KeepPlain(c);
  }

  /** A command wrapped in code, bold or italic markup loses the markup. */
  lemma StripWrapped(open: string, c: string, close: string)
    requires TagPair(open, close) && '<' !in c
    ensures StripTags(open + c + close) == c
  {
    if open == "<code>" {
      StripCode(c);
    } else if open == "<b>" {
      StripBold(c);
    } else {
      StripItalic(c);
    }
  }

  lemma WrappedIsTrimmed(open: string, c: string, close: string)
    requires TagPair(open, close)
    ensures Trimmed(open + c + close)
  {
    var w := open + c + close;
    assert w[0] == '<' && w[|w| - 1] == '>';
  }

  /** A plain command the AI wrapped in markup, after an explanation
      without "RUN:", comes back without the markup. */
  lemma ExtractDirectiveOfTagged(preamble: string, open: string, cmd: string, close: string)
    requires !Contains(preamble, Marker) && PlainCommand(cmd) && TagPair(open, close)
    ensures ExtractDirective(Directive(preamble, open + cmd + close)) == Some((preamble, cmd))
  {
    var wrapped := open + cmd + close;
    var reply := Directive(preamble, wrapped);
    FindInDirective(preamble, wrapped);
    assert reply[..|preamble|] == preamble && reply[|preamble|..] == Marker + " " + wrapped;
    StripWrapped(open, cmd, close);
    WrappedIsTrimmed(open, cmd, close);
    ExtractDirectiveAt(reply, preamble, wrapped, cmd);
  }

  /** Hence the confirmation offered for such a reply carries the bare
      command. */
  lemma ConfirmationOfTagged(preamble: string, open: string, cmd: string, close: string)
    requires !Contains(preamble, Marker) && PlainCommand(cmd) && TagPair(open, close)
    ensures ParseReply(Directive(preamble, open + cmd + close))
      == InteractiveList(ConfirmTitle(preamble, cmd), [RunLabel, SkipLabel], ToolToken(cmd))
  {
    ExtractDirectiveOfTagged(preamble, open, cmd, close);
  }

  /** The output fed back after running a command: the executor's output,
      or a line saying why there is none. */
  function ToolOutput(lookup: Lookup, execute: (ManagedServer, string) -> Result<string, string>, cmd: string): (r: string)
    ensures lookup.Found? && execute(lookup.server, cmd).Ok? ==> r == execute(lookup.server, cmd).value
    ensures lookup.Found? && execute(lookup.server, cmd).Err? ==> r == "Error: " + execute(lookup.server, cmd).error
    ensures lookup.NotFound? ==> r == "Server not found."
    ensures lookup.DbError? ==> r == "DB Error: " + lookup.message
  {
    match lookup
    case Found(server) =>
      (match execute(server, cmd)
       case Ok(out) => out
       case Err(e) => "Error: " + e)
    case NotFound => "Server not found."
    case DbError(e) => "DB Error: " + e
  }

  /** The sessions after a turn is added at the end of a chat's history;
      without a session for the chat nothing changes. */
  function WithTurn(sessions: map<int, Session>, chatId: int, m: ChatMessage): (r: map<int, Session>)
    ensures r.Keys == sessions.Keys
    ensures forall c :: c in sessions && c != chatId ==> r[c] == sessions[c]
    ensures chatId in sessions ==>
      r[chatId].serverAlias == sessions[chatId].serverAlias && r[chatId].history == sessions[chatId].history + [m]
  {
    if chatId in sessions then sessions[chatId := sessions[chatId].(history := sessions[chatId].history + [m])]
    else sessions
  }

  /** The sessions of all chats, the AI client, the system prompt for a server
      alias (the prompt template filled in with the alias) and the reminder
      appended to the user's last turn. */
  class SessionManager {
    var sessions: map<int, Session>
    const ai: AiClient
    const systemPrompt: string -> string
    const reminder: string

    constructor(ai: AiClient, systemPrompt: string -> string, reminder: string)
      ensures sessions == map[]
      ensures this.ai == ai && this.systemPrompt == systemPrompt && this.reminder == reminder
    {
      this.sessions := map[];
      this.ai := ai;
      this.systemPrompt := systemPrompt;
      this.reminder := reminder;
    }

    /** `has_session`. */
    function HasSession(chatId: int): (b: bool)
      reads this
      ensures b <==> chatId in sessions
    {
      chatId in sessions
    }

    /** `get_alias`. */
    function GetAlias(chatId: int): (r: Option<string>)
      reads this
      ensures r.Some? <==> chatId in sessions
      ensures r.Some? ==> r.value == sessions[chatId].serverAlias
    {
      if chatId in sessions then Some(sessions[chatId].serverAlias) else None
    }

    /** `add_message`: one turn at the end of the chat's history; without a
        session nothing changes. */
    method AddMessage(chatId: int, role: string, content: string)
      modifies this
      ensures sessions == WithTurn(old(sessions), chatId, ChatMessage(role, content))
    {
      if chatId in sessions {
        var s := sessions[chatId];
        sessions := sessions[chatId := s.(history := s.history + [ChatMessage(role, content)])];
      }
    }

    /** `start_session`: a new session replaces any old one; its history is
        the system prompt twice, once as the seed and once more when the
        prompt is recorded as a message. */
    method StartSession(chatId: int, alias: string)
      modifies this
      ensures var sys := ChatMessage("system", systemPrompt(alias));
        sessions == old(sessions)[chatId := Session(alias, [sys, sys])]
    {
      var prompt := systemPrompt(alias);
      sessions := sessions[chatId := Session(alias, [ChatMessage("system", prompt)])];
      AddMessage(chatId, "system", prompt);
      assert [ChatMessage("system", prompt)] + [ChatMessage("system", prompt)]
          == [ChatMessage("system", prompt), ChatMessage("system", prompt)];
    }

    /** `end_session`: the removed session, if there was one. */
    method EndSession(chatId: int) returns (r: Option<Session>)
      modifies this
      ensures r == (if chatId in old(sessions) then Some(old(sessions)[chatId]) else None)
      ensures sessions == old(sessions) - {chatId}
      ensures !HasSession(chatId) && GetAlias(chatId).None?
    {
      r := if chatId in sessions then Some(sessions[chatId]) else None;
      sessions := sessions - {chatId};
    }

    /** `process_user_input`: the input becomes a user turn; the AI sees the
        history with the reminder on that turn, while the stored history
        keeps the input as typed; a reply is stored as an assistant turn and
        parsed, an error is reported and stores nothing. */
    method ProcessUserInput(chatId: int, input: string) returns (r: CommandResponse)
      modifies this
      ensures chatId !in old(sessions) ==> sessions == old(sessions) && r == Text(NoSession)
      ensures chatId in old(sessions) ==>
        var s := old(sessions)[chatId];
        var h := s.history + [ChatMessage("user", input)];
        var reply := ai.Chat(WithReminder(h, reminder));
        (reply.Ok? ==> sessions == old(sessions)[chatId := s.(history := h + [ChatMessage("assistant", reply.value)])]
                       && r == ParseReply(reply.value))
        && (reply.Err? ==> sessions == old(sessions)[chatId := s.(history := h)]
                           && r == Text("AI Error: " + reply.error))
    {
      AddMessage(chatId, "user", input);
      if chatId !in sessions {
        return Text(NoSession);
      }
      var history := WithReminder(sessions[chatId].history, reminder);
      var reply := ai.Chat(history);
      match reply
      case Ok(response) =>
        AddMessage(chatId, "assistant", response);
        r := ParseReply(response);
      case Err(e) =>
        r := Text("AI Error: " + e);
    }

    /** `add_tool_output`: the output as a user turn. */
    method AddToolOutput(chatId: int, output: string)
      modifies this
      ensures sessions == WithTurn(old(sessions), chatId, ChatMessage("user", "Command Output:\n" + output))
    {
      AddMessage(chatId, "user", "Command Output:\n" + output);
    }

    /** What `execute_tool_command` does, from the sessions `before` to the
        sessions `after` with response `r`: without a session nothing is
        looked up or run. Otherwise the command runs on the session's server,
        its output is added, and the AI is asked to analyse it: the history
        grows by three turns when the AI answers and by two when it fails. */
    ghost predicate ToolCommandDone(before: map<int, Session>, after: map<int, Session>, r: CommandResponse,
                                    chatId: int, cmd: string, lookup: string -> Lookup,
                                    execute: (ManagedServer, string) -> Result<string, string>)
    {
      if chatId !in before then after == before && r == Text(NoSession)
      else
        var s := before[chatId];
        var output := ToolOutput(lookup(s.serverAlias), execute, cmd);
        var h := s.history + [ChatMessage("user", "Command Output:\n" + output), ChatMessage("user", AnalyzePrompt)];
        var reply := ai.Chat(WithReminder(h, reminder));
        chatId in after && after[chatId].serverAlias == s.serverAlias
        && (reply.Ok? ==> after == before[chatId := s.(history := h + [ChatMessage("assistant", reply.value)])]
                          && |after[chatId].history| == |s.history| + 3 && r == ParseReply(reply.value))
        && (reply.Err? ==> after == before[chatId := s.(history := h)]
                           && |after[chatId].history| == |s.history| + 2 && r == Text("AI Error: " + reply.error))
    }

    /** `execute_tool_command`. */
    method ExecuteToolCommand(chatId: int, cmd: string, lookup: string -> Lookup,
                              execute: (ManagedServer, string) -> Result<string, string>)
      returns (r: CommandResponse)
      modifies this
      ensures ToolCommandDone(old(sessions), sessions, r, chatId, cmd, lookup, execute)
    {
      var alias := GetAlias(chatId);
      if alias.None? {
        return Text(NoSession);
      }
      var output := ToolOutput(lookup(alias.value), execute, cmd);
      AddToolOutput(chatId, output);
      ghost var s := old(sessions)[chatId];
      assert s.history + [ChatMessage("user", "Command Output:\n" + output)] + [ChatMessage("user", AnalyzePrompt)]
          == s.history + [ChatMessage("user", "Command Output:\n" + output), ChatMessage("user", AnalyzePrompt)];
      r := ProcessUserInput(chatId, AnalyzePrompt);
    }
  }
}
