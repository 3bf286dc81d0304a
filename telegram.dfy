/** The Telegram front end: which command a message stands for, where a
    button press is routed, how a confirmation button is checked and decoded
    before its command runs, the keyboards the bot shows, and how a long
    text is cut into messages Telegram accepts. */
module Telegram {
  import opened Wrappers
  import opened Text
  import Utf8
  import Base64
  import opened Models
  import Command
  import opened Session

  /** A received message: its chat, its text if it has any, and the message
      it replies to, if any. */
  datatype Message = Message(chatId: int, text: Option<string>, replyTo: Option<Message>)

  /** The commands the handlers hand to the dispatcher: a slash command
      typed by the user, or one that a reply or a button stands for. */
  datatype BotCommand =
    | Slash(command: Command.SystemCommand)
    | SetApiKey(provider: string, key: string)
    | SetProvider(choice: Option<string>)
    | Discover(alias: string)

  /** Only the administrator's chat is served: any other message yields no
      command. */
  function MessageHandler(adminId: int, msg: Message): (r: Option<BotCommand>)
    ensures msg.chatId != adminId ==> r.None?
    ensures msg.chatId == adminId ==> r == ExtractCommand(msg)
  {
    if msg.chatId != adminId then None else ExtractCommand(msg)
  }

  const ApiKeyCue: string := "API Key for"
  const ForWord: string := "for "

  /** The provider named in the text of a request for an API key: what
      follows the first "for ", cleaned by `CleanProvider`. None when the
      text does not hold both the cue and the word "for ". */
  function ApiKeyProvider(requestText: string): (r: Option<string>)
    ensures r.Some? <==> Contains(requestText, ApiKeyCue) && Contains(requestText, ForWord)
    ensures r.Some? ==> r.value == CleanProvider(requestText[Find(requestText, ForWord).value + |ForWord|..])
  {
    if !Contains(requestText, ApiKeyCue) then None
    else match Find(requestText, ForWord)
      case None => None
      case Some(start) => Some(CleanProvider(requestText[start + |ForWord|..]))
  }

  /** A provider name as it appears in a request: trimmed, without tags
      and not ending in a dot. */
  predicate ProviderName(p: string) {
    Trimmed(p) && '<' !in p && (p == [] || p[|p| - 1] != '.')
  }

  /** The text after "for ": trailing dots dropped, trimmed, and bold tags
      removed. It is never longer than the part, and a provider name is
      read back as itself. */
  function CleanProvider(part: string): (r: string)
    ensures |r| <= |part|
    ensures ProviderName(part) ==> r == part
  {
    CleanOfName(part);
    RemoveAll(RemoveAll(Trim(TrimEndMatches(part, '.')), "<b>"), "</b>")
  }

  lemma CleanOfName(part: string)
    ensures ProviderName(part) ==> RemoveAll(RemoveAll(Trim(TrimEndMatches(part, '.')), "<b>"), "</b>") == part
  {
    if ProviderName(part) {
      assert TrimEndMatches(part, '.') == part;
      TrimOfTrimmed(part);
      RemoveAllWithoutHead(part, "<b>");
      RemoveAllWithoutHead(part, "</b>");
    }
  }

  /** The key as the dispatcher receives it: the base 64 encoding of the
      UTF-8 bytes of the trimmed reply, so that it decodes to exactly the
      trimmed reply. */
  function EncodeKey(text: string): (r: string)
    ensures Base64.Decode(r) == Some(Utf8.Encode(Trim(text)))
    ensures Utf8.Decode(Base64.Decode(r).value) == Some(Trim(text))
  {
    Base64.DecodeEncode(Utf8.Encode(Trim(text)));
    Utf8.DecodeEncode(Trim(text));
    Base64.Encode(Utf8.Encode(Trim(text)))
  }

  /** `extract_command`: nothing for a message without text; a reply to a
      text naming a provider (`ApiKeyProvider`) sets that provider's key;
      any other text is parsed as a slash command. */
  function ExtractCommand(msg: Message): (r: Option<BotCommand>)
    ensures r.None? <==> msg.text.None?
    ensures r.Some? && r.value.SetApiKey? ==>
      msg.replyTo.Some? && msg.replyTo.value.text.Some?
      && Some(r.value.provider) == ApiKeyProvider(msg.replyTo.value.text.value)
      && r.value.key == EncodeKey(msg.text.value)
    ensures r.Some? && !r.value.SetApiKey? ==> r == Some(Slash(Command.FromStr(msg.text.value)))
    ensures (msg.text.Some? && msg.replyTo.Some? && msg.replyTo.value.text.Some?
             && ApiKeyProvider(msg.replyTo.value.text.value).Some?) ==>
      r == Some(SetApiKey(ApiKeyProvider(msg.replyTo.value.text.value).value, EncodeKey(msg.text.value)))
    ensures (msg.text.Some?
             && (msg.replyTo.None? || msg.replyTo.value.text.None? || ApiKeyProvider(msg.replyTo.value.text.value).None?)) ==>
      r == Some(Slash(Command.FromStr(msg.text.value)))
  {
    match msg.text
    case None => None
    case Some(text) =>
      var provider :=
        if msg.replyTo.Some? && msg.replyTo.value.text.Some? then ApiKeyProvider(msg.replyTo.value.text.value)
        else None;
      if provider.Some? then Some(SetApiKey(provider.value, EncodeKey(text)))
      else Some(Slash(Command.FromStr(text)))
  }

  const KeyRequestIntro: string := "Please reply to this message with your "
  const BoldOpen: string := "<b>"
  const BoldClose: string := "</b>"

  /** The request for an API key sent after the provider's button is
      pressed, as HTML with the provider in bold; the user answers it with
      a reply. */
  function ConfigKeyPrompt(provider: string): (r: string)
    ensures Contains(r, ApiKeyCue)
  {
    ContainsMiddle(KeyRequestIntro, ApiKeyCue, " " + BoldOpen + provider + BoldClose + ".");
    assert KeyRequestIntro + ApiKeyCue + " " + BoldOpen + provider + BoldClose + "."
        == KeyRequestIntro + ApiKeyCue + (" " + BoldOpen + provider + BoldClose + ".");
    KeyRequestIntro + ApiKeyCue + " " + BoldOpen + provider + BoldClose + "."
  }

  /** The same request as the chat shows it, and as the text of the message
      a reply points to: the markup is gone. */
  function PromptText(provider: string): string {
    KeyRequestIntro + ApiKeyCue + " " + provider + "."
  }

  lemma ContainsMiddle(a: string, pat: string, b: string)
    ensures Contains(a + pat + b, pat)
  {
    var s := a + pat + b;
    assert s[|a|..][..|pat|] == pat;
  }

  lemma TrimEndMatchesOnce(x: string, c: char)
    requires x == [] || x[|x| - 1] != c
    ensures TrimEndMatches(x + [c], c) == x
  {
    assert (x + [c])[..|x|] == x;
  }

  /** The head of the prompt, up to the word "for ". */
  const PromptHead: string := KeyRequestIntro + "API Key "

  lemma NoTagInHead()
    ensures '<' !in PromptHead + ForWord
  {
    assert forall i :: 0 <= i < |PromptHead + ForWord| ==> (PromptHead + ForWord)[i] != '<';
  }

  /** Bold tags around a name without tags, after a head without tags,
      are removed and nothing else is. */
  lemma UnboldAfter(head: string, provider: string)
    requires '<' !in head && '<' !in provider
    ensures RemoveAll(RemoveAll(head + BoldOpen + provider + BoldClose + ".", BoldOpen), BoldClose)
         == head + provider + "."
  {
    assert head + BoldOpen + provider + BoldClose + "." == head + BoldOpen + (provider + (BoldClose + "."));
    RemoveAllAt(head, BoldOpen, provider + (BoldClose + "."));
    RemoveAllAfterFree(provider, BoldClose + ".", BoldOpen);
    RemoveAllPastMismatch(BoldClose, ".", BoldOpen, 1);
    RemoveAllWithoutHead(".", BoldOpen);
    assert head + (provider + (BoldClose + ".")) == head + provider + BoldClose + ".";
    RemoveAllAt(head + provider, BoldClose, ".");
    RemoveAllWithoutHead(".", BoldClose);
  }

  /** Removing the bold tags from the request gives the text that is shown,
      for a provider without tags. */
  lemma PromptTextOfMarkup(provider: string)
    requires '<' !in provider
    ensures RemoveAll(RemoveAll(ConfigKeyPrompt(provider), BoldOpen), BoldClose) == PromptText(provider)
  {
    var head := PromptHead + ForWord;
    assert ApiKeyCue + " " == "API Key " + ForWord;
    assert KeyRequestIntro + ApiKeyCue + " " == head;
    NoTagInHead();
    UnboldAfter(head, provider);
  }

  lemma NoForInHead()
    ensures !Contains(PromptHead, ForWord)
  {
    assert forall i :: 0 <= i < |PromptHead| ==> PromptHead[i] != 'f';
    NotContainsWithoutHead(PromptHead, ForWord);
  }

  /** The final dot of a request is dropped from the provider name. */
  lemma CleanDotted(provider: string)
    requires ProviderName(provider)
    ensures CleanProvider(provider + ".") == provider
  {
    TrimEndMatchesOnce(provider, '.');
    assert TrimEndMatches(provider, '.') == provider;
    assert CleanProvider(provider) == provider;
  }

  /** A provider name right after the first "for " of a request, and
      followed by its final dot, is read back as itself. */
  lemma ProviderAfterFor(head: string, provider: string)
    requires ProviderName(provider) && !Contains(head, ForWord)
    requires Contains(head + ForWord + (provider + "."), ApiKeyCue)
    ensures ApiKeyProvider(head + ForWord + (provider + ".")) == Some(provider)
  {
    var t := head + ForWord + (provider + ".");
    FindAfterFreePrefix(head, ForWord, provider + ".");
    assert t[|head| + |ForWord|..] == provider + ".";
    CleanDotted(provider);
  }

  /** The provider read back from the shown request for its key is that
      provider. */
  lemma ProviderOfPrompt(provider: string)
    requires ProviderName(provider)
    ensures ApiKeyProvider(PromptText(provider)) == Some(provider)
  {
    PromptTextShape(provider);
    NoForInHead();
    ProviderAfterFor(PromptHead, provider);
  }

  lemma PromptTextShape(provider: string)
    ensures PromptText(provider) == PromptHead + ForWord + (provider + ".")
    ensures Contains(PromptHead + ForWord + (provider + "."), ApiKeyCue)
  {
    CueThenSpace();
    Resplit(KeyRequestIntro, ApiKeyCue, " ", "API Key ", ForWord, provider, ".");
    ContainsMiddle(KeyRequestIntro, ApiKeyCue, " " + provider + ".");
  }

  lemma CueThenSpace()
    ensures ApiKeyCue + " " == "API Key " + ForWord
  {
  }

  /** Moving the cut between the middle parts of a text. */
  lemma Resplit(h: string, a: string, b: string, c: string, d: string, p: string, t: string)
    requires a + b == c + d
    ensures h + a + b + p + t == (h + c) + d + (p + t)
    ensures h + a + b + p + t == h + a + (b + p + t)
  {
    assert h + a + b + p + t == h + (a + b) + p + t;
  }

  /** Answering the request for a provider's key, as the chat shows it,
      sets that provider's key to the trimmed answer, whatever the answer
      says. */
  lemma KeyPromptRoundTrip(provider: string, chatId: int, requestChat: int, answer: string)
    requires ProviderName(provider)
    ensures ExtractCommand(Message(chatId, Some(answer), Some(Message(requestChat, Some(PromptText(provider)), None))))
         == Some(SetApiKey(provider, EncodeKey(answer)))
  {
    ProviderOfPrompt(provider);
  }

  /** The opening tag is not found in the closing one. */
  lemma CloseKeepsOpen()
    ensures RemoveAll("</b>", "<b>") == "</b>"
  {
    RemoveAllWithoutHead("/b>", "<b>");
    assert "</b>"[1..] == "/b>";
  }

  lemma UnwrapBold(provider: string)
    requires '<' !in provider
    ensures RemoveAll(RemoveAll("<b>" + provider + "</b>", "<b>"), "</b>") == provider
  {
    assert "<b>" + provider + "</b>" == "<b>" + (provider + "</b>");
    RemoveAllAtHead("<b>", provider + "</b>");
    RemoveAllAfterFree(provider, "</b>", "<b>");
    CloseKeepsOpen();
    RemoveAllAfterFree(provider, "</b>", "</b>");
    RemoveAllAtHead("</b>", []);
    assert "</b>" + [] == "</b>";
    assert provider + [] == provider;
  }

  lemma TrimBold(provider: string)
    ensures Trim(TrimEndMatches("<b>" + provider + "</b>.", '.')) == "<b>" + provider + "</b>"
  {
    var bold := "<b>" + provider + "</b>";
    assert "<b>" + provider + "</b>." == bold + ['.'];
    TrimEndMatchesOnce(bold, '.');
    assert Trimmed(bold);
    TrimOfTrimmed(bold);
  }

  lemma CleanBoldProvider(provider: string)
    requires '<' !in provider
    ensures CleanProvider("<b>" + provider + "</b>.") == provider
  {
    TrimBold(provider);
    UnwrapBold(provider);
  }

  lemma PromptShape(provider: string)
    ensures ConfigKeyPrompt(provider) == PromptHead + ForWord + ("<b>" + provider + "</b>.")
  {
    var bold := BoldOpen + provider + BoldClose;
    Regroup(KeyRequestIntro + ApiKeyCue + " ", BoldOpen, provider, BoldClose, ".");
    PromptTextShape(bold);
    assert bold + "." == "<b>" + provider + "</b>.";
  }

  lemma Regroup(h: string, a: string, b: string, c: string, t: string)
    ensures h + a + b + c + t == h + (a + b + c) + t
  {
  }

  lemma ForInPrompt(provider: string)
    ensures Find(ConfigKeyPrompt(provider), ForWord) == Some(|PromptHead|)
    ensures ConfigKeyPrompt(provider)[|PromptHead| + |ForWord|..] == "<b>" + provider + "</b>."
  {
    PromptShape(provider);
    NoForInHead();
    FindAfterFreePrefix(PromptHead, ForWord, "<b>" + provider + "</b>.");
  }

  /** Were the request's markup handed back as it was sent, the bold tags
      would be cleaned away and the provider read back all the same. */
  lemma ProviderOfMarkup(provider: string)
    requires '<' !in provider
    ensures ApiKeyProvider(ConfigKeyPrompt(provider)) == Some(provider)
  {
    ForInPrompt(provider);
    CleanBoldProvider(provider);
  }

  /** A button: its label and the data sent back when it is pressed. */
  datatype Button = Button(caption: string, data: string)

  /** The keyboard under a list of options: one button per row, in option
      order, each sending the prefix followed by its own label. */
  function Keyboard(options: seq<string>, prefix: string): (rows: seq<seq<Button>>)
    ensures |rows| == |options|
    ensures forall i :: 0 <= i < |rows| ==> |rows[i]| == 1 && rows[i][0].caption == options[i]
    ensures forall i :: 0 <= i < |rows| ==> rows[i][0].data == prefix + options[i]
  {
    seq(|options|, i requires 0 <= i < |options| => [Button(options[i], prefix + options[i])])
  }

  const SetModelPrefix: string := "set_model:"
  const MenuServerPrefix: string := "menu_server:"
  const SetProviderPrefix: string := "set_provider:"
  const ConfigKeyPrefix: string := "config_key_provider:"
  const DiscoverPrefix: string := "act_discover:"
  const RemovePrefix: string := "act_remove:"
  const ToolRunPrefix: string := "tool_run:"

  const DiscoverLabel: string := "\U{1F50D} Discover"
  const RemoveLabel: string := "\U{1F5D1}\U{FE0F} Remove"

  /** The actions offered for a server. */
  function ServerMenu(alias: string): (rows: seq<seq<Button>>)
    ensures |rows| == 2 && |rows[0]| == 1 && |rows[1]| == 1
    ensures rows[0][0].caption == DiscoverLabel && IsPrefix(DiscoverPrefix, rows[0][0].data)
      && rows[0][0].data[|DiscoverPrefix|..] == alias
    ensures rows[1][0].caption == RemoveLabel && IsPrefix(RemovePrefix, rows[1][0].data)
      && rows[1][0].data[|RemovePrefix|..] == alias
  {
    PrefixRest(DiscoverPrefix, alias);
    PrefixRest(RemovePrefix, alias);
    [[Button(DiscoverLabel, DiscoverPrefix + alias)], [Button(RemoveLabel, RemovePrefix + alias)]]
  }

  /** A button press: its data, if any, and the chat of the message that
      carries the button, if Telegram still has it. */
  datatype CallbackQuery = CallbackQuery(data: Option<string>, chatId: Option<int>)

  /** What a button press leads to. */
  datatype Action =
    | SaveModel(model: string)
    | ShowMenu(chat: int, text: string, keyboard: seq<seq<Button>>)
    | AskForKey(chat: int, prompt: string)
    | Dispatch(chat: int, notice: Option<string>, command: BotCommand)
    | ToolRun(rest: string)
    | NoAction

  /** `callback_handler`: the data is matched against the seven prefixes in
      turn and the rest after the first that matches goes to its handler.
      Data without a known prefix, or no data at all, does nothing; so does
      a press whose handler needs the chat when the chat is gone. */
  function CallbackAction(q: CallbackQuery): (a: Action)
    ensures q.data.None? ==> a == NoAction
    ensures q.chatId.None? ==> a.SaveModel? || a.ToolRun? || a == NoAction
  {
    match q.data
    case None => NoAction
    case Some(data) =>
      if IsPrefix(SetModelPrefix, data) then SaveModel(data[|SetModelPrefix|..])
      else if IsPrefix(MenuServerPrefix, data) then
        var alias := data[|MenuServerPrefix|..];
        if q.chatId.Some? then ShowMenu(q.chatId.value, "Actions for server: " + alias, ServerMenu(alias)) else NoAction
      else if IsPrefix(SetProviderPrefix, data) then
        if q.chatId.Some? then Dispatch(q.chatId.value, None, SetProvider(Some(data[|SetProviderPrefix|..]))) else NoAction
      else if IsPrefix(ConfigKeyPrefix, data) then
        if q.chatId.Some? then AskForKey(q.chatId.value, ConfigKeyPrompt(data[|ConfigKeyPrefix|..])) else NoAction
      else if IsPrefix(DiscoverPrefix, data) then
        var alias := data[|DiscoverPrefix|..];
        if q.chatId.Some? then Dispatch(q.chatId.value, Some("Starting discovery on " + alias + "..."), Discover(alias))
        else NoAction
      else if IsPrefix(RemovePrefix, data) then
        if q.chatId.Some? then Dispatch(q.chatId.value, None, Slash(Command.RemoveServer(data[|RemovePrefix|..])))
        else NoAction
      else if IsPrefix(ToolRunPrefix, data) then ToolRun(data[|ToolRunPrefix|..])
      else NoAction
  }

  /** Two prefixes that differ at some position cannot both start a text. */
  lemma DifferAt(p: string, q: string, rest: string, k: nat)
    requires k < |p| && k < |q| && p[k] != q[k]
    ensures !IsPrefix(p, q + rest)
  {
    assert (q + rest)[k] == q[k];
  }

  lemma PrefixRest(p: string, rest: string)
    ensures IsPrefix(p, p + rest) && (p + rest)[|p|..] == rest
  {
    assert (p + rest)[..|p|] == p;
  }

  /** Data that starts with none of the seven prefixes is ignored. */
  lemma UnknownDataIgnored(data: string, chat: Option<int>)
    requires !IsPrefix(SetModelPrefix, data) && !IsPrefix(MenuServerPrefix, data)
    requires !IsPrefix(SetProviderPrefix, data) && !IsPrefix(ConfigKeyPrefix, data)
    requires !IsPrefix(DiscoverPrefix, data) && !IsPrefix(RemovePrefix, data) && !IsPrefix(ToolRunPrefix, data)
    ensures CallbackAction(CallbackQuery(Some(data), chat)) == NoAction
  {
  }

  lemma RouteSetModel(model: string, chat: Option<int>)
    ensures CallbackAction(CallbackQuery(Some(SetModelPrefix + model), chat)) == SaveModel(model)
  {
    PrefixRest(SetModelPrefix, model);
  }

  lemma RouteSetProvider(provider: string, chat: int)
    ensures CallbackAction(CallbackQuery(Some(SetProviderPrefix + provider), Some(chat)))
         == Dispatch(chat, None, SetProvider(Some(provider)))
  {
    DifferAt(SetModelPrefix, SetProviderPrefix, provider, 4);
    DifferAt(MenuServerPrefix, SetProviderPrefix, provider, 0);
    PrefixRest(SetProviderPrefix, provider);
  }

  /** The provider's button asks for that provider's key. */
  lemma RouteConfigKey(provider: string, chat: int)
    ensures CallbackAction(CallbackQuery(Some(ConfigKeyPrefix + provider), Some(chat)))
         == AskForKey(chat, ConfigKeyPrompt(provider))
  {
    DifferAt(SetModelPrefix, ConfigKeyPrefix, provider, 0);
    DifferAt(MenuServerPrefix, ConfigKeyPrefix, provider, 0);
    DifferAt(SetProviderPrefix, ConfigKeyPrefix, provider, 0);
    PrefixRest(ConfigKeyPrefix, provider);
  }

  lemma RouteServerMenu(alias: string, chat: int)
    ensures CallbackAction(CallbackQuery(Some(MenuServerPrefix + alias), Some(chat)))
         == ShowMenu(chat, "Actions for server: " + alias, ServerMenu(alias))
  {
    DifferAt(SetModelPrefix, MenuServerPrefix, alias, 0);
    PrefixRest(MenuServerPrefix, alias);
  }

  /** The two buttons of a server's menu discover and remove that server. */
  lemma ServerMenuRoutes(alias: string, chat: int)
    ensures CallbackAction(CallbackQuery(Some(ServerMenu(alias)[0][0].data), Some(chat)))
         == Dispatch(chat, Some("Starting discovery on " + alias + "..."), Discover(alias))
    ensures CallbackAction(CallbackQuery(Some(ServerMenu(alias)[1][0].data), Some(chat)))
         == Dispatch(chat, None, Slash(Command.RemoveServer(alias)))
  {
    DifferAt(SetModelPrefix, DiscoverPrefix, alias, 0);
    DifferAt(MenuServerPrefix, DiscoverPrefix, alias, 0);
    DifferAt(SetProviderPrefix, DiscoverPrefix, alias, 0);
    DifferAt(ConfigKeyPrefix, DiscoverPrefix, alias, 0);
    PrefixRest(DiscoverPrefix, alias);
    DifferAt(SetModelPrefix, RemovePrefix, alias, 0);
    DifferAt(MenuServerPrefix, RemovePrefix, alias, 0);
    DifferAt(SetProviderPrefix, RemovePrefix, alias, 0);
    DifferAt(ConfigKeyPrefix, RemovePrefix, alias, 0);
    DifferAt(DiscoverPrefix, RemovePrefix, alias, 4);
    PrefixRest(RemovePrefix, alias);
  }

  lemma RouteToolRun(rest: string, chat: Option<int>)
    ensures CallbackAction(CallbackQuery(Some(ToolRunPrefix + rest), chat)) == ToolRun(rest)
  {
    DifferAt(SetModelPrefix, ToolRunPrefix, rest, 0);
    DifferAt(MenuServerPrefix, ToolRunPrefix, rest, 0);
    DifferAt(SetProviderPrefix, ToolRunPrefix, rest, 0);
    DifferAt(ConfigKeyPrefix, ToolRunPrefix, rest, 0);
    DifferAt(DiscoverPrefix, ToolRunPrefix, rest, 0);
    DifferAt(RemovePrefix, ToolRunPrefix, rest, 0);
    PrefixRest(ToolRunPrefix, rest);
  }

  /** How the rest of a "tool_run:" press is judged. */
  datatype ToolRunOutcome = Malformed | Skipped | DecodeError | EncodingError | Run(cmd: string)

  /** The labels that confirm a command. */
  predicate Affirmative(tag: string) {
    tag == RunLabel || tag == "Confirm" || tag == "Execute"
  }

  /** `handle_tool_run`, up to the execution: the rest is split at its first
      ':' into the encoded command and the button label; only an affirmative
      label goes on to decoding, first base 64, then UTF-8. */
  function DecideToolRun(rest: string): (r: ToolRunOutcome)
    ensures r == Malformed <==> ':' !in rest
    ensures r == Skipped <==> SplitOnce(rest, ':').Some? && !Affirmative(SplitOnce(rest, ':').value.1)
    ensures r == DecodeError <==>
      SplitOnce(rest, ':').Some? && Affirmative(SplitOnce(rest, ':').value.1)
      && Base64.Decode(SplitOnce(rest, ':').value.0).None?
    ensures r == EncodingError <==>
      SplitOnce(rest, ':').Some? && Affirmative(SplitOnce(rest, ':').value.1)
      && Base64.Decode(SplitOnce(rest, ':').value.0).Some?
      && Utf8.Decode(Base64.Decode(SplitOnce(rest, ':').value.0).value).None?
    ensures r.Run? <==>
      SplitOnce(rest, ':').Some? && Affirmative(SplitOnce(rest, ':').value.1)
      && Base64.Decode(SplitOnce(rest, ':').value.0).Some?
      && Utf8.Decode(Base64.Decode(SplitOnce(rest, ':').value.0).value).Some?
    ensures r.Run? ==>
      var (encoded, tag) := SplitOnce(rest, ':').value;
      Affirmative(tag) && Base64.Decode(encoded).Some? && Utf8.Decode(Base64.Decode(encoded).value) == Some(r.cmd)
  {
    match SplitOnce(rest, ':')
    case None => Malformed
    case Some((encoded, tag)) =>
      if !Affirmative(tag) then Skipped
      else match Base64.Decode(encoded)
        case None => DecodeError
        case Some(bytes) =>
          match Utf8.Decode(bytes)
          case None => EncodingError
          case Some(cmd) => Run(cmd)
  }

  /** The data of a confirmation button comes back as the command it was
      built from when the label is affirmative, and as a skip otherwise,
      whatever the label contains. */
  lemma ToolTokenRoundTrip(cmd: string, tag: string, chat: Option<int>)
    ensures CallbackAction(CallbackQuery(Some(ToolToken(cmd) + tag), chat))
         == ToolRun(Base64.Encode(Utf8.Encode(cmd)) + ":" + tag)
    ensures DecideToolRun(Base64.Encode(Utf8.Encode(cmd)) + ":" + tag)
         == if Affirmative(tag) then Run(cmd) else Skipped
  {
    var bytes := Utf8.Encode(cmd);
    var encoded := Base64.Encode(bytes);
    Base64.DecodeEncode(bytes);
    Utf8.DecodeEncode(cmd);
    TokenData(cmd, tag);
    RouteEncoded(encoded, tag, cmd, chat);
  }

  /** The data of a button under the confirmation keyboard, cut after the prefix. */
  lemma TokenData(cmd: string, tag: string)
    ensures ToolToken(cmd) + tag == ToolRunPrefix + (Base64.Encode(Utf8.Encode(cmd)) + ":" + tag)
  {
    var encoded := Base64.Encode(Utf8.Encode(cmd));
    assert ToolToken(cmd) == ToolRunPrefix + encoded + ":";
  }

  /** A press whose data is the prefix, a colon-free text that decodes to a
      command, a colon and a label. */
  lemma RouteEncoded(encoded: string, tag: string, cmd: string, chat: Option<int>)
    requires ':' !in encoded
    requires Base64.Decode(encoded).Some? && Utf8.Decode(Base64.Decode(encoded).value) == Some(cmd)
    ensures CallbackAction(CallbackQuery(Some(ToolRunPrefix + (encoded + ":" + tag)), chat)) == ToolRun(encoded + ":" + tag)
    ensures DecideToolRun(encoded + ":" + tag) == if Affirmative(tag) then Run(cmd) else Skipped
  {
    RouteToolRun(encoded + ":" + tag, chat);
    SplitOnceAt(encoded, ':', tag);
    DecideEncoded(encoded, tag, cmd);
  }

  /** A rest that splits into an encoding of a command and a label runs
      that command exactly when the label is affirmative. */
  lemma DecideEncoded(encoded: string, tag: string, cmd: string)
    requires SplitOnce(encoded + ":" + tag, ':') == Some((encoded, tag))
    requires Base64.Decode(encoded).Some? && Utf8.Decode(Base64.Decode(encoded).value) == Some(cmd)
    ensures DecideToolRun(encoded + ":" + tag) == if Affirmative(tag) then Run(cmd) else Skipped
  {
  }

  /** The two buttons shown for an AI reply that proposes a command: "Run"
      runs exactly the proposed command, "Skip" skips it. */
  lemma ConfirmationKeyboard(cmd: string, chat: Option<int>)
    ensures var rows := Keyboard([RunLabel, SkipLabel], ToolToken(cmd));
      |rows| == 2
      && (var a := CallbackAction(CallbackQuery(Some(rows[0][0].data), chat));
          a.ToolRun? && DecideToolRun(a.rest) == Run(cmd))
      && (var a := CallbackAction(CallbackQuery(Some(rows[1][0].data), chat));
          a.ToolRun? && DecideToolRun(a.rest) == Skipped)
  {
    ToolTokenRoundTrip(cmd, RunLabel, chat);
    ToolTokenRoundTrip(cmd, SkipLabel, chat);
  }

  lemma ConfirmationButtons(reply: string, chat: Option<int>)
    requires ParseReply(reply).InteractiveList?
    ensures var rows := Keyboard(ParseReply(reply).options, ParseReply(reply).callbackPrefix);
      |rows| == 2
      && (var a := CallbackAction(CallbackQuery(Some(rows[0][0].data), chat));
          a.ToolRun? && DecideToolRun(a.rest) == Run(ExtractDirective(reply).value.1))
      && (var a := CallbackAction(CallbackQuery(Some(rows[1][0].data), chat));
          a.ToolRun? && DecideToolRun(a.rest) == Skipped)
  {
    ConfirmationKeyboard(ExtractDirective(reply).value.1, chat);
  }

  const SkipNote: string := "I skipped the command execution."

  /** `handle_tool_run`. A skipped command adds one user turn saying so; a
      malformed press or a command that does not decode changes nothing; a
      decoded command runs as `execute_tool_command` runs it, and its
      response is returned for display. Without the chat nothing is added
      or run. */
  method HandleToolRun(sm: SessionManager, chatId: Option<int>, rest: string, lookup: string -> Lookup,
                       execute: (ManagedServer, string) -> Result<string, string>)
    returns (r: Option<CommandResponse>)
    modifies sm
    ensures DecideToolRun(rest).Skipped? && chatId.Some? ==>
      sm.sessions == WithTurn(old(sm.sessions), chatId.value, ChatMessage("user", SkipNote)) && r.None?
    ensures DecideToolRun(rest).Run? && chatId.Some? ==>
      r.Some? && sm.ToolCommandDone(old(sm.sessions), sm.sessions, r.value, chatId.value, DecideToolRun(rest).cmd, lookup, execute)
    ensures !DecideToolRun(rest).Skipped? && !DecideToolRun(rest).Run? ==> sm.sessions == old(sm.sessions) && r.None?
    ensures chatId.None? ==> sm.sessions == old(sm.sessions) && r.None?
  {
    r := None;
    match DecideToolRun(rest)
    case Skipped =>
      if chatId.Some? {
        sm.AddMessage(chatId.value, "user", SkipNote);
      }
    case Run(cmd) =>
      if chatId.Some? {
        var response := sm.ExecuteToolCommand(chatId.value, cmd, lookup, execute);
        r := Some(response);
      }
    case _ =>
  }

  /** The most bytes `send_long_message` puts in one message. */
  const MaxLen: nat := 4000

  /** The pieces put back together. */
  function Flatten<T>(chunks: seq<seq<T>>): seq<T> {
    if chunks == [] then [] else Flatten(chunks[..|chunks| - 1]) + chunks[|chunks| - 1]
  }

  lemma FlattenSnoc<T>(chunks: seq<seq<T>>, c: seq<T>)
    ensures Flatten(chunks + [c]) == Flatten(chunks) + c
  {
    assert (chunks + [c])[..|chunks|] == chunks;
  }

  /** `str::is_char_boundary` on the bytes of a string: the ends, and every
      position that does not hold a continuation byte. */
  predicate IsCharBoundary(b: seq<Utf8.byte>, k: nat) {
    k == 0 || k == |b| || (k < |b| && !Utf8.IsContinuation(b[k]))
  }

  /** `send_long_message` as it is written: a text of at most 4000 bytes goes
      out whole; a longer one is sliced every 4000 bytes, and slicing a
      `String` at a position that splits a character panics. The result is
      the bytes of the messages sent, or the position of the panic. It
      panics exactly when some multiple of 4000 inside the text splits a
      character. */
  method SendLongMessageAsWritten(text: string) returns (r: Result<seq<seq<Utf8.byte>>, nat>)
    ensures var b := Utf8.Encode(text); |b| <= MaxLen ==> r == Ok([b])
    ensures var b := Utf8.Encode(text);
      |b| > MaxLen ==> (r.Err? <==> exists k :: 0 < k < |b| && k % MaxLen == 0 && !IsCharBoundary(b, k))
    ensures r.Err? ==> !IsCharBoundary(Utf8.Encode(text), r.error)
    ensures r.Ok? ==> Flatten(r.value) == Utf8.Encode(text)
    ensures r.Ok? ==> forall i :: 0 <= i < |r.value| ==> |r.value[i]| <= MaxLen
    ensures r.Ok? && |Utf8.Encode(text)| > MaxLen ==>
      (forall i :: 0 <= i < |r.value| - 1 ==> |r.value[i]| == MaxLen)
      && forall i :: 0 <= i < |r.value| ==> r.value[i] != []
  {
    var b := Utf8.Encode(text);
    if |b| <= MaxLen {
      assert Flatten([b]) == Flatten([]) + b;
      return Ok([b]);
    }
    r := SliceBytes(b);
  }

  /** The slicing loop of `send_long_message` on the bytes of a text longer
      than one message: a slice every 4000 bytes, panicking at the first
      position that splits a character. */
  method SliceBytes(b: seq<Utf8.byte>) returns (r: Result<seq<seq<Utf8.byte>>, nat>)
    requires |b| > MaxLen
    ensures r.Err? <==> exists k :: 0 < k < |b| && k % MaxLen == 0 && !IsCharBoundary(b, k)
    ensures r.Err? ==> !IsCharBoundary(b, r.error)
    ensures r.Ok? ==> Flatten(r.value) == b
    ensures r.Ok? ==> forall i :: 0 <= i < |r.value| ==> 0 < |r.value[i]| <= MaxLen
    ensures r.Ok? ==> forall i :: 0 <= i < |r.value| - 1 ==> |r.value[i]| == MaxLen
  {
    var chunks: seq<seq<Utf8.byte>> := [];
    var start := 0;
    while start < |b|
      invariant 0 <= start <= |b|
      invariant start < |b| ==> start % MaxLen == 0
      invariant Flatten(chunks) == b[..start]
      invariant forall i :: 0 <= i < |chunks| ==> 0 < |chunks[i]| <= MaxLen
      invariant start < |b| ==> forall i :: 0 <= i < |chunks| ==> |chunks[i]| == MaxLen
      invariant forall i :: 0 <= i < |chunks| - 1 ==> |chunks[i]| == MaxLen
      invariant forall k :: 0 < k <= start && k < |b| && k % MaxLen == 0 ==> IsCharBoundary(b, k)
      decreases |b| - start
    {
      var end := if start + MaxLen < |b| then start + MaxLen else |b|;
      if !IsCharBoundary(b, end) {
        assert end < |b| && end % MaxLen == 0;
        return Err(end);
      }
      var chunk := b[start..end];
      FlattenSnoc(chunks, chunk);
      assert b[..start] + chunk == b[..end];
      chunks := chunks + [chunk];
      start := end;
    }
    assert b[..start] == b;
    r := Ok(chunks);
  }

  /** `count` copies of a character. */
  function Repeat(c: char, count: nat): (s: string)
    ensures |s| == count
  {
    if count == 0 then [] else [c] + Repeat(c, count - 1)
  }

  /** In the bytes of repeated two-byte characters, every odd position holds
      a continuation byte. */
  lemma {:induction false} RepeatTwoByte(c: char, count: nat)
    requires 0x80 <= c as int < 0x800
    ensures |Utf8.Encode(Repeat(c, count))| == 2 * count
    ensures forall k :: 0 <= k < 2 * count && k % 2 == 1 ==> Utf8.IsContinuation(Utf8.Encode(Repeat(c, count))[k])
  {
    if count > 0 {
      Utf8.EncodeCons(c, Repeat(c, count - 1));
      RepeatTwoByte(c, count - 1);
    }
  }

  /** `send_long_message` panics on "a" followed by 2000 or more copies of
      "é": the text is longer than 4000 bytes and its byte at position 4000
      is the second byte of an "é". */
  lemma AccentedTextSplitsCharacter(count: nat)
    requires count >= 2000
    ensures |Utf8.Encode("a" + Repeat('é', count))| > MaxLen
    ensures !IsCharBoundary(Utf8.Encode("a" + Repeat('é', count)), MaxLen)
  {
    var rep := Repeat('é', count);
    Utf8.EncodeCons('a', rep);
    RepeatTwoByte('é', count);
    assert Utf8.Encode("a" + rep)[MaxLen] == Utf8.Encode(rep)[MaxLen - 1];
  }

  /** A piece that can go out as one message. */
  predicate Fits(piece: string) {
    piece != [] && |Utf8.Encode(piece)| <= MaxLen
  }

  /** The first character of `next` would not have fitted after `piece`. */
  predicate Tight(piece: string, next: string) {
    next != [] && |Utf8.Encode(piece)| + |Utf8.EncodeChar(next[0])| > MaxLen
  }

  /** Pieces that each fit and are each as long as they can be. */
  predicate Packed(pieces: seq<string>) {
    (forall i :: 0 <= i < |pieces| ==> Fits(pieces[i]))
    && forall i :: 0 < i < |pieces| ==> Tight(pieces[i - 1], pieces[i])
  }

  lemma PackedSnoc(pieces: seq<string>, piece: string)
    requires Packed(pieces) && Fits(piece)
    requires |pieces| > 0 ==> Tight(pieces[|pieces| - 1], piece)
    ensures Packed(pieces + [piece])
  {
    var r := pieces + [piece];
    forall i | 0 <= i < |r| ensures Fits(r[i]) {
      if i < |pieces| {
        assert r[i] == pieces[i];
      }
    }
    forall i | 0 < i < |r| ensures Tight(r[i - 1], r[i]) {
      assert r[i - 1] == pieces[i - 1];
      if i < |pieces| {
        assert r[i] == pieces[i];
      }
    }
  }

  lemma FlattenStep(pieces: seq<string>, current: string, text: string, i: nat)
    requires i < |text| && Flatten(pieces) + current == text[..i]
    ensures Flatten(pieces + [current]) + [text[i]] == text[..i + 1]
    ensures Flatten(pieces) + (current + [text[i]]) == text[..i + 1]
  {
    FlattenSnoc(pieces, current);
    assert text[..i + 1] == text[..i] + [text[i]];
  }

  lemma FlattenDone(pieces: seq<string>, current: string, text: string)
    requires Flatten(pieces) + current == text[..|text|]
    ensures Flatten(pieces + [current]) == text
  {
    FlattenSnoc(pieces, current);
    assert text[..|text|] == text;
  }

  lemma StartTight(current: string, c: char)
    requires |Utf8.Encode(current)| + |Utf8.EncodeChar(c)| > MaxLen
    ensures Tight(current, [c]) && |Utf8.Encode([c])| == |Utf8.EncodeChar(c)|
  {
    Utf8.EncodeCons(c, []);
    assert [c] + [] == [c];
  }

  lemma GrowTight(last: string, current: string, c: char)
    requires Tight(last, current)
    ensures Tight(last, current + [c])
  {
    assert (current + [c])[0] == current[0];
  }

  /** What holds after the first `i` characters of `text` have been
      placed: finished pieces that are packed, and a current piece, not
      yet sent, that fits and would not have fitted after the last one. */
  predicate Placed(text: string, i: nat, pieces: seq<string>, current: string) {
    i <= |text|
    && Flatten(pieces) + current == text[..i]
    && |Utf8.Encode(current)| <= MaxLen
    && (i > 0 ==> current != [])
    && Packed(pieces)
    && (|pieces| > 0 ==> Tight(pieces[|pieces| - 1], current))
  }

  /** The next character starts a new piece when it does not fit. */
  lemma PlaceInNewPiece(text: string, i: nat, pieces: seq<string>, current: string)
    requires Placed(text, i, pieces, current) && i < |text|
    requires |Utf8.Encode(current)| + |Utf8.EncodeChar(text[i])| > MaxLen
    ensures Placed(text, i + 1, pieces + [current], [text[i]])
    ensures |Utf8.Encode([text[i]])| == |Utf8.EncodeChar(text[i])|
  {
    FlattenStep(pieces, current, text, i);
    PackedSnoc(pieces, current);
    StartTight(current, text[i]);
  }

  /** Otherwise it joins the current piece. */
  lemma PlaceInCurrent(text: string, i: nat, pieces: seq<string>, current: string)
    requires Placed(text, i, pieces, current) && i < |text|
    requires |Utf8.Encode(current)| + |Utf8.EncodeChar(text[i])| <= MaxLen
    ensures Placed(text, i + 1, pieces, current + [text[i]])
    ensures |Utf8.Encode(current + [text[i]])| == |Utf8.Encode(current)| + |Utf8.EncodeChar(text[i])|
  {
    FlattenStep(pieces, current, text, i);
    Utf8.EncodeSnoc(current, text[i]);
    if |pieces| > 0 {
      GrowTight(pieces[|pieces| - 1], current, text[i]);
    }
  }

  /** At the end the current piece is sent too. */
  lemma PlacedAll(text: string, pieces: seq<string>, current: string)
    requires Placed(text, |text|, pieces, current) && |text| > 0
    ensures Flatten(pieces + [current]) == text && Packed(pieces + [current])
    ensures forall i :: 0 <= i < |pieces + [current]| ==> |Utf8.Encode((pieces + [current])[i])| <= MaxLen
  {
    FlattenDone(pieces, current, text);
    PackedSnoc(pieces, current);
  }

  /** `send_long_message` with each cut moved back to the nearest character
      boundary: a text of at most 4000 bytes goes out whole; a longer one in
      pieces that put together give back the text, each non-empty, of at
      most 4000 bytes, and as long as it can be: the first character of the
      next piece would not have fitted. */
  method SplitLongMessage(text: string) returns (pieces: seq<string>)
    ensures |Utf8.Encode(text)| <= MaxLen ==> pieces == [text]
    ensures |Utf8.Encode(text)| > MaxLen ==> Packed(pieces)
    ensures Flatten(pieces) == text
    ensures forall i :: 0 <= i < |pieces| ==> |Utf8.Encode(pieces[i])| <= MaxLen
  {
    if |Utf8.Encode(text)| <= MaxLen {
      FlattenSnoc([], text);
      return [text];
    }
    pieces := Pack(text);
  }

  /** The pieces of a non-empty text, each filled as far as it goes. */
  method Pack(text: string) returns (pieces: seq<string>)
    requires text != []
    ensures Packed(pieces) && Flatten(pieces) == text
    ensures forall i :: 0 <= i < |pieces| ==> |Utf8.Encode(pieces[i])| <= MaxLen
  {
    pieces := [];
    var current: string := [];
    var size := 0;
    var i := 0;
    while i < |text|
      invariant Placed(text, i, pieces, current)
      invariant size == |Utf8.Encode(current)|
    {
      var c := text[i];
      var n := |Utf8.EncodeChar(c)|;
      if size + n > MaxLen {
        PlaceInNewPiece(text, i, pieces, current);
        pieces := pieces + [current];
        current := [c];
        size := n;
      } else {
        PlaceInCurrent(text, i, pieces, current);
        current := current + [c];
        size := size + n;
      }
      i := i + 1;
    }
    PlacedAll(text, pieces, current);
    pieces := pieces + [current];
  }

  lemma {:induction false} FlattenAppend<T>(a: seq<seq<T>>, b: seq<seq<T>>)
    ensures Flatten(a + b) == Flatten(a) + Flatten(b)
    decreases |b|
  {
    if b == [] {
      assert a + b == a;
    } else {
      var init := b[..|b| - 1];
      var c := b[|b| - 1];
      assert a + b == (a + init) + [c];
      assert b == init + [c];
      FlattenSnoc(a + init, c);
      FlattenSnoc(init, c);
      FlattenAppend(a, init);
    }
  }

  /** A cut after `head` and before the end of the next character's bytes
      falls inside that character unless it is right after `head`. */
  lemma CutInside(head: seq<Utf8.byte>, c: char, post: seq<Utf8.byte>, k: nat)
    requires k < |head| + |Utf8.EncodeChar(c)|
    ensures k < |head + Utf8.EncodeChar(c) + post|
    ensures |head| < k ==> !IsCharBoundary(head + Utf8.EncodeChar(c) + post, k)
  {
    var e := Utf8.EncodeChar(c);
    if |head| < k {
      Utf8.EncodeCharTail(c);
      assert (head + e + post)[k] == e[k - |head|];
    }
  }

  /** The slicing of the code as written does not panic on `b`. */
  predicate SlicesAtBoundaries(b: seq<Utf8.byte>) {
    forall k :: 0 < k < |b| && k % MaxLen == 0 ==> IsCharBoundary(b, k)
  }

  /** A sequence cut around its elements i and i + 1. */
  lemma SliceAround<S>(xs: seq<S>, i: nat)
    requires i < |xs| - 1
    ensures xs == xs[..i] + [xs[i]] + [xs[i + 1]] + xs[i + 2..]
    ensures xs[..i + 1] == xs[..i] + [xs[i]]
  {
    assert xs[..i + 2] == xs[..i + 1] + [xs[i + 1]];
    assert xs == xs[..i + 2] + xs[i + 2..];
  }

  /** Flattening two pieces between a front and a rest. */
  lemma FlattenPair<T>(front: seq<seq<T>>, p: seq<T>, next: seq<T>, rest: seq<seq<T>>)
    ensures Flatten(front + [p] + [next] + rest) == Flatten(front) + p + (next + Flatten(rest))
    ensures Flatten(front + [p]) == Flatten(front) + p
  {
    FlattenAppend(front + [p] + [next], rest);
    FlattenSnoc(front + [p], next);
    FlattenSnoc(front, p);
  }

  /** The pieces around piece i. */
  lemma FlattenAround<T>(pieces: seq<seq<T>>, i: nat)
    requires i < |pieces| - 1
    ensures Flatten(pieces) == Flatten(pieces[..i]) + pieces[i] + (pieces[i + 1] + Flatten(pieces[i + 2..]))
    ensures Flatten(pieces[..i + 1]) == Flatten(pieces[..i]) + pieces[i]
  {
    SliceAround(pieces, i);
    FlattenPair(pieces[..i], pieces[i], pieces[i + 1], pieces[i + 2..]);
  }

  /** The bytes of a text around the first character after `before + p`. */
  lemma BytesAround(before: string, p: string, after: string)
    requires after != []
    ensures Utf8.Encode(before + p + after)
         == (Utf8.Encode(before) + Utf8.Encode(p)) + Utf8.EncodeChar(after[0]) + Utf8.Encode(after[1..])
    ensures Utf8.Encode(before + p) == Utf8.Encode(before) + Utf8.Encode(p)
  {
    assert after == [after[0]] + after[1..];
    Utf8.EncodeAppend(before + p, after);
    Utf8.EncodeCons(after[0], after[1..]);
    Utf8.EncodeAppend(before, p);
  }

  /** A piece that starts at byte 4000 * i, fits, and is followed by a
      character that does not fit behind it, is a full 4000 bytes when the
      multiple of 4000 it reaches falls on a boundary. */
  lemma FullWhereBoundary(lead: seq<Utf8.byte>, piece: seq<Utf8.byte>, c: char, post: seq<Utf8.byte>, i: nat)
    requires |lead| == MaxLen * i && |piece| <= MaxLen && |piece| + |Utf8.EncodeChar(c)| > MaxLen
    requires SlicesAtBoundaries(lead + piece + Utf8.EncodeChar(c) + post)
    ensures |piece| == MaxLen
  {
    var k := |lead| + MaxLen;
    assert k == MaxLen * (i + 1);
    assert k % MaxLen == 0;
    CutInside(lead + piece, c, post, k);
  }

  /** When no slice of the code as written splits a character, the first
      i + 1 packed pieces take exactly (i + 1) * 4000 bytes. */
  lemma {:induction false} PiecesFullUpTo(text: string, pieces: seq<string>, i: nat)
    requires Packed(pieces) && Flatten(pieces) == text && SlicesAtBoundaries(Utf8.Encode(text))
    requires i < |pieces| - 1
    ensures |Utf8.Encode(Flatten(pieces[..i + 1]))| == MaxLen * (i + 1)
    ensures |Utf8.Encode(pieces[i])| == MaxLen
    decreases i
  {
    var before := Flatten(pieces[..i]);
    if i > 0 {
      PiecesFullUpTo(text, pieces, i - 1);
      assert pieces[..i - 1 + 1] == pieces[..i];
    }
    var p := pieces[i];
    var after := pieces[i + 1] + Flatten(pieces[i + 2..]);
    assert Fits(p) && Tight(pieces[i + 1 - 1], pieces[i + 1]);
    FlattenAround(pieces, i);
    assert after[0] == pieces[i + 1][0];
    BytesAround(before, p, after);
    FullWhereBoundary(Utf8.Encode(before), Utf8.Encode(p), after[0], Utf8.Encode(after[1..]), i);
  }

  /** On every text the code as written slices without panicking, the
      corrected pieces are the same size as its slices: all but the last
      exactly 4000 bytes. */
  lemma FullPiecesWhereNoPanic(text: string, pieces: seq<string>)
    requires Packed(pieces) && Flatten(pieces) == text && SlicesAtBoundaries(Utf8.Encode(text))
    ensures forall i :: 0 <= i < |pieces| - 1 ==> |Utf8.Encode(pieces[i])| == MaxLen
  {
    forall i | 0 <= i < |pieces| - 1
      ensures |Utf8.Encode(pieces[i])| == MaxLen
    {
      PiecesFullUpTo(text, pieces, i);
    }
  }

  /** A message the bot sends: a piece of text, parsed as HTML or not, or a
      title, parsed as HTML or not, above a keyboard. */
  datatype Outgoing =
    | Piece(text: string, html: bool)
    | WithKeyboard(title: string, html: bool, keyboard: seq<seq<Button>>)

  function Pieces(pieces: seq<string>, html: bool): (r: seq<Outgoing>)
    ensures |r| == |pieces|
    ensures forall i :: 0 <= i < |r| ==> r[i] == Piece(pieces[i], html)
  {
    seq(|pieces|, i requires 0 <= i < |pieces| => Piece(pieces[i], html))
  }

  function Texts(out: seq<Outgoing>): (r: seq<string>)
    requires forall i :: 0 <= i < |out| ==> out[i].Piece?
    ensures |r| == |out| && forall i :: 0 <= i < |r| ==> r[i] == out[i].text
  {
    seq(|out|, i requires 0 <= i < |out| => out[i].text)
  }

  /** `out` is `text` sent in pieces of at most 4000 bytes, all parsed as
      HTML or none. */
  predicate SentInPieces(out: seq<Outgoing>, text: string, html: bool) {
    (forall i :: 0 <= i < |out| ==> out[i].Piece? && out[i].html == html)
    && (forall i :: 0 <= i < |out| ==> |Utf8.Encode(out[i].text)| <= MaxLen)
    && Flatten(Texts(out)) == text
  }

  lemma PiecesSent(pieces: seq<string>, text: string, html: bool)
    requires Flatten(pieces) == text
    requires forall i :: 0 <= i < |pieces| ==> |Utf8.Encode(pieces[i])| <= MaxLen
    ensures SentInPieces(Pieces(pieces, html), text, html)
  {
    assert Texts(Pieces(pieces, html)) == pieces;
  }

  /** `handle_command_response`: text and HTML go out in pieces of at most
      4000 bytes that together give back the text, an interactive list as
      its title above one button per option. */
  method HandleCommandResponse(response: CommandResponse) returns (out: seq<Outgoing>)
    ensures response.Text? ==> SentInPieces(out, response.text, false)
    ensures response.Html? ==> SentInPieces(out, response.html, true)
    ensures response.InteractiveList? ==>
      out == [WithKeyboard(response.title, true, Keyboard(response.options, response.callbackPrefix))]
  {
    match response
    case Text(text) =>
      var pieces := SplitLongMessage(text);
      PiecesSent(pieces, text, false);
      out := Pieces(pieces, false);
    case Html(html) =>
      var pieces := SplitLongMessage(html);
      PiecesSent(pieces, html, true);
      out := Pieces(pieces, true);
    case InteractiveList(title, options, prefix) =>
      out := [WithKeyboard(title, true, Keyboard(options, prefix))];
  }
}
