# PocketOps in Dafny

PocketOps is a Telegram bot that administers servers over SSH and lets an AI
propose shell commands. This project models the conversation engine and the
text handling around it, and proves properties of the model.

- **Session engine** (`Session`). `SessionManager` is a class whose
  `sessions` map goes from a chat id to the server alias and the
  conversation history.
  - `ProcessUserInput` sends the AI a copy of the history. The copy carries
    the reminder on the last user turn.
  - The AI's reply is scanned for its first `RUN:` directive.
  - When the reply carries a command, the chat shows a confirmation with
    "✅ Run" and "❌ Skip" buttons. The command travels in the buttons'
    callback data, as base 64 (section 4 of RFC 4648) of its UTF-8 bytes
    (RFC 3629).
  - `ExecuteToolCommand` feeds the command's output back into the
    conversation.
- **Telegram front end** (`Telegram`). This covers:
  - the administrator gate;
  - how a message becomes a command, including the reply that sets an API
    key;
  - the routing of button presses by the seven callback prefixes;
  - the label gate and decoding of a `tool_run:` press;
  - keyboards;
  - cutting long texts into messages.
- **Slash-command parser** (`Command`): `from_str` over whitespace-separated
  words.
- **AI client** (`Client`): provider selection from `AI_PROVIDER`,
  delegation to the chosen provider, and the `ask_with_context` prompt.
- **Discovery report** (`Discovery`): how each SSH probe's answer becomes a
  field of the report.
- **Supporting modules**:
  - `Text` holds the Rust `str` operations the code relies on: `find`,
    `split_once`, `trim` with Unicode White_Space, `trim_start_matches`,
    `trim_end_matches`, `replace(pat, "")`, `split_whitespace`, `lines` and
    `join`. Texts are sequences of characters, so a position is a character
    index where Rust uses a byte offset. The texts cut at such a position
    are the same either way.
  - `Utf8` and `Base64` are the two codecs, each proved to round-trip in
    both directions.
  - `Models` holds `ChatMessage`, `CommandResponse` and `ManagedServer`.

External effects are parameters:
- The AI provider is a record of functions.
- The server store's answer for an alias is a `Lookup`.
- The SSH executor and the discovery probe are functions from a server and
  a command to `Ok(output)` or `Err(message)`.
- The prompt templates are a function from the alias to the system prompt,
  plus a reminder string.
- The discovery timestamp is a parameter.

The source files come from different revisions, and each is modelled as
written:
- `telegram.rs` sends commands that `command.rs` does not declare:
  `SetApiKey`, `SetProvider` and `Discover`. `Telegram.BotCommand` carries
  them and wraps `Command.SystemCommand` for the rest.
- `session.rs` builds its client with an argument that `client.rs`'s `new`
  does not take. `SessionManager`'s constructor receives the client.

## Model

| member | source | states |
|---|---|---|
| Text.Find | src/core/session.rs:115 | `find`: on a match the pattern is there and at no earlier position; None means it occurs nowhere |
| Text.SplitOnce | src/handlers/telegram.rs:269-272 | `split_once`: None exactly when the separator is absent; otherwise the text is first part + separator + rest, with no separator in the first part |
| Text.SplitOnceAt | src/handlers/telegram.rs:269-272 | splitting `a + ":" + b` when `a` has no ':' gives back exactly `(a, b)`, whatever `b` holds |
| Text.StripPrefix | src/handlers/telegram.rs:103-116 | `strip_prefix`: Some exactly when the text starts with the prefix, and then the text is prefix + the result |
| Text.TrimStart | src/core/session.rs:117 | `trim_start`: the result is a suffix of the text, does not start with whitespace, and what was dropped is whitespace |
| Text.TrimEnd | src/core/session.rs:117 | `trim_end`: the result is a prefix of the text, does not end with whitespace, and what was dropped is whitespace |
| Text.Trim | src/core/session.rs:117 | `trim`: no whitespace at either end, never longer than the text |
| Text.TrimPadded | src/core/session.rs:117 | trimming whitespace + t + whitespace, for a trimmed t, gives exactly t |
| Text.TrimIdempotent | src/core/session.rs:117 | trimming a trimmed text changes nothing |
| Text.TrimEndMatches | src/handlers/telegram.rs:73 | `trim_end_matches('.')`: a prefix of the text that does not end with '.', and only '.' was dropped |
| Text.TrimStartMatches | src/core/session.rs:117 | `trim_start_matches("RUN:")`: a suffix of the text that no longer starts with the pattern |
| Text.TrimStartMatchesCount | src/core/session.rs:117 | what `trim_start_matches` drops is a whole number k of copies of the pattern: the text is k copies followed by the result |
| Text.TrimStartMatchesDropsCopies | src/core/session.rs:117 | the text is some number of copies of the pattern followed by what `trim_start_matches` leaves |
| Text.RemoveAll | src/core/session.rs:119-127 | `replace(pat, "")` never lengthens the text |
| Text.RemoveAllWithoutHead | src/core/session.rs:119-127 | a text lacking the pattern's first character is left unchanged |
| Text.RemoveAllAtHead | src/core/session.rs:119-127 | an occurrence at the head is removed and the rest is processed |
| Text.RemoveAllAfterFree | src/core/session.rs:119-127 | a part without the pattern's first character is kept as it is, and the rest is processed |
| Text.RemoveAllAt | src/core/session.rs:119-127 | the first occurrence is removed, the text before it is kept and the search resumes after it |
| Text.RemoveAllPastMismatch | src/core/session.rs:119-127 | a piece that differs from the pattern within both lengths, and holds the pattern's first character only at its head, is kept whole |
| Text.SplitWhitespace | src/models/command.rs:35 | every word `split_whitespace` yields is non-empty and holds no whitespace |
| Text.Join | src/models/command.rs:68 | no pieces join to the empty text and a single piece joins to itself |
| Text.ToLower | src/ai/client.rs:26 | lowering keeps the length and maps each character on its own |
| Text.SplitJoin | src/models/command.rs:35 | splitting words joined by single spaces gives back the words |
| Text.Lines | src/core/discovery.rs:86-87 | `lines`: no line holds a line feed, and there are no more lines than characters |
| Text.LinesOfLf | src/core/discovery.rs:86-87 | a line ended by "\n", without a line feed of its own or a final '\r', is the first line, and the lines of the rest follow |
| Text.LinesOfCrLf | src/core/discovery.rs:86-87 | a line ended by "\r\n" is the first line without its '\r', and the lines of the rest follow |
| Text.LinesJoin | src/core/discovery.rs:86-87 | for a text without '\r', joining its lines with "\n" gives the text back, less a final "\n" |
| Utf8.DecodeEncode | src/handlers/telegram.rs:296-304 | `String::from_utf8` of the bytes of a string gives back that string |
| Utf8.EncodeDecode | src/handlers/telegram.rs:296-304 | any byte sequence that `from_utf8` accepts is the encoding of the string it returns |
| Utf8.EncodeSnoc | src/handlers/telegram.rs:380-381 | the bytes of a string with one more character are its bytes followed by that character's bytes |
| Utf8.Encode | src/handlers/telegram.rs:380-381 | a string has at least as many bytes as characters |
| Utf8.EncodeAppend | src/handlers/telegram.rs:380-381 | the bytes of two strings joined are the bytes of the first followed by those of the second |
| Utf8.Decode | src/handlers/telegram.rs:296-304 | the empty bytes decode to the empty string; a decoded string has at most as many characters as bytes and at least a quarter as many |
| Base64.Encode | src/core/session.rs:132 | standard base 64 output has a length that is a multiple of 4, and is empty only for empty input |
| Base64.EncodedLength | src/core/session.rs:132 | the encoding of n bytes has 4·⌈n/3⌉ characters |
| Base64.DecodeEncode | src/handlers/telegram.rs:288-294 | decoding the standard encoding of any bytes gives back those bytes |
| Base64.EncodeDecode | src/handlers/telegram.rs:288-294 | every text the decoder accepts is the canonical encoding of what it decodes to |
| Base64.Decode | src/handlers/telegram.rs:288-294 | only texts whose length is a multiple of 4 decode, and exactly the empty text decodes to no bytes |
| Base64.DecodedLength | src/handlers/telegram.rs:288-294 | a decoded text of n characters gives at most 3n/4 bytes, and at least 3n/4 - 2 |
| Base64.EncodingAlphabet | src/core/session.rs:150 | an encoding uses only the 64 symbols and '=' |
| Base64.NoColonInEncoding | src/core/session.rs:150 | no ':' appears in an encoding, so the ':' after it in the callback data is the first one |
| Command.FromTokens | src/models/command.rs:36-75 | each command is recognised for exactly its arity and first word, in both directions: `/status`, `/help` and `/servers` alone; `/add` with three arguments in order; `/remove` and `/ask` with one; `/config_ollama` with one or two, `base_url` present exactly with two; `/models` or `/ai_models`; `/exec` with an alias and the rest joined by single spaces; everything else Unknown |
| Command.FromStr | src/models/command.rs:34-77 | a blank message is Unknown; only a message whose first word starts with "/" names a command |
| Command.FromStrIgnoresSpacing | src/models/command.rs:35 | the result depends only on the sequence of words |
| Command.ParseRender | src/models/command.rs:34-77 | every command whose arguments are single words is read back from its words joined by spaces |
| Command.ExecJoinsArguments | src/models/command.rs:67-73 | `/exec alias t1 … tn` yields the alias and `t1 … tn` joined by single spaces |
| Command.ExecWithoutCommand | src/models/command.rs:67-73 | `/exec alias` alone yields an empty command |
| Command.AskTakesOneWord | src/models/command.rs:51-53 | a question of two or more words makes `/ask` Unknown |
| Command.AllCommandsInfo | src/models/command.rs:79-91 | the help list has nine entries, each a usage starting with "/" and a non-empty description |
| Client.SelectProvider | src/ai/client.rs:22-33 | OpenAI exactly when the lower-cased name is "openai", Gemini exactly when it is "gemini", Ollama otherwise and when the variable is unset |
| Client.SelectionIgnoresCase | src/ai/client.rs:26 | names that differ only in letter case select the same provider |
| Client.SelectionExamples | src/ai/client.rs:22-33 | "OpenAI", "OPENAI" and "openai" choose OpenAI; "GEMINI" chooses Gemini; "open ai" and "" choose Ollama |
| Client.New | src/ai/client.rs:22-33 | the client holds the provider the environment selects |
| Client.DelegatesToSelected | src/ai/client.rs:44-84 | every operation answers what the selected provider answers; `ask_with_context` hands it exactly the context prompt |
| Client.ContextPrompt | src/ai/client.rs:57 | the prompt is "Context:\n", the context, "\n\nQuestion: " and the question, at the stated positions |
| Client.ContextPromptInjective | src/ai/client.rs:57 | for contexts of equal length, the prompt determines the context and the question |
| Session.WithReminder | src/core/session.rs:89-106 | the copy sent to the AI has the same length; only a last turn whose role is "user" gains the reminder; otherwise it equals the history |
| Session.StripTags | src/core/session.rs:119-127 | removing the six tags never lengthens the text, and leaves a text without '<' unchanged |
| Session.StripWrapped | src/core/session.rs:119-127 | a text without '<' wrapped in `<code>…</code>`, `<b>…</b>` or `<i>…</i>` comes out bare |
| Session.CommandAfterMarker | src/core/session.rs:117-127 | the extracted command has no whitespace at either end |
| Session.CommandAfterMarkerOf | src/core/session.rs:117-127 | after "RUN: ", a trimmed command comes out as its tag-stripped form when that is trimmed |
| Session.ExtractDirective | src/core/session.rs:115-130 | the preamble is the text before the first "RUN:"; the command is what follows after every leading "RUN:" is dropped, the text is trimmed, the tags are removed and it is trimmed again; None exactly when there is no marker or that command is empty |
| Session.ToolToken | src/core/session.rs:132-150 | the callback prefix is "tool_run:" + base 64 of the command's UTF-8 bytes + ":", and the encoding holds no ':' |
| Session.ParseReply | src/core/session.rs:129-157 | Html holding the whole reply exactly when no command is found; otherwise the options are exactly ["✅ Run", "❌ Skip"], the prefix is the tool token and the title is the confirmation title |
| Session.NoMarkerIsHtml | src/core/session.rs:155-157 | a reply without "RUN:" is shown unchanged as HTML |
| Session.ExtractDirectiveOfDirective | src/core/session.rs:115-130 | `preamble + "RUN: " + cmd`, for a preamble without "RUN:" and a trimmed, tag-free, non-empty command, gives back exactly the preamble and the command |
| Session.ConfirmationOfDirective | src/core/session.rs:131-151 | such a reply becomes the confirmation carrying exactly that command |
| Session.ExtractDirectiveOfTagged | src/core/session.rs:115-130 | `preamble + "RUN: " + open + cmd + close`, for a plain command wrapped in a code, bold or italic tag pair, gives back the preamble and the bare command |
| Session.ConfirmationOfTagged | src/core/session.rs:129-151 | such a reply becomes the confirmation carrying the bare command |
| Session.ConfirmTitle | src/core/session.rs:134-145 | the title ends with the command in `<code>` tags; it starts with "AI suggests running: " when the trimmed preamble is empty, and otherwise with the trimmed preamble, a blank line and "Running command: "; its length is that of the head plus the tagged command, so nothing else lies between them |
| Session.ToolOutput | src/core/session.rs:175-182 | the executor's output for a found server; "Error: " + the error when it fails; "Server not found." when there is no server; "DB Error: " + the message when the lookup fails |
| Session.WithTurn | src/core/session.rs:64-69 | adding a turn keeps the same chats, changes no other chat, keeps the alias and appends exactly the one message |
| Session.SessionManager.constructor | src/core/session.rs:23-29 | a new manager has no sessions |
| Session.SessionManager.HasSession | src/core/session.rs:52-54 | true exactly when the chat has a session |
| Session.SessionManager.GetAlias | src/core/session.rs:56-62 | the session's alias exactly when the chat has a session, None otherwise |
| Session.SessionManager.AddMessage | src/core/session.rs:64-69 | one message is appended to the chat's history; without a session the map is unchanged; no other chat changes |
| Session.SessionManager.StartSession | src/core/session.rs:31-46 | the chat's session is replaced by one with the alias and two identical system turns holding the prompt; other chats are untouched |
| Session.SessionManager.EndSession | src/core/session.rs:48-50 | returns the removed session or None; afterwards there is no session and no alias for the chat; other chats are untouched |
| Session.SessionManager.ProcessUserInput | src/core/session.rs:83-161 | no session: "No active session." and no change. With one, the input is stored as typed and the AI sees the reminder on it. A reply adds one assistant turn and is parsed. An error gives "AI Error: …" and adds nothing further |
| Session.SessionManager.AddToolOutput | src/core/session.rs:164-167 | appends one user turn "Command Output:\n" + output |
| Session.SessionManager.ExecuteToolCommand | src/core/session.rs:169-189 | no session: "No active session." and the same map. Otherwise the output is one of: the executor's output, "Error: …", "Server not found." or "DB Error: …". It is added as a user turn, then "Command executed. Analyze results." is processed. The history grows by 3 turns when the AI answers and by 2 when it fails |
| Telegram.MessageHandler | src/handlers/telegram.rs:45-49 | a message from any chat but the administrator's yields no command; the administrator's yields what `extract_command` finds |
| Telegram.ApiKeyProvider | src/handlers/telegram.rs:70-75 | a provider is found exactly when the text contains "API Key for" and "for "; it is the cleaned text after the first "for " |
| Telegram.ExtractCommand | src/handlers/telegram.rs:64-89 | None exactly for a message without text. A text replying to a message in which `ApiKeyProvider` finds p sets p's key to the encoded reply; SetApiKey comes from nowhere else. Any other text goes to `from_str` |
| Telegram.EncodeKey | src/handlers/telegram.rs:77 | the stored key decodes, as base 64 and then UTF-8, to exactly the trimmed reply |
| Telegram.CleanProvider | src/handlers/telegram.rs:72-75 | never longer than its input; a trimmed provider name without '<' and not ending in '.' is kept as it is |
| Telegram.ConfigKeyPrompt | src/handlers/telegram.rs:203-207 | the request for a key contains "API Key for" |
| Telegram.PromptTextOfMarkup | src/handlers/telegram.rs:203-209 | with the bold tags removed, the HTML request is the text the chat shows: the intro, "API Key for ", the provider and "." |
| Telegram.CleanBoldProvider | src/handlers/telegram.rs:72-75 | from "<b>p</b>." the cleaning recovers p, for any p without '<' |
| Telegram.ProviderOfPrompt | src/handlers/telegram.rs:204-209 | the provider is read back from the request as the chat shows it, for any trimmed provider name without '<' and no final '.' |
| Telegram.ProviderOfMarkup | src/handlers/telegram.rs:72-75 | were the request handed back with its markup, the bold tags would be cleaned away and the provider read back all the same |
| Telegram.KeyPromptRoundTrip | src/handlers/telegram.rs:64-82 | answering the shown key request for p, with any text, sets p's key to the encoding of that text |
| Telegram.Keyboard | src/handlers/telegram.rs:349-362 | one button per row, in option order; each label is the option and its data is the prefix + option |
| Telegram.CallbackAction | src/handlers/telegram.rs:97-118 | a press without data does nothing; a press without a chat can only save a model, run a tool or do nothing |
| Telegram.UnknownDataIgnored | src/handlers/telegram.rs:103-119 | data with none of the seven prefixes does nothing |
| Telegram.RouteSetModel | src/handlers/telegram.rs:103-104 | "set_model:" + m saves model m |
| Telegram.RouteServerMenu | src/handlers/telegram.rs:144-164 | "menu_server:" + a shows "Actions for server: a" with the Discover and Remove buttons for a |
| Telegram.ServerMenu | src/handlers/telegram.rs:145-154 | two rows of one button each: "🔍 Discover" with "act_discover:" + alias, "🗑️ Remove" with "act_remove:" + alias |
| Telegram.RouteSetProvider | src/handlers/telegram.rs:166-188 | "set_provider:" + p dispatches SetProvider(Some(p)) to the chat |
| Telegram.RouteConfigKey | src/handlers/telegram.rs:190-214 | "config_key_provider:" + p asks that chat for p's key |
| Telegram.ServerMenuRoutes | src/handlers/telegram.rs:216-261 | the Discover button starts discovery of that alias and announces it; the Remove button removes that alias |
| Telegram.RouteToolRun | src/handlers/telegram.rs:115-116 | "tool_run:" + rest reaches the confirmation handler with rest, whatever the earlier prefixes |
| Telegram.DecideToolRun | src/handlers/telegram.rs:269-304 | Malformed exactly when there is no ':'. Skipped exactly when the label after the first ':' is not "✅ Run", "Confirm" or "Execute". For an affirmative label: DecodeError exactly when the part before fails base 64, EncodingError exactly when its bytes fail UTF-8, Run(cmd) exactly when both succeed, with cmd the decoded text |
| Telegram.ToolTokenRoundTrip | src/handlers/telegram.rs:269-296 | the data prefix + label of a confirmation button reaches `handle_tool_run`. It runs exactly the original command for an affirmative label and skips for any other |
| Telegram.RouteEncoded | src/handlers/telegram.rs:115-116 | a press with "tool_run:", a colon-free text that decodes to a command, ':' and a label runs that command exactly for an affirmative label |
| Telegram.DecideEncoded | src/handlers/telegram.rs:269-304 | a rest that splits into an encoding of a command and a label runs that command for an affirmative label and skips otherwise |
| Telegram.ConfirmationKeyboard | src/handlers/telegram.rs:349-362 | the two buttons for a command: the first runs exactly that command, the second skips |
| Telegram.ConfirmationButtons | src/handlers/telegram.rs:349-362 | for every AI reply that produced a confirmation, "Run" runs exactly the extracted command and "Skip" skips |
| Telegram.HandleToolRun | src/handlers/telegram.rs:263-321 | a skip adds exactly one user turn "I skipped the command execution."; a malformed press, a decode error or a missing chat changes nothing; a decoded command runs as `execute_tool_command` specifies |
| Telegram.SendLongMessageAsWritten | src/handlers/telegram.rs:374-401 | at most 4000 bytes: one message. Otherwise it panics exactly when a multiple of 4000 inside the text splits a character. If not, the chunks join to the text, none is empty, each is at most 4000 bytes, all but the last exactly 4000 |
| Telegram.PiecesFullUpTo | src/handlers/telegram.rs:387-398 | when no multiple of 4000 splits a character, the first i + 1 packed pieces take exactly 4000 * (i + 1) bytes |
| Telegram.FullPiecesWhereNoPanic | src/handlers/telegram.rs:387-398 | on every text the code as written slices without panicking, the packed pieces are all exactly 4000 bytes but the last, as the slices of the code are |
| Telegram.SliceBytes | src/handlers/telegram.rs:387-398 | the slicing loop panics exactly at a multiple of 4000 inside the bytes that splits a character; otherwise its chunks join to the bytes, are non-empty, at most 4000 bytes, all but the last exactly 4000 |
| Telegram.AccentedTextSplitsCharacter | src/handlers/telegram.rs:391 | "a" followed by 2000 or more "é" is over 4000 bytes and byte 4000 is inside a character |
| Telegram.SplitLongMessage | src/handlers/telegram.rs:374-401 | at most 4000 bytes: the text itself. Otherwise the pieces join to the text, none is empty, each is at most 4000 bytes, and none could have taken the next piece's first character |
| Telegram.Pack | src/handlers/telegram.rs:387-398 | the loop's pieces join to the text, each fits and each is as full as it can be |
| Telegram.HandleCommandResponse | src/handlers/telegram.rs:325-372 | text and HTML go out in pieces of at most 4000 bytes that join to the text, with HTML parsing only for Html; a list goes out as its title, parsed as HTML, over one button per option |
| Discovery.Field | src/core/discovery.rs:39-59 | a failed probe gives "Unknown"; a successful one gives its trimmed output |
| Discovery.Filter | src/core/discovery.rs:86-88 | the filter keeps at most as many lines as it is given |
| Discovery.FilterAppend | src/core/discovery.rs:86-88 | filtering concatenated lines filters each part, in order |
| Discovery.ServiceLines | src/core/discovery.rs:86-93 | at most as many services as lines; each is "running" and has a trimmed name |
| Discovery.ServiceLinesAppend | src/core/discovery.rs:86-93 | the services of concatenated lines are those of the first lines followed by those of the rest |
| Discovery.ServiceLinesOne | src/core/discovery.rs:88-92 | a single line gives one trimmed running service exactly when it contains ".service" |
| Discovery.ServicesComeFromLines | src/core/discovery.rs:86-93 | every listed service is the trimmed form of a line containing ".service" |
| Discovery.EveryServiceLineListed | src/core/discovery.rs:86-93 | every line containing ".service" is listed, trimmed, as running |
| Discovery.Run | src/core/discovery.rs:37-101 | the result is never Err, and the timestamp is the given time |
| Discovery.RunFields | src/core/discovery.rs:54-93 | each field is the shaped answer of its own probe; the CPU field is "Load Avg: " + the trimmed load average; the services are those of the services probe's lines, and there are none when the services probe fails |
| Discovery.AllProbesFail | src/core/discovery.rs:39-93 | when every probe fails, every field is "Unknown", the CPU field is "Load Avg: Unknown" and there are no services |

## Findings

| source | as written | input that shows it | evidently intended | confidence | as-written member | corrected member |
|---|---|---|---|---|---|---|
| src/handlers/telegram.rs:391 | a text over 4000 bytes is sliced at every multiple of 4000 bytes, and slicing a `String` inside a character panics | "a" followed by 2000 "é": 4001 bytes, with byte 4000 the second byte of the last "é" | cut each message at the last character boundary within 4000 bytes | not executed | Telegram.SendLongMessageAsWritten, Telegram.AccentedTextSplitsCharacter | Telegram.SplitLongMessage |

## Left out

- The dispatcher in `src/core/dispatcher.rs` is left out. Its signature does not match its callers. Every non-trivial branch is SSH, AI or database I/O.
  - The commands it receives are modelled as `Telegram.Action` values: `Dispatch`, `SaveModel`, `ShowMenu`, `AskForKey` and `ToolRun`.
  - What the dispatcher then does with them is not modelled.
- SSH, HTTP, database and configuration-file I/O are parameters of the model:
  - the executor, the probe, the provider answers and the server lookup;
  - saving the model in `handle_set_model`;
  - `reload_ai_config`.
  - Their own behaviour is not modelled.
- `add_message` also stores the turn in the database, best effort with failures ignored. Only the in-memory map is modelled.
- Concurrency and async are left out: the mutex-guarded map and the teloxide dispatcher. The model is sequential.
- The prompt templates read with `include_str!` are not modelled. The system prompt is a function of the alias and the reminder is a string.
- `answer_callback_query` texts and notices are not modelled. These are "Starting discovery...", "Removing server...", "Cancelled", "Decode error", "Invalid command encoding", "Running: …", "⏳ Executing: …" and "Command execution skipped.". They have no effect on the state.
- The Html fallback in `handle_command_response` is not modelled: when sending HTML fails, it resends as plain text. Whether Telegram rejects a message is outside the model.
- The Gemini provider's `chat`, which uses only the last message, is left out. Each provider is an oracle.
- `Text.ToLower` lowers ASCII letters only. `to_lowercase` is full Unicode lowering. The two agree on whether a name equals "openai" or "gemini" for every name whose lowering changes only ASCII letters.
- Command.AllCommandsInfo: states the number and shape of the entries, not their texts; the texts are constants written out in its body.
- Telegram.HandleCommandResponse: uses the corrected `SplitLongMessage`, not the panicking slicing of the source.
- Discovery.Run: the current time is a parameter taken as a string. `chrono::Local::now()` is a clock read.
- The `ServerManager` and the providers' configuration loaders are not part of this model.
- Telegram.ToolTokenRoundTrip: Telegram's 64-byte limit on callback data is not modelled. The data of a confirmation button exceeds it for every command of 34 or more UTF-8 bytes, and Telegram would then refuse the keyboard; the lemma states the round trip of the data alone.
- Telegram.PromptText: the text Telegram shows is modelled as the HTML request with its bold tags removed. HTML entities are not unescaped, so a provider holding '&' is not covered.
- Text.Find: returns a character index, where Rust's `str::find` returns a byte offset. The model uses the index only to cut the same text (`src/core/session.rs:115-116` and `src/handlers/telegram.rs:71-72`), which gives the same pieces; the offset's numeric value is not modelled.
