# Telegram relay bot: a verified model

The bot forwards private messages from authorized users into one topic thread
of a group chat. Its logic has three parts, and this project models each one
in Dafny:

- **Settings** (`config.py`, module `Config`). Every environment variable is
  an input string, `None` when it is unset. `AUTHORIZED_USER_IDS` is a
  filtered comprehension over `split(",")`. Its non-blank entries are read
  with `int()`, and one bad entry fails the whole list. `GROUPS_CONFIG` is a
  dict comprehension over the entries that contain `:`. It is modelled as an
  insertion-ordered dict (`GroupMap`): keys in first-insertion order, and the
  last label wins. `DEFAULT_GROUP_ID` is the dict's first key.
  `SESSION_TIMEOUT` defaults to `"3600"`. `Config.validate` is a guard chain
  that reports its first failing check.
- **Python string builtins** (module `PyStr`): `strip`, `split` with a
  one-character separator, `join`, and `int` on decimal text. `str(n)` is
  modelled only as the partner `int` is proved against.
- **Session and handlers** (`main.py`, module `Bot`). `SessionManager` is a
  class with the two fields `current_topic` and `current_thread_id`.
  `new_session` overwrites both together. The handlers `start`,
  `help_command`, `new_topic` and `copy_message` are pure decision functions.
  `start` and `help_command` take only the authorization result and the
  welcome text, and return the reply. `new_topic` and `copy_message` take the
  authorization result, the session, the command arguments or an abstract
  message, and the outcome of the outbound call. They return the call made
  (at most one) and the reply sent, and `new_topic` also returns the new
  session. The class methods run the same decisions step by step against
  the object's fields. `Start`, `Help`, `NewTopic` and `CopyMessage` are
  each proved equal to their decision function.

Outbound platform calls are values of `ApiCall`. What a call returns or
raises is a parameter: `create_forum_topic` gives `Result<int, string>` (the
new thread id, or the error), and a `send_*` call gives `Option<string>` (the
error it raised, if any).

Python truthiness is modelled exactly where the code relies on it. An empty
string, an empty list, `None` and thread id `0` all count as absent.

Three behaviours of the code that are easy to miss:

- The allow-list is a list, scanned with `in`.
- When `TOPIC_CREATED_MSG` is unset, the session is still updated, because
  `new_session` runs before the template is formatted. The sender is then
  told "⚠️ Topic creation failed" (`Bot.NewTopicStep`).
- A created thread id of `0` leaves the bot with no active topic, because the
  relay tests the id for truthiness. So the "once active, always active"
  property (`Bot.ActiveTopicStaysActive`) holds only when the platform never
  returns thread id 0.

## Model

| member | source | states |
|---|---|---|
| PyStr.TrimLeftSpec | config.py:15 | `lstrip` returns a suffix of its input, everything it drops is whitespace, and the result does not start with whitespace |
| PyStr.TrimRightSpec | config.py:15 | `rstrip` returns a prefix of its input, everything it drops is whitespace, and the result does not end with whitespace |
| PyStr.StripSpec | config.py:15 | `strip()` (and the stripping inside `int()`, with its own whitespace set) leaves no whitespace at either end, and is empty exactly when the whole input is whitespace (the blank-entry test) |
| PyStr.Split | config.py:21 | `split(sep)` yields at least one part (`"".split(",")` is `[""]`), and no part contains the separator |
| PyStr.JoinSplit | config.py:21 | joining the parts of a split with its separator gives back the input |
| PyStr.SplitJoin | config.py:21 | the converse round trip: parts without the separator come back unchanged from splitting their join |
| PyStr.SplitFirstTwo | config.py:20 | with `i` the first separator and `j` the next one (or the end), part 0 is the text before `i` and part 1 is the text strictly between `i` and `j` |
| PyStr.ParseDecimal | config.py:14 | `int()` reads a run of ASCII digits, bare or after a leading `-` or `+`, as its decimal value |
| PyStr.ParseShowInt | config.py:14 | `int(str(n)) == n` for every integer, also with any `int()` whitespace before and, independently, after it (the set excludes U+001C..U+001F), so `" 2"` from `"1, 2"` reads as 2 |
| PyStr.SeparatorNotIntWhitespace | config.py:14-15 | `"\x1c5"` strips to `"5"`, so it is non-blank, but `int()` rejects it |
| Config.EnvOr | config.py:14 | `os.getenv(name, default)` gives the variable when it is set and the default when it is unset |
| Config.Filter | config.py:15 | a comprehension keeps exactly the entries that pass its test: every kept entry passes and comes from the input, and every entry that passes is kept (in input order, by `Config.FilterAppend`) |
| Config.FilterAppend | config.py:13-16 | the filter keeps input order: it distributes over concatenation |
| Config.Comprehend | config.py:13-16 | a filtered comprehension whose conversion may raise either converts every kept entry, giving their conversions in input order, or fails as a whole with no partial list (success iff every kept entry converts) |
| Config.AuthorizedUserIds | config.py:13-16 | an empty or unset `AUTHORIZED_USER_IDS` yields the empty list; otherwise the list is the comprehension of `Config.Comprehend` with the non-blank test and `int` |
| Config.AuthorizedUserIdsRejectWhole | config.py:14 | `"12,x"`: one non-integer entry fails the list; nothing partial is kept |
| Config.AuthorizedUserIdsRejectSeparator | config.py:13-16 | `"\x1c5"`: the entry is kept by the blank test but `int()` rejects it, so the whole list fails |
| Config.GroupEntry | config.py:20 | a parsed group entry contains `:`, and its label contains none |
| Config.GroupEntryFields | config.py:20 | an entry parses iff the text before its first `:` is an integer; the key is that integer and the label is the text between the first and second `:` |
| Config.GroupEntrySecondSegment | config.py:20 | `"1:a:b"` maps 1 to `"a"`, not to `"a:b"` |
| Config.GroupEntryEmptyLabel | config.py:20 | `"7:"` maps 7 to the empty label |
| Config.Put | config.py:19-23 | dict item assignment keeps the dict well formed; a new key goes last, an existing key keeps its place, and the key takes the new label |
| Config.Dict | config.py:19-23 | inserting the pairs one by one always gives a well-formed insertion-ordered dict |
| Config.LastLabelAt | config.py:19-23 | the label found for a key belongs to the last pair with that key |
| Config.DictLabels | config.py:19-23 | against a reference search: each key's label is the last one given to it (a later duplicate wins), and a key no pair has is absent |
| Config.DictKeys | config.py:19-23 | a key is in the dict iff it appears among the pairs |
| Config.DictOrder | config.py:19-23 | the keys are ordered by where they first appear among the pairs, so a duplicate keeps its first-insertion position |
| Config.DictDuplicateKey | config.py:19-23 | pairs for `"1:a,2:b,1:c"` give keys `[1, 2]`, with 1 labelled `"c"` |
| Config.Groups | config.py:19-23 | the group map parses iff every entry with `:` parses; it is always well formed; an empty or unset variable gives the empty map |
| Config.SkipEntryWithoutColon | config.py:22 | appending an entry without `:` leaves the group map unchanged |
| Config.DefaultGroupId | config.py:26 | the default group is `None` iff the map is empty; otherwise it is the first key in insertion order, and it is in the map |
| Config.SessionTimeout | config.py:33 | an unset `SESSION_TIMEOUT` gives 3600 |
| Config.Load | config.py:9-37 | the class body succeeds iff the user ids, the groups and the timeout all parse; the first failure in source order is the error; on success each setting equals its parser's result (the log format is the constant, the welcome text and the topic-created template are the raw variables), and the default group is `None` iff there are no groups, otherwise the first key |
| Config.Validate | config.py:40-47 | validation passes iff the token is truthy, the allow-list is non-empty and the group map is non-empty; otherwise it reports the first failing check, in that order |
| Config.MissingUsersFailValidation | config.py:13-16 | with a token set and `AUTHORIZED_USER_IDS` unset, loading can succeed, but validation then raises "At least one AUTHORIZED_USER_ID is required" |
| Config.ErrorMessagesDistinct | config.py:41-46 | the three `ValueError` texts of `validate` are pairwise different, so the text names the failed check |
| Bot.WelcomeReply | main.py:37-47 | `/start` and `/help` reply iff the sender is authorized, and then with the welcome message verbatim; an unauthorized sender gets no reply |
| Bot.NewTopicStep | main.py:49-77 | unauthorized: "❌ Unauthorized", no call, no session change. Empty joined name (no args or args joining to `""`): the usage reply, no call, no change. A create call is made iff both checks pass, and it is made with the joined name in the default group. A failed create leaves the session unchanged with the generic failure reply. A successful create sets the session to the name and the returned thread id. The session changes only on a successful create |
| Bot.BlankArgumentsJoin | main.py:56-57 | args `["", ""]` join to `" "`, which is truthy, so it is accepted; `[""]` is a usage error |
| Bot.FirstMedia | main.py:101-148 | media precedence is photo, then video, then document; a photo forwards the file id of the last (largest) size; there is no media iff all three are absent |
| Bot.CopyMessageStep | main.py:79-154 | unauthorized: no call and no reply. No active thread (`None` or 0): the "create topic first" reply and no call. A call is made only for an authorized sender with an active thread. Non-empty text wins, as a text call into the thread. Otherwise a non-empty caption goes with the first media. Otherwise bare media. The reply is "posted", or the failure text with the raised error when the call raised |
| Bot.UnsupportedStillPosted | main.py:150 | content with no text and no media makes no call, but is still answered "✅ Content posted in group" |
| Bot.NewThenRelayText | main.py:49-150 | `/new Project X` then a text message: the topic is created in the default group, the session holds `("Project X", id)`, and the text is forwarded into that thread with the posted reply |
| Bot.RunIsLastInstalled | main.py:24-26 | over any run of updates, the session is the initial one until a `/new` succeeds; after that it is exactly what the last successful `/new` installed (last writer wins, no merge) |
| Bot.UnauthorizedRunKeepsSession | main.py:51-53 | updates from senders outside the allow-list never change the session |
| Bot.ActiveTopicStaysActive | main.py:85 | once a thread is active it stays active, provided no created thread id is 0 |
| Bot.SessionManager.constructor | main.py:20-22 | a new session manager has no topic and no thread |
| Bot.SessionManager.NewSession | main.py:24-26 | both fields are overwritten together with exactly the given values |
| Bot.SessionManager.ValidateUser | main.py:29-33 | true iff the id occurs in the allow-list; the session is not modified (no `modifies` clause) |
| Bot.SessionManager.Start | main.py:37-41 | the reply is the one `Bot.WelcomeReply` gives for the sender's allow-list membership |
| Bot.SessionManager.Help | main.py:43-47 | the reply is the one `Bot.WelcomeReply` gives for the sender's allow-list membership |
| Bot.SessionManager.NewTopic | main.py:49-77 | the call, the reply and the new state of the object are exactly those `Bot.NewTopicStep` gives for the old state |
| Bot.SessionManager.CopyMessage | main.py:79-154 | the call and the reply are exactly those `Bot.CopyMessageStep` gives for the current state; the state is only read |

## Left out

- Telegram API calls are network I/O through a library. `create_forum_topic` and the `send_*` calls (`send_message`, `send_photo`, `send_video`, `send_document`) are returned `ApiCall` values whose outcomes are parameters. `reply_text` is the returned `Reply` value.
- A `reply_text` call that itself raises is not modelled. In `copy_message` it would be caught and answered with the failure text.
- The `parse_mode=None` argument of the send calls is not modelled. The application sets no defaults, so it is the library default anyway.
- `async`/`await` and the unlocked global `session`: interleavings of concurrent handlers are concurrency, not sequential logic. Updates are handled one at a time (`Bot.Run`).
- Dispatcher setup (`main.py:156-178`): `ApplicationBuilder`, the command handlers, the `MessageHandler` filter and `run_polling` are library semantics.
- Logging (`main.py:14-17`, 27, 31, 61, 76, 153) and `getattr(logging, LOG_LEVEL)`. The unclosed parenthesis of `logging.basicConfig(` is also irrelevant to the modelled logic.
- `TOPIC_CREATED_MSG.format(...)`: the reply is the value `TopicCreated(template, name, thread id)`. `str.format` itself is not modelled, and neither are the `KeyError`, `IndexError` or `ValueError` a malformed template raises (an unknown field, a positional `{0}`, an unmatched `{`). The code catches those (`main.py:75-77`) after `new_session` has run (`main.py:67`), so it replies "⚠️ Topic creation failed" with the session already changed; the model does this only for an unset template.
- Exception text `str(e)`: an opaque error string parameter.
- PyStr.ParseInt: underscores between digits and non-ASCII digits are not accepted by the model. The model also has no digit limit, while Python 3.11 and later refuse text of more than `sys.int_max_str_digits` digits (4300 by default). So `PyStr.ParseShowInt` holds in Python only for integers of at most that many digits.
- An unset `WELCOME_MESSAGE` is replied verbatim as `Welcome(None)`. What the platform then does is not modelled.
- A message without `from_user` is not modelled, since every message record carries a user id. The same goes for an update without `message`.
- `SESSION_TIMEOUT` is parsed but used by no logic, and `LOG_FORMAT` is a constant.
