# TODObot in Dafny

TODObot is a small IRC bot (Python 2.7) that keeps a TODO list for each user.
A user talks to it with six commands: `list [filter]`, `add <text>`,
`remove <index>|*`, `help`, `set_diff <seconds>` and `see_diff`. A ticker
reminds each user whose `time_data` timestamp is more than their interval old
how many items they have. It runs on a channel message not addressed to the
bot, a join, a leave and the bot's own channel join. The bot keeps
three dictionaries keyed by nickname:

- `todo_data`: the items of each list;
- `time_data`: when each user was last reminded, or last ran `list` on a
  non-empty list, a successful `add`, or a `remove <index>` that left items;
- `diff_data`: each user's own reminder interval.

Every command that changes a dictionary ends by writing all three to
`todo_data.json`, except `remove *`, which returns before saving
(`todobot.py`, lines 277-281). `list` on a non-empty list saves too. So
does `see_diff` for a user with an interval of their own, though it changes
nothing. `help`, the empty-list reply and every refusal return without
saving. The ticker rewrites timestamps in `time_data` and never saves.

This project models the `TODObot` class, the core of the bot:

- `Text`: the Python 2 string primitives the bot relies on. These are
  `strip`, `replace("\n", "")`, the `in` substring test, `str(int)` and
  `int(str)`. `int(str)` follows CPython 2.7: white space may surround the
  number and may stand between the sign and the digits.
- `Commands`: `_parse_commands` and the clean-up that precedes it.
- `Listing`: the header and the rows that `list` sends.
- `Engine`: the bot as values. `React` is what one line does to the three
  dictionaries, which replies it sends and whether it ends by saving. `Due`
  and `Ticked` describe one tick of the reminder.
- `Store`: the data file as a record whose fields may be missing.
- `Properties`: what the commands and the ticker promise, proved about
  `Engine`.
- `Bot`: the class `TodoBot`. Its methods update the three dictionaries in
  place as the Python methods do, and are proved to agree with `Engine`.
  `ReactToMessage` returns the lines it sends to the sender and
  `ReactToAnything` returns the reminders it sends. The data file is a field
  that `SaveDataFile` overwrites.

The clock is a parameter `now: int`. The help file is a parameter: its lines,
or `None` when it does not exist.

Two behaviours of the code are easy to misread, and the model keeps both
as written:

- The ticker reminds a user when their timestamp is strictly less than
  `now - diff` (`todobot.py`, line 109). A user whose timestamp is exactly
  `now - diff` waits for the next tick.
- The `add` guard is `len(...) > MAX_DATA` (line 257), while its refusal says
  "You can have only 25 items!" (line 258). A list of 25 items still accepts
  a 26th. `Properties.CapacityIsOneMore` states this bound.

## Model

| member | source | states |
|---|---|---|
| Text.Strip | example/todobot.py:132 | `strip()` leaves a run of the input that neither starts nor ends with white space. Everything before and after that run is white space. |
| Text.LStripTrims | example/todobot.py:132 | The leading part `strip()` drops is all white space, and the rest of the string is kept unchanged. |
| Text.RStripTrims | example/todobot.py:132 | The trailing part `strip()` drops is all white space, and the rest of the string is kept unchanged. |
| Text.RemoveAll | example/todobot.py:159 | `replace("\n", "")` leaves no newline and keeps every other character the same number of times. A string without a newline comes back unchanged. |
| Text.RemoveAllOfConcat | example/todobot.py:159 | `replace` works piece by piece: removing from `a + b` is removing from `a`, then from `b`, so the other characters keep their order. |
| Text.StripOfStripped | example/todobot.py:132 | A string that neither starts nor ends with white space is its own `strip()`. |
| Text.ContainsInfix | example/todobot.py:244 | `filter in item` holds whenever the filter stands anywhere inside the item. |
| Text.IntToString | example/todobot.py:214-217 | `str(n)` is never empty, never starts with white space, and starts with '-' exactly when `n` is negative. |
| Text.ParseIntOfBlank | example/todobot.py:285-289 | `int()` of an empty or all-white-space string raises `ValueError`. |
| Text.ParseIntRoundTrip | example/todobot.py:204-208 | `int()` reads back what `str()` writes, with any white space before and after it. |
| Text.ParseIntAccepts | example/todobot.py:284-289 | Whatever `int()` accepts is white space, an optional sign, white space after a sign, at least one digit (leading zeros allowed) spelling the magnitude, and white space. |
| Text.ParseIntOfShape | example/todobot.py:284-289 | The converse: `int()` accepts every such string (a `+` sign, leading zeros and white space after the sign included), and its value is the digits' value, negated after '-'. |
| Commands.Cleaned | example/todobot.py:158-159 | The cleaned line has no newline, and it neither starts nor ends with white space. |
| Commands.SplitAtSpace | example/todobot.py:134-137 | `split(" ", 1)` gives the text before the first space and everything after it. Without a space, the argument is empty. |
| Commands.ParseCommands | example/todobot.py:126-137 | The command word has no space, and word + " " + argument is the stripped message. Without a space, the word is the whole stripped message and the argument is empty. |
| Commands.ParseOfWordAndArgument | example/todobot.py:126-159 | A word without white space, one space and an argument with no newline and no trailing white space clean and parse back into exactly that word and argument. |
| Commands.ArgumentEndsInText | example/todobot.py:132-135 | The argument of a command never ends in white space. |
| Listing.HeaderOfOne | example/todobot.py:232-236 | With one item, the header is "You have 1 TODO on your TODO list:". |
| Listing.HeaderTellsCount | example/todobot.py:232-236 | Different counts give different headers, so the header tells the count. |
| Listing.RowOfFirst | example/todobot.py:246 | Item 0 is listed as " #0: " followed by its text. |
| Listing.RowTellsItem | example/todobot.py:246 | A row tells both the index and the text of its item: equal rows come from the same index and the same text. |
| Listing.Shown | example/todobot.py:243-245 | The shown indices are exactly the items the filter lets through, in increasing order. |
| Listing.RowsAreShown | example/todobot.py:243-246 | `list` sends one row per shown item, in order. Each row carries the item's index in the whole list. |
| Listing.RowsUnfiltered | example/todobot.py:243-246 | With no filter, row `i` shows item `i`. |
| Listing.ListRows | example/todobot.py:243-246 | The `enumerate` loop sends exactly the rows `Rows` describes. |
| Engine.Classify | example/todobot.py:163-168 | A word is rejected exactly when it is not one of the six commands. |
| Engine.Deleted | example/todobot.py:297 | `del items[i]` removes item `i` and keeps the others in order. |
| Engine.ReminderTellsCount | example/todobot.py:112-124 | Different item counts give different reminders, so the reminder tells the count. |
| Engine.RunHelp | example/todobot.py:170-179 | `help` changes no dictionary and does not save. |
| Engine.RunSeeDiff | example/todobot.py:181-191 | `see_diff` changes no dictionary. |
| Engine.RunSetDiff | example/todobot.py:197-222 | `set_diff` writes only the interval dictionary, and only the sender's entry. |
| Engine.RunList | example/todobot.py:224-248 | `list` changes neither the lists nor the intervals. The timestamps stay, or only the sender's becomes `now`. |
| Engine.RunAdd | example/todobot.py:250-265 | `add` leaves the intervals alone and touches only the sender's list and timestamp. |
| Engine.RunRemove | example/todobot.py:267-304 | `remove` leaves the intervals alone and touches only the sender's list and timestamp. |
| Engine.Due | example/todobot.py:97-110 | Only a user with a timestamp can be due for a reminder. |
| Engine.Ticked | example/todobot.py:101-110 | A tick changes neither the lists nor the intervals, and keeps the set of users with a timestamp. |
| Store.Load | example/todobot.py:309-320 | Without a data file, all three dictionaries start empty. |
| Store.Snapshot | example/todobot.py:322-331 | The model's data file is a lossless snapshot: loading what `Snapshot` writes gives back the same three dictionaries. The source's JSON encoding is not lossless, as the last section says. |
| Store.EmptyStartIsValid | example/todobot.py:309-320 | A bot started without a data file is consistent, keeps every interval at least `MIN_TIME_DIFF` and every list within capacity. |
| Properties.UnknownCommandChangesNothing | example/todobot.py:163-168 | An unknown command gets the fixed reply, changes nothing and does not save. |
| Properties.CommandLineRunsCommand | example/todobot.py:158-168 | The raw line "<command> <argument>" runs exactly that command on exactly that argument, when the argument has no newline and does not end in white space. |
| Properties.HelpChangesNothing | example/todobot.py:170-179 | `help` sends the help file's lines, or the two-line apology when the file is missing. It changes nothing and does not save. |
| Properties.SeeDiffReports | example/todobot.py:181-191 | `see_diff` reports the user's own interval and then saves, or reports the default without saving. Nothing changes. |
| Properties.SetDiffStoresOnlyValid | example/todobot.py:197-222 | `set_diff` stores the value exactly when it is an integer of at least 60. Each failure has its own reply and changes nothing. Only the interval dictionary can change. |
| Properties.SetDiffThreshold | example/todobot.py:205-222 | `set_diff` with any integer written by `str`, possibly padded with white space, stores it exactly when it is at least 60. |
| Properties.ListShowsItems | example/todobot.py:224-248 | An empty list gets "There is no TODO for you (yet)." and nothing changes. Otherwise `list` sends the header with the count and one row per matching item, and refreshes the user's timestamp. |
| Properties.ListUnfiltered | example/todobot.py:232-246 | `list` without a filter sends the header and then every item, row `k` showing item `k`. |
| Properties.AddAppends | example/todobot.py:251-265 | `add` appends the text to the sender's list, creating the list if needed. It refreshes the sender's timestamp, saves, and leaves every other user as they were. |
| Properties.AddRefuses | example/todobot.py:252-259 | `add` refuses blank text and a list already longer than `MAX_DATA`. Nothing changes. |
| Properties.CapacityIsOneMore | example/todobot.py:256-260 | A list of exactly `MAX_DATA` items still accepts one more item. The list of 26 then refuses the next `add`. |
| Properties.RemoveDeletesOne | example/todobot.py:292-304 | `remove i` with a valid index deletes exactly item `i` and keeps the rest in order. An emptied list loses its timestamp with it. Otherwise the timestamp is refreshed. |
| Properties.RemoveAllDropsBoth | example/todobot.py:277-281 | `remove *` drops the sender's list and timestamp and returns without saving. |
| Properties.RemoveRefuses | example/todobot.py:269-294 | An empty list, a missing argument, a non-integer and an index out of range each get their own reply and change nothing. |
| Properties.RunPreservesConsistency | example/todobot.py:224-304 | Every command keeps the invariant that a user has a timestamp exactly when they have a non-empty list. |
| Properties.ReactPreservesConsistency | example/todobot.py:148-306 | Every line keeps that invariant. |
| Properties.RunPreservesIntervals | example/todobot.py:210-221 | Every command keeps every interval at least `MIN_TIME_DIFF`. |
| Properties.ReactPreservesIntervals | example/todobot.py:148-306 | Every line keeps every interval at least `MIN_TIME_DIFF`. |
| Properties.RunKeepsCapacity | example/todobot.py:256-262 | Every command keeps every list at most `MAX_DATA + 1` items long. |
| Properties.ReactKeepsCapacity | example/todobot.py:148-306 | Every line keeps every list at most `MAX_DATA + 1` items long. |
| Properties.RunTouchesOnlySender | example/todobot.py:170-304 | A command from `nick` leaves every other user's list, timestamp and interval as they were. |
| Properties.ReactTouchesOnlySender | example/todobot.py:148-306 | A line from `nick` leaves every other user's list, timestamp and interval as they were. |
| Properties.AddThenList | example/todobot.py:232-265 | After `add t`, `list` shows one more item, with `t` last at index old-length. |
| Properties.FirstAddThenList | example/todobot.py:232-265 | From no list, `add t` answers "TODO updated.". A following `list` answers "You have 1 TODO on your TODO list:" and " #0: t". |
| Properties.RemoveThenListReindexes | example/todobot.py:243-304 | After `remove i`, `list` numbers the remaining items 0, 1, ... with no gap. |
| Properties.ListAfterRemove | example/todobot.py:243-297 | Listing the state `remove i` leaves shows the items before `i` at their own index and the items after `i` one lower. |
| Properties.TickPreservesConsistency | example/todobot.py:97-110 | A tick changes only timestamps of users who already had one, so it keeps the consistency invariant. |
| Properties.DueGrowsWithTime | example/todobot.py:109 | A user due at one time is still due at any later time, as long as no tick refreshes them. |
| Properties.TickRefreshesDue | example/todobot.py:109-124 | A reminded user's timestamp becomes `now`. Every other timestamp stays. |
| Properties.SecondTickIsQuiet | example/todobot.py:101-124 | With no negative interval, a second tick at the same time reminds nobody. |
| Bot.TodoBot.constructor | example/todobot.py:32-35 | A new bot holds what the data file holds. Without a data file it starts consistent, so it can take its first line. |
| Bot.TodoBot.ReadDataFile | example/todobot.py:309-320 | The three dictionaries become what `Store.Load` reads from the data file. |
| Bot.TodoBot.SaveDataFile | example/todobot.py:322-331 | The data file becomes the model's lossless snapshot of the three dictionaries, which loads back as them. |
| Bot.TodoBot.OnQuit | example/todobot.py:37-43 | Quitting saves the dictionaries. |
| Bot.TodoBot.ProlongUser | example/todobot.py:80-84 | The user's timestamp becomes `now`. Nothing else changes. |
| Bot.TodoBot.Remind | example/todobot.py:112-124 | The reminder goes to the user with their own item count, and their timestamp becomes `now`. |
| Bot.TodoBot.TickUser | example/todobot.py:101-110 | One pass of the loop reminds the user exactly when their timestamp is older than their interval. |
| Bot.TodoBot.ReactToAnything | example/todobot.py:86-110 | The ticker reminds exactly the users `Engine.Due` names, each once and with their own count. The new timestamps are `Engine.Ticked`, and the consistency invariant is kept. |
| Bot.TodoBot.ReactToMessage | example/todobot.py:148-306 | The new dictionaries and the replies are those of `Engine.React`. The data file is rewritten exactly when that outcome saves. The consistency invariant is kept. |
| Bot.TodoBot.RunAndSave | example/todobot.py:170-306 | A known command does what `Engine.Run` says, and the data file is rewritten exactly when that outcome saves. |
| Bot.TodoBot.RunCommand | example/todobot.py:170-304 | Dispatching on the command word does what `Engine.Run` says. |
| Bot.TodoBot.HelpCommand | example/todobot.py:170-179 | Matches `Engine.RunHelp`. |
| Bot.TodoBot.SeeDiffCommand | example/todobot.py:181-191 | Matches `Engine.RunSeeDiff`. |
| Bot.TodoBot.SetDiffCommand | example/todobot.py:197-222 | Matches `Engine.RunSetDiff`. |
| Bot.TodoBot.ListCommand | example/todobot.py:194-248 | Matches `Engine.RunList`. |
| Bot.TodoBot.AddCommand | example/todobot.py:250-265 | Matches `Engine.RunAdd`. |
| Bot.TodoBot.RemoveCommand | example/todobot.py:194-304 | Matches `Engine.RunRemove`. |
| Bot.TodoBot.RemoveAt | example/todobot.py:296-304 | Deletes item `i`. The user is dropped from both dictionaries when it was their last item, and prolonged otherwise. |

## Left out

- The IRC transport is not modelled: `FrozenIdea2`, `on_server_connected` (`MODE +B`, joining the channel) and `on_kick` (sleep and rejoin). It is network I/O.
- `on_channel_message` and `on_private_message` are not modelled. They route an event to `react_to_message` or to the ticker, and `msg.split(" ", 1)[1]` raises `IndexError` on a bare highlight. This routing is event dispatch of the IRC library.
- The callback fan-in (`on_somebody_leaved`, `on_somebody_joined_chan`, `on_channel_join`) is not modelled. Neither is `on_select_timeout`, which raises `NameError` on its undefined `chan_name`. `ReactToAnything` is the ticker they all call.
- Sending (`send`, `send_msg`, `send_array`) is modelled by returning the lines. `msg_to` is kept as a field.
- Reading the help file (`os.path.exists`, `open`, `read().splitlines()`) is I/O. It is a parameter: the file's lines, or `None` when it is missing.
- The file name `todo_data.json` and JSON itself are not modelled. The data file is a `Store.Persisted` record of optional fields, and saving it is lossless.
- Store.Snapshot: the source saves with `json.dump(..., encoding="unicode_escape")` (line 331), which decodes every byte string as a Python escape sequence before writing it. The model does not capture what this loses. A backslash sequence in an item or a nickname is rewritten: `C:\temp` comes back with a tab. Non-ASCII bytes come back as Latin-1 code points. A string that ends in a backslash makes `save_data_file` raise after `open(DATA_FILE, "wt")` has already emptied the file. None of this is proved here.
- `time.time()` returns a float. The model takes an integer `now`, and stored timestamps are integers, so the `int()` on the stored timestamp changes nothing.
- Bot.TodoBot.ReactToAnything: the source reads the clock once per user. The model reads it once per tick.
- Bot.TodoBot.ReactToAnything: the order of the reminders follows dictionary iteration in the source. The model proves who gets a reminder, and that each gets one, but not the order.
- Python 2 `str` holds bytes. The model works on characters, with `isspace` over the six ASCII white-space characters, and has no Unicode handling.
- `Engine.Run`, `Engine.React`, `Listing.Rows`, `Listing.Matches`, `Text.ParseInt`, `Listing.Header`, `Listing.Row` and `Engine.Reminder` have no contract of their own. What they promise is stated by lemmas: `Properties.RunTouchesOnlySender`, `Properties.ReactTouchesOnlySender` and the command lemmas; `Listing.RowsAreShown` and `Text.ContainsInfix`; `Text.ParseIntRoundTrip`, `Text.ParseIntAccepts`, `Text.ParseIntOfShape` and `Text.ParseIntOfBlank`; `Listing.HeaderTellsCount` and `Listing.HeaderOfOne`; `Listing.RowTellsItem` and `Listing.RowOfFirst`; `Engine.ReminderTellsCount`.
- `private_message` and `output_template` as a `string.Template` are not modelled separately: the flag is never read, and the template is written out in `Listing.Header`.
- The second `if data_len == 0` test inside `list` cannot be reached, so the model has no counterpart for it.
- Bot.TodoBot.ReactToMessage: requires the consistency invariant, `Valid()`. So do `Bot.TodoBot.RunAndSave`, `Bot.TodoBot.RunCommand`, `Bot.TodoBot.RemoveCommand` and `Bot.TodoBot.RemoveAt`. Without it, `del self.time_data[nickname]` can raise `KeyError`, which only a hand-edited data file could cause. Raising is not modelled.
- Bot.TodoBot.ReactToAnything: requires every user the tick finds due to have a list. A due user without one makes `zapicuj` raise `KeyError`, which is not modelled. When `todo_data` is empty nobody is due (lines 97-98), so the requirement holds there.
- `%d` on a stored interval truncates a float. The model's intervals are integers, which is all `set_diff` can store.
