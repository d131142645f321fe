/** The TODO engine as values: the three dictionaries of the bot, what one
    command line does to them, and what one tick of the reminder does. The
    class `Bot.TodoBot` changes its fields in place and is proved to agree
    with these functions; the properties are proved about them in `Properties`. */
module Engine {
  import opened Wrappers
  import opened Text
  import opened Commands
  import opened Listing

  const MAX_DATA := 25
  const MIN_TIME_DIFF := 60
  const TIME_DIFF := 60 * 60
  const HELP_FILE := "help.txt"
  const UNKNOWN_COMMAND := "Unknown command or bad syntax! Type 'help' for help."
  const COMMANDS := ["list", "add", "remove", "help", "set_diff", "see_diff"]

  // The fixed replies of `react_to_message`.
  const HELP_MISSING := ["Help file '" + HELP_FILE + "' doesn't exits.", "Please, contact owner of this bot."]
  const DEFAULT_DIFF := "You didn't set your own time diff. Using default " + IntToString(TIME_DIFF) + "s."
  const SET_DIFF_NO_PARAMETER := "`set_diff` expects one parameter!"
  const SET_DIFF_NOT_INTEGER := "`set_diff` command expects one integer parameter!"
  const SET_DIFF_NOT_POSITIVE := "Time diff have to be positive number."
  const SET_DIFF_BELOW_MIN := "Min. time diff: " + IntToString(MIN_TIME_DIFF) + ". Leaving unchanged."
  const SET_DIFF_DONE := "Time diff updated."
  const NO_TODO := "There is no TODO for you (yet)."
  const ADD_BLANK := "Your TODO message is blank!"
  const ADD_FULL := "You can have only " + IntToString(MAX_DATA) + " items!"
  const ADD_DONE := "TODO updated."
  const REMOVE_NO_PARAMETER := "`remove` expects index parameter!"
  const REMOVE_ALL_DONE := "All data removed."
  const REMOVE_NOT_INTEGER := "`remove` command expects integer parameter!"
  const REMOVE_BAD_INDEX := "Bad index!"

  function DiffReport(diff: int): string {
    "Your time diff is set to " + IntToString(diff) + "s."
  }

  function Removed(index: int): string {
    "Item #" + IntToString(index) + " removed."
  }

  /** The reminder `zapicuj` sends to a user with `n` items. */
  function Reminder(n: nat): string {
    "You have " + IntToString(n) + " item" + (if n > 1 then "s" else "")
      + " on your TODO list. For listing, type 'list'."
  }

  /** The reminder tells the count: different counts give different reminders. */
  lemma ReminderTellsCount(a: nat, b: nat)
    requires Reminder(a) == Reminder(b)
    ensures a == b
  {
    NumeralsAgree("You have ", a, ReminderTail(a), b, ReminderTail(b));
  }

  /** What follows the count in a reminder. */
  function ReminderTail(n: nat): (t: string)
    ensures Reminder(n) == "You have " + NatToString(n) + t
    ensures t != [] && !IsDigit(t[0])
  {
    var t := " item" + (if n > 1 then "s" else "") + " on your TODO list. For listing, type 'list'.";
    assert t[0] == ' ';
    t
  }

  /** `todo_data`, `time_data` and `diff_data`, all keyed by nickname. */
  datatype Maps = Maps(todo: map<string, seq<string>>, time: map<string, int>, diff: map<string, int>)

  /** What one command line does: the new dictionaries, the lines sent back to
      the sender, and whether the branch ends in `save_data_file`. */
  datatype Outcome = Outcome(maps: Maps, replies: seq<string>, save: bool)

  /** The six commands `react_to_message` knows. */
  datatype Command = List | Add | Remove | Help | SetDiff | SeeDiff

  /** `command not in commands` and the `command == ...` tests that follow it. */
  function Classify(word: string): (c: Option<Command>)
    ensures c.None? <==> word !in COMMANDS
  {
    if word == "list" then Some(List)
    else if word == "add" then Some(Add)
    else if word == "remove" then Some(Remove)
    else if word == "help" then Some(Help)
    else if word == "set_diff" then Some(SetDiff)
    else if word == "see_diff" then Some(SeeDiff)
    else None
  }

  /** A message the bot sends on its own: recipient and text. */
  datatype Outgoing = Outgoing(to: string, text: string)

  /** `todo_data.get(nick, [])`. */
  function Items(m: Maps, nick: string): seq<string> {
    if nick in m.todo then m.todo[nick] else []
  }

  /** A user has a `time_data` entry exactly when they have a non-empty list. */
  ghost predicate Consistent(m: Maps) {
    forall u :: u in m.time <==> u in m.todo && m.todo[u] != []
  }

  /** Every interval a user has set respects `MIN_TIME_DIFF`. */
  ghost predicate IntervalsAtLeastMin(m: Maps) {
    forall u :: u in m.diff ==> m.diff[u] >= MIN_TIME_DIFF
  }

  /** No list is longer than the `add` guard lets it grow (`MAX_DATA + 1` items). */
  ghost predicate WithinCapacity(m: Maps) {
    forall u :: u in m.todo ==> |m.todo[u]| <= MAX_DATA + 1
  }

  /** A line from `nick` leaves every other user's entries as they were. */
  ghost predicate OthersUnchanged(m: Maps, m2: Maps, nick: string) {
    && m2.todo - {nick} == m.todo - {nick}
    && m2.time - {nick} == m.time - {nick}
    && m2.diff - {nick} == m.diff - {nick}
  }

  /** `del items[i]`: item `i` goes, the others keep their order. */
  function Deleted(items: seq<string>, i: nat): (r: seq<string>)
    requires i < |items|
    ensures |r| == |items| - 1
    ensures forall k :: 0 <= k < i ==> r[k] == items[k]
    ensures forall k :: i <= k < |r| ==> r[k] == items[k + 1]
  {
    items[..i] + items[i + 1..]
  }

  // ---------------------------------------------------------------------------
  // react_to_message

  /** `help`: the help file's lines, or two apologetic lines when it is missing. */
  function RunHelp(m: Maps, helpFile: Option<seq<string>>): (o: Outcome)
    ensures o.maps == m && !o.save
  {
    match helpFile
    case None => Outcome(m, HELP_MISSING, false)
    case Some(lines) => Outcome(m, lines, false)
  }

  /** `see_diff`: reports the user's interval; with one set, the branch falls
      through to `save_data_file`. */
  function RunSeeDiff(m: Maps, nick: string): (o: Outcome)
    ensures o.maps == m
  {
    if nick !in m.diff then Outcome(m, [DEFAULT_DIFF], false)
    else Outcome(m, [DiffReport(m.diff[nick])], true)
  }

  /** `set_diff`: stores an interval of at least `MIN_TIME_DIFF` seconds. */
  function RunSetDiff(m: Maps, nick: string, arg: string): (o: Outcome)
    ensures o.maps.todo == m.todo && o.maps.time == m.time
    ensures OthersUnchanged(m, o.maps, nick)
  {
    if arg == "" then Outcome(m, [SET_DIFF_NO_PARAMETER], false)
    else match ParseInt(arg)
      case None => Outcome(m, [SET_DIFF_NOT_INTEGER], false)
      case Some(v) =>
        if v <= 0 then Outcome(m, [SET_DIFF_NOT_POSITIVE], false)
        else if v < MIN_TIME_DIFF then Outcome(m, [SET_DIFF_BELOW_MIN], false)
        else Outcome(m.(diff := m.diff[nick := v]), [SET_DIFF_DONE], true)
  }

  /** `list`: header and matching rows, then `prolong_user`. */
  function RunList(m: Maps, nick: string, filter: string, now: int): (o: Outcome)
    ensures o.maps.todo == m.todo && o.maps.diff == m.diff
    ensures o.maps.time == m.time || o.maps.time == m.time[nick := now]
  {
    var data := Items(m, nick);
    if |data| == 0 then Outcome(m, [NO_TODO], false)
    else Outcome(m.(time := m.time[nick := now]), [Header(|data|)] + Rows(data, filter), true)
  }

  /** `add`: appends the text to the user's list, refused when blank or when the
      list already holds more than `MAX_DATA` items. */
  function RunAdd(m: Maps, nick: string, text: string, now: int): (o: Outcome)
    ensures o.maps.diff == m.diff
    ensures OthersUnchanged(m, o.maps, nick)
  {
    if text == "" then Outcome(m, [ADD_BLANK], false)
    else if nick in m.todo && |m.todo[nick]| > MAX_DATA then Outcome(m, [ADD_FULL], false)
    else
      var items := if nick in m.todo then m.todo[nick] + [text] else [text];
      Outcome(Maps(m.todo[nick := items], m.time[nick := now], m.diff), [ADD_DONE], true)
  }

  /** `remove`: `*` drops the user's list and timestamp (and returns before
      saving); an index drops one item, and the timestamp too when the list
      becomes empty. */
  function RunRemove(m: Maps, nick: string, arg: string, now: int): (o: Outcome)
    ensures o.maps.diff == m.diff
    ensures OthersUnchanged(m, o.maps, nick)
  {
    var data := Items(m, nick);
    if |data| == 0 then Outcome(m, [NO_TODO], false)
    else if arg == "" then Outcome(m, [REMOVE_NO_PARAMETER], false)
    else if arg == "*" then Outcome(Maps(m.todo - {nick}, m.time - {nick}, m.diff), [REMOVE_ALL_DONE], false)
    else match ParseInt(arg)
      case None => Outcome(m, [REMOVE_NOT_INTEGER], false)
      case Some(i) =>
        if i < 0 || i >= |data| then Outcome(m, [REMOVE_BAD_INDEX], false)
        else
          var rest := Deleted(data, i);
          if rest == [] then Outcome(Maps(m.todo - {nick}, m.time - {nick}, m.diff), [Removed(i)], true)
          else Outcome(Maps(m.todo[nick := rest], m.time[nick := now], m.diff), [Removed(i)], true)
  }

  /** One known command with its argument. */
  function Run(m: Maps, nick: string, command: Command, arg: string, now: int, helpFile: Option<seq<string>>): Outcome {
    match command
    case Help => RunHelp(m, helpFile)
    case SeeDiff => RunSeeDiff(m, nick)
    case SetDiff => RunSetDiff(m, nick, arg)
    case List => RunList(m, nick, arg, now)
    case Add => RunAdd(m, nick, arg, now)
    case Remove => RunRemove(m, nick, arg, now)
  }

  /** `react_to_message`: clean the line, split off the command, dispatch. */
  function React(m: Maps, nick: string, msg: string, now: int, helpFile: Option<seq<string>>): Outcome {
    var parsed := ParseCommands(Cleaned(msg));
    match Classify(parsed.0)
    case None => Outcome(m, [UNKNOWN_COMMAND], false)
    case Some(command) => Run(m, nick, command, parsed.1, now, helpFile)
  }

  // ---------------------------------------------------------------------------
  // react_to_anything (the reminder ticker)

  /** The user's own interval, or `TIME_DIFF`. */
  function Interval(m: Maps, u: string): int {
    if u in m.diff then m.diff[u] else TIME_DIFF
  }

  /** The users a tick at `now` reminds: none when either dictionary is empty,
      otherwise those whose timestamp is strictly older than their interval. */
  function Due(m: Maps, now: int): (due: set<string>)
    ensures due <= m.time.Keys
  {
    if m.time == map[] || m.todo == map[] then {}
    else set u | u in m.time && m.time[u] < now - Interval(m, u)
  }

  /** The dictionaries after a tick: every reminded user's timestamp becomes `now`. */
  function Ticked(m: Maps, now: int): (t: Maps)
    ensures t.todo == m.todo && t.diff == m.diff && t.time.Keys == m.time.Keys
  {
    var due := Due(m, now);
    m.(time := map u | u in m.time :: if u in due then now else m.time[u])
  }
}
