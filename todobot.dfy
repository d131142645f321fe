/** `TODObot` as an object: the three dictionaries it updates in place, the
    nickname replies go to, and the data file it writes. Sending a message is
    modelled by returning it: `react_to_message` returns the lines it sends to
    the sender, the ticker returns the reminders it sends. */
module Bot {
  import opened Wrappers
  import opened Commands
  import opened Listing
  import opened Engine
  import opened Store
  import Text
  import Properties

  /** The users a batch of outgoing messages goes to. */
  function Recipients(sent: seq<Outgoing>): set<string> {
    set k | 0 <= k < |sent| :: sent[k].to
  }

  lemma RecipientsOfAppend(sent: seq<Outgoing>, next: Outgoing)
    ensures Recipients(sent + [next]) == Recipients(sent) + {next.to}
  {
    var all := sent + [next];
    assert all[|sent|] == next;
    forall u | u in Recipients(sent)
      ensures u in Recipients(all)
    {
      var k :| 0 <= k < |sent| && sent[k].to == u;
      assert all[k] == sent[k];
    }
  }

  /** Where the ticker's loop stands once the users outside `pending` have been
      handled: their timestamps are refreshed exactly when they were due and
      the others keep theirs ... */
  ghost predicate TickTimes(m0: Maps, now: int, pending: set<string>, time: map<string, int>) {
    var due := Due(m0, now);
    && pending <= m0.time.Keys && time.Keys == m0.time.Keys
    && (forall u :: u in pending ==> time[u] == m0.time[u])
    && (forall u :: u in time && u !in pending ==> time[u] == if u in due then now else m0.time[u])
  }

  /** ... and each of the due ones has had one reminder with their own count. */
  ghost predicate TickSent(m0: Maps, now: int, pending: set<string>, sent: seq<Outgoing>) {
    && Recipients(sent) == Due(m0, now) - pending
    && (forall k :: 0 <= k < |sent| ==> sent[k].to !in pending)
    && (forall j, k :: 0 <= j < k < |sent| ==> sent[j].to != sent[k].to)
    && (forall k :: 0 <= k < |sent| ==> sent[k].to in m0.todo && sent[k].text == Reminder(|m0.todo[sent[k].to]|))
  }

  ghost predicate TickInvariant(m0: Maps, now: int, pending: set<string>, time: map<string, int>, sent: seq<Outgoing>) {
    TickTimes(m0, now, pending, time) && TickSent(m0, now, pending, sent)
  }

  /** The loop starts with every user pending and nothing sent. */
  lemma TickStart(m0: Maps, now: int)
    ensures TickInvariant(m0, now, m0.time.Keys, m0.time, [])
  {
  }

  /** One pass of the loop keeps the timestamps part of the invariant. */
  lemma TickStepTimes(m0: Maps, now: int, pending: set<string>, time: map<string, int>, username: string, reminded: bool)
    requires m0.time != map[] && m0.todo != map[]
    requires TickTimes(m0, now, pending, time) && username in pending
    requires reminded == (time[username] < now - Interval(m0, username))
    ensures TickTimes(m0, now, pending - {username}, if reminded then time[username := now] else time)
    ensures username in Due(m0, now) <==> reminded
  {
  }

  /** One pass of the loop keeps the reminders part of the invariant. */
  lemma TickStepSent(m0: Maps, now: int, pending: set<string>, sent: seq<Outgoing>, username: string, reminded: Option<Outgoing>)
    requires TickSent(m0, now, pending, sent) && username in pending
    requires username in Due(m0, now) ==> username in m0.todo
    requires reminded.Some? <==> username in Due(m0, now)
    requires reminded.Some? ==> reminded.value == Outgoing(username, Reminder(|m0.todo[username]|))
    ensures TickSent(m0, now, pending - {username}, if reminded.Some? then sent + [reminded.value] else sent)
  {
    if reminded.Some? {
      var r := reminded.value;
      var sent' := sent + [r];
      RecipientsOfAppend(sent, r);
      assert forall k :: 0 <= k < |sent| ==> sent'[k] == sent[k];
      assert sent'[|sent|] == r;
    }
  }

  /** One pass of the loop keeps the invariant. */
  lemma TickStep(m0: Maps, now: int, pending: set<string>, time: map<string, int>, sent: seq<Outgoing>,
                 username: string, reminded: Option<Outgoing>)
    requires m0.time != map[] && m0.todo != map[]
    requires TickInvariant(m0, now, pending, time, sent) && username in pending
    requires time[username] < now - Interval(m0, username) ==> username in m0.todo
    requires reminded == if time[username] < now - Interval(m0, username)
                         then Some(Outgoing(username, Reminder(|m0.todo[username]|))) else None
    ensures TickInvariant(m0, now, pending - {username},
                          if reminded.Some? then time[username := now] else time,
                          if reminded.Some? then sent + [reminded.value] else sent)
  {
    TickStepTimes(m0, now, pending, time, username, reminded.Some?);
    TickStepSent(m0, now, pending, sent, username, reminded);
  }

  /** When nothing is pending, the loop has done what a tick does. */
  lemma TickEnd(m0: Maps, now: int, time: map<string, int>, sent: seq<Outgoing>)
    requires m0.time != map[] && m0.todo != map[]
    requires TickInvariant(m0, now, {}, time, sent)
    ensures time == Ticked(m0, now).time && Recipients(sent) == Due(m0, now)
  {
    assert time == Ticked(m0, now).time;
  }

  class TodoBot {
    var todoData: map<string, seq<string>>
    var timeData: map<string, int>
    var diffData: map<string, int>
    /** Who `send` writes to: the sender of the line being handled. */
    var msgTo: string
    /** The data file `todo_data.json`; `None` while there is none. */
    var dataFile: Option<Persisted>

    function State(): Maps
      reads this
    {
      Maps(todoData, timeData, diffData)
    }

    /** A user has a timestamp exactly when they have a non-empty list. Outside
        it, `del self.time_data[nickname]` in `remove` and
        `self.todo_data[username]` in `zapicuj` would raise `KeyError`. */
    ghost predicate Valid()
      reads this
    {
      Consistent(State())
    }

    /** `__init__`: loads whatever the data file holds. */
    constructor (file: Option<Persisted>)
      ensures State() == Load(file) && dataFile == file && msgTo == ""
      ensures file.None? ==> Valid()
    {
      dataFile := file;
      msgTo := "";
      new;
      ReadDataFile();
      EmptyStartIsValid();
    }

    /** `read_data_file`: each dictionary from its field, empty when it is missing. */
    method ReadDataFile()
      modifies this`todoData, this`timeData, this`diffData
      ensures State() == Load(dataFile)
    {
      var data := dataFile.GetOr(Persisted(None, None, None));
      timeData := data.time.GetOr(map[]);
      todoData := data.todo.GetOr(map[]);
      diffData := data.diff.GetOr(map[]);
    }

    /** `save_data_file`: writes the three dictionaries. */
    method SaveDataFile()
      modifies this`dataFile
      ensures dataFile == Some(Snapshot(State()))
      ensures Load(dataFile) == State()
    {
      dataFile := Some(Persisted(Some(timeData), Some(todoData), Some(diffData)));
    }

    /** `on_quit`: saves before leaving. */
    method OnQuit()
      modifies this`dataFile
      ensures dataFile == Some(Snapshot(State()))
    {
      SaveDataFile();
    }

    /** `prolong_user`: the user is left alone for another interval. */
    method ProlongUser(username: string, now: int)
      modifies this`timeData
      ensures timeData == old(timeData)[username := now]
    {
      timeData := timeData[username := now];
    }

    /** `zapicuj`: tells the user how many items wait for them, then prolongs them. */
    method Remind(username: string, now: int) returns (sent: Outgoing)
      requires username in todoData
      modifies this`timeData
      ensures sent == Outgoing(username, Reminder(|todoData[username]|))
      ensures timeData == old(timeData)[username := now]
    {
      var num := |todoData[username]|;
      sent := Outgoing(username, Reminder(num));
      ProlongUser(username, now);
    }

    /** One pass of the ticker's loop: the user is reminded (and prolonged)
        when their timestamp is older than their interval. */
    method TickUser(username: string, now: int) returns (reminded: Option<Outgoing>)
      requires username in timeData
      requires timeData[username] < now - Interval(State(), username) ==> username in todoData
      modifies this`timeData
      ensures var due := old(timeData[username]) < now - Interval(State(), username);
              && reminded == (if due then Some(Outgoing(username, Reminder(|todoData[username]|))) else None)
              && timeData == if due then old(timeData)[username := now] else old(timeData)
    {
      var timestamp := timeData[username];
      var diff := TIME_DIFF;
      if username in diffData {
        diff := diffData[username];
      }
      reminded := None;
      if timestamp < now - diff {
        var reminder := Remind(username, now);
        reminded := Some(reminder);
      }
    }

    /** `react_to_anything`, the ticker: reminds exactly the users `Due` names,
        each once and with their own item count, and refreshes their timestamps. */
    method ReactToAnything(now: int) returns (sent: seq<Outgoing>)
      requires forall u :: u in Due(State(), now) ==> u in todoData
      modifies this`timeData
      ensures State() == Ticked(old(State()), now)
      ensures Recipients(sent) == Due(old(State()), now)
      ensures forall j, k :: 0 <= j < k < |sent| ==> sent[j].to != sent[k].to
      ensures forall k :: 0 <= k < |sent| ==> sent[k].to in todoData && sent[k].text == Reminder(|todoData[sent[k].to]|)
      ensures old(Valid()) ==> Valid()
    {
      ghost var m0 := State();
      ghost var due := Due(m0, now);
      sent := [];
      if timeData == map[] || todoData == map[] {
        if Consistent(m0) {
          Properties.TickPreservesConsistency(m0, now);
        }
        return;
      }
      var pending := timeData.Keys;
      TickStart(m0, now);
      while pending != {}
        invariant todoData == m0.todo && diffData == m0.diff
        invariant TickInvariant(m0, now, pending, timeData, sent)
        decreases pending
      {
        var username :| username in pending;
        ghost var time := timeData;
        assert time[username] < now - Interval(m0, username) ==> username in Due(m0, now);
        var reminded := TickUser(username, now);
        TickStep(m0, now, pending, time, sent, username, reminded);
        if reminded.Some? {
          sent := sent + [reminded.value];
        }
        pending := pending - {username};
      }
      TickEnd(m0, now, timeData, sent);
      if Consistent(m0) {
        Properties.TickPreservesConsistency(m0, now);
      }
    }

    /** `react_to_message`: handles one line from `nickname` (`chan` is where it
        came from; the source derives `private_message` from it and never uses
        it). The new dictionaries, the replies and the data file are what
        `Engine.React` says. The branches of the four commands that change
        something are the methods below; a branch that returns early is one that
        reports `save == false`. */
    method ReactToMessage(chan: string, nickname: string, msg: string, now: int, helpFile: Option<seq<string>>)
      returns (replies: seq<string>)
      requires Valid()
      modifies this
      ensures Valid()
      ensures msgTo == nickname
      ensures var o := React(old(State()), nickname, msg, now, helpFile);
              && State() == o.maps && replies == o.replies
              && dataFile == if o.save then Some(Snapshot(o.maps)) else old(dataFile)
    {
      ghost var m0 := State();
      Properties.ReactPreservesConsistency(m0, nickname, msg, now, helpFile);
      msgTo := nickname;
      var known, arg := ParseLine(msg);
      Properties.ReactOfParsedLine(m0, nickname, msg, now, helpFile, known, arg);
      if known.None? {
        replies := [UNKNOWN_COMMAND];
        assert State() == m0;
      } else {
        replies := RunAndSave(nickname, known.value, arg, now, helpFile);
      }
    }

    /** A known command, then `save_data_file` when its branch ends in one. */
    method RunAndSave(nickname: string, command: Command, arg: string, now: int, helpFile: Option<seq<string>>)
      returns (replies: seq<string>)
      requires Valid()
      modifies this`todoData, this`timeData, this`diffData, this`dataFile
      ensures var o := Run(old(State()), nickname, command, arg, now, helpFile);
              && State() == o.maps && replies == o.replies
              && dataFile == if o.save then Some(Snapshot(o.maps)) else old(dataFile)
    {
      var save;
      replies, save := RunCommand(nickname, command, arg, now, helpFile);
      if save {
        SaveDataFile();
      }
    }

    /** The dispatch on the command word in `react_to_message`, up to the save. */
    method RunCommand(nickname: string, command: Command, arg: string, now: int, helpFile: Option<seq<string>>)
      returns (replies: seq<string>, save: bool)
      requires Valid()
      modifies this`todoData, this`timeData, this`diffData
      ensures var o := Run(old(State()), nickname, command, arg, now, helpFile);
              State() == o.maps && replies == o.replies && save == o.save
    {
      match command
      case Help =>
        replies, save := HelpCommand(helpFile);
      case SeeDiff =>
        replies, save := SeeDiffCommand(nickname);
      case SetDiff =>
        replies, save := SetDiffCommand(nickname, arg);
      case List =>
        replies, save := ListCommand(nickname, arg, now);
      case Add =>
        replies, save := AddCommand(nickname, arg, now);
      case Remove =>
        replies, save := RemoveCommand(nickname, arg, now);
    }

    /** The start of `react_to_message`: strip the line, drop its newlines, split
        off the command word and look it up. */
    static method ParseLine(msg: string) returns (known: Option<Command>, arg: string)
      ensures var parsed := ParseCommands(Cleaned(msg));
              known == Classify(parsed.0) && arg == parsed.1
    {
      var line := Cleaned(msg);
      var parsed := ParseCommands(line);
      known := Classify(parsed.0);
      arg := parsed.1;
    }

    /** The `help` branch: the help file line by line, or an apology. */
    method HelpCommand(helpFile: Option<seq<string>>) returns (replies: seq<string>, save: bool)
      ensures var o := RunHelp(State(), helpFile);
              o.maps == State() && replies == o.replies && save == o.save
    {
      save := false;
      if helpFile.None? {
        replies := HELP_MISSING;
        return;
      }
      replies := helpFile.value;
    }

    /** The `see_diff` branch; a user with an interval of their own falls
        through to the save. */
    method SeeDiffCommand(nickname: string) returns (replies: seq<string>, save: bool)
      ensures var o := RunSeeDiff(State(), nickname);
              o.maps == State() && replies == o.replies && save == o.save
    {
      if nickname !in diffData {
        replies := [DEFAULT_DIFF];
        save := false;
        return;
      }
      replies := [DiffReport(diffData[nickname])];
      save := true;
    }

    /** The `set_diff` branch. */
    method SetDiffCommand(nickname: string, arg: string) returns (replies: seq<string>, save: bool)
      modifies this`diffData
      ensures var o := RunSetDiff(old(State()), nickname, arg);
              State() == o.maps && replies == o.replies && save == o.save
    {
      save := false;
      if arg == "" {
        replies := [SET_DIFF_NO_PARAMETER];
        return;
      }
      var parsedIndex := Text.ParseInt(arg);
      if parsedIndex.None? {
        replies := [SET_DIFF_NOT_INTEGER];
        return;
      }
      var index := parsedIndex.value;
      if index <= 0 {
        replies := [SET_DIFF_NOT_POSITIVE];
        return;
      }
      if index < MIN_TIME_DIFF {
        replies := [SET_DIFF_BELOW_MIN];
        return;
      }
      diffData := diffData[nickname := index];
      replies := [SET_DIFF_DONE];
      save := true;
    }

    /** The `list` branch. */
    method ListCommand(nickname: string, filter: string, now: int) returns (replies: seq<string>, save: bool)
      modifies this`timeData
      ensures var o := RunList(old(State()), nickname, filter, now);
              State() == o.maps && replies == o.replies && save == o.save
    {
      var data := if nickname in todoData then todoData[nickname] else [];
      var dataLen := |data|;
      save := false;
      if dataLen == 0 {
        replies := [NO_TODO];
        return;
      }
      replies := [Header(dataLen)];
      var rows := ListRows(data, filter);
      replies := replies + rows;
      ProlongUser(nickname, now);
      save := true;
    }

    /** The `add` branch. */
    method AddCommand(nickname: string, text: string, now: int) returns (replies: seq<string>, save: bool)
      modifies this`todoData, this`timeData
      ensures var o := RunAdd(old(State()), nickname, text, now);
              State() == o.maps && replies == o.replies && save == o.save
    {
      save := false;
      if text == "" {
        replies := [ADD_BLANK];
        return;
      }
      if nickname in todoData {
        if |todoData[nickname]| > MAX_DATA {
          replies := [ADD_FULL];
          return;
        }
        todoData := todoData[nickname := todoData[nickname] + [text]];
      } else {
        todoData := todoData[nickname := [text]];
      }
      replies := [ADD_DONE];
      ProlongUser(nickname, now);
      save := true;
    }

    /** The `remove` branch; `remove *` returns before the save. */
    method RemoveCommand(nickname: string, arg: string, now: int) returns (replies: seq<string>, save: bool)
      requires Valid()
      modifies this`todoData, this`timeData
      ensures var o := RunRemove(old(State()), nickname, arg, now);
              State() == o.maps && replies == o.replies && save == o.save
    {
      var data := if nickname in todoData then todoData[nickname] else [];
      var dataLen := |data|;
      save := false;
      if dataLen == 0 {
        replies := [NO_TODO];
        return;
      }
      if arg == "" {
        replies := [REMOVE_NO_PARAMETER];
        return;
      }
      if arg == "*" {
        assert nickname in timeData;
        timeData := timeData - {nickname};
        todoData := todoData - {nickname};
        replies := [REMOVE_ALL_DONE];
        return;
      }
      var parsedIndex := Text.ParseInt(arg);
      if parsedIndex.None? {
        replies := [REMOVE_NOT_INTEGER];
        return;
      }
      var index := parsedIndex.value;
      if index < 0 || index >= dataLen {
        replies := [REMOVE_BAD_INDEX];
        return;
      }
      RemoveAt(nickname, index, now);
      replies := [Removed(index)];
      save := true;
    }

    /** `remove <index>` once the index is known to be in range: the item goes,
        and the user with it when it was their last one. */
    method RemoveAt(nickname: string, index: int, now: int)
      requires Valid() && nickname in todoData && 0 <= index < |todoData[nickname]|
      modifies this`todoData, this`timeData
      ensures var rest := Deleted(old(todoData[nickname]), index);
              State() == if rest == [] then Maps(old(todoData) - {nickname}, old(timeData) - {nickname}, diffData)
                         else Maps(old(todoData)[nickname := rest], old(timeData)[nickname := now], diffData)
    {
      todoData := todoData[nickname := Deleted(todoData[nickname], index)];
      if |todoData[nickname]| == 0 {
        assert nickname in timeData;
        timeData := timeData - {nickname};
        todoData := todoData - {nickname};
      } else {
        ProlongUser(nickname, now);
      }
    }
  }
}
