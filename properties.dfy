/** What `react_to_message` and the reminder ticker promise, proved about the
    value-level engine of module `Engine`. The lemmas about one command speak of
    `Run` with that command and its argument; a line
    whose first word names the command comes down to exactly that (`CommandLineRunsCommand`). */
module Properties {
  import opened Wrappers
  import opened Text
  import opened Commands
  import opened Listing
  import opened Engine

  // ---------------------------------------------------------------------------
  // One command

  /** A command outside the six known ones gets the one fixed reply and changes nothing. */
  lemma UnknownCommandChangesNothing(m: Maps, nick: string, msg: string, now: int, helpFile: Option<seq<string>>)
    requires ParseCommands(Cleaned(msg)).0 !in COMMANDS
    ensures React(m, nick, msg, now, helpFile) == Outcome(m, [UNKNOWN_COMMAND], false)
  {
  }

  /** `react_to_message` after parsing: the fixed reply for an unknown word,
      otherwise the command on the rest of the cleaned line. */
  lemma ReactOfParsedLine(m: Maps, nick: string, msg: string, now: int, helpFile: Option<seq<string>>,
                          known: Option<Command>, arg: string)
    requires known == Classify(ParseCommands(Cleaned(msg)).0) && arg == ParseCommands(Cleaned(msg)).1
    ensures React(m, nick, msg, now, helpFile)
            == if known.None? then Outcome(m, [UNKNOWN_COMMAND], false) else Run(m, nick, known.value, arg, now, helpFile)
  {
  }

  /** A line made of a known command, one space and an argument that has no
      newline and does not end in white space runs that command on exactly that
      argument. */
  lemma CommandLineRunsCommand(m: Maps, nick: string, word: string, arg: string, now: int, helpFile: Option<seq<string>>)
    requires word in COMMANDS
    requires '\n' !in arg && (arg == [] || !IsSpace(arg[|arg| - 1]))
    ensures Classify(word).Some?
    ensures React(m, nick, word + " " + arg, now, helpFile) == Run(m, nick, Classify(word).value, arg, now, helpFile)
  {
    assert word == "list" || word == "add" || word == "remove" || word == "help" || word == "set_diff" || word == "see_diff";
    assert word != [] && forall k :: 0 <= k < |word| ==> !IsSpace(word[k]);
    ParseOfWordAndArgument(word, arg);
  }

  /** `help` forwards the help file line by line, or apologises when it is missing; nothing changes. */
  lemma HelpChangesNothing(m: Maps, nick: string, arg: string, now: int, helpFile: Option<seq<string>>)
    ensures var o := Run(m, nick, Help, arg, now, helpFile);
            o.maps == m && !o.save && o.replies == helpFile.GetOr(HELP_MISSING)
  {
  }

  /** `see_diff` reports the user's own interval (and then saves), or the default. */
  lemma SeeDiffReports(m: Maps, nick: string, arg: string, now: int, helpFile: Option<seq<string>>)
    ensures var o := Run(m, nick, SeeDiff, arg, now, helpFile);
            o.maps == m
            && (nick in m.diff ==> o.replies == [DiffReport(m.diff[nick])] && o.save)
            && (nick !in m.diff ==> o.replies == [DEFAULT_DIFF] && !o.save)
  {
  }

  /** `set_diff` stores the interval exactly when the argument is an integer of at
      least `MIN_TIME_DIFF`; each way of failing has its own reply and changes nothing. */
  lemma SetDiffStoresOnlyValid(m: Maps, nick: string, arg: string, now: int, helpFile: Option<seq<string>>)
    ensures var o, v := Run(m, nick, SetDiff, arg, now, helpFile), ParseInt(arg);
            && o.maps.todo == m.todo && o.maps.time == m.time
            && (v.Some? && v.value >= MIN_TIME_DIFF ==>
                  o.maps.diff == m.diff[nick := v.value] && o.replies == [SET_DIFF_DONE] && o.save)
            && (!(v.Some? && v.value >= MIN_TIME_DIFF) ==> o.maps == m && !o.save)
            && (arg == "" ==> o.replies == [SET_DIFF_NO_PARAMETER])
            && (arg != "" && v.None? ==> o.replies == [SET_DIFF_NOT_INTEGER])
            && (v.Some? && v.value <= 0 ==> o.replies == [SET_DIFF_NOT_POSITIVE])
            && (v.Some? && 0 < v.value < MIN_TIME_DIFF ==> o.replies == [SET_DIFF_BELOW_MIN])
  {
  }

  /** `set_diff <n>` with `n` written by `str`, possibly padded with white space:
      59 is refused, 60 is stored. */
  lemma SetDiffThreshold(m: Maps, nick: string, now: int, helpFile: Option<seq<string>>,
                         v: int, pre: string, post: string)
    requires AllSpace(pre) && AllSpace(post)
    ensures Run(m, nick, SetDiff, pre + IntToString(v) + post, now, helpFile).maps.diff
            == if v >= MIN_TIME_DIFF then m.diff[nick := v] else m.diff
  {
    ParseIntRoundTrip(v, pre, post);
    SetDiffStoresOnlyValid(m, nick, pre + IntToString(v) + post, now, helpFile);
  }

  /** `list` on an empty list says so and changes nothing; otherwise it sends the
      header with the item count, then one row per item containing the filter, in
      order and with its index in the whole list, and refreshes the user's timestamp. */
  lemma ListShowsItems(m: Maps, nick: string, filter: string, now: int, helpFile: Option<seq<string>>)
    ensures var o, data, idx := Run(m, nick, List, filter, now, helpFile), Items(m, nick), Shown(Items(m, nick), filter);
            && (data == [] ==> o == Outcome(m, [NO_TODO], false))
            && (data != [] ==>
                  && o.maps == m.(time := m.time[nick := now]) && o.save
                  && |o.replies| == 1 + |idx| && o.replies[0] == Header(|data|)
                  && forall j :: 0 <= j < |idx| ==> o.replies[j + 1] == Row(idx[j], data[idx[j]]))
  {
    var o, data := Run(m, nick, List, filter, now, helpFile), Items(m, nick);
    if data != [] {
      var idx, rows := Shown(data, filter), Rows(data, filter);
      RowsAreShown(data, filter);
      assert o.replies == [Header(|data|)] + rows;
      forall j | 0 <= j < |idx|
        ensures o.replies[j + 1] == Row(idx[j], data[idx[j]])
      {
        assert o.replies[j + 1] == rows[j];
      }
    }
  }

  /** `list` with no filter on a non-empty list sends the header and then every
      item, row `k` showing item `k`. */
  lemma ListUnfiltered(m: Maps, nick: string, now: int, helpFile: Option<seq<string>>)
    requires Items(m, nick) != []
    ensures var o, data := Run(m, nick, List, "", now, helpFile), Items(m, nick);
            && |o.replies| == |data| + 1 && o.replies[0] == Header(|data|)
            && forall k :: 0 <= k < |data| ==> o.replies[k + 1] == Row(k, data[k])
  {
    var o, data := Run(m, nick, List, "", now, helpFile), Items(m, nick);
    var rows := Rows(data, "");
    RowsUnfiltered(data);
    assert o.replies == [Header(|data|)] + rows;
    forall k | 0 <= k < |data|
      ensures o.replies[k + 1] == Row(k, data[k])
    {
      assert o.replies[k + 1] == rows[k];
    }
  }

  /** `add` with some text, on a list of at most `MAX_DATA` items, appends the text
      at the end of the sender's list (creating it if need be), refreshes the
      sender's timestamp and touches no other user. */
  lemma AddAppends(m: Maps, nick: string, text: string, now: int, helpFile: Option<seq<string>>)
    requires text != "" && |Items(m, nick)| <= MAX_DATA
    ensures var o := Run(m, nick, Add, text, now, helpFile);
            && o == Outcome(Maps(m.todo[nick := Items(m, nick) + [text]], m.time[nick := now], m.diff), [ADD_DONE], true)
            && forall u :: u != nick ==> (u in o.maps.todo <==> u in m.todo) && Items(o.maps, u) == Items(m, u)
  {
    assert nick !in m.todo ==> Items(m, nick) + [text] == [text];
  }

  /** `add` refuses blank text and a list that already holds more than `MAX_DATA` items. */
  lemma AddRefuses(m: Maps, nick: string, text: string, now: int, helpFile: Option<seq<string>>)
    requires text == "" || |Items(m, nick)| > MAX_DATA
    ensures Run(m, nick, Add, text, now, helpFile) == Outcome(m, [if text == "" then ADD_BLANK else ADD_FULL], false)
  {
  }

  /** Because the guard is `len > MAX_DATA`, a list of `MAX_DATA` items still takes
      one more: lists reach `MAX_DATA + 1` items, and only then is `add` refused. */
  lemma CapacityIsOneMore(m: Maps, nick: string, text: string, now: int, helpFile: Option<seq<string>>)
    requires text != "" && |Items(m, nick)| == MAX_DATA
    ensures var o := Run(m, nick, Add, text, now, helpFile);
            |Items(o.maps, nick)| == MAX_DATA + 1
            && Run(o.maps, nick, Add, text, now, helpFile) == Outcome(o.maps, [ADD_FULL], false)
  {
    AddAppends(m, nick, text, now, helpFile);
  }

  /** `remove i` for a valid index deletes exactly item `i` and keeps the others in
      order; an emptied list loses its timestamp with it, otherwise the timestamp
      is refreshed; intervals are never touched. */
  lemma RemoveDeletesOne(m: Maps, nick: string, arg: string, now: int, helpFile: Option<seq<string>>, i: int)
    requires arg != "*" && ParseInt(arg) == Some(i) && 0 <= i < |Items(m, nick)|
    ensures var o, data := Run(m, nick, Remove, arg, now, helpFile), Items(m, nick);
            && o.replies == [Removed(i)] && o.save && o.maps.diff == m.diff
            && (|data| == 1 ==> o.maps.todo == m.todo - {nick} && o.maps.time == m.time - {nick})
            && (|data| > 1 ==>
                  && o.maps.time == m.time[nick := now]
                  && o.maps.todo.Keys == m.todo.Keys
                  && (forall u :: u in m.todo && u != nick ==> o.maps.todo[u] == m.todo[u])
                  && |o.maps.todo[nick]| == |data| - 1
                  && (forall k :: 0 <= k < i ==> o.maps.todo[nick][k] == data[k])
                  && (forall k :: i <= k < |data| - 1 ==> o.maps.todo[nick][k] == data[k + 1]))
  {
    RemoveIndexOutcome(m, nick, arg, now, i);
  }

  /** The branch of `remove` that a valid index takes. */
  lemma RemoveIndexOutcome(m: Maps, nick: string, arg: string, now: int, i: int)
    requires arg != "*" && ParseInt(arg) == Some(i) && 0 <= i < |Items(m, nick)|
    ensures var rest := Deleted(Items(m, nick), i);
            RunRemove(m, nick, arg, now) ==
              if rest == [] then Outcome(Maps(m.todo - {nick}, m.time - {nick}, m.diff), [Removed(i)], true)
              else Outcome(Maps(m.todo[nick := rest], m.time[nick := now], m.diff), [Removed(i)], true)
  {
    assert arg != "";
  }

  /** `remove *` drops the sender's list and timestamp, and returns without saving. */
  lemma RemoveAllDropsBoth(m: Maps, nick: string, now: int, helpFile: Option<seq<string>>)
    requires Items(m, nick) != []
    ensures Run(m, nick, Remove, "*", now, helpFile) == Outcome(Maps(m.todo - {nick}, m.time - {nick}, m.diff), [REMOVE_ALL_DONE], false)
  {
  }

  /** `remove` on an empty list, without an argument, with a non-integer or with an
      index out of range gets its own reply and changes nothing. */
  lemma RemoveRefuses(m: Maps, nick: string, arg: string, now: int, helpFile: Option<seq<string>>)
    requires Items(m, nick) == [] || arg == ""
             || (arg != "*" && (ParseInt(arg).None? || !(0 <= ParseInt(arg).value < |Items(m, nick)|)))
    ensures var o, v := Run(m, nick, Remove, arg, now, helpFile), ParseInt(arg);
            && o.maps == m && !o.save
            && o.replies == [if Items(m, nick) == [] then NO_TODO
                             else if arg == "" then REMOVE_NO_PARAMETER
                             else if v.None? then REMOVE_NOT_INTEGER
                             else REMOVE_BAD_INDEX]
  {
  }

  // ---------------------------------------------------------------------------
  // Invariants kept by every command

  /** Every command keeps "a user has a timestamp exactly when they have a non-empty list". */
  lemma RunPreservesConsistency(m: Maps, nick: string, command: Command, arg: string, now: int, helpFile: Option<seq<string>>)
    requires Consistent(m)
    ensures Consistent(Run(m, nick, command, arg, now, helpFile).maps)
  {
  }

  /** So does every line sent to the bot. */
  lemma ReactPreservesConsistency(m: Maps, nick: string, msg: string, now: int, helpFile: Option<seq<string>>)
    requires Consistent(m)
    ensures Consistent(React(m, nick, msg, now, helpFile).maps)
  {
    var parsed := ParseCommands(Cleaned(msg));
    if Classify(parsed.0).Some? {
      RunPreservesConsistency(m, nick, Classify(parsed.0).value, parsed.1, now, helpFile);
    }
  }

  /** Every line keeps all intervals at or above `MIN_TIME_DIFF`. */
  lemma RunPreservesIntervals(m: Maps, nick: string, command: Command, arg: string, now: int, helpFile: Option<seq<string>>)
    requires IntervalsAtLeastMin(m)
    ensures IntervalsAtLeastMin(Run(m, nick, command, arg, now, helpFile).maps)
  {
    if command == SetDiff {
      SetDiffStoresOnlyValid(m, nick, arg, now, helpFile);
    }
  }

  /** So does every line sent to the bot. */
  lemma ReactPreservesIntervals(m: Maps, nick: string, msg: string, now: int, helpFile: Option<seq<string>>)
    requires IntervalsAtLeastMin(m)
    ensures IntervalsAtLeastMin(React(m, nick, msg, now, helpFile).maps)
  {
    var parsed := ParseCommands(Cleaned(msg));
    if Classify(parsed.0).Some? {
      RunPreservesIntervals(m, nick, Classify(parsed.0).value, parsed.1, now, helpFile);
    }
  }

  /** Every command keeps every list at most `MAX_DATA + 1` items long. */
  lemma RunKeepsCapacity(m: Maps, nick: string, command: Command, arg: string, now: int, helpFile: Option<seq<string>>)
    requires WithinCapacity(m)
    ensures WithinCapacity(Run(m, nick, command, arg, now, helpFile).maps)
  {
  }

  /** So does every line sent to the bot. */
  lemma ReactKeepsCapacity(m: Maps, nick: string, msg: string, now: int, helpFile: Option<seq<string>>)
    requires WithinCapacity(m)
    ensures WithinCapacity(React(m, nick, msg, now, helpFile).maps)
  {
    var parsed := ParseCommands(Cleaned(msg));
    if Classify(parsed.0).Some? {
      RunKeepsCapacity(m, nick, Classify(parsed.0).value, parsed.1, now, helpFile);
    }
  }

  // ---------------------------------------------------------------------------
  // Commands in sequence

  /** What `add` appends, `list` then shows last, at the index the list had as its
      length before the `add`. */
  lemma AddThenList(m: Maps, nick: string, text: string, now: int, later: int, helpFile: Option<seq<string>>)
    requires text != "" && |Items(m, nick)| <= MAX_DATA
    ensures var o := Run(Run(m, nick, Add, text, now, helpFile).maps, nick, List, "", later, helpFile);
            var n := |Items(m, nick)|;
            |o.replies| == n + 2 && o.replies[0] == Header(n + 1) && o.replies[n + 1] == Row(n, text)
  {
    var data := Items(m, nick);
    var o1 := Run(m, nick, Add, text, now, helpFile);
    AddAppends(m, nick, text, now, helpFile);
    assert Items(o1.maps, nick) == data + [text];
    ListUnfiltered(o1.maps, nick, later, helpFile);
  }

  /** From no list at all: `add t` answers "TODO updated." and `list` then answers
      "You have 1 TODO on your TODO list:" and " #0: t". */
  lemma FirstAddThenList(m: Maps, nick: string, text: string, now: int, later: int, helpFile: Option<seq<string>>)
    requires text != "" && nick !in m.todo
    ensures var o1 := Run(m, nick, Add, text, now, helpFile);
            var o2 := Run(o1.maps, nick, List, "", later, helpFile);
            o1.replies == ["TODO updated."]
            && o2.replies == ["You have 1 TODO on your TODO list:", " #0: " + text]
  {
    AddThenList(m, nick, text, now, later, helpFile);
    HeaderOfOne();
    RowOfFirst(text);
    var o2 := Run(Run(m, nick, Add, text, now, helpFile).maps, nick, List, "", later, helpFile);
    assert o2.replies == [o2.replies[0], o2.replies[1]];
  }

  /** After `remove i`, `list` shows the remaining items numbered 0, 1, ... without a gap. */
  lemma RemoveThenListReindexes(m: Maps, nick: string, arg: string, i: int, now: int, later: int,
                                helpFile: Option<seq<string>>)
    requires arg != "*" && ParseInt(arg) == Some(i) && 0 <= i < |Items(m, nick)| && |Items(m, nick)| > 1
    ensures var o := Run(Run(m, nick, Remove, arg, now, helpFile).maps, nick, List, "", later, helpFile);
            var data := Items(m, nick);
            && |o.replies| == |data|
            && (forall k :: 0 <= k < i ==> o.replies[k + 1] == Row(k, data[k]))
            && (forall k :: i < k < |data| ==> o.replies[k] == Row(k - 1, data[k]))
  {
    var data := Items(m, nick);
    var rest := Deleted(data, i);
    RemoveIndexOutcome(m, nick, arg, now, i);
    ListAfterRemove(m.(todo := m.todo[nick := rest], time := m.time[nick := now]), nick, data, i, later, helpFile);
  }

  /** The listing half of `RemoveThenListReindexes`, on the state `remove` leaves. */
  lemma ListAfterRemove(m: Maps, nick: string, data: seq<string>, i: nat, later: int, helpFile: Option<seq<string>>)
    requires i < |data| && |data| > 1 && Items(m, nick) == Deleted(data, i)
    ensures var o := Run(m, nick, List, "", later, helpFile);
            && |o.replies| == |data|
            && (forall k :: 0 <= k < i ==> o.replies[k + 1] == Row(k, data[k]))
            && (forall k :: i < k < |data| ==> o.replies[k] == Row(k - 1, data[k]))
  {
    var rest := Deleted(data, i);
    ListUnfiltered(m, nick, later, helpFile);
    var o := Run(m, nick, List, "", later, helpFile);
    forall k | i < k < |data|
      ensures o.replies[k] == Row(k - 1, data[k])
    {
      assert rest[k - 1] == data[k];
    }
  }

  /** A command from `nick` leaves every other user's entries as they were. */
  lemma RunTouchesOnlySender(m: Maps, nick: string, command: Command, arg: string, now: int, helpFile: Option<seq<string>>)
    ensures OthersUnchanged(m, Run(m, nick, command, arg, now, helpFile).maps, nick)
  {
    if command == List {
      var t := Run(m, nick, command, arg, now, helpFile).maps.time;
      assert t - {nick} == m.time - {nick};
    }
  }

  /** A line from `nick` leaves every other user's entries as they were. */
  lemma ReactTouchesOnlySender(m: Maps, nick: string, msg: string, now: int, helpFile: Option<seq<string>>)
    ensures OthersUnchanged(m, React(m, nick, msg, now, helpFile).maps, nick)
  {
    var parsed := ParseCommands(Cleaned(msg));
    if Classify(parsed.0).Some? {
      RunTouchesOnlySender(m, nick, Classify(parsed.0).value, parsed.1, now, helpFile);
    }
  }

  // ---------------------------------------------------------------------------
  // The reminder ticker

  /** A tick refreshes only timestamps, so it keeps the consistency invariant. */
  lemma TickPreservesConsistency(m: Maps, now: int)
    requires Consistent(m)
    ensures Ticked(m, now).todo == m.todo && Ticked(m, now).diff == m.diff
    ensures Ticked(m, now).time.Keys == m.time.Keys
    ensures Consistent(Ticked(m, now))
  {
  }

  /** A user who is due stays due as time goes on, until a tick refreshes them. */
  lemma DueGrowsWithTime(m: Maps, earlier: int, later: int)
    requires earlier <= later
    ensures Due(m, earlier) <= Due(m, later)
  {
  }

  /** A reminded user's timestamp becomes `now`; every other timestamp stays. */
  lemma TickRefreshesDue(m: Maps, now: int, u: string)
    requires u in m.time
    ensures u in Due(m, now) ==> Ticked(m, now).time[u] == now
    ensures u !in Due(m, now) ==> Ticked(m, now).time[u] == m.time[u]
  {
  }

  /** With no interval negative, a second tick at the same time reminds nobody. */
  lemma SecondTickIsQuiet(m: Maps, now: int)
    requires forall u :: u in m.diff ==> m.diff[u] >= 0
    ensures Due(Ticked(m, now), now) == {}
  {
    var t := Ticked(m, now);
    if t.time != map[] && t.todo != map[] {
      forall u | u in t.time
        ensures !(t.time[u] < now - Interval(t, u))
      {
        assert Interval(t, u) == Interval(m, u) >= 0;
        if u !in Due(m, now) {
          assert !(m.time[u] < now - Interval(m, u));
        }
      }
    }
  }
}
