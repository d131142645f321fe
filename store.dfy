/** The data file `todo_data.json`: a record with the fields "time", "todo"
    and "diff", any of which may be missing, and the file itself may be absent. */
module Store {
  import opened Wrappers
  import opened Engine

  datatype Persisted = Persisted(
    time: Option<map<string, int>>,
    todo: Option<map<string, seq<string>>>,
    diff: Option<map<string, int>>)

  /** `read_data_file`: each dictionary comes from its field of the file, and
      is empty when the field or the whole file is missing. */
  function Load(file: Option<Persisted>): (m: Maps)
    ensures file.None? ==> m.todo == map[] && m.time == map[] && m.diff == map[]
  {
    var data := file.GetOr(Persisted(None, None, None));
    Maps(data.todo.GetOr(map[]), data.time.GetOr(map[]), data.diff.GetOr(map[]))
  }

  /** `save_data_file`: what it writes loads back as the same three dictionaries. */
  function Snapshot(m: Maps): (p: Persisted)
    ensures Load(Some(p)) == m
  {
    Persisted(Some(m.time), Some(m.todo), Some(m.diff))
  }

  /** Starting without a data file, every invariant of the bot holds. */
  lemma EmptyStartIsValid()
    ensures Consistent(Load(None)) && IntervalsAtLeastMin(Load(None)) && WithinCapacity(Load(None))
  {
  }
}
