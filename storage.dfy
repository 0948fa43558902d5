/** `safeParseTasks`: turning the stored text back into a task list, falling
    back to an empty list on anything unexpected. The JSON parser itself is a
    parameter: what it yields is described by `ParseOutcome`. */
module Storage {
  import opened Tasks

  datatype Option<T> = None | Some(value: T)

  /** One element of the parsed array. `Null` is a JSON null, on which reading
      `completedDates` throws; `completedDates` is `None` when the stored field
      is missing or is not an array. */
  datatype RawRecord =
    | Null
    | Record(id: string, title: string, recurring: bool, createdAt: DayKey, completedDates: Option<seq<DayKey>>)

  /** What `JSON.parse` does with the stored text: throw, produce some value that
      is not an array, or produce an array. */
  datatype ParseOutcome = Throws | NotAnArray | AnArray(records: seq<RawRecord>)

  /** The task a record becomes: its fields kept, a non-array `completedDates` replaced by []. */
  function FromRecord(rec: RawRecord): (t: Task)
    requires rec.Record?
    ensures t.id == rec.id && t.title == rec.title && t.recurring == rec.recurring && t.createdAt == rec.createdAt
    ensures t.completedDates == if rec.completedDates.Some? then rec.completedDates.value else []
  {
    Task(rec.id, rec.title, rec.recurring, rec.createdAt,
         match rec.completedDates
         case Some(dates) => dates
         case None => [])
  }

  /** `safeParseTasks(raw)`: null or empty text, a parse failure, a non-array
      value, and an array holding a null (the mapping throws, and the throw is
      caught) all give []; otherwise every record becomes one task, in order. */
  function SafeParseTasks(raw: Option<string>, parse: string -> ParseOutcome): (r: seq<Task>)
    ensures raw == None || raw == Some("") ==> r == []
    ensures raw.Some? && raw.value != "" && !parse(raw.value).AnArray? ==> r == []
    ensures raw.Some? && raw.value != "" && parse(raw.value).AnArray? && Null in parse(raw.value).records ==> r == []
    ensures raw.Some? && raw.value != "" && parse(raw.value).AnArray? && Null !in parse(raw.value).records ==>
      var recs := parse(raw.value).records;
      |r| == |recs| && forall i :: 0 <= i < |recs| ==> r[i] == FromRecord(recs[i])
  {
    if raw.None? || raw.value == "" then []
    else
      match parse(raw.value)
      case Throws => []
      case NotAnArray => []
      case AnArray(recs) =>
        if Null in recs then []
        else seq(|recs|, i requires 0 <= i < |recs| => FromRecord(recs[i]))
  }

  /** The records `JSON.stringify` writes for a task list. */
  function Encode(tasks: seq<Task>): (recs: seq<RawRecord>)
    ensures |recs| == |tasks| && Null !in recs
  {
    seq(|tasks|, i requires 0 <= i < |tasks| =>
      var t := tasks[i];
      Record(t.id, t.title, t.recurring, t.createdAt, Some(t.completedDates)))
  }

  /** What the page saves after a change is what it loads on the next visit. */
  lemma LoadSavedTasks(tasks: seq<Task>, stored: string, parse: string -> ParseOutcome)
    requires stored != "" && parse(stored) == AnArray(Encode(tasks))
    ensures SafeParseTasks(Some(stored), parse) == tasks
  {
  }
}
