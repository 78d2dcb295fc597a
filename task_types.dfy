/**
 * The client's `Task` record and the shapes derived from it: the draft the
 * user fills in (a task without `_id`, `createdAt`, `updatedAt`) and the
 * `Partial<Task>` used for updates.
 */
module TaskTypes {
  import opened Wrappers

  /** The three values the `status` field may take. */
  datatype Status = Pending | InProgress | Completed

  /** The string stored for each status. */
  function StatusName(s: Status): string
  {
    match s
    case Pending => "pending"
    case InProgress => "in-progress"
    case Completed => "completed"
  }

  /** Reads a status back from its string; `None` for anything else. */
  function ParseStatus(name: string): (r: Option<Status>)
    ensures r.Some? ==> StatusName(r.value) == name
  {
    if name == "pending" then Some(Pending)
    else if name == "in-progress" then Some(InProgress)
    else if name == "completed" then Some(Completed)
    else None
  }

  /** Every status name parses back to that status. */
  lemma ParseStatusName(s: Status)
    ensures ParseStatus(StatusName(s)) == Some(s)
  {
  }

  /** A stored task. Timestamps are ISO-8601 strings. */
  datatype Task = Task(
    id: string,
    title: string,
    description: string,
    status: Status,
    createdAt: string,
    updatedAt: string)

  /** `Omit<Task, '_id' | 'createdAt' | 'updatedAt'>`. */
  datatype Draft = Draft(title: string, description: string, status: Status)

  /** `Partial<Task>`: `None` marks a field that is not supplied. */
  datatype Patch = Patch(
    id: Option<string>,
    title: Option<string>,
    description: Option<string>,
    status: Option<Status>,
    createdAt: Option<string>,
    updatedAt: Option<string>)
}
