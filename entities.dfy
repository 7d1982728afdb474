/** The rows the front end reads from the backend, and the signed-in user. */
module Entities {
  import opened Values

  /** A row of the `sessions` table; `date` is an instant in milliseconds. */
  datatype Session = Session(
    id: string,
    title: string,
    description: string,
    speaker: string,
    date: int,
    calendarLink: string,
    topicId: Option<string>)

  /** A row of the `topics` table; `votes` is the count the backend keeps and
      `status` is `"active"` or `"converted"`. */
  datatype Topic = Topic(
    id: string,
    title: string,
    description: string,
    userId: string,
    userName: Option<string>,
    votes: int,
    status: string)

  /** The user `supabase.auth.getUser()` reports; the e-mail may be absent. */
  datatype User = User(id: string, email: Option<string>)

  const ActiveStatus := "active"

  predicate IsActive(t: Topic)
  {
    t.status == ActiveStatus
  }

  function DateOf(s: Session): int
  {
    s.date
  }
}
