/** Values shared by the browser side and the server side of the to-do application. */
module Common {

  datatype Option<T> = None | Some(value: T)

  /** The three task statuses, as the columns and the status routes spell them. */
  const Statuses: set<string> := {"backlog", "in-progress", "completed"}

  predicate ValidStatus(s: string) {
    s in Statuses
  }
}
