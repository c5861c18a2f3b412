/** A project task as the front end receives it from the task endpoints.
    Fields that may be missing in the JSON are optional. */
module TaskView {
  import opened Common

  datatype Task = Task(
    id: string,
    title: string,
    description: string,
    status: string,
    deadline: Option<string>,
    assignedTo: Option<string>)

  /** JavaScript truthiness of an optional string: present and non-empty. */
  predicate Truthy(s: Option<string>) { s.Some? && s.value != "" }

  /** `a === b` on two values that are strings or undefined. */
  predicate StrictEq(a: Option<string>, b: Option<string>) { a == b }
}
