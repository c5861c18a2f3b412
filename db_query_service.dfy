/** The database tools the chat model may call
    (ai-service/services/db_query_service.py): the filter each tool builds,
    the post-processing of the query results and the
    `{success, message, data}` envelope it returns. The database is an
    oracle: a function from the query to its documents, or None when the
    driver raises. */
module DbQueryService {
  import opened Common

  const NoProjectCriteria: string := "Please specify a skill or title to search for."
  const NoUserCriteria: string := "Please specify a role or interest to search for."
  const DatabaseError: string := "Database error occurred."
  const NoProjects: string := "No projects found matching your criteria."
  const NoUsers: string := "No users found matching your criteria."
  const ProjectsFound: string := "Projects found."
  const UsersFound: string := "Users found."

  /** The fields each tool keeps from a document (`_id` is excluded). */
  const ProjectFields: seq<string> := ["title", "description", "requiredSkills", "techStack"]
  const UserFields: seq<string> := ["fullName", "roles", "interest"]

  /** One condition of a MongoDB filter: a case-insensitive `$regex` on a
      field, or plain equality (which on an array field matches an element). */
  datatype Condition = MatchesRegex(field: string, pattern: string) | Equals(field: string, value: string)

  /** A filter document: its top-level conditions, or an `$and` of them. */
  datatype Filter = Where(conds: seq<Condition>) | And(conds: seq<Condition>)

  datatype Query = Query(collection: string, filter: Filter, projection: seq<string>)

  /** The value of a document's `_id`. */
  datatype IdValue = ObjectId(hex: string) | Text(text: string) | Number(n: int)

  /** A result document: its `_id`, if present, and its other fields, which
      pass through untouched. */
  datatype Document = Document(id: Option<IdValue>, fields: map<string, string>)

  datatype Envelope = Envelope(success: bool, message: string, data: seq<Document>)

  /** Python truthiness of an optional string argument. */
  predicate Truthy(s: Option<string>) {
    s.Some? && s.value != ""
  }

  /** `str(_id)`: the hex text of an ObjectId, the decimal text of a number. */
  function IdText(id: IdValue): string
  {
    match id
    case ObjectId(hex) => hex
    case Text(t) => t
    case Number(n) => IntToDecimal(n)
  }

  /** One result with its `_id` turned into text. */
  function Stringified(d: Document): (r: Document)
    ensures r.fields == d.fields
    ensures r.id.Some? <==> d.id.Some?
    ensures d.id.Some? ==> r.id == Some(Text(IdText(d.id.value)))
  {
    if d.id.Some? then d.(id := Some(Text(IdText(d.id.value)))) else d
  }

  /** _execute_query_mongodb: None when the driver raises; otherwise the
      documents in the driver's order with every `_id` rewritten in place. */
  method ExecuteQuery(db: Query -> Option<seq<Document>>, q: Query) returns (r: Option<seq<Document>>)
    ensures db(q).None? <==> r.None?
    ensures r.Some? ==> (|r.value| == |db(q).value|
      && forall i :: 0 <= i < |r.value| ==> r.value[i] == Stringified(db(q).value[i]))
  {
    var found := db(q);
    if found.None? {
      return None;
    }
    var results := new Document[|found.value|](i requires 0 <= i < |found.value| => found.value[i]);
    for i := 0 to results.Length
      invariant forall j :: 0 <= j < i ==> results[j] == Stringified(found.value[j])
      invariant forall j :: i <= j < results.Length ==> results[j] == found.value[j]
    {
      if results[i].id.Some? {
        results[i] := results[i].(id := Some(Text(IdText(results[i].id.value))));
      }
    }
    r := Some(results[..]);
  }

  /** The filter find_projects builds: title, required skills, or the `$and`
      of both; None when neither is given, in which case no query is made. */
  function ProjectFilter(skill: Option<string>, title: Option<string>): (r: Option<Filter>)
    ensures r.None? <==> !Truthy(skill) && !Truthy(title)
    ensures Truthy(title) && !Truthy(skill) ==> r == Some(Where([MatchesRegex("title", title.value)]))
    ensures Truthy(skill) && !Truthy(title) ==> r == Some(Where([MatchesRegex("requiredSkills", skill.value)]))
    ensures Truthy(skill) && Truthy(title) ==>
      r == Some(And([MatchesRegex("title", title.value), MatchesRegex("requiredSkills", skill.value)]))
  {
    if !Truthy(skill) && !Truthy(title) then None
    else if Truthy(title) && Truthy(skill) then
      Some(And([MatchesRegex("title", title.value), MatchesRegex("requiredSkills", skill.value)]))
    else if Truthy(title) then Some(Where([MatchesRegex("title", title.value)]))
    else Some(Where([MatchesRegex("requiredSkills", skill.value)]))
  }

  /** The filter find_users builds: the role by equality against `roles`,
      the interest by regex, or the `$and` of both. */
  function UserFilter(role: Option<string>, interest: Option<string>): (r: Option<Filter>)
    ensures r.None? <==> !Truthy(role) && !Truthy(interest)
    ensures Truthy(role) && !Truthy(interest) ==> r == Some(Where([Equals("roles", role.value)]))
    ensures Truthy(interest) && !Truthy(role) ==> r == Some(Where([MatchesRegex("interest", interest.value)]))
    ensures Truthy(role) && Truthy(interest) ==>
      r == Some(And([Equals("roles", role.value), MatchesRegex("interest", interest.value)]))
  {
    if !Truthy(role) && !Truthy(interest) then None
    else if Truthy(role) && Truthy(interest) then
      Some(And([Equals("roles", role.value), MatchesRegex("interest", interest.value)]))
    else if Truthy(role) then Some(Where([Equals("roles", role.value)]))
    else Some(Where([MatchesRegex("interest", interest.value)]))
  }

  /** Every envelope a tool returns: a failure never carries data. */
  predicate WellFormed(e: Envelope) {
    !e.success ==> e.data == []
  }

  /** The envelope for a query outcome, with the tool's own messages. */
  function Answer(results: Option<seq<Document>>, none: string, found: string): (e: Envelope)
    ensures WellFormed(e)
    ensures results.None? <==> !e.success
    ensures results.None? ==> e == Envelope(false, DatabaseError, [])
    ensures results == Some([]) ==> e == Envelope(true, none, [])
    ensures results.Some? && results.value != [] ==> e == Envelope(true, found, results.value)
  {
    if results.None? then Envelope(false, DatabaseError, [])
    else if results.value == [] then Envelope(true, none, [])
    else Envelope(true, found, results.value)
  }

  /** find_projects */
  method FindProjects(db: Query -> Option<seq<Document>>, skill: Option<string>, title: Option<string>)
    returns (e: Envelope)
    ensures WellFormed(e)
    ensures ProjectFilter(skill, title).None? ==> e == Envelope(false, NoProjectCriteria, [])
    ensures ProjectFilter(skill, title).Some? ==>
      (var q := Query("projects", ProjectFilter(skill, title).value, ProjectFields);
       (db(q).None? <==> !e.success)
       && (db(q).None? ==> e == Envelope(false, DatabaseError, []))
       && (db(q).Some? ==> (e.message == (if db(q).value == [] then NoProjects else ProjectsFound)
         && |e.data| == |db(q).value|
         && forall i :: 0 <= i < |e.data| ==> e.data[i] == Stringified(db(q).value[i]))))
  {
    var filter := ProjectFilter(skill, title);
    if filter.None? {
      return Envelope(false, NoProjectCriteria, []);
    }
    var results := ExecuteQuery(db, Query("projects", filter.value, ProjectFields));
    e := Answer(results, NoProjects, ProjectsFound);
  }

  /** find_users */
  method FindUsers(db: Query -> Option<seq<Document>>, role: Option<string>, interest: Option<string>)
    returns (e: Envelope)
    ensures WellFormed(e)
    ensures UserFilter(role, interest).None? ==> e == Envelope(false, NoUserCriteria, [])
    ensures UserFilter(role, interest).Some? ==>
      (var q := Query("users", UserFilter(role, interest).value, UserFields);
       (db(q).None? <==> !e.success)
       && (db(q).None? ==> e == Envelope(false, DatabaseError, []))
       && (db(q).Some? ==> (e.message == (if db(q).value == [] then NoUsers else UsersFound)
         && |e.data| == |db(q).value|
         && forall i :: 0 <= i < |e.data| ==> e.data[i] == Stringified(db(q).value[i]))))
  {
    var filter := UserFilter(role, interest);
    if filter.None? {
      return Envelope(false, NoUserCriteria, []);
    }
    var results := ExecuteQuery(db, Query("users", filter.value, UserFields));
    e := Answer(results, NoUsers, UsersFound);
  }

  /** `json.dumps` of an envelope, given the JSON text of its data array;
      the messages are plain ASCII, so they need no escaping. */
  function Dumps(e: Envelope, dataJson: string): (r: string)
    ensures |r| > 0 && r[0] == '{' && r[|r| - 1] == '}'
  {
    "{\"success\": " + (if e.success then "true" else "false")
    + ", \"message\": \"" + e.message + "\", \"data\": " + dataJson + "}"
  }
}
