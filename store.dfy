/** The server's tables, session and replies, shared by the Flask routes of app.py,
    personal_tasks.py and collaboration.py. The tables are those database.py creates; its
    column constraints are the invariant `Store.Valid`. */
module Store {

  import opened Common
  import opened Json

  /** werkzeug's salted password hash, abstracted: `check_password_hash(HashOf(p), q)` holds
      exactly when `q == p`. */
  datatype Hash = Hash(secret: string)

  function HashOf(p: string): (h: Hash)
    ensures CheckHash(h, p)
  {
    Hash(p)
  }

  predicate CheckHash(h: Hash, p: string) {
    h.secret == p
  }

  /** A row of `accounts`. */
  datatype Account = Account(fullName: string, email: string, username: string,
                             password: Hash, security: Hash)

  /** A row of `tasks`: the owner's username, the four fields as the JSON body gave them, and
      the status. */
  datatype Task = Task(username: string, name: Js, priority: Js, date: Js, time: Js, status: string)

  /** A row of `collab_lists`. */
  datatype CollabList = CollabList(name: string, description: string, owner: string)

  /** A row of `collab_members`, with its `UNIQUE(list_id, member_username)` key only. */
  datatype Member = Member(list: nat, user: string)

  /** A row of `collab_tasks`. */
  datatype CollabTask = CollabTask(list: nat, name: Js, priority: Js, date: Js, time: Js,
                                   status: string, createdBy: string)

  /** `data.get(key)` on the parsed request body: Python `None` (here `Null`) when absent.
      Python's `not v` on such a value is `!Truthy(v)`: the same values are falsy as in
      JavaScript. */
  function Get(data: map<string, Js>, key: string): (v: Js)
    ensures v != Undefined
    ensures key !in data ==> v == Null
  {
    if key in data && data[key] != Undefined then data[key] else Null
  }

  /** `status in ["backlog", "in-progress", "completed"]` for a body value. */
  predicate IsStatus(v: Js) {
    v.Str? && ValidStatus(v.s)
  }

  /** What a route answers: `jsonify(body), code`; a redirect; a rendered template with its
      `error` and `message`; a plain-text body with a code; or Flask's own 500 page for an
      exception the route does not catch. */
  datatype Response =
    | JsonReply(code: nat, body: map<string, Js>)
    | Redirect(location: string)
    | Page(template: string, error: Option<string>, message: Option<string>)
    | Text(code: nat, text: string)
    | Crash

  function ErrorReply(code: nat, msg: string): (r: Response)
    ensures r.JsonReply? && r.code == code && r.body == map["error" := Str(msg)]
  {
    JsonReply(code, map["error" := Str(msg)])
  }

  /** `jsonify({"success": True})`. */
  const SuccessReply: Response := JsonReply(200, map["success" := Bool(true)])

  /** `jsonify({"success": False, "error": "Invalid status"})`, sent with code 200. */
  const InvalidStatus: Response := JsonReply(200, map["success" := Bool(false), "error" := Str("Invalid status")])

  const NotLoggedIn: Response := JsonReply(401, map["error" := Str("Not logged in")])

  /** Flask's signed-cookie session: the logged-in `username` key and the one-shot `message`. */
  class Session {
    var user: Option<string>
    var message: Option<string>

    constructor (user0: Option<string>)
      ensures user == user0 && message.None?
    {
      user, message := user0, None;
    }
  }

  // ---- the schema constraints ------------------------------------------------------------

  /** `id INTEGER PRIMARY KEY AUTOINCREMENT`: every id in the table was handed out, starting at
      1, and `next` is the id the next insert gets. */
  predicate IdsBelow<T>(m: map<nat, T>, next: nat) {
    1 <= next && forall id :: id in m ==> 1 <= id < next
  }

  /** `email TEXT UNIQUE` and `username TEXT UNIQUE`. */
  predicate AccountsUnique(a: map<nat, Account>) {
    forall i, j :: i in a && j in a && i != j ==>
      a[i].username != a[j].username && a[i].email != a[j].email
  }

  /** `name TEXT NOT NULL`, and `status` is one of the three (it defaults to 'backlog' and the
      routes only write validated values). */
  predicate TasksOk(t: map<nat, Task>) {
    forall id :: id in t ==> t[id].name != Null && ValidStatus(t[id].status)
  }

  /** Every member row belongs to a list (no route deletes a list). */
  predicate MembersOk(ms: set<Member>, lists: map<nat, CollabList>) {
    forall m :: m in ms ==> m.list in lists
  }

  /** The owner of a list is one of its members: `create_collaboration` inserts both at once and
      no route removes a member. */
  predicate OwnersAreMembers(lists: map<nat, CollabList>, ms: set<Member>) {
    forall l :: l in lists ==> Member(l, lists[l].owner) in ms
  }

  predicate CollabTasksOk(ct: map<nat, CollabTask>, lists: map<nat, CollabList>) {
    forall id :: id in ct ==> ct[id].list in lists && ct[id].name != Null && ValidStatus(ct[id].status)
  }

  /** The accounts, tasks and collaborations databases. */
  class Store {
    var accounts: map<nat, Account>
    var nextAccount: nat
    var tasks: map<nat, Task>
    var nextTask: nat
    var lists: map<nat, CollabList>
    var nextList: nat
    var members: set<Member>
    var collabTasks: map<nat, CollabTask>
    var nextCollabTask: nat

    ghost predicate Valid()
      reads this
    {
      IdsBelow(accounts, nextAccount) && AccountsUnique(accounts)
      && IdsBelow(tasks, nextTask) && TasksOk(tasks)
      && IdsBelow(lists, nextList) && MembersOk(members, lists) && OwnersAreMembers(lists, members)
      && IdsBelow(collabTasks, nextCollabTask) && CollabTasksOk(collabTasks, lists)
    }

    /** Freshly created databases. */
    constructor ()
      ensures Valid()
      ensures accounts == map[] && tasks == map[] && lists == map[] && members == {} && collabTasks == map[]
      ensures nextAccount == 1 && nextTask == 1 && nextList == 1 && nextCollabTask == 1
    {
      accounts, tasks, lists, members, collabTasks := map[], map[], map[], {}, map[];
      nextAccount, nextTask, nextList, nextCollabTask := 1, 1, 1, 1;
    }
  }
}
