/** The shared boards' routes (collaboration.py): creating a list with its members, the access
    check of its page, adding a member, and the four JSON task routes. */
module Collaboration {

  import opened Common
  import opened Text
  import opened Json
  import opened Store
  import opened Accounts
  import opened PersonalTasks

  // ---- the members field of the create form ----------------------------------------------

  function Strips(xs: seq<string>): (r: seq<string>)
    ensures |r| == |xs| && forall k :: 0 <= k < |xs| ==> r[k] == PyStrip(xs[k])
  {
    if xs == [] then [] else [PyStrip(xs[0])] + Strips(xs[1..])
  }

  /** `[member.strip() for member in members_input.split(",")] if members_input else []`. */
  function ParseMembers(input: string): seq<string> {
    if input == "" then [] else Strips(Split(input, ','))
  }

  /** Typing names that hold no comma and no surrounding blanks, separated by commas, gives
      exactly those names back; an empty field gives none. */
  lemma ParseJoined(names: seq<string>)
    requires |names| >= 1 && names[0] != ""
    requires forall k :: 0 <= k < |names| ==> ',' !in names[k] && PyStrip(names[k]) == names[k]
    ensures ParseMembers(Join(names, ',')) == names
  {
    JoinSplit(names, ',');
    assert Join(names, ',') != "" by {
      if |names| > 1 {
        assert Join(names, ',') == names[0] + [','] + Join(names[1..], ',');
      }
    }
  }

  /** Every parsed name has no comma and no blank at either end. */
  lemma ParsedNamesClean(input: string, k: nat)
    requires k < |ParseMembers(input)|
    ensures ',' !in ParseMembers(input)[k]
    ensures PyStrip(ParseMembers(input)[k]) == ParseMembers(input)[k]
  {
    var piece := Split(input, ',')[k];
    TrimIdempotent(piece, IsPySpace);
    TrimStartSpec(piece, IsPySpace);
    TrimEndSpec(TrimStart(piece, IsPySpace), IsPySpace);
    TrimSubstring(piece, ',');
  }

  /** The stripped piece is a slice of the piece, so it holds no character the piece lacks. */
  lemma TrimSubstring(s: string, c: char)
    requires c !in s
    ensures c !in PyStrip(s)
  {
    TrimStartSpec(s, IsPySpace);
    TrimEndSpec(TrimStart(s, IsPySpace), IsPySpace);
    var t := TrimStart(s, IsPySpace);
    assert forall i :: 0 <= i < |t| ==> t[i] in s by {
      var j := |s| - |t|;
      forall i | 0 <= i < |t| ensures t[i] in s {
        assert t[i] == s[j + i];
      }
    }
    var u := PyStrip(s);
    forall i | 0 <= i < |u| ensures u[i] != c {
      assert u[i] == t[i];
    }
  }

  /** The loop's test for a parsed name: non-empty, not the owner, and an existing account. */
  predicate Invited(a: map<nat, Account>, owner: string, m: string) {
    m != "" && m != owner && HasUser(a, m)
  }

  /** The names the loop inserts, in order. */
  function Candidates(names: seq<string>, owner: string, a: map<nat, Account>): (r: seq<string>)
    ensures forall k :: 0 <= k < |r| ==> r[k] in names && Invited(a, owner, r[k])
    ensures forall x :: x in names && Invited(a, owner, x) ==> x in r
  {
    if names == [] then []
    else
      var init := Candidates(names[..|names| - 1], owner, a);
      var m := names[|names| - 1];
      assert forall x :: x in names ==> x in names[..|names| - 1] || x == m;
      if Invited(a, owner, m) then init + [m] else init
  }

  predicate HasDup(xs: seq<string>) {
    exists i, j :: 0 <= i < j < |xs| && xs[i] == xs[j]
  }

  lemma DupSnoc(xs: seq<string>, x: string)
    ensures HasDup(xs + [x]) <==> HasDup(xs) || x in xs
  {
    var ys := xs + [x];
    if HasDup(ys) {
      var i, j :| 0 <= i < j < |ys| && ys[i] == ys[j];
      if j == |xs| {
        assert xs[i] == x;
      } else {
        assert xs[i] == xs[j];
      }
    }
    if x in xs {
      var i :| 0 <= i < |xs| && xs[i] == x;
      assert ys[i] == ys[|xs|];
    }
    if HasDup(xs) {
      var i, j :| 0 <= i < j < |xs| && xs[i] == xs[j];
      assert ys[i] == ys[j];
    }
  }

  /** One of the parsed names that the loop inserts appears twice. */
  predicate NamedTwice(names: seq<string>, owner: string, a: map<nat, Account>) {
    exists i, j :: 0 <= i < j < |names| && names[i] == names[j] && Invited(a, owner, names[i])
  }

  /** The second INSERT of the same member breaks `UNIQUE(list_id, member_username)` exactly
      when an existing account other than the owner is named twice. */
  lemma {:induction false} DuplicateIff(names: seq<string>, owner: string, a: map<nat, Account>)
    ensures HasDup(Candidates(names, owner, a)) <==> NamedTwice(names, owner, a)
    decreases |names|
  {
    if names != [] {
      var init, m := names[..|names| - 1], names[|names| - 1];
      var c := Candidates(init, owner, a);
      assert HasDup(c) <==> NamedTwice(init, owner, a) by {
        DuplicateIff(init, owner, a);
      }
      assert NamedTwice(names, owner, a) <==> NamedTwice(init, owner, a) || (Invited(a, owner, m) && m in init) by {
        assert names == init + [m];
        NamedTwiceSnoc(init, m, owner, a);
      }
      if Invited(a, owner, m) {
        DupSnoc(c, m);
      }
    }
  }

  lemma NamedTwiceSnoc(init: seq<string>, m: string, owner: string, a: map<nat, Account>)
    ensures NamedTwice(init + [m], owner, a) <==> NamedTwice(init, owner, a) || (Invited(a, owner, m) && m in init)
  {
    var names := init + [m];
    if NamedTwice(names, owner, a) {
      var i, j :| 0 <= i < j < |names| && names[i] == names[j] && Invited(a, owner, names[i]);
      if j < |names| - 1 {
        assert init[i] == init[j];
        assert NamedTwice(init, owner, a);
      } else {
        assert m in init by { assert init[i] == m; }
      }
    }
    if m in init && Invited(a, owner, m) {
      var i :| 0 <= i < |init| && init[i] == m;
      assert names[i] == names[|names| - 1];
    }
    if NamedTwice(init, owner, a) {
      var i, j :| 0 <= i < j < |init| && init[i] == init[j] && Invited(a, owner, init[i]);
      assert names[i] == names[j];
    }
  }

  /** The names inserted while the loop has seen a prefix come first among all it inserts. */
  lemma {:induction false} CandidatesPrefix(names: seq<string>, i: nat, owner: string, a: map<nat, Account>)
    requires i <= |names|
    ensures exists t :: Candidates(names, owner, a) == Candidates(names[..i], owner, a) + t
    decreases |names|
  {
    if i == |names| {
      assert names[..i] == names;
      assert Candidates(names, owner, a) == Candidates(names[..i], owner, a) + [];
    } else {
      var init := names[..|names| - 1];
      CandidatesPrefix(init, i, owner, a);
      assert init[..i] == names[..i];
      var t :| Candidates(init, owner, a) == Candidates(names[..i], owner, a) + t;
      var m := names[|names| - 1];
      if Invited(a, owner, m) {
        assert Candidates(names, owner, a) == Candidates(names[..i], owner, a) + (t + [m]);
      }
    }
  }

  lemma DupExtend(xs: seq<string>, t: seq<string>)
    requires HasDup(xs)
    ensures HasDup(xs + t)
  {
    var i, j :| 0 <= i < j < |xs| && xs[i] == xs[j];
    assert (xs + t)[i] == (xs + t)[j];
  }

  /** The member rows the loop inserts for list `l`. */
  function MemberRows(l: nat, xs: seq<string>): (r: set<Member>)
    ensures forall m :: m in r <==> m.list == l && m.user in xs
  {
    set x | x in xs :: Member(l, x)
  }

  const UniqueMembers := "UNIQUE constraint failed: collab_members.list_id, collab_members.member_username"

  /** The loop over the parsed names, on the member rows of the open transaction, where the
      only row of the new list `id` so far is the owner's: each invited name is inserted, and
      the first INSERT of a row already there breaks the UNIQUE key (None). */
  method InsertInvited(a: map<nat, Account>, rows: set<Member>, id: nat, owner: string, names: seq<string>)
    returns (r: Option<set<Member>>)
    requires forall m :: m in rows && m.list == id ==> m.user == owner
    ensures r.None? <==> HasDup(Candidates(names, owner, a))
    ensures r.Some? ==> r.value == rows + MemberRows(id, Candidates(names, owner, a))
  {
    var ms := rows;
    var i := 0;
    while i < |names|
      invariant i <= |names|
      invariant ms == rows + MemberRows(id, Candidates(names[..i], owner, a))
      invariant !HasDup(Candidates(names[..i], owner, a))
    {
      var m := names[i];
      assert names[..i + 1][..i] == names[..i];
      if m != "" && m != owner && HasUser(a, m) {
        if Member(id, m) in ms {
          assert m in Candidates(names[..i], owner, a);
          DupSnoc(Candidates(names[..i], owner, a), m);
          CandidatesPrefix(names, i + 1, owner, a);
          var t :| Candidates(names, owner, a) == Candidates(names[..i + 1], owner, a) + t;
          DupExtend(Candidates(names[..i + 1], owner, a), t);
          return None;
        }
        DupSnoc(Candidates(names[..i], owner, a), m);
        ms := ms + {Member(id, m)};
      }
      i := i + 1;
    }
    assert names[..i] == names;
    r := Some(ms);
  }

  /** `POST /create_collaboration`. Without a session user it sends the browser to the login
      page. Otherwise the list, its owner's member row and one row per invited name are written
      in one transaction: a name invited twice breaks the members' UNIQUE key, the route answers
      500 and nothing is kept; otherwise the new list has exactly the owner and the invited
      names as members. */
  method CreateCollaboration(s: Store, sess: Session, name: string, description: string, membersInput: string)
    returns (r: Response)
    requires s.Valid()
    modifies s`lists, s`nextList, s`members, sess`message
    ensures s.Valid()
    ensures sess.user.None? ==>
              sess.message == Some("Please log in first.") && r == Redirect("/login")
              && s.lists == old(s.lists) && s.nextList == old(s.nextList) && s.members == old(s.members)
    ensures sess.user.Some? && HasDup(Candidates(ParseMembers(membersInput), sess.user.value, s.accounts)) ==>
              r == Text(500, "Error creating collaboration: " + UniqueMembers)
              && sess.message == old(sess.message)
              && s.lists == old(s.lists) && s.nextList == old(s.nextList) && s.members == old(s.members)
    ensures sess.user.Some? && !HasDup(Candidates(ParseMembers(membersInput), sess.user.value, s.accounts)) ==>
              old(s.nextList) !in old(s.lists)
              && s.lists == old(s.lists)[old(s.nextList) := CollabList(name, description, sess.user.value)]
              && s.nextList == old(s.nextList) + 1
              && s.members == old(s.members) + {Member(old(s.nextList), sess.user.value)}
                              + MemberRows(old(s.nextList), Candidates(ParseMembers(membersInput), sess.user.value, s.accounts))
              && sess.message == Some("Collaboration '" + name + "' created successfully!")
              && r == Redirect("/collaboration")
  {
    if sess.user.None? {
      sess.message := Some("Please log in first.");
      return Redirect("/login");
    }
    var owner := sess.user.value;
    var id := s.nextList;
    var rows := InsertInvited(s.accounts, s.members + {Member(id, owner)}, id, owner, ParseMembers(membersInput));
    if rows.None? {
      return Text(500, "Error creating collaboration: " + UniqueMembers);
    }
    s.lists := s.lists[id := CollabList(name, description, owner)];
    s.nextList := id + 1;
    s.members := rows.value;
    sess.message := Some("Collaboration '" + name + "' created successfully!");
    r := Redirect("/collaboration");
  }

  /** `GET /collaboration/<list_id>`: the page is shown only to a member of the list; anyone
      else is sent back with a message. The list of a member row always exists, so the route's
      "Collaboration not found." branch is never taken. */
  method ViewCollaboration(s: Store, sess: Session, listId: nat) returns (r: Response)
    requires s.Valid()
    modifies sess`message
    ensures sess.user.None? ==> sess.message == Some("Please log in first.") && r == Redirect("/login")
    ensures sess.user.Some? && Member(listId, sess.user.value) !in s.members ==>
              sess.message == Some("You don't have access to this collaboration.") && r == Redirect("/collaboration")
    ensures sess.user.Some? && Member(listId, sess.user.value) in s.members ==>
              listId in s.lists && sess.message == old(sess.message) && r == Page("collab_tasks.html", None, None)
  {
    if sess.user.None? {
      sess.message := Some("Please log in first.");
      return Redirect("/login");
    }
    if Member(listId, sess.user.value) !in s.members {
      sess.message := Some("You don't have access to this collaboration.");
      return Redirect("/collaboration");
    }
    assert listId in s.lists;
    r := Page("collab_tasks.html", None, None);
  }

  /** `POST /add_collab_member/<list_id>`: 401, 400 for a falsy username, 403 unless the session
      user owns the list, 404 unless the name is an account, 400 when it is already a member;
      otherwise the members grow by exactly that user. */
  method AddCollabMember(s: Store, sess: Session, listId: nat, data: map<string, Js>) returns (r: Response)
    requires s.Valid()
    modifies s`members
    ensures s.Valid()
    ensures sess.user.None? ==> r == NotLoggedIn && s.members == old(s.members)
    ensures sess.user.Some? && !Truthy(Get(data, "username")) ==>
              r == ErrorReply(400, "Username required") && s.members == old(s.members)
    ensures sess.user.Some? && Truthy(Get(data, "username"))
            && !(listId in s.lists && s.lists[listId].owner == sess.user.value) ==>
              r == ErrorReply(403, "Only the owner can add members") && s.members == old(s.members)
    ensures sess.user.Some? && Truthy(Get(data, "username"))
            && listId in s.lists && s.lists[listId].owner == sess.user.value
            && !(Get(data, "username").Str? && HasUser(s.accounts, Get(data, "username").s)) ==>
              r == ErrorReply(404, "User not found") && s.members == old(s.members)
    ensures sess.user.Some? && listId in s.lists && s.lists[listId].owner == sess.user.value
            && Get(data, "username").Str? && HasUser(s.accounts, Get(data, "username").s)
            && Truthy(Get(data, "username")) && Member(listId, Get(data, "username").s) in old(s.members) ==>
              r == ErrorReply(400, "User is already a member") && s.members == old(s.members)
    ensures sess.user.Some? && listId in s.lists && s.lists[listId].owner == sess.user.value
            && Get(data, "username").Str? && HasUser(s.accounts, Get(data, "username").s)
            && Truthy(Get(data, "username")) && Member(listId, Get(data, "username").s) !in old(s.members) ==>
              s.members == old(s.members) + {Member(listId, Get(data, "username").s)}
              && r == JsonReply(200, map["success" := Bool(true),
                                         "message" := Str("Added " + Get(data, "username").s + " to collaboration")])
  {
    if sess.user.None? {
      return NotLoggedIn;
    }
    var user := Get(data, "username");
    if !Truthy(user) {
      return ErrorReply(400, "Username required");
    }
    if listId !in s.lists || s.lists[listId].owner != sess.user.value {
      return ErrorReply(403, "Only the owner can add members");
    }
    if !(user.Str? && HasUser(s.accounts, user.s)) {
      return ErrorReply(404, "User not found");
    }
    if Member(listId, user.s) in s.members {
      return ErrorReply(400, "User is already a member");
    }
    s.members := s.members + {Member(listId, user.s)};
    r := JsonReply(200, map["success" := Bool(true), "message" := Str("Added " + user.s + " to collaboration")]);
  }

  /** The row `add_collab_task` inserts: the session user's, in the default status. */
  function NewCollabTask(listId: nat, user: string, data: map<string, Js>): (t: CollabTask)
    ensures t.list == listId && t.createdBy == user && t.status == "backlog"
    ensures t.name == Get(data, "name") && t.priority == Get(data, "priority")
    ensures t.date == Get(data, "date") && t.time == Get(data, "time")
  {
    CollabTask(listId, Get(data, "name"), Get(data, "priority"), Get(data, "date"), Get(data, "time"),
               "backlog", user)
  }

  /** `POST /add_collab_task/<list_id>`: 401, then 400 for a falsy name, then 403 for a
      non-member; otherwise one task created by the session user is inserted and echoed with
      its new id and creator. */
  method AddCollabTask(s: Store, sess: Session, listId: nat, data: map<string, Js>) returns (r: Response)
    requires s.Valid()
    modifies s`collabTasks, s`nextCollabTask
    ensures s.Valid()
    ensures sess.user.None? ==>
              r == NotLoggedIn && s.collabTasks == old(s.collabTasks) && s.nextCollabTask == old(s.nextCollabTask)
    ensures sess.user.Some? && !Truthy(Get(data, "name")) ==>
              r == ErrorReply(400, "Task name required")
              && s.collabTasks == old(s.collabTasks) && s.nextCollabTask == old(s.nextCollabTask)
    ensures sess.user.Some? && Truthy(Get(data, "name")) && Member(listId, sess.user.value) !in s.members ==>
              r == ErrorReply(403, "You don't have access to this collaboration")
              && s.collabTasks == old(s.collabTasks) && s.nextCollabTask == old(s.nextCollabTask)
    ensures sess.user.Some? && Truthy(Get(data, "name")) && Member(listId, sess.user.value) in s.members ==>
              old(s.nextCollabTask) !in old(s.collabTasks) && s.nextCollabTask == old(s.nextCollabTask) + 1
              && s.collabTasks == old(s.collabTasks)[old(s.nextCollabTask) := NewCollabTask(listId, sess.user.value, data)]
              && r == JsonReply(200, TaskEcho(old(s.nextCollabTask), data)["created_by" := Str(sess.user.value)])
  {
    if sess.user.None? {
      return NotLoggedIn;
    }
    if !Truthy(Get(data, "name")) {
      return ErrorReply(400, "Task name required");
    }
    if Member(listId, sess.user.value) !in s.members {
      return ErrorReply(403, "You don't have access to this collaboration");
    }
    var id := s.nextCollabTask;
    s.collabTasks := s.collabTasks[id := NewCollabTask(listId, sess.user.value, data)];
    s.nextCollabTask := id + 1;
    r := JsonReply(200, TaskEcho(id, data)["created_by" := Str(sess.user.value)]);
  }

  /** The join every task route makes: the task exists and the user is a member of its list. */
  predicate CanAccess(ct: map<nat, CollabTask>, ms: set<Member>, taskId: nat, user: string) {
    taskId in ct && Member(ct[taskId].list, user) in ms
  }

  /** Delete's rule: a member who created the task or owns its list. */
  predicate MayDelete(ct: map<nat, CollabTask>, lists: map<nat, CollabList>, ms: set<Member>,
                      taskId: nat, user: string)
    requires CollabTasksOk(ct, lists)
  {
    CanAccess(ct, ms, taskId, user)
    && (user == ct[taskId].createdBy || user == lists[ct[taskId].list].owner)
  }

  /** The owner of a list may delete every task of it: the owner is always a member. */
  lemma OwnerMayDelete(ct: map<nat, CollabTask>, lists: map<nat, CollabList>, ms: set<Member>, taskId: nat)
    requires CollabTasksOk(ct, lists) && OwnersAreMembers(lists, ms) && taskId in ct
    ensures MayDelete(ct, lists, ms, taskId, lists[ct[taskId].list].owner)
  {
    assert ct[taskId].list in lists;
  }

  /** A creator who is still a member may delete the task; a non-member may delete nothing, not
      even a task they created. */
  lemma CreatorMayDelete(ct: map<nat, CollabTask>, lists: map<nat, CollabList>, ms: set<Member>,
                         taskId: nat, user: string)
    requires CollabTasksOk(ct, lists) && taskId in ct && ct[taskId].createdBy == user
    ensures MayDelete(ct, lists, ms, taskId, user) <==> Member(ct[taskId].list, user) in ms
  {
  }

  /** `PUT /edit_collab_task/<id>`: any member of the task's list may overwrite its name,
      priority, date and time; a non-member, or a missing task, gets 403. A null name breaks
      `name NOT NULL` and the uncaught error is a 500 with nothing changed. */
  method EditCollabTask(s: Store, sess: Session, taskId: nat, data: map<string, Js>) returns (r: Response)
    requires s.Valid()
    modifies s`collabTasks
    ensures s.Valid()
    ensures sess.user.None? ==> r == NotLoggedIn && s.collabTasks == old(s.collabTasks)
    ensures sess.user.Some? && !CanAccess(old(s.collabTasks), s.members, taskId, sess.user.value) ==>
              r == ErrorReply(403, "You don't have access to edit this task") && s.collabTasks == old(s.collabTasks)
    ensures sess.user.Some? && CanAccess(old(s.collabTasks), s.members, taskId, sess.user.value)
            && Get(data, "name") == Null ==>
              r == Crash && s.collabTasks == old(s.collabTasks)
    ensures sess.user.Some? && CanAccess(old(s.collabTasks), s.members, taskId, sess.user.value)
            && Get(data, "name") != Null ==>
              r == SuccessReply
              && s.collabTasks == old(s.collabTasks)[taskId := old(s.collabTasks[taskId]).(
                   name := Get(data, "name"), priority := Get(data, "priority"),
                   date := Get(data, "date"), time := Get(data, "time"))]
  {
    if sess.user.None? {
      return NotLoggedIn;
    }
    if !CanAccess(s.collabTasks, s.members, taskId, sess.user.value) {
      return ErrorReply(403, "You don't have access to edit this task");
    }
    if Get(data, "name") == Null {
      return Crash;
    }
    s.collabTasks := s.collabTasks[taskId := s.collabTasks[taskId].(
                       name := Get(data, "name"), priority := Get(data, "priority"),
                       date := Get(data, "date"), time := Get(data, "time"))];
    r := SuccessReply;
  }

  /** `DELETE /delete_collab_task/<id>`: the task goes exactly when the session user may delete
      it (`MayDelete`); otherwise 403 and it stays. */
  method DeleteCollabTask(s: Store, sess: Session, taskId: nat) returns (r: Response)
    requires s.Valid()
    modifies s`collabTasks
    ensures s.Valid()
    ensures sess.user.None? ==> r == NotLoggedIn && s.collabTasks == old(s.collabTasks)
    ensures sess.user.Some? && !CanAccess(old(s.collabTasks), s.members, taskId, sess.user.value) ==>
              r == ErrorReply(403, "You don't have access to delete this task") && s.collabTasks == old(s.collabTasks)
    ensures sess.user.Some? && CanAccess(old(s.collabTasks), s.members, taskId, sess.user.value)
            && !MayDelete(old(s.collabTasks), s.lists, s.members, taskId, sess.user.value) ==>
              r == ErrorReply(403, "Only task creator or list owner can delete tasks")
              && s.collabTasks == old(s.collabTasks)
    ensures sess.user.Some? && MayDelete(old(s.collabTasks), s.lists, s.members, taskId, sess.user.value) ==>
              r == SuccessReply && s.collabTasks == old(s.collabTasks) - {taskId}
    ensures r == SuccessReply <==> sess.user.Some? && MayDelete(old(s.collabTasks), s.lists, s.members, taskId, sess.user.value)
  {
    if sess.user.None? {
      return NotLoggedIn;
    }
    var user := sess.user.value;
    if !CanAccess(s.collabTasks, s.members, taskId, user) {
      return ErrorReply(403, "You don't have access to delete this task");
    }
    var task := s.collabTasks[taskId];
    var owner := s.lists[task.list].owner;
    if user != task.createdBy && user != owner {
      return ErrorReply(403, "Only task creator or list owner can delete tasks");
    }
    s.collabTasks := s.collabTasks - {taskId};
    r := SuccessReply;
  }

  /** `PUT /update_collab_task_status/<id>`: an invalid status is refused with `success: false`
      before access is checked; a member may then change the status and nothing else; anyone
      else gets 403. */
  method UpdateCollabTaskStatus(s: Store, sess: Session, taskId: nat, data: map<string, Js>) returns (r: Response)
    requires s.Valid()
    modifies s`collabTasks
    ensures s.Valid()
    ensures sess.user.None? ==> r == NotLoggedIn && s.collabTasks == old(s.collabTasks)
    ensures sess.user.Some? && !IsStatus(Get(data, "status")) ==>
              r == InvalidStatus && s.collabTasks == old(s.collabTasks)
    ensures sess.user.Some? && IsStatus(Get(data, "status"))
            && !CanAccess(old(s.collabTasks), s.members, taskId, sess.user.value) ==>
              r == ErrorReply(403, "You don't have access to this task") && s.collabTasks == old(s.collabTasks)
    ensures sess.user.Some? && IsStatus(Get(data, "status"))
            && CanAccess(old(s.collabTasks), s.members, taskId, sess.user.value) ==>
              r == SuccessReply
              && s.collabTasks == old(s.collabTasks)[taskId := old(s.collabTasks[taskId]).(status := Get(data, "status").s)]
  {
    if sess.user.None? {
      return NotLoggedIn;
    }
    var status := Get(data, "status");
    if !IsStatus(status) {
      return InvalidStatus;
    }
    if !CanAccess(s.collabTasks, s.members, taskId, sess.user.value) {
      return ErrorReply(403, "You don't have access to this task");
    }
    s.collabTasks := s.collabTasks[taskId := s.collabTasks[taskId].(status := status.s)];
    r := SuccessReply;
  }
}
