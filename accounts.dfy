/** The account routes of app.py: register, login, the password reset by security answer, and
    the profile edit, over the `accounts` table. */
module Accounts {

  import opened Common
  import opened Text
  import opened Store

  /** `SELECT ... FROM accounts WHERE username = ?` finds a row. */
  predicate HasUser(a: map<nat, Account>, u: string) {
    exists id :: id in a && a[id].username == u
  }

  predicate HasEmail(a: map<nat, Account>, e: string) {
    exists id :: id in a && a[id].email == e
  }

  /** The row of an existing username is the only one with it. */
  lemma UserRow(a: map<nat, Account>, u: string, i: nat, j: nat)
    requires AccountsUnique(a) && i in a && j in a && a[i].username == u && a[j].username == u
    ensures i == j
  {
  }

  const ShortPassword := "Password must be at least 8 characters long."
  const BadEmail := "Please enter a valid email address."
  const Taken := "Username or email already exists."

  /** The register form's checks, in their order: the password length first, then the '@'. */
  function RegisterError(email: string, password: string): (e: Option<string>)
    ensures e == Some(ShortPassword) <==> |password| < 8
    ensures e == Some(BadEmail) <==> |password| >= 8 && '@' !in email
    ensures e.None? <==> |password| >= 8 && '@' in email
  {
    if |password| < 8 then Some(ShortPassword)
    else if '@' !in email then Some(BadEmail)
    else None
  }

  /** The INSERT of a new account passes the UNIQUE constraints exactly when neither its
      username nor its email is in use, which is when the route reports no error. */
  lemma {:induction false} InsertUniqueIff(a: map<nat, Account>, next: nat, acc: Account)
    requires AccountsUnique(a) && next !in a
    ensures AccountsUnique(a[next := acc]) <==> !HasUser(a, acc.username) && !HasEmail(a, acc.email)
  {
    var b := a[next := acc];
    if HasUser(a, acc.username) {
      var id :| id in a && a[id].username == acc.username;
      assert id in b && next in b && id != next && b[id].username == b[next].username;
    } else if HasEmail(a, acc.email) {
      var id :| id in a && a[id].email == acc.email;
      assert id in b && next in b && id != next && b[id].email == b[next].email;
    }
  }

  /** `row and check_password_hash(row[0], password)`. */
  predicate LoginOk(a: map<nat, Account>, u: string, password: string) {
    exists id :: id in a && a[id].username == u && CheckHash(a[id].password, password)
  }

  predicate AnswerOk(a: map<nat, Account>, u: string, answer: string) {
    exists id :: id in a && a[id].username == u && CheckHash(a[id].security, answer)
  }

  /** `UPDATE accounts SET password = ? WHERE username = ?`. */
  function SetPassword(a: map<nat, Account>, u: string, h: Hash): map<nat, Account> {
    map id | id in a :: if a[id].username == u then a[id].(password := h) else a[id]
  }

  /** After a reset, the user logs in with the new password and only with it; a username with no
      account still logs in with nothing. */
  lemma {:induction false} ResetLogsIn(a: map<nat, Account>, u: string, p: string, q: string)
    requires AccountsUnique(a)
    ensures LoginOk(SetPassword(a, u, HashOf(p)), u, q) <==> HasUser(a, u) && q == p
  {
    var b := SetPassword(a, u, HashOf(p));
    if HasUser(a, u) {
      var id :| id in a && a[id].username == u;
      assert b[id].username == u && b[id].password == HashOf(p);
      if q == p {
        assert CheckHash(b[id].password, q);
      }
    }
    if LoginOk(b, u, q) {
      var id :| id in b && b[id].username == u && CheckHash(b[id].password, q);
      assert a[id].username == u;
    }
  }

  /** `UPDATE accounts SET full_name=?, username=?, email=?[, password=?] WHERE username=?`;
      `pw` is None when the password column is left alone. */
  function Renamed(a: map<nat, Account>, u: string, name: string, u': string, email: string,
                   pw: Option<Hash>): map<nat, Account> {
    map id | id in a ::
      if a[id].username == u
      then a[id].(fullName := name, username := u', email := email,
                  password := if pw.Some? then pw.value else a[id].password)
      else a[id]
  }

  /** Another account already holds the new username or email. */
  predicate Clash(a: map<nat, Account>, u: string, u': string, email: string) {
    exists id :: id in a && a[id].username != u && (a[id].username == u' || a[id].email == email)
  }

  /** The profile UPDATE passes the UNIQUE constraints exactly when no other account holds the
      new username or email. */
  lemma {:induction false} RenameUniqueIff(a: map<nat, Account>, u: string, name: string, u': string,
                                          email: string, pw: Option<Hash>)
    requires AccountsUnique(a) && HasUser(a, u)
    ensures AccountsUnique(Renamed(a, u, name, u', email, pw)) <==> !Clash(a, u, u', email)
  {
    var b := Renamed(a, u, name, u', email, pw);
    var k :| k in a && a[k].username == u;
    assert b[k].username == u' && b[k].email == email;
    if Clash(a, u, u', email) {
      var j :| j in a && a[j].username != u && (a[j].username == u' || a[j].email == email);
      assert j != k && b[j] == a[j];
    } else {
      forall i, j | i in b && j in b && i != j
        ensures b[i].username != b[j].username && b[i].email != b[j].email
      {
        if i == k {
          assert a[j].username != u && b[j] == a[j];
        } else if j == k {
          assert a[i].username != u && b[i] == a[i];
        } else {
          assert a[i].username != u && a[j].username != u;
        }
      }
    }
  }

  /** A profile edit with a blank password keeps the stored one: the same passwords log in,
      under the new username. */
  lemma {:induction false} RenameKeepsLogin(a: map<nat, Account>, u: string, name: string, u': string,
                                           email: string, p: string)
    requires AccountsUnique(a) && HasUser(a, u) && !Clash(a, u, u', email)
    ensures LoginOk(Renamed(a, u, name, u', email, None), u', p) <==> LoginOk(a, u, p)
  {
    var b := Renamed(a, u, name, u', email, None);
    var k :| k in a && a[k].username == u;
    assert b[k].username == u' && b[k].password == a[k].password;
    if LoginOk(b, u', p) {
      var id :| id in b && b[id].username == u' && CheckHash(b[id].password, p);
      assert a[id].username == u;
      UserRow(a, u, id, k);
    }
    if LoginOk(a, u, p) {
      var id :| id in a && a[id].username == u && CheckHash(a[id].password, p);
      UserRow(a, u, id, k);
    }
  }

  /** `POST /login`: the pending message is taken out of the session and shown; the session user
      becomes the username exactly when its stored hash accepts the password. */
  method Login(s: Store, sess: Session, username: string, password: string) returns (r: Response)
    requires s.Valid()
    modifies sess
    ensures sess.message.None?
    ensures LoginOk(s.accounts, username, password) ==>
              sess.user == Some(username) && r == Redirect("/profile")
    ensures !LoginOk(s.accounts, username, password) ==>
              sess.user == old(sess.user)
              && r == Page("accounts.html", Some("Invalid username or password."), old(sess.message))
  {
    var message := sess.message;
    sess.message := None;
    var ok := false;
    if exists id :: id in s.accounts && s.accounts[id].username == username {
      var id :| id in s.accounts && s.accounts[id].username == username;
      ok := CheckHash(s.accounts[id].password, password);
      if LoginOk(s.accounts, username, password) {
        var id' :| id' in s.accounts && s.accounts[id'].username == username
                   && CheckHash(s.accounts[id'].password, password);
        UserRow(s.accounts, username, id, id');
      }
    }
    if ok {
      sess.user := Some(username);
      return Redirect("/profile");
    }
    r := Page("accounts.html", Some("Invalid username or password."), message);
  }

  /** `POST /register`: the form checks, then the INSERT, which the UNIQUE constraints refuse
      for a username or email in use. A new account stores the hashes of the password and of the
      security answer. */
  method Register(s: Store, sess: Session, fullName: string, email: string, username: string,
                  password: string, question: string) returns (r: Response)
    requires s.Valid()
    modifies s`accounts, s`nextAccount, sess`message
    ensures s.Valid()
    ensures RegisterError(email, password).Some? ==>
              r == Page("register.html", RegisterError(email, password), None)
              && s.accounts == old(s.accounts) && s.nextAccount == old(s.nextAccount)
              && sess.message == old(sess.message)
    ensures RegisterError(email, password).None? && (HasUser(old(s.accounts), username) || HasEmail(old(s.accounts), email)) ==>
              r == Page("register.html", Some(Taken), None)
              && s.accounts == old(s.accounts) && s.nextAccount == old(s.nextAccount)
              && sess.message == old(sess.message)
    ensures RegisterError(email, password).None? && !HasUser(old(s.accounts), username) && !HasEmail(old(s.accounts), email) ==>
              s.accounts == old(s.accounts)[old(s.nextAccount) :=
                              Account(fullName, email, username, HashOf(password), HashOf(question))]
              && s.nextAccount == old(s.nextAccount) + 1
              && sess.message == Some("Account created successfully! You can now log in.")
              && r == Redirect("/login")
  {
    var e := RegisterError(email, password);
    if e.Some? {
      return Page("register.html", e, None);
    }
    var acc := Account(fullName, email, username, HashOf(password), HashOf(question));
    InsertUniqueIff(s.accounts, s.nextAccount, acc);
    if !AccountsUnique(s.accounts[s.nextAccount := acc]) {
      return Page("register.html", Some(Taken), None);
    }
    s.accounts := s.accounts[s.nextAccount := acc];
    s.nextAccount := s.nextAccount + 1;
    sess.message := Some("Account created successfully! You can now log in.");
    r := Redirect("/login");
  }

  /** `POST /editpassword/<username>`, reachable without a session: a password shorter than 8
      is refused; any other replaces the stored hash of the username in the URL (of no row, if
      there is no such account). */
  method EditPassword(s: Store, sess: Session, username: string, password: string) returns (r: Response)
    requires s.Valid()
    modifies s`accounts, sess`message
    ensures s.Valid()
    ensures |password| < 8 ==>
              r == Page("editpassword.html", Some(ShortPassword), None)
              && s.accounts == old(s.accounts) && sess.message == old(sess.message)
    ensures |password| >= 8 ==>
              s.accounts == SetPassword(old(s.accounts), username, HashOf(password))
              && sess.message == Some("Password updated successfully! You may login now.")
              && r == Redirect("/login")
  {
    if |password| < 8 {
      return Page("editpassword.html", Some(ShortPassword), None);
    }
    s.accounts := SetPassword(s.accounts, username, HashOf(password));
    sess.message := Some("Password updated successfully! You may login now.");
    r := Redirect("/login");
  }

  /** `POST /forgotpassword`: an unknown username is reported; the reset page is reached only
      when the stored hash accepts the answer. */
  method ForgotPassword(s: Store, sess: Session, username: string, answer: string) returns (r: Response)
    requires s.Valid()
    modifies sess`message
    ensures !HasUser(s.accounts, username) ==>
              r == Page("forgotpassword.html", Some("User not found."), None) && sess.message == old(sess.message)
    ensures AnswerOk(s.accounts, username, answer) ==>
              sess.message == Some("Security answer correct. Please set your new password.")
              && r == Redirect("/editpassword/" + username)
    ensures HasUser(s.accounts, username) && !AnswerOk(s.accounts, username, answer) ==>
              r == Page("forgotpassword.html", Some("Wrong answer. Please try again."), None)
              && sess.message == old(sess.message)
  {
    if !exists id :: id in s.accounts && s.accounts[id].username == username {
      return Page("forgotpassword.html", Some("User not found."), None);
    }
    var id :| id in s.accounts && s.accounts[id].username == username;
    if AnswerOk(s.accounts, username, answer) {
      var id' :| id' in s.accounts && s.accounts[id'].username == username
                 && CheckHash(s.accounts[id'].security, answer);
      UserRow(s.accounts, username, id, id');
    }
    if CheckHash(s.accounts[id].security, answer) {
      sess.message := Some("Security answer correct. Please set your new password.");
      return Redirect("/editpassword/" + username);
    }
    r := Page("forgotpassword.html", Some("Wrong answer. Please try again."), None);
  }

  /** `POST /editprofile/<username>`, reachable without a session. An unknown username goes back
      to the login page. A password blank after `strip()` leaves the stored one; any other must
      be at least 8 characters as typed. The UPDATE is refused when another account holds the
      new username or email; otherwise the session moves to the new username. */
  method EditProfile(s: Store, sess: Session, username: string, fullName: string, username': string,
                     email: string, password: string) returns (r: Response)
    requires s.Valid()
    modifies s`accounts, sess
    ensures s.Valid()
    ensures !HasUser(old(s.accounts), username) ==>
              sess.message == Some("User not found.") && sess.user == old(sess.user)
              && r == Redirect("/login") && s.accounts == old(s.accounts)
    ensures HasUser(old(s.accounts), username) && PyStrip(password) != "" && |password| < 8 ==>
              r == Page("editprofile.html", Some(ShortPassword), None)
              && s.accounts == old(s.accounts) && sess.user == old(sess.user) && sess.message == old(sess.message)
    ensures HasUser(old(s.accounts), username) && (PyStrip(password) == "" || |password| >= 8)
            && Clash(old(s.accounts), username, username', email) ==>
              r == Page("editprofile.html", Some(Taken), None)
              && s.accounts == old(s.accounts) && sess.user == old(sess.user) && sess.message == old(sess.message)
    ensures HasUser(old(s.accounts), username) && (PyStrip(password) == "" || |password| >= 8)
            && !Clash(old(s.accounts), username, username', email) ==>
              s.accounts == Renamed(old(s.accounts), username, fullName, username', email,
                                    if PyStrip(password) == "" then None else Some(HashOf(password)))
              && sess.user == Some(username') && sess.message == Some("Profile updated successfully!")
              && r == Redirect("/profile")
  {
    if !exists id :: id in s.accounts && s.accounts[id].username == username {
      sess.message := Some("User not found.");
      return Redirect("/login");
    }
    var pw: Option<Hash> := None;
    if PyStrip(password) != "" {
      if |password| < 8 {
        return Page("editprofile.html", Some(ShortPassword), None);
      }
      pw := Some(HashOf(password));
    }
    var updated := Renamed(s.accounts, username, fullName, username', email, pw);
    RenameUniqueIff(s.accounts, username, fullName, username', email, pw);
    if !AccountsUnique(updated) {
      return Page("editprofile.html", Some(Taken), None);
    }
    s.accounts := updated;
    sess.user := Some(username');
    sess.message := Some("Profile updated successfully!");
    r := Redirect("/profile");
  }
}
