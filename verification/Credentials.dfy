/** Signing up and signing in: what the client prints, and what the server reads and answers. */
module Credentials {
  import opened CStrings

  // --- What the client sends ---

  // A line, and what follows it.
  function Line(tag: string, value: string, rest: string): string {
    tag + (value + CRLF + rest)
  }

  function RegisterMessage(username: string, email: string, password: string): string {
    "REGISTER_USER" + CRLF + Line("USERNAME=", username, Line("EMAIL=", email, Line("PASSWORD=", password, CRLF)))
  }

  function LoginMessage(username: string, password: string): string {
    "LOGIN_USER" + CRLF + Line("USERNAME=", username, Line("PASSWORD=", password, CRLF))
  }

  // --- What the server reads ---

  datatype Field = NoField | Field(value: string, end: nat)

  /** The field on the line at `start`: from the first tag to the first CRLF. A tag after
      that CRLF is an error too. */
  function ReadField(msg: string, tag: string, start: nat): Field {
    var end, at := Find(msg, CRLF, start), Find(msg, tag, start);
    if end < 0 || at < 0 || at + |tag| > end then NoField else Field(msg[at + |tag|..end], end)
  }

  datatype Error = BadFormat | AlreadyExists(name: string) | NotInserted | NotFound(name: string) | BadPassword
  datatype Answer = Ok | Err(error: Error)
  datatype User = User(username: string, email: string, password: string)

  function Column(u: User, byEmail: bool): string {
    if byEmail then u.email else u.username
  }

  predicate Exists(users: seq<User>, byEmail: bool, data: string) {
    exists u :: u in users && Column(u, byEmail) == data
  }

  // Whether the first row for `data` has this password.
  predicate PasswordIs(users: seq<User>, byEmail: bool, data: string, password: string) {
    users != [] && if Column(users[0], byEmail) == data then users[0].password == password
                   else PasswordIs(users[1..], byEmail, data, password)
  }

  /** The username is looked up before the email is read, and the email before the password;
      `insertable` is whether the database takes a new row. */
  function Register(msg: string, start: nat, users: seq<User>, insertable: bool): (Answer, seq<User>) {
    var username := ReadField(msg, "USERNAME=", start);
    if username.NoField? then (Err(BadFormat), users)
    else if Exists(users, false, username.value) then (Err(AlreadyExists(username.value)), users)
    else
      var email := ReadField(msg, "EMAIL=", username.end + 2);
      if email.NoField? then (Err(BadFormat), users)
      else if Exists(users, true, email.value) then (Err(AlreadyExists(username.value)), users)
      else
        var password := ReadField(msg, "PASSWORD=", email.end + 2);
        if password.NoField? then (Err(BadFormat), users)
        else if !insertable then (Err(NotInserted), users)
        else (Ok, users + [User(username.value, email.value, password.value)])
  }

  /** A name with an `@` is an email. */
  function Login(msg: string, start: nat, users: seq<User>): Answer {
    var username := ReadField(msg, "USERNAME=", start);
    if username.NoField? then Err(BadFormat)
    else
      var byEmail := '@' in username.value;
      if !Exists(users, byEmail, username.value) then Err(NotFound(username.value))
      else
        var password := ReadField(msg, "PASSWORD=", username.end + 2);
        if password.NoField? then Err(BadFormat)
        else if !PasswordIs(users, byEmail, username.value, password.value) then Err(BadPassword)
        else Ok
  }

  function Handle(message: string, users: seq<User>, insertable: bool): (Answer, seq<User>) {
    var msg := CString(message);
    var end := Find(msg, CRLF, 0);
    if end < 0 then (Err(BadFormat), users)
    else if msg[..end] == "REGISTER_USER" then Register(msg, end + 2, users, insertable)
    else if msg[..end] == "LOGIN_USER" then (Login(msg, end + 2, users), users)
    else (Ok, users)
  }

  // --- Reading what was printed ---

  // The field as far as its first CRLF.
  function Cut(value: string): (r: string)
    ensures r == value <==> Free(value, CRLF)
  {
    if Free(value, CRLF) then value else value[..Find(value, CRLF, 0)]
  }

  lemma CrlfAfter(value: string, rest: string)
    ensures Find(value + CRLF + rest, CRLF, 0) == |Cut(value)|
  {
    hide Occurs;
    if Free(value, CRLF) {
      LineEnds(value, rest);
    } else {
      var k := Find(value, CRLF, 0);
      OccursCrlf(value, k);
      OccursCrlf(value + CRLF + rest, k);
      forall i: nat | i < k ensures !Occurs(value + CRLF + rest, CRLF, i) {
        OccursCrlf(value, i);
        OccursCrlf(value + CRLF + rest, i);
      }
    }
  }

  lemma FindsTag(before: string, tag: string, t: string)
    requires '\r' !in tag && Find(t, CRLF, 0) >= 0
    ensures var msg := before + (tag + t);
      && Find(msg, tag, |before|) == |before|
      && Find(msg, CRLF, |before|) == |before| + |tag| + Find(t, CRLF, 0)
  {
    var msg := before + (tag + t);
    var line := before + tag;
    assert msg == line + t;
    assert Occurs(msg, tag, |before|);
    hide Occurs, Find;
    FindShift(line, t, CRLF, 0);
    forall i: nat | |before| <= i < |line| ensures !Occurs(msg, CRLF, i) {
      OccursCrlf(msg, i);
      assert msg[i] == tag[i - |before|];
    }
  }

  /** A printed field is read back up to its first CRLF. */
  lemma ReadsBack(before: string, tag: string, value: string, rest: string)
    requires '\r' !in tag
    ensures ReadField(before + Line(tag, value, rest), tag, |before|)
      == Field(Cut(value), |before| + |tag| + |Cut(value)|)
  {
    hide Occurs, Find;
    CrlfAfter(value, rest);
    CutIsPrefix(value, CRLF + rest);
    var t := value + CRLF + rest;
    assert t == value + (CRLF + rest);
    FindsTag(before, tag, t);
    var msg, k := before + (tag + t), |Cut(value)|;
    assert msg[|before| + |tag|..|before| + |tag| + k] == t[..k];
  }

  lemma CutIsPrefix(value: string, rest: string)
    ensures |Cut(value)| <= |value| && (value + rest)[..|Cut(value)|] == Cut(value)
  {
  }

  // A whole line is skipped.
  lemma SkipLine(before: string, tag: string, value: string, rest: string)
    ensures before + Line(tag, value, rest) == (before + tag + value + CRLF) + rest
  {
  }

  lemma CommandEnds(command: string, rest: string)
    requires '\r' !in command
    ensures Find(command + CRLF + rest, CRLF, 0) == |command| && (command + CRLF + rest)[..|command|] == command
  {
    forall i: nat | i < |command| ensures !Occurs(command, CRLF, i) {
      OccursCrlf(command, i);
    }
    LineEnds(command, rest);
  }

  ghost predicate FirstRow(users: seq<User>, byEmail: bool, data: string, k: nat) {
    && k < |users| && Column(users[k], byEmail) == data
    && forall j :: 0 <= j < k ==> Column(users[j], byEmail) != data
  }

  /** A password is right if and only if it is that of the first row for the name. */
  lemma {:induction false} PasswordOfFirst(users: seq<User>, byEmail: bool, data: string, password: string)
    ensures PasswordIs(users, byEmail, data, password)
      <==> exists k: nat :: FirstRow(users, byEmail, data, k) && users[k].password == password
  {
    if users != [] {
      var rest := users[1..];
      PasswordOfFirst(rest, byEmail, data, password);
      if Column(users[0], byEmail) == data {
        assert FirstRow(users, byEmail, data, 0);
      } else {
        forall k: nat ensures FirstRow(users, byEmail, data, k + 1) == FirstRow(rest, byEmail, data, k) {
          assert k < |rest| ==> rest[k] == users[k + 1];
          assert forall j :: 0 <= j < |rest| ==> rest[j] == users[j + 1];
          assert FirstRow(rest, byEmail, data, k) ==> forall j :: 0 < j < k + 1 ==> users[j] == rest[j - 1];
        }
        assert forall k: nat :: FirstRow(users, byEmail, data, k) ==> k > 0 && FirstRow(rest, byEmail, data, k - 1);
      }
    }
  }

  // What a sign-up does once its fields have been read.
  function Registered(u: User, users: seq<User>, insertable: bool): (Answer, seq<User>) {
    if Exists(users, false, u.username) then (Err(AlreadyExists(u.username)), users)
    else if Exists(users, true, u.email) then (Err(AlreadyExists(u.username)), users)
    else if !insertable then (Err(NotInserted), users)
    else (Ok, users + [u])
  }

  predicate Clean(s: string) {
    '\0' !in s
  }

  lemma RegisterPrinted(before: string, u: User, users: seq<User>, insertable: bool)
    requires Free(u.username, CRLF) && Free(u.email, CRLF) && Free(u.password, CRLF)
    ensures var msg := before + Line("USERNAME=", u.username,
        Line("EMAIL=", u.email, Line("PASSWORD=", u.password, CRLF)));
      Register(msg, |before|, users, insertable) == Registered(u, users, insertable)
  {
    hide Find, Occurs, ReadField, Exists, Line, Free, Cut;
    var line4 := Line("PASSWORD=", u.password, CRLF);
    var line3 := Line("EMAIL=", u.email, line4);
    ReadsBack(before, "USERNAME=", u.username, line3);
    SkipLine(before, "USERNAME=", u.username, line3);
    var before3 := before + "USERNAME=" + u.username + CRLF;
    ReadsBack(before3, "EMAIL=", u.email, line4);
    SkipLine(before3, "EMAIL=", u.email, line4);
    var before4 := before3 + "EMAIL=" + u.email + CRLF;
    ReadsBack(before4, "PASSWORD=", u.password, CRLF);
    assert |before3| == |before| + 9 + |u.username| + 2 && |before4| == |before3| + 6 + |u.email| + 2;
  }

  lemma CleanLine(tag: string, value: string, rest: string)
    requires Clean(tag) && Clean(value) && Clean(rest)
    ensures Clean(Line(tag, value, rest))
  {
  }

  lemma HandlesCommand(command: string, rest: string, users: seq<User>, insertable: bool)
    requires command == "REGISTER_USER" || command == "LOGIN_USER"
    requires Clean(rest)
    ensures Handle(command + CRLF + rest, users, insertable) ==
      if command == "REGISTER_USER" then Register(command + CRLF + rest, |command| + 2, users, insertable)
      else (Login(command + CRLF + rest, |command| + 2, users), users)
  {
    hide Find, Register, Login;
    CStringWhole(command + CRLF + rest);
    CommandEnds(command, rest);
  }

  lemma RegisterIsClean(u: User)
    requires Clean(u.username) && Clean(u.email) && Clean(u.password)
    ensures Clean(Line("USERNAME=", u.username, Line("EMAIL=", u.email, Line("PASSWORD=", u.password, CRLF))))
  {
    CleanLine("PASSWORD=", u.password, CRLF);
    CleanLine("EMAIL=", u.email, Line("PASSWORD=", u.password, CRLF));
    CleanLine("USERNAME=", u.username, Line("EMAIL=", u.email, Line("PASSWORD=", u.password, CRLF)));
  }

  /** A sign-up with fields that have no CRLF is read as it was meant. */
  lemma RegisterReadsBack(u: User, users: seq<User>, insertable: bool)
    requires Clean(u.username) && Clean(u.email) && Clean(u.password)
    requires Free(u.username, CRLF) && Free(u.email, CRLF) && Free(u.password, CRLF)
    ensures Handle(RegisterMessage(u.username, u.email, u.password), users, insertable)
      == Registered(u, users, insertable)
  {
    hide Handle, Register, Registered, Clean, Line, Free;
    RegisterIsClean(u);
    var line2 := Line("USERNAME=", u.username, Line("EMAIL=", u.email, Line("PASSWORD=", u.password, CRLF)));
    HandlesCommand("REGISTER_USER", line2, users, insertable);
    RegisterPrinted("REGISTER_USER" + CRLF, u, users, insertable);
  }

  ghost predicate Unbroken(u: User) {
    Free(u.username, CRLF) && Free(u.email, CRLF) && Free(u.password, CRLF)
  }

  /** A sign-up is accepted and stores exactly what was typed if and only if no field has a CRLF,
      neither the name nor the email is taken, and the database takes a new row. */
  lemma RegisterExactIff(u: User, users: seq<User>, insertable: bool)
    requires Clean(u.username) && Clean(u.email) && Clean(u.password)
    ensures Handle(RegisterMessage(u.username, u.email, u.password), users, insertable) == (Ok, users + [u])
      <==> Unbroken(u) && !Exists(users, false, u.username) && !Exists(users, true, u.email) && insertable
  {
    hide Handle, Register, Clean, Line, Free, ReadField, RegisterMessage, Exists;
    if Unbroken(u) {
      RegisterReadsBack(u, users, insertable);
    } else {
      RegisterNotExact(u, users, insertable);
    }
  }

  lemma RegisterNotExact(u: User, users: seq<User>, insertable: bool)
    requires Clean(u.username) && Clean(u.email) && Clean(u.password) && !Unbroken(u)
    ensures Handle(RegisterMessage(u.username, u.email, u.password), users, insertable).1 != users + [u]
  {
    hide Handle, Register, Clean, Line, Free, ReadField, Unbroken;
    RegisterIsClean(u);
    var line2 := Line("USERNAME=", u.username, Line("EMAIL=", u.email, Line("PASSWORD=", u.password, CRLF)));
    HandlesCommand("REGISTER_USER", line2, users, insertable);
    RegisterMisread("REGISTER_USER" + CRLF, u, users, insertable);
  }

  // What a sign-up adds to the database.
  function Added(after: seq<User>, before: seq<User>): seq<User> {
    if |before| <= |after| then after[|before|..] else []
  }

  // The first field with a CRLF in it is stored as something else, if anything is stored.
  lemma RegisterMisread(before: string, u: User, users: seq<User>, insertable: bool)
    requires !Unbroken(u)
    ensures var msg := before + Line("USERNAME=", u.username,
        Line("EMAIL=", u.email, Line("PASSWORD=", u.password, CRLF)));
      Register(msg, |before|, users, insertable).1 != users + [u]
  {
    hide Find, Occurs, ReadField, Line, Free, Cut, Exists;
    var line4 := Line("PASSWORD=", u.password, CRLF);
    var line3 := Line("EMAIL=", u.email, line4);
    var msg := before + Line("USERNAME=", u.username, line3);
    var stored := Added(Register(msg, |before|, users, insertable).1, users);
    assert Added(users + [u], users) == [u];
    ReadsBack(before, "USERNAME=", u.username, line3);
    assert stored != [] ==> stored[0].username == Cut(u.username);
    if Free(u.username, CRLF) {
      SkipLine(before, "USERNAME=", u.username, line3);
      var before3 := before + "USERNAME=" + u.username + CRLF;
      ReadsBack(before3, "EMAIL=", u.email, line4);
      assert |before3| == |before| + 9 + |u.username| + 2;
      assert stored != [] ==> stored[0].email == Cut(u.email);
      if Free(u.email, CRLF) {
        SkipLine(before3, "EMAIL=", u.email, line4);
        var before4 := before3 + "EMAIL=" + u.email + CRLF;
        ReadsBack(before4, "PASSWORD=", u.password, CRLF);
        assert |before4| == |before3| + 6 + |u.email| + 2;
        assert stored != [] ==> stored[0].password == Cut(u.password);
      }
    }
  }

  // What a sign-in does once its fields have been read.
  function LoggedIn(name: string, password: string, users: seq<User>): Answer {
    var byEmail := '@' in name;
    if !Exists(users, byEmail, name) then Err(NotFound(name))
    else if !PasswordIs(users, byEmail, name, password) then Err(BadPassword)
    else Ok
  }

  // The name is read up to its first CRLF, and the password too when the name is whole.
  lemma LoginPrinted(before: string, name: string, password: string, users: seq<User>)
    ensures var msg := before + Line("USERNAME=", name, Line("PASSWORD=", password, CRLF));
      && (Free(name, CRLF) ==> Login(msg, |before|, users) == LoggedIn(name, Cut(password), users))
      && (!Free(name, CRLF) && users == [] ==> Login(msg, |before|, users) == Err(NotFound(Cut(name))))
  {
    hide Find, Occurs, ReadField, PasswordIs, Line, Free, Cut;
    var line3 := Line("PASSWORD=", password, CRLF);
    ReadsBack(before, "USERNAME=", name, line3);
    if Free(name, CRLF) {
      SkipLine(before, "USERNAME=", name, line3);
      var before3 := before + "USERNAME=" + name + CRLF;
      ReadsBack(before3, "PASSWORD=", password, CRLF);
      assert |before3| == |before| + 9 + |name| + 2;
      hide Exists;
    }
  }

  lemma LoginHandled(name: string, password: string, users: seq<User>, insertable: bool)
    requires Clean(name) && Clean(password)
    ensures var r := Handle(LoginMessage(name, password), users, insertable);
      && (Free(name, CRLF) ==> r == (LoggedIn(name, Cut(password), users), users))
      && (!Free(name, CRLF) && users == [] ==> r == (Err(NotFound(Cut(name))), users))
  {
    hide Handle, Login, LoggedIn, Line, Free, Cut;
    CleanLine("PASSWORD=", password, CRLF);
    CleanLine("USERNAME=", name, Line("PASSWORD=", password, CRLF));
    HandlesCommand("LOGIN_USER", Line("USERNAME=", name, Line("PASSWORD=", password, CRLF)), users, insertable);
    LoginPrinted("LOGIN_USER" + CRLF, name, password, users);
  }

  /** A sign-in with fields that have no CRLF is read as it was meant. */
  lemma LoginReadsBack(name: string, password: string, users: seq<User>, insertable: bool)
    requires Clean(name) && Clean(password) && Free(name, CRLF) && Free(password, CRLF)
    ensures Handle(LoginMessage(name, password), users, insertable) == (LoggedIn(name, password, users), users)
  {
    LoginHandled(name, password, users, insertable);
    hide Handle, Login, LoggedIn, Line, Free;
  }

  // The answer is the one for the typed fields.
  ghost predicate Answered(name: string, password: string, users: seq<User>) {
    Handle(LoginMessage(name, password), users, true).0 == LoggedIn(name, password, users)
  }

  /** The server answers a sign-in as it was meant, whatever its database holds, if and only if
      neither field has a CRLF. */
  lemma LoginExactIff(name: string, password: string)
    requires Clean(name) && Clean(password)
    ensures (forall users :: Answered(name, password, users)) <==> Free(name, CRLF) && Free(password, CRLF)
  {
    if Free(name, CRLF) && Free(password, CRLF) {
      forall users ensures Answered(name, password, users) {
        LoginReadsBack(name, password, users, true);
      }
    } else {
      var one := [User(name, name, Cut(password))];
      LoginHandled(name, password, [], true);
      LoginHandled(name, password, one, true);
      hide Handle, LoginMessage, Cut, Free;
      assert one[0] in one;
      if !Free(name, CRLF) {
        assert !Answered(name, password, []);
      } else {
        assert LoggedIn(name, Cut(password), one) == Ok && LoggedIn(name, password, one) == Err(BadPassword);
        assert !Answered(name, password, one);
      }
    }
  }

  lemma {:induction false} PasswordOfLast(users: seq<User>, u: User, byEmail: bool, password: string)
    requires !Exists(users, byEmail, Column(u, byEmail))
    ensures PasswordIs(users + [u], byEmail, Column(u, byEmail), password) <==> password == u.password
  {
    if users != [] {
      assert (users + [u])[1..] == users[1..] + [u];
      assert users[0] in users;
      assert forall x :: x in users[1..] ==> x in users;
      PasswordOfLast(users[1..], u, byEmail, password);
    }
  }

  /** Who signs up can then sign in with the same username and password, unless the username
      looks like an email: then it is looked up among the emails. By email it always works. */
  lemma SignUpThenSignIn(u: User, users: seq<User>)
    requires Clean(u.username) && Clean(u.email) && Clean(u.password)
    requires Free(u.username, CRLF) && Free(u.email, CRLF) && Free(u.password, CRLF)
    requires Handle(RegisterMessage(u.username, u.email, u.password), users, true).0 == Ok
    ensures var after := Handle(RegisterMessage(u.username, u.email, u.password), users, true).1;
      && after == users + [u]
      && (Handle(LoginMessage(u.username, u.password), after, true).0 == Ok
          <==> '@' in u.username ==> PasswordIs(after, true, u.username, u.password))
      && ('@' in u.email ==> Handle(LoginMessage(u.email, u.password), after, true).0 == Ok)
  {
    RegisterReadsBack(u, users, true);
    var after := users + [u];
    LoginReadsBack(u.username, u.password, after, true);
    LoginReadsBack(u.email, u.password, after, true);
    PasswordOfLast(users, u, false, u.password);
    PasswordOfLast(users, u, true, u.password);
    if PasswordIs(after, true, u.username, u.password) {
      PasswordIsExists(after, true, u.username, u.password);
    }
    assert u in after;
    hide Handle, PasswordIs;
  }

  lemma {:induction false} PasswordIsExists(users: seq<User>, byEmail: bool, data: string, password: string)
    requires PasswordIs(users, byEmail, data, password)
    ensures Exists(users, byEmail, data)
  {
    if Column(users[0], byEmail) != data {
      PasswordIsExists(users[1..], byEmail, data, password);
      var u :| u in users[1..] && Column(u, byEmail) == data;
      assert u in users;
    } else {
      assert users[0] in users;
    }
  }
}
