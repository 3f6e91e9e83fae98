/**
 * The account handlers of server.js (login, register, forgot, reset-password, verify,
 * GET and PUT /api/user/:email) as operations on the array of user records that the
 * server keeps in users.json.
 *
 * Every handler re-reads the whole array, runs a fixed order of guard checks, and then
 * either answers with an error or changes one record (register appends one). Here the
 * array is a `seq<User>`; the pure functions below give, for each handler, the reply and
 * the new array, and the class `UserStore` performs the same updates in place.
 *
 * Request fields are strings; a field the request leaves out is the empty string, which
 * is falsy in JavaScript exactly like `undefined`. The clock (`Date.now()`) and the random
 * reset code are parameters.
 */
module Accounts {
  import opened Wrappers

  /** A record of users.json. `resetCode` / `resetCodeExpiry` are absent until a forgot request. */
  datatype User = User(
    id: int,
    lastName: string,
    firstName: string,
    email: string,
    password: string,
    emailVerified: bool,
    resetCode: Option<string>,
    resetCodeExpiry: Option<int>)

  /** An HTTP status with the JSON body's `message`. */
  datatype Reply = Reply(status: nat, message: string)

  /** The reply of a handler together with the user array it leaves behind. */
  datatype Step = Step(reply: Reply, users: seq<User>)

  /** What login returns on success: only these three fields of the record. */
  datatype Summary = Summary(email: string, firstName: string, lastName: string)

  datatype LoginResult = LoginOk(message: string, user: Summary) | LoginErr(status: nat, message: string)

  /** What GET /api/user/:email returns: the record minus password, resetCode and resetCodeExpiry. */
  datatype PublicUser = PublicUser(id: int, lastName: string, firstName: string, email: string, emailVerified: bool)

  datatype ProfileResult = Profile(info: PublicUser) | ProfileErr(status: nat, message: string)

  const MsgNoAccount := "账号不存在"
  const MsgBadPassword := "账号或密码错误"
  const MsgUnverified := "邮箱未验证，请查看您的邮件进行验证"
  const MsgLoginOk := "登录成功"
  const MsgIncomplete := "信息不完整"
  const MsgEmailTaken := "该邮箱已注册"
  const MsgRegistered := "注册成功，请前往邮箱验证后登录"
  const MsgNeedEmail := "请输入邮箱地址"
  const MsgNotRegistered := "该邮箱未注册"
  const MsgCodeSent := "重置密码验证码已发送到您的邮箱"
  const MsgNoUser := "用户不存在"
  const MsgBadCode := "验证码错误"
  const MsgCodeExpired := "验证码已过期"
  const MsgResetOk := "密码重置成功"
  const MsgVerified := "邮箱验证成功"
  const MsgUpdated := "用户信息更新成功"

  /** The only code verify accepts. */
  const VerifyCode := "123456"

  /** A reset code stays valid for 30 minutes, in milliseconds. */
  const ResetValidityMs := 30 * 60 * 1000

  /** JavaScript truthiness of a request string: `undefined` and `""` are falsy. */
  predicate Truthy(s: string) { s != "" }

  /** `!user.resetCode` is false: a code is stored and it is not the empty string. */
  predicate CodeStored(u: User) { u.resetCode.Some? && u.resetCode.value != "" }

  /** `user.resetCodeExpiry` is truthy: present and not 0. */
  predicate ExpirySet(u: User) { u.resetCodeExpiry.Some? && u.resetCodeExpiry.value != 0 }

  predicate UniqueEmails(users: seq<User>) {
    forall i, j :: 0 <= i < |users| && 0 <= j < |users| && users[i].email == users[j].email ==> i == j
  }

  predicate IdsIncreasing(users: seq<User>) {
    forall i, j :: 0 <= i < j < |users| ==> users[i].id < users[j].id
  }

  /** Two arrays agree everywhere except possibly at index `k`. */
  predicate OnlyChangedAt(before: seq<User>, after: seq<User>, k: nat) {
    |after| == |before| && k < |before| &&
    forall j :: 0 <= j < |before| && j != k ==> after[j] == before[j]
  }

  /** `users.find(u => u.email === email)` / `findIndex`: the first record with that email. */
  function FindUser(users: seq<User>, email: string): (r: Option<nat>)
    ensures r.Some? ==> r.value < |users| && users[r.value].email == email &&
                        forall j :: 0 <= j < r.value ==> users[j].email != email
    ensures r.None? <==> forall j :: 0 <= j < |users| ==> users[j].email != email
  {
    if |users| == 0 then None
    else if users[0].email == email then Some(0)
    else match FindUser(users[1..], email)
         case None => None
         case Some(k) => Some(k + 1)
  }

  /** With unique emails, the record with a given email is the one `find` returns. */
  lemma FindUnique(users: seq<User>, i: nat)
    requires UniqueEmails(users) && i < |users|
    ensures FindUser(users, users[i].email) == Some(i)
  {
  }

  /** POST /api/login: unknown email, then wrong password, then unverified email, in that order. */
  function Login(users: seq<User>, email: string, password: string): (r: LoginResult)
    ensures FindUser(users, email).None? ==> r == LoginErr(400, MsgNoAccount)
    ensures FindUser(users, email).Some? ==>
              var u := users[FindUser(users, email).value];
              (u.password != password ==> r == LoginErr(400, MsgBadPassword)) &&
              (u.password == password && !u.emailVerified ==> r == LoginErr(400, MsgUnverified)) &&
              (u.password == password && u.emailVerified ==>
                 r == LoginOk(MsgLoginOk, Summary(u.email, u.firstName, u.lastName)))
  {
    match FindUser(users, email)
    case None => LoginErr(400, MsgNoAccount)
    case Some(i) =>
      var u := users[i];
      if u.password != password then LoginErr(400, MsgBadPassword)
      else if !u.emailVerified then LoginErr(400, MsgUnverified)
      else LoginOk(MsgLoginOk, Summary(u.email, u.firstName, u.lastName))
  }

  /**
   * On a store with unique emails, login succeeds exactly when some record has that email,
   * that password and a verified email, and it then reports that record's names.
   */
  lemma LoginSucceedsIff(users: seq<User>, email: string, password: string)
    requires UniqueEmails(users)
    ensures Login(users, email, password).LoginOk? <==>
            exists i :: 0 <= i < |users| && users[i].email == email &&
                        users[i].password == password && users[i].emailVerified
    ensures Login(users, email, password).LoginOk? ==> Login(users, email, password).user.email == email
  {
    if exists i :: 0 <= i < |users| && users[i].email == email &&
                   users[i].password == password && users[i].emailVerified {
      var i :| 0 <= i < |users| && users[i].email == email &&
               users[i].password == password && users[i].emailVerified;
      FindUnique(users, i);
    }
  }

  /** The id register gives: the last record's id + 1, or 1 for an empty array. */
  function NextId(users: seq<User>): (id: int)
    ensures IdsIncreasing(users) ==> forall j :: 0 <= j < |users| ==> users[j].id < id
  {
    if |users| > 0 then users[|users| - 1].id + 1 else 1
  }

  /** POST /api/register. */
  function Register(users: seq<User>, lastName: string, firstName: string, email: string, password: string): (r: Step)
    ensures r.reply.status == 200 <==>
              Truthy(lastName) && Truthy(firstName) && Truthy(email) && Truthy(password) &&
              FindUser(users, email).None?
    ensures !(Truthy(lastName) && Truthy(firstName) && Truthy(email) && Truthy(password)) ==>
              r == Step(Reply(400, MsgIncomplete), users)
    ensures (Truthy(lastName) && Truthy(firstName) && Truthy(email) && Truthy(password) &&
             FindUser(users, email).Some?) ==> r == Step(Reply(400, MsgEmailTaken), users)
    ensures r.reply.status == 200 ==>
              r.reply.message == MsgRegistered &&
              |r.users| == |users| + 1 && r.users[..|users|] == users &&
              r.users[|users|] == User(NextId(users), lastName, firstName, email, password, false, None, None)
  {
    if !(Truthy(lastName) && Truthy(firstName) && Truthy(email) && Truthy(password)) then
      Step(Reply(400, MsgIncomplete), users)
    else if FindUser(users, email).Some? then
      Step(Reply(400, MsgEmailTaken), users)
    else
      Step(Reply(200, MsgRegistered), users + [User(NextId(users), lastName, firstName, email, password, false, None, None)])
  }

  /** Register keeps emails unique (duplicates are refused) and ids strictly increasing. */
  lemma RegisterKeepsInvariants(users: seq<User>, lastName: string, firstName: string, email: string, password: string)
    ensures UniqueEmails(users) ==> UniqueEmails(Register(users, lastName, firstName, email, password).users)
    ensures IdsIncreasing(users) ==> IdsIncreasing(Register(users, lastName, firstName, email, password).users)
  {
    var r := Register(users, lastName, firstName, email, password);
    if r.reply.status == 200 {
      assert forall j :: 0 <= j < |users| ==> r.users[j] == users[j];
    }
  }

  /** POST /api/forgot: store a fresh code and a deadline `now + 30 min` on the record, replacing any earlier one. */
  function Forgot(users: seq<User>, email: string, now: int, code: string): (r: Step)
    ensures !Truthy(email) ==> r == Step(Reply(400, MsgNeedEmail), users)
    ensures Truthy(email) && FindUser(users, email).None? ==> r == Step(Reply(400, MsgNotRegistered), users)
    ensures Truthy(email) && FindUser(users, email).Some? ==>
              var i := FindUser(users, email).value;
              r.reply == Reply(200, MsgCodeSent) && OnlyChangedAt(users, r.users, i) &&
              r.users[i] == users[i].(resetCode := Some(code), resetCodeExpiry := Some(now + ResetValidityMs))
  {
    if !Truthy(email) then Step(Reply(400, MsgNeedEmail), users)
    else match FindUser(users, email)
      case None => Step(Reply(400, MsgNotRegistered), users)
      case Some(i) =>
        Step(Reply(200, MsgCodeSent),
             users[i := users[i].(resetCode := Some(code), resetCodeExpiry := Some(now + ResetValidityMs))])
  }

  /** The condition under which reset-password succeeds for record `u`. */
  predicate ResetAccepted(u: User, code: string, now: int) {
    CodeStored(u) && u.resetCode.value == code && !(ExpirySet(u) && now > u.resetCodeExpiry.value)
  }

  /** POST /api/reset-password. */
  function ResetPassword(users: seq<User>, email: string, code: string, newPassword: string, now: int): (r: Step)
    ensures r.reply.status == 200 <==>
              Truthy(email) && Truthy(code) && Truthy(newPassword) && FindUser(users, email).Some? &&
              ResetAccepted(users[FindUser(users, email).value], code, now)
    ensures r.reply.status != 200 ==> r.users == users && r.reply.status == 400
    ensures !(Truthy(email) && Truthy(code) && Truthy(newPassword)) ==> r.reply.message == MsgIncomplete
    ensures Truthy(email) && Truthy(code) && Truthy(newPassword) && FindUser(users, email).None? ==>
              r.reply.message == MsgNoUser
    ensures Truthy(email) && Truthy(code) && Truthy(newPassword) && FindUser(users, email).Some? ==>
              var u := users[FindUser(users, email).value];
              (!CodeStored(u) || u.resetCode.value != code ==> r.reply.message == MsgBadCode) &&
              (CodeStored(u) && u.resetCode.value == code && ExpirySet(u) && now > u.resetCodeExpiry.value ==>
                 r.reply.message == MsgCodeExpired)
    ensures r.reply.status == 200 ==>
              var i := FindUser(users, email).value;
              r.reply.message == MsgResetOk && OnlyChangedAt(users, r.users, i) &&
              r.users[i] == users[i].(password := newPassword, resetCode := None, resetCodeExpiry := None)
  {
    if !(Truthy(email) && Truthy(code) && Truthy(newPassword)) then Step(Reply(400, MsgIncomplete), users)
    else match FindUser(users, email)
      case None => Step(Reply(400, MsgNoUser), users)
      case Some(i) =>
        var u := users[i];
        if !CodeStored(u) || u.resetCode.value != code then Step(Reply(400, MsgBadCode), users)
        else if ExpirySet(u) && now > u.resetCodeExpiry.value then Step(Reply(400, MsgCodeExpired), users)
        else Step(Reply(200, MsgResetOk),
                  users[i := u.(password := newPassword, resetCode := None, resetCodeExpiry := None)])
  }

  /** A code issued at time `t` is still accepted at the deadline `t + 30 min` and refused one millisecond later. */
  lemma ResetDeadlineInclusive(users: seq<User>, email: string, t: int, code: string, newPassword: string)
    requires Truthy(email) && Truthy(code) && Truthy(newPassword)
    requires FindUser(users, email).Some?
    requires t + ResetValidityMs != 0
    ensures var issued := Forgot(users, email, t, code).users;
            ResetPassword(issued, email, code, newPassword, t + ResetValidityMs).reply.status == 200 &&
            ResetPassword(issued, email, code, newPassword, t + ResetValidityMs + 1).reply == Reply(400, MsgCodeExpired)
  {
    var i := FindUser(users, email).value;
    var issued := Forgot(users, email, t, code).users;
    assert FindUser(issued, email) == Some(i) by {
      assert forall j :: 0 <= j < i ==> issued[j] == users[j];
    }
  }

  /**
   * A reset code works at most once: after a successful reset, no further reset for that
   * email succeeds, whatever code, password and time are given, because the stored code
   * was deleted.
   */
  lemma ResetCodeSingleUse(users: seq<User>, email: string, code: string, newPassword: string, now: int,
                           code2: string, newPassword2: string, later: int)
    requires ResetPassword(users, email, code, newPassword, now).reply.status == 200
    ensures ResetPassword(ResetPassword(users, email, code, newPassword, now).users,
                          email, code2, newPassword2, later).reply == Reply(400, MsgBadCode) ||
            ResetPassword(ResetPassword(users, email, code, newPassword, now).users,
                          email, code2, newPassword2, later).reply == Reply(400, MsgIncomplete)
  {
    var i := FindUser(users, email).value;
    var after := ResetPassword(users, email, code, newPassword, now).users;
    assert FindUser(after, email) == Some(i) by {
      assert forall j :: 0 <= j < i ==> after[j] == users[j];
    }
  }

  /** POST /api/verify: the email becomes verified iff the record exists and the code is exactly "123456". */
  function Verify(users: seq<User>, email: string, code: string): (r: Step)
    ensures r.reply.status == 200 <==>
              Truthy(email) && FindUser(users, email).Some? && code == VerifyCode
    ensures r.reply.status != 200 ==> r.users == users && r.reply.status == 400
    ensures !(Truthy(email) && Truthy(code)) ==> r.reply.message == MsgIncomplete
    ensures Truthy(email) && Truthy(code) && FindUser(users, email).None? ==> r.reply.message == MsgNoUser
    ensures Truthy(email) && Truthy(code) && FindUser(users, email).Some? && code != VerifyCode ==>
              r.reply.message == MsgBadCode
    ensures r.reply.status == 200 ==>
              var i := FindUser(users, email).value;
              r.reply.message == MsgVerified && OnlyChangedAt(users, r.users, i) &&
              r.users[i] == users[i].(emailVerified := true)
  {
    if !(Truthy(email) && Truthy(code)) then Step(Reply(400, MsgIncomplete), users)
    else match FindUser(users, email)
      case None => Step(Reply(400, MsgNoUser), users)
      case Some(i) =>
        if code == VerifyCode then Step(Reply(200, MsgVerified), users[i := users[i].(emailVerified := true)])
        else Step(Reply(400, MsgBadCode), users)
  }

  /** The record as GET returns it: everything but password, resetCode and resetCodeExpiry. */
  function Public(u: User): (p: PublicUser)
    ensures p.id == u.id && p.email == u.email && p.firstName == u.firstName &&
            p.lastName == u.lastName && p.emailVerified == u.emailVerified
  {
    PublicUser(u.id, u.lastName, u.firstName, u.email, u.emailVerified)
  }

  /** GET /api/user/:email. */
  function GetProfile(users: seq<User>, email: string): (r: ProfileResult)
    ensures r.ProfileErr? <==> FindUser(users, email).None?
    ensures r.ProfileErr? ==> r == ProfileErr(404, MsgNoUser)
    ensures r.Profile? ==> r.info == Public(users[FindUser(users, email).value]) && r.info.email == email
  {
    match FindUser(users, email)
    case None => ProfileErr(404, MsgNoUser)
    case Some(i) => Profile(Public(users[i]))
  }

  /** Two records with the same public part are indistinguishable through GET: secrets do not leak. */
  lemma GetProfileHidesSecrets(users: seq<User>, email: string, i: nat, password: string, code: Option<string>, expiry: Option<int>)
    requires i < |users|
    ensures GetProfile(users, email) ==
            GetProfile(users[i := users[i].(password := password, resetCode := code, resetCodeExpiry := expiry)], email)
  {
    var changed := users[i := users[i].(password := password, resetCode := code, resetCodeExpiry := expiry)];
    assert forall j :: 0 <= j < |users| ==> changed[j].email == users[j].email;
    assert FindUser(changed, email) == FindUser(users, email);
  }

  /** PUT /api/user/:email: each name is overwritten only when the given value is truthy. */
  function UpdateProfile(users: seq<User>, email: string, firstName: string, lastName: string): (r: Step)
    ensures FindUser(users, email).None? ==> r == Step(Reply(404, MsgNoUser), users)
    ensures FindUser(users, email).Some? ==>
              var i := FindUser(users, email).value;
              r.reply == Reply(200, MsgUpdated) && OnlyChangedAt(users, r.users, i) &&
              r.users[i].firstName == (if Truthy(firstName) then firstName else users[i].firstName) &&
              r.users[i].lastName == (if Truthy(lastName) then lastName else users[i].lastName) &&
              r.users[i] == users[i].(firstName := r.users[i].firstName, lastName := r.users[i].lastName)
  {
    match FindUser(users, email)
    case None => Step(Reply(404, MsgNoUser), users)
    case Some(i) =>
      var u := users[i];
      var u1 := if Truthy(firstName) then u.(firstName := firstName) else u;
      var u2 := if Truthy(lastName) then u1.(lastName := lastName) else u1;
      Step(Reply(200, MsgUpdated), users[i := u2])
  }

  /** Same number of records, and each keeps its id and email. */
  predicate SameKeys(before: seq<User>, after: seq<User>) {
    |after| == |before| &&
    forall j :: 0 <= j < |before| ==> after[j].email == before[j].email && after[j].id == before[j].id
  }

  lemma SameKeysKeepInvariants(before: seq<User>, after: seq<User>)
    requires SameKeys(before, after)
    ensures UniqueEmails(before) ==> UniqueEmails(after)
    ensures IdsIncreasing(before) ==> IdsIncreasing(after)
  {
  }

  /*
   * Only register adds records, none removes one, and no handler edits an id or an email;
   * so forgot, reset-password, verify and PUT keep every record's key, and every handler
   * preserves email uniqueness and increasing ids (register by refusing duplicates).
   */

  /** forgot sets a code on one record and keeps every key. */
  lemma ForgotKeepsKeys(users: seq<User>, email: string, now: int, code: string)
    ensures SameKeys(users, Forgot(users, email, now, code).users)
  {
    var after := Forgot(users, email, now, code).users;
    if after != users {
      var i := FindUser(users, email).value;
      assert forall j :: 0 <= j < |users| && j != i ==> after[j] == users[j];
    }
  }

  /** reset-password edits the password and code of one record and keeps every key. */
  lemma ResetKeepsKeys(users: seq<User>, email: string, code: string, pw: string, now: int)
    ensures SameKeys(users, ResetPassword(users, email, code, pw, now).users)
  {
    var after := ResetPassword(users, email, code, pw, now).users;
    if after != users {
      var i := FindUser(users, email).value;
      assert forall j :: 0 <= j < |users| && j != i ==> after[j] == users[j];
    }
  }

  /** verify marks one record verified and keeps every key. */
  lemma VerifyKeepsKeys(users: seq<User>, email: string, code: string)
    ensures SameKeys(users, Verify(users, email, code).users)
  {
    var after := Verify(users, email, code).users;
    if after != users {
      var i := FindUser(users, email).value;
      assert forall j :: 0 <= j < |users| && j != i ==> after[j] == users[j];
    }
  }

  /** PUT edits the names of one record and keeps every key. */
  lemma UpdateProfileKeepsKeys(users: seq<User>, email: string, first: string, last: string)
    ensures SameKeys(users, UpdateProfile(users, email, first, last).users)
  {
    var after := UpdateProfile(users, email, first, last).users;
    if after != users {
      var i := FindUser(users, email).value;
      assert forall j :: 0 <= j < |users| && j != i ==> after[j] == users[j];
    }
  }

  /**
   * The account array behind the server. Each method performs its handler's update on
   * `users` in place and answers with the handler's reply.
   */
  class UserStore {
    var users: seq<User>

    constructor (initial: seq<User>)
      ensures users == initial
    {
      users := initial;
    }

    method PostRegister(lastName: string, firstName: string, email: string, password: string) returns (reply: Reply)
      modifies this
      ensures Step(reply, users) == Register(old(users), lastName, firstName, email, password)
    {
      if lastName == "" || firstName == "" || email == "" || password == "" {
        return Reply(400, MsgIncomplete);
      }
      if FindUser(users, email).Some? {
        return Reply(400, MsgEmailTaken);
      }
      var id := if |users| > 0 then users[|users| - 1].id + 1 else 1;
      users := users + [User(id, lastName, firstName, email, password, false, None, None)];
      reply := Reply(200, MsgRegistered);
    }

    method PostForgot(email: string, now: int, code: string) returns (reply: Reply)
      modifies this
      ensures Step(reply, users) == Forgot(old(users), email, now, code)
    {
      if email == "" {
        return Reply(400, MsgNeedEmail);
      }
      var found := FindUser(users, email);
      if found.None? {
        return Reply(400, MsgNotRegistered);
      }
      var i := found.value;
      users := users[i := users[i].(resetCode := Some(code))];
      users := users[i := users[i].(resetCodeExpiry := Some(now + 30 * 60 * 1000))];
      reply := Reply(200, MsgCodeSent);
    }

    method PostResetPassword(email: string, code: string, newPassword: string, now: int) returns (reply: Reply)
      modifies this
      ensures Step(reply, users) == ResetPassword(old(users), email, code, newPassword, now)
    {
      if email == "" || code == "" || newPassword == "" {
        return Reply(400, MsgIncomplete);
      }
      var found := FindUser(users, email);
      if found.None? {
        return Reply(400, MsgNoUser);
      }
      var i := found.value;
      var u := users[i];
      if u.resetCode.None? || u.resetCode.value == "" || u.resetCode.value != code {
        return Reply(400, MsgBadCode);
      }
      if u.resetCodeExpiry.Some? && u.resetCodeExpiry.value != 0 && now > u.resetCodeExpiry.value {
        return Reply(400, MsgCodeExpired);
      }
      users := users[i := users[i].(password := newPassword)];
      users := users[i := users[i].(resetCode := None)];
      users := users[i := users[i].(resetCodeExpiry := None)];
      reply := Reply(200, MsgResetOk);
    }

    method PostVerify(email: string, code: string) returns (reply: Reply)
      modifies this
      ensures Step(reply, users) == Verify(old(users), email, code)
    {
      if email == "" || code == "" {
        return Reply(400, MsgIncomplete);
      }
      var found := FindUser(users, email);
      if found.None? {
        return Reply(400, MsgNoUser);
      }
      if code == VerifyCode {
        var i := found.value;
        users := users[i := users[i].(emailVerified := true)];
        reply := Reply(200, MsgVerified);
      } else {
        reply := Reply(400, MsgBadCode);
      }
    }

    method PutUser(email: string, firstName: string, lastName: string) returns (reply: Reply)
      modifies this
      ensures Step(reply, users) == UpdateProfile(old(users), email, firstName, lastName)
    {
      var found := FindUser(users, email);
      if found.None? {
        return Reply(404, MsgNoUser);
      }
      var i := found.value;
      if firstName != "" {
        users := users[i := users[i].(firstName := firstName)];
      }
      if lastName != "" {
        users := users[i := users[i].(lastName := lastName)];
      }
      reply := Reply(200, MsgUpdated);
    }
  }
}
