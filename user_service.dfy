/**
 * `UserService`: the user CRUD rules over the ORM's user table. The table is
 * modelled as the service's own state: the rows by primary key, the keys in
 * the order the store returns them (ascending, as auto-increment hands them
 * out), and the next auto-increment id. Each store call is one step on that
 * state; operations run one after another.
 */
module Users {
  import opened Wrappers
  import opened JsText
  import ErrorHandler

  datatype User = User(id: int, name: string, email: string, password: Option<string>)

  /** `Partial<User>` as the routes pass it: any of the three fields may be absent. */
  datatype UserData = UserData(name: Option<string>, email: Option<string>, password: Option<string>)

  /** The `id: number | string` argument; a number may be NaN. */
  datatype IdInput = IdText(text: string) | IdNumber(value: int) | IdNaN

  /**
   * What an operation throws: an `AppError(message, statusCode)`, or the
   * store's refusal of an update that sets no column.
   */
  datatype Failure = AppFailure(message: string, statusCode: int) | UpdateValuesMissing

  const NameEmailRequired: Failure := AppFailure("Name and email are required", 400)
  const EmailExists: Failure := AppFailure("User with this email already exists", 409)
  const UserNotFound: Failure := AppFailure("User not found", 404)
  const EmailInUse: Failure := AppFailure("Email is already in use", 409)
  const InvalidUserId: Failure := AppFailure("Invalid user ID", 400)

  /** The user table as a value. */
  datatype Table = Table(users: map<int, User>, order: seq<int>, nextId: int)

  predicate Increasing(s: seq<int>) {
    forall i, j :: 0 <= i < j < |s| ==> s[i] < s[j]
  }

  /** No two users share an email, except the empty one, which no check guards. */
  predicate EmailsDistinct(users: map<int, User>) {
    forall a, b :: a in users && b in users && a != b && users[a].email == users[b].email ==> users[a].email == ""
  }

  /**
   * Every row is stored under its own positive id below the next id, the key
   * order lists each stored id once in ascending order, and emails are unique.
   */
  predicate ValidTable(t: Table) {
    && 1 <= t.nextId
    && (forall id :: id in t.users ==> t.users[id].id == id && 1 <= id < t.nextId)
    && (forall i :: 0 <= i < |t.order| ==> t.order[i] in t.users)
    && (forall id :: id in t.users ==> id in t.order)
    && Increasing(t.order)
    && EmailsDistinct(t.users)
  }

  /** The rows listed in key order. */
  function RowsOf(users: map<int, User>, order: seq<int>): (rows: seq<User>)
    requires forall i :: 0 <= i < |order| ==> order[i] in users
    ensures |rows| == |order| && forall i :: 0 <= i < |order| ==> rows[i] == users[order[i]]
  {
    if order == [] then [] else [users[order[0]]] + RowsOf(users, order[1..])
  }

  /** `find()`: every row, in key order. */
  function Rows(t: Table): seq<User>
    requires ValidTable(t)
  {
    RowsOf(t.users, t.order)
  }

  /** `findOne({ where: { email } })`: the first row in key order with that email. */
  function FindByEmail(rows: seq<User>, email: string): (r: Option<User>)
    ensures r.Some? ==> r.value in rows && r.value.email == email
    ensures r.None? ==> forall i :: 0 <= i < |rows| ==> rows[i].email != email
  {
    if rows == [] then None
    else if rows[0].email == email then Some(rows[0])
    else FindByEmail(rows[1..], email)
  }

  /** `findAndCount({ take: limit, skip })`: the rows of one page. */
  function Page(rows: seq<User>, limit: int, skip: int): seq<User>
    requires limit >= 1 && skip >= 0
  {
    if skip >= |rows| then [] else rows[skip..if skip + limit <= |rows| then skip + limit else |rows|]
  }

  /** A JavaScript truthiness test on an optional string. */
  predicate Truthy(s: Option<string>) {
    s.Some? && s.value != ""
  }

  /** `parseUserId`: a string goes through `parseInt(id, 10)`, a number passes; NaN is refused. */
  function ParseUserId(id: IdInput): (r: Result<int, Failure>)
    ensures r.Err? ==> r.error == InvalidUserId
  {
    match id
    case IdText(s) => (match ParseInt(s) case Some(n) => Ok(n) case None => Err(InvalidUserId))
    case IdNumber(n) => Ok(n)
    case IdNaN => Err(InvalidUserId)
  }

  /** The update `repository.update(id, data)` applies: the given fields replace the stored ones. */
  function Patched(u: User, data: UserData): User {
    User(u.id, data.name.GetOr(u.name), data.email.GetOr(u.email),
      if data.password.Some? then data.password else u.password)
  }

  /** Removes every occurrence of x. */
  function Remove(s: seq<int>, x: int): (r: seq<int>)
    ensures forall y :: y in r <==> y in s && y != x
  {
    if s == [] then [] else (if s[0] == x then [] else [s[0]]) + Remove(s[1..], x)
  }

  // ----- the operations, as steps on the table -----

  /** `createUser` as a step: a refusal leaves the table as it was; a success takes the next id. */
  function CreateStep(t: Table, data: UserData): (s: (Result<User, Failure>, Table))
    requires ValidTable(t)
    ensures s.0.Err? ==> s.1 == t && s.0.error in {NameEmailRequired, EmailExists}
    ensures s.0.Ok? ==> s.0.value.id == t.nextId && s.1.nextId == t.nextId + 1
  {
    if !Truthy(data.email) || !Truthy(data.name) then (Err(NameEmailRequired), t)
    else if FindByEmail(Rows(t), data.email.value).Some? then (Err(EmailExists), t)
    else
      var u := User(t.nextId, data.name.value, data.email.value, data.password);
      (Ok(u), Table(t.users[t.nextId := u], t.order + [t.nextId], t.nextId + 1))
  }

  function UserById(t: Table, id: IdInput): Result<Option<User>, Failure> {
    match ParseUserId(id)
    case Err(e) => Err(e)
    case Ok(userId) => Ok(if userId in t.users then Some(t.users[userId]) else None)
  }

  /** `updateUser` as a step: a refusal leaves the table as it was; a success reports true. */
  function UpdateStep(t: Table, id: IdInput, data: UserData): (s: (Result<bool, Failure>, Table))
    requires ValidTable(t)
    ensures s.0.Err? ==> s.1 == t && s.0.error in {InvalidUserId, UserNotFound, EmailInUse, UpdateValuesMissing}
    ensures s.0.Ok? ==> s.0 == Ok(true)
  {
    match ParseUserId(id)
    case Err(e) => (Err(e), t)
    case Ok(userId) =>
      if userId !in t.users then (Err(UserNotFound), t)
      else if Truthy(data.email) && data.email.value != t.users[userId].email
        && FindByEmail(Rows(t), data.email.value).Some? then (Err(EmailInUse), t)
      else if data == UserData(None, None, None) then (Err(UpdateValuesMissing), t)
      else (Ok(true), t.(users := t.users[userId := Patched(t.users[userId], data)]))
  }

  /** `deleteUser` as a step: a refusal leaves the table as it was; a success reports true. */
  function DeleteStep(t: Table, id: IdInput): (s: (Result<bool, Failure>, Table))
    ensures s.0.Err? ==> s.1 == t && s.0.error in {InvalidUserId, UserNotFound}
    ensures s.0.Ok? ==> s.0 == Ok(true)
  {
    match ParseUserId(id)
    case Err(e) => (Err(e), t)
    case Ok(userId) =>
      if userId !in t.users then (Err(UserNotFound), t)
      else (Ok(true), Table(t.users - {userId}, Remove(t.order, userId), t.nextId))
  }

  // ----- the service -----

  class UserService {
    var users: map<int, User>
    var order: seq<int>
    var nextId: int

    function State(): Table
      reads this
    {
      Table(users, order, nextId)
    }

    predicate Valid()
      reads this
    {
      ValidTable(State())
    }

    /** A service over the user table as the data source holds it when the service is built. */
    constructor (t: Table)
      requires ValidTable(t)
      ensures Valid() && State() == t
    {
      users := t.users;
      order := t.order;
      nextId := t.nextId;
    }

    /** Every user, each once, in ascending id order. */
    method GetAllUsers() returns (rows: seq<User>)
      requires Valid()
      ensures |rows| == |users|
      ensures forall i :: 0 <= i < |rows| ==> rows[i].id in users && users[rows[i].id] == rows[i]
      ensures forall i, j :: 0 <= i < j < |rows| ==> rows[i].id < rows[j].id
    {
      rows := RowsOf(users, order);
      RowsFacts(State());
    }

    /** At most `limit` users from offset `skip` in id order, and the size of the whole table. */
    method GetUsersPaginated(limit: int, skip: int) returns (data: seq<User>, total: int)
      requires Valid() && limit >= 1 && skip >= 0
      ensures total == |users|
      ensures data == Page(Rows(State()), limit, skip)
    {
      var rows := RowsOf(users, order);
      data := if skip >= |rows| then [] else rows[skip..if skip + limit <= |rows| then skip + limit else |rows|];
      total := |rows|;
      RowsFacts(State());
    }

    method GetUserById(id: IdInput) returns (r: Result<Option<User>, Failure>)
      ensures ParseUserId(id).Err? ==> r == Err(InvalidUserId)
      ensures ParseUserId(id).Ok? ==> r.Ok? && (r.value.Some? <==> ParseUserId(id).value in users)
      ensures r.Ok? && r.value.Some? ==> r.value.value == users[ParseUserId(id).value]
    {
      var parsed := ParseUserId(id);
      if parsed.Err? {
        return Err(parsed.error);
      }
      var userId := parsed.value;
      r := Ok(if userId in users then Some(users[userId]) else None);
    }

    method Create(data: UserData) returns (r: Result<User, Failure>)
      requires Valid()
      modifies this
      ensures Valid()
      ensures (r, State()) == CreateStep(old(State()), data)
    {
      if data.email.None? || data.email.value == "" || data.name.None? || data.name.value == "" {
        return Err(NameEmailRequired);
      }
      var existing := FindByEmail(RowsOf(users, order), data.email.value);
      if existing.Some? {
        return Err(EmailExists);
      }
      ghost var before := State();
      var user := User(nextId, data.name.value, data.email.value, data.password);
      users := users[nextId := user];
      order := order + [nextId];
      nextId := nextId + 1;
      CreateKeepsValid(before, data);
      r := Ok(user);
    }

    method Update(id: IdInput, data: UserData) returns (r: Result<bool, Failure>)
      requires Valid()
      modifies this
      ensures Valid()
      ensures (r, State()) == UpdateStep(old(State()), id, data)
    {
      ghost var before := State();
      var parsed := ParseUserId(id);
      if parsed.Err? {
        return Err(parsed.error);
      }
      var userId := parsed.value;
      if userId !in users {
        return Err(UserNotFound);
      }
      var user := users[userId];
      if data.email.Some? && data.email.value != "" && data.email.value != user.email {
        var existing := FindByEmail(RowsOf(users, order), data.email.value);
        if existing.Some? {
          return Err(EmailInUse);
        }
      }
      if data == UserData(None, None, None) {
        return Err(UpdateValuesMissing);
      }
      users := users[userId := Patched(user, data)];
      var affected := if userId in users then 1 else 0;
      UpdateKeepsValid(before, id, data);
      r := Ok(affected > 0);
      assert State() == UpdateStep(before, id, data).1;
    }

    method Delete(id: IdInput) returns (r: Result<bool, Failure>)
      requires Valid()
      modifies this
      ensures Valid()
      ensures (r, State()) == DeleteStep(old(State()), id)
    {
      var parsed := ParseUserId(id);
      if parsed.Err? {
        return Err(parsed.error);
      }
      var userId := parsed.value;
      ghost var before := State();
      var affected := if userId in users then 1 else 0;
      users := users - {userId};
      order := Remove(order, userId);
      if affected == 0 {
        AbsentIdUnlisted(before, userId);
        assert State() == before;
        return Err(UserNotFound);
      }
      DeleteKeepsValid(before, id);
      r := Ok(true);
    }
  }

  // ----- the table -----

  /** The listed rows are the stored users, each once, in ascending id order. */
  lemma RowsFacts(t: Table)
    requires ValidTable(t)
    ensures |Rows(t)| == |t.users|
    ensures forall i :: 0 <= i < |Rows(t)| ==> Rows(t)[i].id in t.users && t.users[Rows(t)[i].id] == Rows(t)[i]
    ensures forall i, j :: 0 <= i < j < |Rows(t)| ==> Rows(t)[i].id < Rows(t)[j].id
  {
    TableSize(t);
  }

  /** The table holds as many users as the key order lists ids. */
  lemma TableSize(t: Table)
    requires ValidTable(t)
    ensures |t.users| == |t.order|
  {
    forall x ensures x in t.users.Keys <==> x in (set y | y in t.order) {
      if x in t.order {
        var i :| 0 <= i < |t.order| && t.order[i] == x;
      }
    }
    assert t.users.Keys == set y | y in t.order;
    DistinctCard(t.order);
  }

  lemma {:induction false} DistinctCard(s: seq<int>)
    requires Increasing(s)
    ensures |set x | x in s| == |s|
  {
    if s != [] {
      DistinctCard(s[1..]);
      assert (set x | x in s) == {s[0]} + (set x | x in s[1..]);
      assert s[0] !in (set x | x in s[1..]);
    }
  }

  /** `findOne` by email finds a user exactly when some stored user has that email. */
  lemma FindByEmailMeaning(t: Table, email: string)
    requires ValidTable(t)
    ensures FindByEmail(Rows(t), email).Some? <==> exists id :: id in t.users && t.users[id].email == email
    ensures FindByEmail(Rows(t), email).Some? ==> FindByEmail(Rows(t), email).value in t.users.Values
  {
    var rows := Rows(t);
    if FindByEmail(rows, email).None? {
      forall id | id in t.users ensures t.users[id].email != email {
        var i :| 0 <= i < |t.order| && t.order[i] == id;
        assert rows[i] == t.users[id];
      }
    } else {
      var u := FindByEmail(rows, email).value;
      var i :| 0 <= i < |rows| && rows[i] == u;
      assert t.users[t.order[i]] == u;
    }
  }

  /** Deleting an id that no user has leaves the table as it is. */
  lemma AbsentIdUnlisted(t: Table, x: int)
    requires ValidTable(t) && x !in t.users
    ensures t.users - {x} == t.users && Remove(t.order, x) == t.order
  {
    assert forall i :: 0 <= i < |t.order| ==> t.order[i] != x;
    RemoveAbsent(t.order, x);
  }

  lemma {:induction false} RemoveAbsent(s: seq<int>, x: int)
    requires x !in s
    ensures Remove(s, x) == s
  {
    if s != [] {
      RemoveAbsent(s[1..], x);
    }
  }

  lemma {:induction false} RemoveIncreasing(s: seq<int>, x: int)
    requires Increasing(s)
    ensures Increasing(Remove(s, x))
  {
    if s != [] {
      RemoveIncreasing(s[1..], x);
      var rest := Remove(s[1..], x);
      var r := Remove(s, x);
      if s[0] != x {
        assert r == [s[0]] + rest;
        forall i, j | 0 <= i < j < |r| ensures r[i] < r[j] {
          if i == 0 {
            assert r[j] == rest[j - 1] && rest[j - 1] in rest;
            var k :| 0 <= k < |s[1..]| && s[1..][k] == rest[j - 1];
            assert s[k + 1] == r[j];
          } else {
            assert r[i] == rest[i - 1] && r[j] == rest[j - 1];
          }
        }
      }
    }
  }

  // ----- create -----

  /** A create is refused with 400 exactly when the name or the email is missing or empty; the table stays as it was. */
  lemma CreateRequiresNameAndEmail(t: Table, data: UserData)
    requires ValidTable(t)
    ensures CreateStep(t, data).0 == Err(NameEmailRequired) <==> !Truthy(data.name) || !Truthy(data.email)
    ensures CreateStep(t, data).0.Err? ==> CreateStep(t, data).1 == t
  {
  }

  /**
   * A create succeeds exactly when the name and the email are given and
   * non-empty and no stored user has that email.
   */
  lemma CreateSucceeds(t: Table, data: UserData)
    requires ValidTable(t)
    ensures CreateStep(t, data).0.Ok? <==>
      && Truthy(data.name) && Truthy(data.email)
      && forall id :: id in t.users ==> t.users[id].email != data.email.value
  {
    if Truthy(data.email) {
      FindByEmailMeaning(t, data.email.value);
    }
  }

  /** With a name and an email, a create is refused with 409 exactly when a stored user already has the email. */
  lemma CreateRejectsTakenEmail(t: Table, data: UserData)
    requires ValidTable(t) && Truthy(data.name) && Truthy(data.email)
    ensures CreateStep(t, data).0 == Err(EmailExists) <==> exists id :: id in t.users && t.users[id].email == data.email.value
  {
    FindByEmailMeaning(t, data.email.value);
  }

  /**
   * A successful create adds exactly one user, under a fresh id, holding the
   * given fields; it is listed last and every other user is unchanged.
   */
  lemma CreateAddsOne(t: Table, data: UserData)
    requires ValidTable(t) && CreateStep(t, data).0.Ok?
    ensures var (r, t') := CreateStep(t, data);
      && r.value.id !in t.users
      && r.value == User(r.value.id, data.name.value, data.email.value, data.password)
      && t'.users == t.users[r.value.id := r.value]
      && |t'.users| == |t.users| + 1
      && Rows(t') == Rows(t) + [r.value]
  {
    var (r, t') := CreateStep(t, data);
    RowsAppend(t, r.value, t');
  }

  /** Storing a row under the fresh key lists it after every existing row. */
  lemma RowsAppend(t: Table, u: User, t': Table)
    requires ValidTable(t) && ValidTable(t') && u.id == t.nextId
    requires t'.users == t.users[u.id := u] && t'.order == t.order + [u.id]
    ensures Rows(t') == Rows(t) + [u]
  {
    forall i | 0 <= i < |t.order| ensures t'.order[i] == t.order[i] && t.order[i] != u.id {
      assert t.users[t.order[i]].id == t.order[i];
    }
  }

  lemma CreateKeepsValid(t: Table, data: UserData)
    requires ValidTable(t)
    ensures ValidTable(CreateStep(t, data).1)
  {
    var (r, t') := CreateStep(t, data);
    if r.Ok? {
      var u := r.value;
      FindByEmailMeaning(t, u.email);
      forall i, j | 0 <= i < j < |t'.order| ensures t'.order[i] < t'.order[j] {
        if j == |t.order| {
          assert t.users[t.order[i]].id == t.order[i];
        }
      }
    }
  }

  /** Once a create succeeds, a second create with the same email is refused with 409. */
  lemma CreateTwiceConflicts(t: Table, data: UserData, again: UserData)
    requires ValidTable(t) && CreateStep(t, data).0.Ok?
    requires Truthy(again.name) && again.email == data.email
    ensures CreateStep(CreateStep(t, data).1, again) == (Err(EmailExists), CreateStep(t, data).1)
  {
    var t' := CreateStep(t, data).1;
    CreateKeepsValid(t, data);
    CreateAddsOne(t, data);
    CreateRejectsTakenEmail(t', again);
    assert t'.users[t.nextId].email == data.email.value;
  }

  // ----- update -----

  /** An update of an id that no user has is refused with 404 and changes nothing. */
  lemma UpdateOfAbsentId(t: Table, id: IdInput, data: UserData)
    requires ValidTable(t) && ParseUserId(id).Ok? && ParseUserId(id).value !in t.users
    ensures UpdateStep(t, id, data) == (Err(UserNotFound), t)
  {
  }

  /**
   * An update that gives a new non-empty email is refused with 409 exactly
   * when another stored user has it; an unchanged email is never checked.
   */
  lemma UpdateEmailConflict(t: Table, id: IdInput, data: UserData)
    requires ValidTable(t) && ParseUserId(id).Ok? && ParseUserId(id).value in t.users
    ensures var current := t.users[ParseUserId(id).value];
      UpdateStep(t, id, data).0 == Err(EmailInUse) <==>
        && Truthy(data.email) && data.email.value != current.email
        && exists other :: other in t.users && t.users[other].email == data.email.value
    ensures UpdateStep(t, id, data).0 == Err(EmailInUse) ==> UpdateStep(t, id, data).1 == t
  {
    if data.email.Some? {
      FindByEmailMeaning(t, data.email.value);
    }
  }

  /**
   * A successful update rewrites the given fields of that one user, keeps
   * its other fields, every other user, the key order and the next id, and
   * reports one affected row.
   */
  lemma UpdateChangesOnlyGivenFields(t: Table, id: IdInput, data: UserData)
    requires ValidTable(t) && UpdateStep(t, id, data).0.Ok?
    ensures var (r, t') := UpdateStep(t, id, data);
      var userId := ParseUserId(id).value;
      && r == Ok(true)
      && userId in t.users && t'.users.Keys == t.users.Keys
      && t'.order == t.order && t'.nextId == t.nextId
      && (forall other :: other in t.users && other != userId ==> t'.users[other] == t.users[other])
      && t'.users[userId].id == userId
      && t'.users[userId].name == (if data.name.Some? then data.name.value else t.users[userId].name)
      && t'.users[userId].email == (if data.email.Some? then data.email.value else t.users[userId].email)
      && t'.users[userId].password == (if data.password.Some? then data.password else t.users[userId].password)
  {
  }

  /**
   * An update succeeds exactly when the id parses to a stored user, it sets
   * at least one field, and a new non-empty email is not held by another user.
   */
  lemma UpdateSucceeds(t: Table, id: IdInput, data: UserData)
    requires ValidTable(t)
    ensures UpdateStep(t, id, data).0 == Ok(true) <==>
      && ParseUserId(id).Ok? && ParseUserId(id).value in t.users
      && data != UserData(None, None, None)
      && (Truthy(data.email) && data.email.value != t.users[ParseUserId(id).value].email ==>
            forall other :: other in t.users ==> t.users[other].email != data.email.value)
  {
    if ParseUserId(id).Ok? && ParseUserId(id).value in t.users && data.email.Some? {
      FindByEmailMeaning(t, data.email.value);
    }
  }

  /** An update with no field at all is refused by the store and changes nothing. */
  lemma UpdateWithoutFields(t: Table, id: IdInput)
    requires ValidTable(t) && ParseUserId(id).Ok? && ParseUserId(id).value in t.users
    ensures UpdateStep(t, id, UserData(None, None, None)) == (Err(UpdateValuesMissing), t)
  {
  }

  lemma UpdateKeepsValid(t: Table, id: IdInput, data: UserData)
    requires ValidTable(t)
    ensures ValidTable(UpdateStep(t, id, data).1)
  {
    var (r, t') := UpdateStep(t, id, data);
    if r.Ok? {
      var userId := ParseUserId(id).value;
      var u := Patched(t.users[userId], data);
      if Truthy(data.email) && data.email.value != t.users[userId].email {
        FindByEmailMeaning(t, data.email.value);
      }
      ReplaceKeepsEmailsDistinct(t.users, userId, u);
    }
  }

  /** Replacing one user keeps emails unique when the new email is empty, unchanged or unused. */
  lemma ReplaceKeepsEmailsDistinct(users: map<int, User>, userId: int, u: User)
    requires EmailsDistinct(users) && userId in users
    requires u.email == "" || u.email == users[userId].email || forall other :: other in users ==> users[other].email != u.email
    ensures EmailsDistinct(users[userId := u])
  {
    var m := users[userId := u];
    forall a, b | a in m && b in m && a != b && m[a].email == m[b].email ensures m[a].email == "" {
      if a != userId && b != userId {
        assert m[a] == users[a] && m[b] == users[b];
      }
    }
  }

  // ----- delete -----

  /**
   * A successful delete removes exactly that user and its key, keeps every
   * other user and the next id; deleting the same id again is refused with 404.
   */
  lemma DeleteRemovesOne(t: Table, id: IdInput)
    requires ValidTable(t) && DeleteStep(t, id).0.Ok?
    ensures var (r, t') := DeleteStep(t, id);
      var userId := ParseUserId(id).value;
      && r == Ok(true)
      && userId in t.users && t'.users == t.users - {userId}
      && (forall x :: x in t'.order <==> x in t.order && x != userId)
      && t'.nextId == t.nextId
      && DeleteStep(t', id) == (Err(UserNotFound), t')
      && UserById(t', id) == Ok(None)
  {
  }

  /** A delete succeeds, reporting true, exactly when the id parses to a stored user. */
  lemma DeleteSucceeds(t: Table, id: IdInput)
    ensures DeleteStep(t, id).0 == Ok(true) <==> ParseUserId(id).Ok? && ParseUserId(id).value in t.users
  {
  }

  /** A delete of an id that no user has is refused with 404 and changes nothing. */
  lemma DeleteOfAbsentId(t: Table, id: IdInput)
    requires ValidTable(t) && ParseUserId(id).Ok? && ParseUserId(id).value !in t.users
    ensures DeleteStep(t, id) == (Err(UserNotFound), t)
  {
  }

  lemma DeleteKeepsValid(t: Table, id: IdInput)
    requires ValidTable(t)
    ensures ValidTable(DeleteStep(t, id).1)
  {
    if DeleteStep(t, id).0.Ok? {
      RemoveKeepsValid(t, ParseUserId(id).value);
    }
  }

  /** Dropping one id from the rows and from the key order keeps the table valid. */
  lemma RemoveKeepsValid(t: Table, x: int)
    requires ValidTable(t)
    ensures ValidTable(Table(t.users - {x}, Remove(t.order, x), t.nextId))
  {
    var t' := Table(t.users - {x}, Remove(t.order, x), t.nextId);
    RemoveIncreasing(t.order, x);
    forall i | 0 <= i < |t'.order| ensures t'.order[i] in t'.users {
      assert t'.order[i] in t'.order;
    }
  }

  // ----- ids and paging -----

  /** `parseUserId` reads back any rendered integer, whatever non-digit text follows it. */
  lemma ParseUserIdOfRendered(n: int, tail: string)
    requires tail == [] || !IsDigit(tail[0])
    ensures ParseUserId(IdText(IntToString(n) + tail)) == Ok(n)
    ensures ParseUserId(IdNumber(n)) == Ok(n)
  {
    ParseIntOfIntToString(n, tail);
  }

  /** A string id is refused exactly when no digit follows its leading white space and sign. */
  lemma ParseUserIdRejects(s: string)
    ensures ParseUserId(IdText(s)) == Err(InvalidUserId) <==>
      var t := TrimStart(s);
      var u := if t != [] && (t[0] == '-' || t[0] == '+') then t[1..] else t;
      u == [] || !IsDigit(u[0])
  {
  }

  /** A page holds at most `limit` rows: the rows from offset `skip` on, as many as remain. */
  lemma PageMeaning(rows: seq<User>, limit: int, skip: int)
    requires limit >= 1 && skip >= 0
    ensures var p := Page(rows, limit, skip);
      && |p| <= limit
      && |p| == (if skip >= |rows| then 0 else if skip + limit <= |rows| then limit else |rows| - skip)
      && forall i :: 0 <= i < |p| ==> p[i] == rows[skip + i]
  {
  }

  /** Two consecutive pages of one size are the page of twice that size. */
  lemma ConsecutivePages(rows: seq<User>, limit: int, skip: int)
    requires limit >= 1 && skip >= 0
    ensures Page(rows, limit, skip) + Page(rows, limit, skip + limit) == Page(rows, 2 * limit, skip)
  {
    if skip + limit < |rows| {
      var end := if skip + 2 * limit <= |rows| then skip + 2 * limit else |rows|;
      assert rows[skip..skip + limit] + rows[skip + limit..end] == rows[skip..end];
    }
  }

  /** Every failure the service throws is a client error, which the error handler reports as 'fail'. */
  lemma ServiceFailuresAreClientErrors(f: Failure)
    requires f in {NameEmailRequired, EmailExists, UserNotFound, EmailInUse, InvalidUserId}
    ensures 400 <= f.statusCode <= 499
    ensures ErrorHandler.StatusForCode(f.statusCode) == "fail"
  {
    ErrorHandler.StatusForHttpCode(f.statusCode);
  }
}
