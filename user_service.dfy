/**
 * `add_user`, `get_user` and `get_user_by_email`. Each operation that the handler
 * dispatches has a specification function giving its result, the requests it sends and
 * the items it leaves, and a method on the table proved to behave as that function says.
 */
module UserService {
  import opened Wrappers
  import opened JsString
  import opened EmailFormat
  import opened UserIds
  import opened Users
  import opened UserStore

  const NameAndEmailRequired := "Name and email are required"
  const InvalidEmailFormat := "Invalid email format"
  const EmailAlreadyExists := "User with this email already exists"
  const UserIdRequired := "User ID is required"

  /**
   * What one invocation takes from outside: the clock (`Date.now()` and the ISO string of
   * `new Date()`), the four bytes of `crypto.randomBytes(4)`, and whether the table's
   * `GetCommand`s and `PutCommand`s fail, and with which message.
   */
  datatype Env = Env(
    nowMillis: nat,
    nowIso: string,
    random: Random4,
    getFailure: Option<string>,
    putFailure: Option<string>)

  /** A value together with the requests sent to the table and the items afterwards. */
  datatype Effect<T> = Effect(value: T, sent: seq<Command>, items: map<string, User>)

  /** The input passes both checks of `add_user` (presence, then email shape). */
  predicate PassesValidation(data: Option<UserData>) {
    HasNameAndEmail(data) && IsEmail(data.value.email.value)
  }

  /** The email key `add_user` looks up, for input that passed validation. */
  function LookupKey(data: Option<UserData>): string
    requires HasNameAndEmail(data)
  {
    NormalizeEmail(data.value.email.value)
  }

  /** The id `add_user` generates in this invocation. */
  function NewId(env: Env): string {
    GenerateUserId(env.nowMillis, env.random)
  }

  /** `add_user(data)` run against `items`: an error leaves the table as it was, a success adds exactly the returned record. */
  function AddUserSpec(items: map<string, User>, data: Option<UserData>, env: Env): (e: Effect<Result<User>>)
    ensures e.value.Err? ==> e.items == items
    ensures e.value.Ok? ==> e.value.value.id !in items && e.items == items[e.value.value.id := e.value.value]
  {
    if !HasNameAndEmail(data) then Effect(Err(NameAndEmailRequired), [], items)
    else
      var input := data.value;
      var email := input.email.value;
      if !IsEmail(email) then Effect(Err(InvalidEmailFormat), [], items)
      else
        var key := NormalizeEmail(email);
        var lookup := [GetItem(DefaultTableName, EmailKey(key))];
        if env.getFailure.Some? then Effect(Err(env.getFailure.value), lookup, items)
        else if EmailTaken(items, key) then Effect(Err(EmailAlreadyExists), lookup, items)
        else
          var user := NewUser(NewId(env), input, env.nowIso);
          var sent := lookup + [PutItem(DefaultTableName, user)];
          if env.putFailure.Some? then Effect(Err(env.putFailure.value), sent, items)
          else if user.id in items then Effect(Err(ConditionFailedMessage), sent, items)
          else Effect(Ok(user), sent, items[user.id := user])
  }

  /** A missing or empty name or email fails first, and nothing is sent to the table. */
  lemma AddUserRequiresNameAndEmail(items: map<string, User>, data: Option<UserData>, env: Env)
    requires !HasNameAndEmail(data)
    ensures AddUserSpec(items, data, env) == Effect(Err(NameAndEmailRequired), [], items)
  {
  }

  /** An email outside the pattern fails next, and nothing is sent to the table. */
  lemma AddUserRejectsInvalidEmail(items: map<string, User>, data: Option<UserData>, env: Env)
    requires HasNameAndEmail(data) && !IsEmail(data.value.email.value)
    ensures AddUserSpec(items, data, env) == Effect(Err(InvalidEmailFormat), [], items)
  {
  }

  /** The table is contacted exactly when the input passed both checks, and the first request is the email lookup. */
  lemma AddUserValidatesBeforeAccess(items: map<string, User>, data: Option<UserData>, env: Env)
    ensures AddUserSpec(items, data, env).sent == [] <==> !PassesValidation(data)
    ensures PassesValidation(data) ==> AddUserSpec(items, data, env).sent[0] == GetItem(DefaultTableName, EmailKey(LookupKey(data)))
  {
  }

  /** A failed lookup is passed on unchanged, and nothing is written. */
  lemma AddUserPropagatesReadFailure(items: map<string, User>, data: Option<UserData>, env: Env)
    requires PassesValidation(data) && env.getFailure.Some?
    ensures AddUserSpec(items, data, env) ==
              Effect(Err(env.getFailure.value), [GetItem(DefaultTableName, EmailKey(LookupKey(data)))], items)
  {
  }

  /** An email that some item already holds, after normalisation, is refused, and nothing is written. */
  lemma AddUserRejectsTakenEmail(items: map<string, User>, data: Option<UserData>, env: Env)
    requires PassesValidation(data) && env.getFailure.None? && EmailTaken(items, LookupKey(data))
    ensures AddUserSpec(items, data, env) ==
              Effect(Err(EmailAlreadyExists), [GetItem(DefaultTableName, EmailKey(LookupKey(data)))], items)
  {
  }

  /** Past the lookup exactly one conditional put, of the record built from the input, is sent; its failure is passed on unchanged. */
  lemma AddUserWritesOnce(items: map<string, User>, data: Option<UserData>, env: Env)
    requires PassesValidation(data) && env.getFailure.None? && !EmailTaken(items, LookupKey(data))
    ensures AddUserSpec(items, data, env).sent ==
              [GetItem(DefaultTableName, EmailKey(LookupKey(data))), PutItem(DefaultTableName, NewUser(NewId(env), data.value, env.nowIso))]
    ensures env.putFailure.Some? ==> AddUserSpec(items, data, env).value == Err(env.putFailure.value)
    ensures env.putFailure.None? && NewId(env) in items ==>
              AddUserSpec(items, data, env).value == Err(ConditionFailedMessage)
  {
  }

  /** `add_user` succeeds exactly when every step succeeds. */
  lemma AddUserSucceedsIff(items: map<string, User>, data: Option<UserData>, env: Env)
    ensures AddUserSpec(items, data, env).value.Ok? <==>
      && PassesValidation(data)
      && env.getFailure.None? && env.putFailure.None?
      && !EmailTaken(items, LookupKey(data))
      && NewId(env) !in items
  {
  }

  /** A successful `add_user` sends the lookup and one put of the returned record, and the table grows by one. */
  lemma AddUserStoresRecord(items: map<string, User>, data: Option<UserData>, env: Env)
    requires AddUserSpec(items, data, env).value.Ok?
    ensures HasNameAndEmail(data)
    ensures |AddUserSpec(items, data, env).items| == |items| + 1
    ensures var u := AddUserSpec(items, data, env).value.value;
      AddUserSpec(items, data, env).sent == [GetItem(DefaultTableName, EmailKey(u.email)), PutItem(DefaultTableName, u)]
  {
  }

  /** The record a successful `add_user` returns, field by field. */
  lemma AddUserRecord(items: map<string, User>, data: Option<UserData>, env: Env)
    requires AddUserSpec(items, data, env).value.Ok?
    ensures HasNameAndEmail(data)
    ensures var u := AddUserSpec(items, data, env).value.value;
      && u.id == NewId(env)
      && u.name == Trim(data.value.name.value)
      && u.email == ToLower(data.value.email.value)
      && u.email == NormalizeEmail(data.value.email.value)
      && u.phone == NormalizePhone(data.value.phone)
      && u.createdAt == env.nowIso && u.updatedAt == env.nowIso
  {
    NormalizeValidEmail(data.value.email.value);
  }

  /** The record a successful `add_user` returns is normalised: id of the generated shape, trimmed name and phone, normalised valid email, equal timestamps. */
  lemma AddUserRecordIsNormalized(items: map<string, User>, data: Option<UserData>, env: Env)
    requires AddUserSpec(items, data, env).value.Ok?
    ensures IsNormalized(AddUserSpec(items, data, env).value.value)
  {
    AddUserSuccessIsNewUser(items, data, env);
    NewUserIsNormalized(env.nowMillis, env.random, data.value, env.nowIso);
  }

  /** On success, the returned record is the one built from the input, the new id and the clock. */
  lemma AddUserSuccessIsNewUser(items: map<string, User>, data: Option<UserData>, env: Env)
    requires AddUserSpec(items, data, env).value.Ok?
    ensures PassesValidation(data)
    ensures AddUserSpec(items, data, env).value.value == NewUser(NewId(env), data.value, env.nowIso)
  {
  }

  /** `add_user` keeps every item under its own id, and keeps emails unique. */
  lemma AddUserKeepsInvariants(items: map<string, User>, data: Option<UserData>, env: Env)
    ensures KeyedById(items) ==> KeyedById(AddUserSpec(items, data, env).items)
    ensures EmailsUnique(items) ==> EmailsUnique(AddUserSpec(items, data, env).items)
  {
  }

  /** `get_user(userId)` run against `items`. */
  function GetUserSpec(items: map<string, User>, userId: Option<string>, env: Env): (e: Effect<Result<Option<User>>>)
    ensures e.items == items
    ensures !Truthy(userId) ==> e == Effect(Err(UserIdRequired), [], items)
    ensures Truthy(userId) ==> e.sent == [GetItem(DefaultTableName, IdKey(userId.value))]
    ensures Truthy(userId) && env.getFailure.Some? ==> e.value == Err(env.getFailure.value)
    ensures Truthy(userId) && env.getFailure.None? ==>
              && e.value.Ok?
              && (e.value.value.Some? <==> userId.value in items)
              && (e.value.value.Some? ==> e.value.value.value == items[userId.value])
    ensures KeyedById(items) && e.value.Ok? && e.value.value.Some? ==> e.value.value.value.id == userId.value
  {
    if !Truthy(userId) then Effect(Err(UserIdRequired), [], items)
    else
      var id := userId.value;
      var sent := [GetItem(DefaultTableName, IdKey(id))];
      if env.getFailure.Some? then Effect(Err(env.getFailure.value), sent, items)
      else Effect(Ok(if id in items then Some(items[id]) else None), sent, items)
  }

  /** `get_user_by_email(email)`: `null` for a falsy email, otherwise a lookup under the normalised key. */
  method GetUserByEmail(table: UserTable, email: Option<string>, env: Env) returns (r: Result<Option<User>>)
    requires table.Valid()
    modifies table`requests
    ensures !Truthy(email) ==> r == Ok(None) && table.requests == old(table.requests)
    ensures Truthy(email) ==>
              table.requests == old(table.requests) + [GetItem(DefaultTableName, EmailKey(NormalizeEmail(email.value)))]
    ensures Truthy(email) && env.getFailure.Some? ==> r == Err(env.getFailure.value)
    ensures Truthy(email) && env.getFailure.None? ==>
              r.Ok? && (r.value.Some? <==> EmailTaken(table.items, NormalizeEmail(email.value)))
    ensures Truthy(email) && r.Ok? && r.value.Some? ==>
              r.value.value in table.items.Values && r.value.value.email == NormalizeEmail(email.value)
  {
    if !Truthy(email) {
      return Ok(None);
    }
    r := table.GetByEmail(NormalizeEmail(email.value), env.getFailure);
  }

  /** `add_user(userData)`. */
  method AddUser(table: UserTable, data: Option<UserData>, env: Env) returns (r: Result<User>)
    requires table.Valid()
    modifies table
    ensures table.Valid()
    ensures var e := AddUserSpec(old(table.items), data, env);
              r == e.value && table.items == e.items && table.requests == old(table.requests) + e.sent
  {
    if !HasNameAndEmail(data) {
      return Err(NameAndEmailRequired);
    }
    var input := data.value;
    if !IsEmail(input.email.value) {
      return Err(InvalidEmailFormat);
    }
    var existing := GetUserByEmail(table, input.email, env);
    if existing.Err? {
      return Err(existing.message);
    }
    if existing.value.Some? {
      return Err(EmailAlreadyExists);
    }
    var user := NewUser(GenerateUserId(env.nowMillis, env.random), input, env.nowIso);
    var put := table.PutIfIdAbsent(user, env.putFailure);
    if put.Err? {
      return Err(put.message);
    }
    r := Ok(user);
  }

  /** `get_user(userId)`. */
  method GetUser(table: UserTable, userId: Option<string>, env: Env) returns (r: Result<Option<User>>)
    requires table.Valid()
    modifies table`requests
    ensures var e := GetUserSpec(table.items, userId, env);
              r == e.value && table.requests == old(table.requests) + e.sent
  {
    if !Truthy(userId) {
      return Err(UserIdRequired);
    }
    r := table.GetById(userId.value, env.getFailure);
  }

  /** Once a user is created, a second creation whose email normalises to the same key is refused. */
  lemma SecondAddWithSameEmailFails(items: map<string, User>, first: Option<UserData>, env1: Env,
                                    second: Option<UserData>, env2: Env)
    requires AddUserSpec(items, first, env1).value.Ok?
    requires PassesValidation(second) && env2.getFailure.None?
    requires LookupKey(second) == LookupKey(first)
    ensures AddUserSpec(AddUserSpec(items, first, env1).items, second, env2).value == Err(EmailAlreadyExists)
  {
    var u := AddUserSpec(items, first, env1).value.value;
    var after := AddUserSpec(items, first, env1).items;
    assert u.id in after && after[u.id].email == LookupKey(second);
  }

  /** A created user is returned by `get_user` under the id `add_user` returned. */
  lemma CreatedUserIsFound(items: map<string, User>, data: Option<UserData>, env: Env, env2: Env)
    requires AddUserSpec(items, data, env).value.Ok?
    requires env2.getFailure.None?
    ensures var e := AddUserSpec(items, data, env);
      GetUserSpec(e.items, Some(e.value.value.id), env2).value == Ok(Some(e.value.value))
  {
  }
}
