/**
 * The DynamoDB user table as an in-memory store. It holds the items keyed by `id`, and
 * it records every request the Lambda sends it (`GetCommand`, `PutCommand`), so that
 * "no store access" and "looked up under this key" can be stated. A request fails when
 * the caller says the backend fails for that kind of request.
 */
module UserStore {
  import opened Wrappers
  import opened Users

  /** The table name used when `STORAGE_USERTABLE_NAME` is unset. */
  const DefaultTableName := "UserTable"

  /** The message of the error the SDK throws when a `ConditionExpression` does not hold. */
  const ConditionFailedMessage := "The conditional request failed"

  /** The key of a `GetCommand`. */
  datatype Key = IdKey(id: string) | EmailKey(email: string)

  /** A request sent to the table named `table`; every put carries `attribute_not_exists(id)`. */
  datatype Command = GetItem(table: string, key: Key) | PutItem(table: string, item: User)

  /** Every item is stored under its own id. */
  predicate KeyedById(items: map<string, User>) {
    forall id :: id in items ==> items[id].id == id
  }

  /** Some item has exactly this email. */
  predicate EmailTaken(items: map<string, User>, email: string) {
    exists id :: id in items && items[id].email == email
  }

  /** No two items share an email. */
  predicate EmailsUnique(items: map<string, User>) {
    forall i, j :: i in items && j in items && items[i].email == items[j].email ==> i == j
  }

  class UserTable {
    const name: string
    var items: map<string, User>
    var requests: seq<Command>

    /** The table is the one `TABLE_NAME` names by default, and each item is stored under its id. */
    ghost predicate Valid()
      reads this
    {
      name == DefaultTableName && KeyedById(items)
    }

    constructor (initial: map<string, User>)
      requires KeyedById(initial)
      ensures Valid()
      ensures name == DefaultTableName && items == initial && requests == []
    {
      name := DefaultTableName;
      items := initial;
      requests := [];
    }

    /** `GetCommand` with `Key: { id }`: the item stored under `id`, if any. */
    method GetById(id: string, failure: Option<string>) returns (r: Result<Option<User>>)
      modifies this`requests
      ensures requests == old(requests) + [GetItem(name, IdKey(id))]
      ensures failure.Some? ==> r == Err(failure.value)
      ensures failure.None? ==> r == Ok(if id in items then Some(items[id]) else None)
    {
      requests := requests + [GetItem(name, IdKey(id))];
      if failure.Some? {
        return Err(failure.value);
      }
      r := Ok(if id in items then Some(items[id]) else None);
    }

    /** `GetCommand` with `Key: { email }`: an item with exactly that email, if there is one. */
    method GetByEmail(email: string, failure: Option<string>) returns (r: Result<Option<User>>)
      modifies this`requests
      ensures requests == old(requests) + [GetItem(name, EmailKey(email))]
      ensures failure.Some? ==> r == Err(failure.value)
      ensures failure.None? ==> r.Ok? && (r.value.Some? <==> EmailTaken(items, email))
      ensures failure.None? && r.Ok? && r.value.Some? ==> r.value.value in items.Values && r.value.value.email == email
    {
      requests := requests + [GetItem(name, EmailKey(email))];
      if failure.Some? {
        return Err(failure.value);
      }
      if EmailTaken(items, email) {
        var id :| id in items && items[id].email == email;
        r := Ok(Some(items[id]));
      } else {
        r := Ok(None);
      }
    }

    /** `PutCommand` with `ConditionExpression: 'attribute_not_exists(id)'`. */
    method PutIfIdAbsent(item: User, failure: Option<string>) returns (r: Result<()>)
      requires Valid()
      modifies this
      ensures Valid()
      ensures requests == old(requests) + [PutItem(name, item)]
      ensures r == if failure.Some? then Err(failure.value)
                   else if item.id in old(items) then Err(ConditionFailedMessage)
                   else Ok(())
      ensures items == if r.Ok? then old(items)[item.id := item] else old(items)
    {
      requests := requests + [PutItem(name, item)];
      if failure.Some? {
        return Err(failure.value);
      }
      if item.id in items {
        return Err(ConditionFailedMessage);
      }
      items := items[item.id := item];
      r := Ok(());
    }
  }
}
