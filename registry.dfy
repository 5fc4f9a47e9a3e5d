/** The user registry: an append-only list whose ids are the list length plus one. */
module Registry {
  import opened Wrappers
  import opened Domain

  /** User `i` (counting from 0) carries id `i + 1`. Holds of every reachable registry. */
  ghost predicate Numbered(users: seq<User>) {
    forall i :: 0 <= i < |users| ==> users[i].id == i + 1
  }

  /** The id the next registration receives: larger than the number of users
      registered, and truthy, so it passes the checks on rider_id and driver_id. */
  function NewUserId(users: seq<User>): (id: int)
    ensures id > |users|
    ensures Truthy(Some(id))
  {
    |users| + 1
  }

  /** Registration: the answer and the registry afterwards. */
  function Register(users: seq<User>, name: Option<string>, phone: Option<string>, isDriver: bool)
    : (out: (Result<int, Error>, seq<User>))
    ensures out.0.Err? <==> !NonEmpty(name)
    ensures out.0.Err? ==> out.0.error == NameRequired && out.1 == users
    ensures out.0.Ok? ==>
      && |out.1| == |users| + 1
      && users <= out.1
      && out.0.value == |users| + 1
      && out.1[|users|] == User(out.0.value, name.value, phone, isDriver)
  {
    if !NonEmpty(name) then (Err(NameRequired), users)
    else
      var uid := NewUserId(users);
      (Ok(uid), users + [User(uid, name.value, phone, isDriver)])
  }

  /** In a numbered registry the next id is larger than every id handed out so far. */
  lemma NewUserIdFresh(users: seq<User>)
    requires Numbered(users)
    ensures forall i :: 0 <= i < |users| ==> users[i].id < NewUserId(users)
  {
  }

  /** In a numbered registry ids are strictly increasing in registration order, hence unique. */
  lemma NumberedIdsIncrease(users: seq<User>)
    requires Numbered(users)
    ensures forall i, j :: 0 <= i < j < |users| ==> users[i].id < users[j].id
  {
  }

  /** Registration keeps the registry numbered. */
  lemma RegisterKeepsNumbered(users: seq<User>, name: Option<string>, phone: Option<string>, isDriver: bool)
    requires Numbered(users)
    ensures Numbered(Register(users, name, phone, isDriver).1)
  {
  }

  /** Two successful registrations in a row hand out strictly increasing ids. */
  lemma SuccessiveIdsIncrease(users: seq<User>,
                              name1: Option<string>, phone1: Option<string>, d1: bool,
                              name2: Option<string>, phone2: Option<string>, d2: bool)
    requires NonEmpty(name1) && NonEmpty(name2)
    ensures var (r1, u1) := Register(users, name1, phone1, d1);
            var (r2, _) := Register(u1, name2, phone2, d2);
            r1.Ok? && r2.Ok? && r1.value < r2.value
  {
  }
}
