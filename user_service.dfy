/**
 * The user service of the Google sign-in flow (src/user/user.service.ts):
 * find a row by Google id or create it, and find a row by id. It works on
 * the table of the `Auth` entity it imports from src/auth/auth.entity.ts,
 * which is not part of this model; the columns are taken from the `Auth`
 * entity of src/entity/auth.entity.ts.
 */
module UserService {
  import opened Wrappers
  import opened Tables

  /** A row of the `Auth` table; `None` is a NULL column. */
  datatype Account = Account(
    id: nat,
    email: Option<string>,
    firstName: Option<string>,
    secondName: Option<string>,
    password: Option<string>,
    googleId: Option<string>)

  /** `Partial<Auth>`: the keys the caller supplied. */
  datatype AccountDetails = AccountDetails(
    email: Option<string>,
    firstName: Option<string>,
    secondName: Option<string>,
    password: Option<string>,
    googleId: Option<string>)

  /**
   * The row `create({ googleId, ...userDetails })` builds: a key present in
   * `userDetails` wins, even `googleId`. A details key that is present
   * but `undefined` (which would also override `googleId`) cannot be
   * written as an `AccountDetails`: `None` stands for an absent key.
   */
  function Merged(id: nat, googleId: string, details: AccountDetails): (a: Account)
    ensures a.id == id
    ensures a.googleId == (if details.googleId.Some? then details.googleId else Some(googleId))
    ensures a.email == details.email && a.firstName == details.firstName
    ensures a.secondName == details.secondName && a.password == details.password
  {
    Account(id, details.email, details.firstName, details.secondName, details.password,
            if details.googleId.Some? then details.googleId else Some(googleId))
  }

  function HasGoogleId(googleId: string): Account -> bool {
    (a: Account) => a.googleId == Some(googleId)
  }

  /** The table, the next id and the returned row after one call. */
  datatype FindOrCreateState = FindOrCreateState(accounts: seq<Account>, nextId: nat, user: Account)

  /** What `findOrCreate` does to the table, and what it returns. */
  function FindOrCreateSpec(accounts: seq<Account>, nextId: nat, googleId: string, details: AccountDetails)
    : (r: FindOrCreateState)
    ensures (exists i :: 0 <= i < |accounts| && accounts[i].googleId == Some(googleId)) ==>
      r.accounts == accounts && r.nextId == nextId && r.user in accounts && r.user.googleId == Some(googleId)
    ensures (forall i :: 0 <= i < |accounts| ==> accounts[i].googleId != Some(googleId)) ==>
      r.accounts == accounts + [r.user] && r.nextId == nextId + 1 && r.user == Merged(nextId, googleId, details)
  {
    match FindFirst(accounts, HasGoogleId(googleId))
    case Some(i) => FindOrCreateState(accounts, nextId, accounts[i])
    case None =>
      var user := Merged(nextId, googleId, details);
      FindOrCreateState(accounts + [user], nextId + 1, user)
  }

  /** The number of rows with a given Google id. */
  function GoogleIdCount(accounts: seq<Account>, googleId: string): nat {
    if accounts == [] then 0
    else (if accounts[0].googleId == Some(googleId) then 1 else 0) + GoogleIdCount(accounts[1..], googleId)
  }

  lemma {:induction false} GoogleIdCountAppend(accounts: seq<Account>, a: Account, googleId: string)
    ensures GoogleIdCount(accounts + [a], googleId)
      == GoogleIdCount(accounts, googleId) + (if a.googleId == Some(googleId) then 1 else 0)
  {
    if accounts != [] {
      assert (accounts + [a])[1..] == accounts[1..] + [a];
      GoogleIdCountAppend(accounts[1..], a, googleId);
    }
  }

  lemma {:induction false} GoogleIdCountZero(accounts: seq<Account>, googleId: string)
    requires forall i :: 0 <= i < |accounts| ==> accounts[i].googleId != Some(googleId)
    ensures GoogleIdCount(accounts, googleId) == 0
  {
    if accounts != [] {
      GoogleIdCountZero(accounts[1..], googleId);
    }
  }

  lemma {:induction false} GoogleIdCountPositive(accounts: seq<Account>, googleId: string, i: nat)
    requires i < |accounts| && accounts[i].googleId == Some(googleId)
    ensures GoogleIdCount(accounts, googleId) > 0
  {
    if i > 0 {
      GoogleIdCountPositive(accounts[1..], googleId, i - 1);
    }
  }

  /**
   * Two calls with the same Google id, when the details do not override it:
   * the second call changes nothing and returns the same row, and a Google
   * id absent before ends up on exactly one row.
   */
  lemma FindOrCreateIdempotent(accounts: seq<Account>, nextId: nat, googleId: string,
                               details: AccountDetails, details': AccountDetails)
    requires details.googleId.None? || details.googleId == Some(googleId)
    ensures var first := FindOrCreateSpec(accounts, nextId, googleId, details);
      var second := FindOrCreateSpec(first.accounts, first.nextId, googleId, details');
      && second.accounts == first.accounts && second.user == first.user
      && first.user.googleId == Some(googleId)
      && (GoogleIdCount(accounts, googleId) == 0 ==> GoogleIdCount(second.accounts, googleId) == 1)
  {
    var first := FindOrCreateSpec(accounts, nextId, googleId, details);
    if forall i :: 0 <= i < |accounts| ==> accounts[i].googleId != Some(googleId) {
      GoogleIdCountZero(accounts, googleId);
      GoogleIdCountAppend(accounts, first.user, googleId);
      assert first.accounts[|accounts|] == first.user;
      assert FindFirst(first.accounts, HasGoogleId(googleId)) == Some(|accounts|);
    } else {
      var i :| 0 <= i < |accounts| && accounts[i].googleId == Some(googleId);
      assert HasGoogleId(googleId)(accounts[i]);
      GoogleIdCountPositive(accounts, googleId, i);
    }
  }

  /**
   * When the details carry a different Google id, the created row does not
   * have the queried one, so a second identical call creates another row.
   */
  lemma OverriddenGoogleIdNotIdempotent(accounts: seq<Account>, nextId: nat, googleId: string, details: AccountDetails)
    requires details.googleId.Some? && details.googleId != Some(googleId)
    requires forall i :: 0 <= i < |accounts| ==> accounts[i].googleId != Some(googleId)
    ensures var first := FindOrCreateSpec(accounts, nextId, googleId, details);
      var second := FindOrCreateSpec(first.accounts, first.nextId, googleId, details);
      |second.accounts| == |accounts| + 2
  {
    var first := FindOrCreateSpec(accounts, nextId, googleId, details);
    assert forall i :: 0 <= i < |first.accounts| ==> first.accounts[i].googleId != Some(googleId) by {
      forall i | 0 <= i < |first.accounts|
        ensures first.accounts[i].googleId != Some(googleId)
      {
        if i < |accounts| { assert first.accounts[i] == accounts[i]; }
      }
    }
  }

  /** The Auth repository the service owns. */
  class UserService {
    var accounts: seq<Account>
    var nextId: nat

    /** Ids are distinct and below the next id to hand out. */
    ghost predicate Valid()
      reads this
    {
      && (forall i :: 0 <= i < |accounts| ==> accounts[i].id < nextId)
      && (forall i, j :: 0 <= i < j < |accounts| ==> accounts[i].id != accounts[j].id)
    }

    constructor ()
      ensures Valid() && accounts == []
    {
      accounts := [];
      nextId := 0;
    }

    /** `findOrCreate({ googleId }, userDetails)`. */
    method FindOrCreate(googleId: string, details: AccountDetails) returns (user: Account)
      requires Valid()
      modifies this
      ensures Valid()
      ensures FindOrCreateState(accounts, nextId, user) == FindOrCreateSpec(old(accounts), old(nextId), googleId, details)
    {
      var found := FindFirst(accounts, HasGoogleId(googleId));
      if found.Some? {
        user := accounts[found.value];
      } else {
        user := Merged(nextId, googleId, details);
        accounts := accounts + [user];
        nextId := nextId + 1;
      }
    }

    /** `findById(id)`: the row with that id, or null. */
    method FindById(id: nat) returns (r: Option<Account>)
      ensures r.Some? ==> r.value in accounts && r.value.id == id
      ensures r.None? <==> forall i :: 0 <= i < |accounts| ==> accounts[i].id != id
    {
      var found := FindFirst(accounts, (a: Account) => a.id == id);
      if found.Some? {
        r := Some(accounts[found.value]);
      } else {
        r := None;
      }
    }
  }
}
