/** The fixed credential list and the lookup the login route performs on it. */
module Users {
  import opened Wrappers
  import opened Http

  datatype UserRecord = UserRecord(id: int, username: string, password: string)

  /** The seed list the program keeps in memory in place of a database. */
  const Seed: seq<UserRecord> := [
    UserRecord(1, "user1", "password1"),
    UserRecord(2, "admin", "admin_pass")
  ]

  /**
   * The lookup's predicate: both submitted fields are strings, strictly equal
   * (case-sensitive, no trimming) to the record's username and password.
   */
  predicate Matches(u: UserRecord, name: Param, password: Param) {
    name == Text(u.username) && password == Text(u.password)
  }

  /** No two records share a username. */
  ghost predicate UniqueUsernames(users: seq<UserRecord>) {
    forall i, j :: 0 <= i < j < |users| ==> users[i].username != users[j].username
  }

  /**
   * Linear search in list order: the first record satisfying the predicate,
   * or None when no record does.
   */
  function Find(users: seq<UserRecord>, name: Param, password: Param): (r: Option<UserRecord>)
    ensures r.None? <==> forall i :: 0 <= i < |users| ==> !Matches(users[i], name, password)
    ensures r.Some? ==>
      exists i :: 0 <= i < |users| && users[i] == r.value && Matches(r.value, name, password)
        && forall j :: 0 <= j < i ==> !Matches(users[j], name, password)
    decreases |users|
  {
    if |users| == 0 then None
    else if Matches(users[0], name, password) then Some(users[0])
    else
      var r := Find(users[1..], name, password);
      assert forall i :: 1 <= i < |users| ==> users[i] == users[1..][i - 1];
      r
  }

  /** Usernames in the seed list are unique. */
  lemma SeedUsernamesUnique()
    ensures UniqueUsernames(Seed)
  {
  }

  /**
   * With unique usernames at most one record can satisfy the predicate, so the
   * search returns that record whenever it exists.
   */
  lemma FindUnique(users: seq<UserRecord>, i: int, name: Param, password: Param)
    requires UniqueUsernames(users)
    requires 0 <= i < |users| && Matches(users[i], name, password)
    ensures Find(users, name, password) == Some(users[i])
    ensures forall j :: 0 <= j < |users| && Matches(users[j], name, password) ==> j == i
  {
  }

  /** In the seed list the lookup has at most one match. */
  lemma SeedAtMostOneMatch(name: Param, password: Param, i: int, j: int)
    requires 0 <= i < |Seed| && Matches(Seed[i], name, password)
    requires 0 <= j < |Seed| && Matches(Seed[j], name, password)
    ensures i == j
  {
    SeedUsernamesUnique();
    FindUnique(Seed, i, name, password);
  }
}
