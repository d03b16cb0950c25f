/** The `userMap` built from the match's user list, and the player record of a score. */
module Users {
  import opened Payload

  function ProfileOf(u: User): Profile {
    Profile(u.username, u.avatarUrl)
  }

  /** The map the `forEach` over `users` leaves behind: entries in list order, a later user
      with the same id overwriting an earlier one. */
  function UserMap(users: seq<User>): map<int, Profile>
    decreases |users|
  {
    if users == [] then map[]
    else
      var last := users[|users| - 1];
      UserMap(users[..|users| - 1])[last.id := ProfileOf(last)]
  }

  /** An id is in the map exactly when some user carries it. */
  lemma {:induction false} UserMapKeys(users: seq<User>, id: int)
    ensures id in UserMap(users) <==> exists i :: 0 <= i < |users| && users[i].id == id
    decreases |users|
  {
    if users != [] {
      var init := users[..|users| - 1];
      UserMapKeys(init, id);
      if exists i :: 0 <= i < |users| && users[i].id == id {
        var i :| 0 <= i < |users| && users[i].id == id;
        if i < |users| - 1 {
          assert init[i].id == id;
        }
      }
      if exists i :: 0 <= i < |init| && init[i].id == id {
        var i :| 0 <= i < |init| && init[i].id == id;
        assert users[i].id == id;
      }
    }
  }

  /** The entry for an id is the profile of the last user carrying it. */
  lemma {:induction false} UserMapLastWins(users: seq<User>, i: int)
    requires 0 <= i < |users|
    requires forall j :: i < j < |users| ==> users[j].id != users[i].id
    ensures users[i].id in UserMap(users) && UserMap(users)[users[i].id] == ProfileOf(users[i])
    decreases |users|
  {
    if i < |users| - 1 {
      var init := users[..|users| - 1];
      assert init[i] == users[i];
      UserMapLastWins(init, i);
    }
  }

  /** The `forEach` that fills `userMap`. */
  method BuildUserMap(users: seq<User>) returns (userMap: map<int, Profile>)
    ensures userMap == UserMap(users)
  {
    userMap := map[];
    var i := 0;
    while i < |users|
      invariant 0 <= i <= |users|
      invariant userMap == UserMap(users[..i])
    {
      var u := users[i];
      userMap := userMap[u.id := Profile(u.username, u.avatarUrl)];
      assert users[..i + 1][..i] == users[..i];
      i := i + 1;
    }
    assert users[..|users|] == users;
  }

  /** `userMap[user_id] || { name: "Unknown", avatar: "" }`. */
  function Resolve(userMap: map<int, Profile>, id: int): (p: Profile)
    ensures id in userMap ==> p == userMap[id]
    ensures id !in userMap ==> p == Profile("Unknown", "")
  {
    if id in userMap then userMap[id] else Profile("Unknown", "")
  }

  /** `pObj`: the player record of one score, with the defaults of a missing user, score,
      combo and rank. */
  function RecordOf(s: Score, userMap: map<int, Profile>): (r: PlayerRecord)
    ensures r.name == Resolve(userMap, s.userId).name && r.avatar == Resolve(userMap, s.userId).avatar
    ensures r.score == (if s.score.Some? then s.score.value else 0)
    ensures r.combo == (if s.maxCombo.Some? then s.maxCombo.value else 0)
    ensures r.accuracy == s.accuracyText
    ensures r.grade == (if s.rank.Some? && s.rank.value != "" then s.rank.value else "F")
    ensures r.grade != ""
  {
    var u := Resolve(userMap, s.userId);
    PlayerRecord(u.name, u.avatar, IntOr(s.score, 0), s.accuracyText, IntOr(s.maxCombo, 0), StrOr(s.rank, "F"))
  }
}
