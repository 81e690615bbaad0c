/**
 * The admin user list (src/components/admin/UserManagement.tsx): the search
 * filter over the loaded profiles and the badge shown for a profile's level.
 */
module UserManagement {
  import opened Common

  datatype UserProfile = UserProfile(
    id: string, userId: string, username: Option<string>, level: Option<string>,
    xp: Option<int>, streakDays: Option<int>, createdAt: Option<string>, onboardingCompleted: Option<bool>)

  /**
   * The filter's test: the lower-cased term occurs in the lower-cased username
   * (a null username never matches) or in the lower-cased user id.
   */
  predicate Matches(u: UserProfile, term: string) {
    || (u.username.Some? && Contains(Lower(u.username.value), Lower(term)))
    || Contains(Lower(u.userId), Lower(term))
  }

  /** `a` is `b` with some elements dropped and the rest kept in order. */
  predicate IsSubsequence(a: seq<UserProfile>, b: seq<UserProfile>)
    decreases |b|
  {
    || |a| == 0
    || (|b| > 0 && ((a[0] == b[0] && IsSubsequence(a[1..], b[1..])) || IsSubsequence(a, b[1..])))
  }

  /** `filteredUsers`: the users the search term matches, in their loaded order. */
  function FilterUsers(users: seq<UserProfile>, term: string): (r: seq<UserProfile>)
    ensures IsSubsequence(r, users)
    ensures forall u :: u in r <==> u in users && Matches(u, term)
  {
    if |users| == 0 then []
    else
      var rest := FilterUsers(users[1..], term);
      if Matches(users[0], term) then [users[0]] + rest else rest
  }

  /** Every string contains the empty string. */
  lemma ContainsEmpty(s: string)
    ensures Contains(s, "")
  {
    assert IsPrefix("", s);
  }

  /** An empty search keeps every user, those without a username included. */
  lemma {:induction false} EmptyTermKeepsAll(users: seq<UserProfile>)
    ensures FilterUsers(users, "") == users
  {
    if |users| > 0 {
      assert Lower("") == "";
      ContainsEmpty(Lower(users[0].userId));
      assert Matches(users[0], "");
      EmptyTermKeepsAll(users[1..]);
      assert [users[0]] + users[1..] == users;
    }
  }

  /** Filtering a filtered list again with the same term changes nothing. */
  lemma {:induction false} FilterIdempotent(users: seq<UserProfile>, term: string)
    ensures FilterUsers(FilterUsers(users, term), term) == FilterUsers(users, term)
  {
    if |users| > 0 {
      FilterIdempotent(users[1..], term);
      var rest := FilterUsers(users[1..], term);
      if Matches(users[0], term) {
        assert ([users[0]] + rest)[1..] == rest;
      }
    }
  }

  /** `getLevelBadge`: the label shown for a profile's level. */
  function LevelBadge(level: Option<string>): (badge: string)
    ensures level == Some("beginner") <==> badge == "Débutant"
    ensures level == Some("intermediate") <==> badge == "Intermédiaire"
    ensures level == Some("advanced") <==> badge == "Avancé"
    ensures badge == "Non défini" <==>
              !(level in {Some("beginner"), Some("intermediate"), Some("advanced")})
  {
    if level == Some("beginner") then "Débutant"
    else if level == Some("intermediate") then "Intermédiaire"
    else if level == Some("advanced") then "Avancé"
    else "Non défini"
  }
}
