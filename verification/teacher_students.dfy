/** The rule by which the teacher's student screen selects the users it lists. The user list
    is the one the local data service stores; the current user is the screen's `user` property,
    absent when nobody is signed in. */
module TeacherStudents {
  import opened Common
  import opened LocalData

  /** `u.teacherId` is JavaScript-truthy: present and not the empty string. */
  predicate HasTeacher(u: User) {
    u.teacherId.Some? && u.teacherId.value != ""
  }

  /** `users.some(u => u.teacherId)`. */
  predicate AnyHasTeacher(users: seq<User>) {
    exists i :: 0 <= i < |users| && HasTeacher(users[i])
  }

  /** `user?.id`: the current user's id, undefined (`None`) when nobody is signed in. */
  function CurrentId(current: Option<User>): Option<string> {
    if current.Some? then Some(current.value.id) else None
  }

  /** `u.teacherId === user?.id`: an absent teacher id equals an absent current id. */
  predicate TaughtBy(u: User, current: Option<User>) {
    u.teacherId == CurrentId(current)
  }

  /** The students listed: those with role 'student' when no user carries a teacher id, and
      otherwise the users whose teacher id is the current user's id, whatever their role. */
  function SelectStudents(users: seq<User>, current: Option<User>): (r: seq<User>)
    ensures !AnyHasTeacher(users) ==>
      forall i :: 0 <= i < |users| ==> (users[i] in r <==> users[i].role == "student")
    ensures AnyHasTeacher(users) ==>
      forall i :: 0 <= i < |users| ==> (users[i] in r <==> TaughtBy(users[i], current))
    ensures forall i :: 0 <= i < |r| ==> r[i] in users
  {
    var filtered := Filter(users, (u: User) => u.role == "student");
    if AnyHasTeacher(users) then Filter(users, (u: User) => TaughtBy(u, current)) else filtered
  }

  /** The selection never adds or reorders users. */
  lemma SelectionIsSubsequence(users: seq<User>, current: Option<User>)
    ensures IsSubsequence(SelectStudents(users, current), users)
  {
    if AnyHasTeacher(users) {
      FilterIsSubsequence(users, (u: User) => TaughtBy(u, current));
    } else {
      FilterIsSubsequence(users, (u: User) => u.role == "student");
    }
  }

  /** When teacher ids are in use but none is the current user's, nobody is listed, even if
      there are users with role 'student'. */
  lemma NoMatchingTeacherListsNobody(users: seq<User>, current: Option<User>)
    requires AnyHasTeacher(users)
    requires forall i :: 0 <= i < |users| ==> !TaughtBy(users[i], current)
    ensures SelectStudents(users, current) == []
  {
    FilterNone(users, (u: User) => TaughtBy(u, current));
  }

  /** With nobody signed in and teacher ids in use, the users listed are exactly those without
      a teacher id. */
  lemma NobodySignedInListsUnassigned(users: seq<User>)
    requires AnyHasTeacher(users)
    ensures forall i :: 0 <= i < |users| ==>
      (users[i] in SelectStudents(users, None) <==> users[i].teacherId.None?)
  {
  }

  /** A teacher id that is present but empty does not switch the rule: if it is the only kind
      present, the rule still selects by role. */
  lemma EmptyTeacherIdsSelectByRole(users: seq<User>, current: Option<User>)
    requires forall i :: 0 <= i < |users| ==> users[i].teacherId.None? || users[i].teacherId == Some("")
    ensures SelectStudents(users, current) == Filter(users, (u: User) => u.role == "student")
  {
    assert !AnyHasTeacher(users);
  }
}
