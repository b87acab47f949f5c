/** The app's local data service (`DataService` in src/dataService.js): a user registry, the
    current-user session and an activity list, each kept under its own key in the device's
    key-value storage. The three stored values are fields of a class. */
module LocalData {
  import opened Common

  const EMAIL_JA_CADASTRADO := "Email já cadastrado"
  const CREDENCIAIS_INCORRETAS := "Email ou senha incorretos"
  const USUARIO_NAO_ENCONTRADO := "Usuário não encontrado"
  const ALUNO_NAO_ENCONTRADO := "Aluno não encontrado"
  const PROFESSOR_NAO_ENCONTRADO := "Professor não encontrado"

  /** A thrown `Error(message)` or a returned value. */
  datatype Result<T> = Ok(value: T) | Err(message: string)

  /** A stored user. `id` is the decimal clock reading at registration and `createdAt` that
      reading; `teacherId` is present only for users linked to a teacher. */
  datatype User = User(
    id: string, name: string, email: string, password: string, role: string,
    teacherId: Option<string>, createdAt: nat)

  /** The registration form data spread into a new user. */
  datatype UserData = UserData(
    name: string, email: string, password: string, role: string, teacherId: Option<string>)

  /** The object passed to `updateUser`: its `id` selects the user, every other present field
      overrides the stored one. */
  datatype UserPatch = UserPatch(
    id: string, name: Option<string>, email: Option<string>, password: Option<string>,
    role: Option<string>, teacherId: Option<string>)

  /** A stored activity, linking a teacher and a student by id. */
  datatype Activity = Activity(
    id: string, title: string, description: string,
    teacherId: Option<string>, studentId: Option<string>, createdAt: nat)

  /** The activity data spread into a new activity. */
  datatype ActivityData = ActivityData(
    title: string, description: string, teacherId: Option<string>, studentId: Option<string>)

  /** An activity as shown to a user, with the display names the query adds (each present only
      when the query adds that key). */
  datatype ActivityView = ActivityView(
    activity: Activity, studentName: Option<string>, teacherName: Option<string>)

  // ---------------------------------------------------------------------------------------
  // E-mail comparison

  /** `toLowerCase` on one character, for the Latin letters (A-Z and the accented capitals
      of Latin-1). */
  function LowerChar(c: char): (l: char)
    ensures 'A' <= c <= 'Z' ==> l as int == c as int + 32
    ensures !('A' <= c <= 'Z') && !('À' <= c <= 'Þ') ==> l == c
  {
    if 'A' <= c <= 'Z' || ('À' <= c <= 'Þ' && c != '×') then (c as int + 32) as char else c
  }

  /** `toLowerCase` on a string, character by character. */
  function Lower(s: string): (r: string)
    ensures |r| == |s|
    ensures forall i :: 0 <= i < |s| ==> r[i] == LowerChar(s[i])
  {
    if s == [] then [] else [LowerChar(s[0])] + Lower(s[1..])
  }

  /** Some user's e-mail equals `email` exactly (the test `register` makes). */
  predicate EmailRegistered(users: seq<User>, email: string) {
    exists i :: 0 <= i < |users| && users[i].email == email
  }

  /** Some user's e-mail equals `email` up to letter case (the test `checkEmailExists` makes). */
  predicate EmailRegisteredIgnoringCase(users: seq<User>, email: string) {
    exists i :: 0 <= i < |users| && Lower(users[i].email) == Lower(email)
  }

  /** An exactly registered e-mail is also registered up to case. */
  lemma ExactImpliesIgnoringCase(users: seq<User>, email: string)
    requires EmailRegistered(users, email)
    ensures EmailRegisteredIgnoringCase(users, email)
  {
    var i :| 0 <= i < |users| && users[i].email == email;
    assert Lower(users[i].email) == Lower(email);
  }

  /** The converse fails: with "A@x" registered, `checkEmailExists("a@x")` reports the address
      as taken while `register` accepts it. */
  lemma CaseVariantIsAcceptedByRegister(users: seq<User>)
    requires |users| == 1 && users[0].email == "A@x"
    ensures EmailRegisteredIgnoringCase(users, "a@x")
    ensures !EmailRegistered(users, "a@x")
  {
    assert LowerChar('A') == 'a' && LowerChar('a') == 'a';
    assert LowerChar('@') == '@' && LowerChar('x') == 'x';
    assert Lower(users[0].email) == Lower("a@x");
    assert users[0].email[0] != "a@x"[0];
  }

  // ---------------------------------------------------------------------------------------
  // Users

  /** The merge `{ ...user, ...patch }`. */
  function Merge(u: User, p: UserPatch): (m: User)
    ensures m.id == p.id && m.createdAt == u.createdAt
    ensures m.name == p.name.GetOr(u.name) && m.email == p.email.GetOr(u.email)
    ensures m.password == p.password.GetOr(u.password) && m.role == p.role.GetOr(u.role)
    ensures m.teacherId == if p.teacherId.Some? then p.teacherId else u.teacherId
  {
    User(p.id, p.name.GetOr(u.name), p.email.GetOr(u.email), p.password.GetOr(u.password),
         p.role.GetOr(u.role), if p.teacherId.Some? then p.teacherId else u.teacherId, u.createdAt)
  }

  /** The name of the first user with the given id, or the fallback text when there is none. */
  function NameOr(users: seq<User>, id: Option<string>, fallback: string): (name: string)
    ensures (forall i :: 0 <= i < |users| ==> Some(users[i].id) != id) ==> name == fallback
    ensures (exists i :: 0 <= i < |users| && Some(users[i].id) == id) ==>
      exists i :: 0 <= i < |users| && Some(users[i].id) == id && name == users[i].name &&
                  forall j :: 0 <= j < i ==> Some(users[j].id) != id
  {
    match Find(users, (u: User) => Some(u.id) == id)
    case Some(u) => u.name
    case None => fallback
  }

  // ---------------------------------------------------------------------------------------
  // Activities

  /** The activity belongs to the user: as its teacher for role "teacher", else as its student. */
  function Owns(a: Activity, userId: string, userRole: string): (owned: bool)
    ensures userRole == "teacher" ==> (owned <==> a.teacherId.Some? && a.teacherId.value == userId)
    ensures userRole != "teacher" ==> (owned <==> a.studentId.Some? && a.studentId.value == userId)
  {
    if userRole == "teacher" then a.teacherId == Some(userId) else a.studentId == Some(userId)
  }

  /** The display copy made for a user: a teacher sees the student's name, anyone else the
      teacher's name, with the "not found" text when that user does not exist. */
  function Decorate(a: Activity, users: seq<User>, userRole: string): (v: ActivityView)
    ensures v.activity == a
    ensures v.studentName.Some? <==> userRole == "teacher"
    ensures v.teacherName.Some? <==> userRole != "teacher"
    ensures v.studentName.Some? ==> v.studentName.value == NameOr(users, a.studentId, ALUNO_NAO_ENCONTRADO)
    ensures v.teacherName.Some? ==> v.teacherName.value == NameOr(users, a.teacherId, PROFESSOR_NAO_ENCONTRADO)
  {
    if userRole == "teacher" then
      ActivityView(a, Some(NameOr(users, a.studentId, ALUNO_NAO_ENCONTRADO)), None)
    else
      ActivityView(a, None, Some(NameOr(users, a.teacherId, PROFESSOR_NAO_ENCONTRADO)))
  }

  /** Newest first: `createdAt` never increases along the sequence. */
  ghost predicate NewestFirst(s: seq<ActivityView>) {
    forall i, j :: 0 <= i < j < |s| ==> s[i].activity.createdAt >= s[j].activity.createdAt
  }

  /** Inserts `x` before the first element that is not newer than it. */
  function InsertNewest(x: ActivityView, s: seq<ActivityView>): (r: seq<ActivityView>)
    ensures |r| == |s| + 1 && x in r
    ensures forall i :: 0 <= i < |s| ==> s[i] in r
    ensures forall i :: 0 <= i < |r| ==> r[i] == x || r[i] in s
    ensures multiset(r) == multiset(s) + multiset{x}
  {
    if s == [] || s[0].activity.createdAt <= x.activity.createdAt then [x] + s
    else
      assert s == [s[0]] + s[1..];
      [s[0]] + InsertNewest(x, s[1..])
  }

  /** Putting an element no older than any of `t` in front of a newest-first `t` keeps it newest first. */
  lemma ConsNewestFirst(h: ActivityView, t: seq<ActivityView>)
    requires NewestFirst(t)
    requires forall k :: 0 <= k < |t| ==> h.activity.createdAt >= t[k].activity.createdAt
    ensures NewestFirst([h] + t)
  {
    var r := [h] + t;
    forall i, j | 0 <= i < j < |r| ensures r[i].activity.createdAt >= r[j].activity.createdAt {
      assert r[j] == t[j - 1];
      if i > 0 {
        assert r[i] == t[i - 1];
      }
    }
  }

  /** Inserting into a newest-first sequence keeps it newest first. */
  lemma {:induction false} InsertNewestSorted(x: ActivityView, s: seq<ActivityView>)
    requires NewestFirst(s)
    ensures NewestFirst(InsertNewest(x, s))
  {
    if s != [] && s[0].activity.createdAt > x.activity.createdAt {
      var rest := InsertNewest(x, s[1..]);
      InsertNewestSorted(x, s[1..]);
      forall k | 0 <= k < |rest| ensures s[0].activity.createdAt >= rest[k].activity.createdAt {
        if rest[k] != x {
          var m :| 0 <= m < |s[1..]| && s[1..][m] == rest[k];
          assert s[m + 1] == rest[k];
        }
      }
      ConsNewestFirst(s[0], rest);
    } else {
      ConsNewestFirst(x, s);
    }
  }

  /** `sort((a, b) => b.createdAt - a.createdAt)`: newest first, a permutation of the input. */
  function SortNewestFirst(s: seq<ActivityView>): (r: seq<ActivityView>)
    ensures NewestFirst(r)
    ensures |r| == |s|
    ensures forall i :: 0 <= i < |s| ==> s[i] in r
    ensures forall i :: 0 <= i < |r| ==> r[i] in s
    ensures multiset(r) == multiset(s)
  {
    if s == [] then []
    else
      assert s == [s[0]] + s[1..];
      InsertNewestSorted(s[0], SortNewestFirst(s[1..]));
      InsertNewest(s[0], SortNewestFirst(s[1..]))
  }

  /** The user's own activities, decorated, in stored order. */
  function DecorateAll(own: seq<Activity>, users: seq<User>, userRole: string): (r: seq<ActivityView>)
    ensures |r| == |own|
    ensures forall i :: 0 <= i < |r| ==> r[i] == Decorate(own[i], users, userRole)
  {
    if own == [] then [] else [Decorate(own[0], users, userRole)] + DecorateAll(own[1..], users, userRole)
  }

  /** Decorated copies of one activity list are exactly the decorations of its elements. */
  lemma {:induction false} InDecorateAll(own: seq<Activity>, users: seq<User>, userRole: string, v: ActivityView)
    requires v in DecorateAll(own, users, userRole)
    ensures v.activity in own && v == Decorate(v.activity, users, userRole)
  {
    var r := DecorateAll(own, users, userRole);
    var k :| 0 <= k < |r| && r[k] == v;
    assert r[k] == Decorate(own[k], users, userRole);
  }

  class DataService {
    /** The user list stored under 'apae_users'. */
    var users: seq<User>
    /** The activity list stored under 'apae_activities'. */
    var activities: seq<Activity>
    /** The user stored under 'apae_current_user', if any. */
    var currentUser: Option<User>

    /** A service over whatever the storage holds (an unreadable key reads as its default). */
    constructor (storedUsers: seq<User>, storedActivities: seq<Activity>, storedCurrent: Option<User>)
      ensures users == storedUsers && activities == storedActivities && currentUser == storedCurrent
    {
      users, activities, currentUser := storedUsers, storedActivities, storedCurrent;
    }

    /** `checkEmailExists`: whether some user has this e-mail, ignoring letter case. */
    function CheckEmailExists(email: string): (taken: bool)
      reads this
      ensures taken <==> EmailRegisteredIgnoringCase(users, email)
    {
      exists i | 0 <= i < |users| :: Lower(users[i].email) == Lower(email)
    }

    /** `register`: rejects an e-mail already present (exact match) and changes nothing;
        otherwise appends exactly one new user, stamped with the clock reading `now`, and
        makes it the current user. */
    method Register(data: UserData, now: nat) returns (r: Result<User>)
      modifies this
      ensures EmailRegistered(old(users), data.email) ==>
        r == Err(EMAIL_JA_CADASTRADO) && users == old(users) && currentUser == old(currentUser)
      ensures !EmailRegistered(old(users), data.email) ==>
        r.Ok? && users == old(users) + [r.value] && currentUser == Some(r.value)
      ensures r.Ok? ==> r.value == User(NatToString(now), data.name, data.email, data.password,
                                        data.role, data.teacherId, now)
      ensures activities == old(activities)
    {
      var existing := Find(users, (u: User) => u.email == data.email);
      if existing.Some? {
        return Err(EMAIL_JA_CADASTRADO);
      }
      var newUser := User(NatToString(now), data.name, data.email, data.password, data.role,
                          data.teacherId, now);
      users := users + [newUser];
      currentUser := Some(newUser);
      r := Ok(newUser);
    }

    /** `login`: succeeds iff some user has exactly this e-mail and password; returns the first
        such user and stores it as current. Otherwise fails and changes nothing. */
    method Login(email: string, password: string) returns (r: Result<User>)
      modifies this
      ensures r.Err? ==> forall i :: 0 <= i < |users| ==> !(users[i].email == email && users[i].password == password)
      ensures r.Ok? ==> r.value.email == email && r.value.password == password
      ensures r.Ok? ==>
        exists i :: 0 <= i < |users| && users[i] == r.value &&
          forall j :: 0 <= j < i ==> !(users[j].email == email && users[j].password == password)
      ensures r.Ok? ==> currentUser == Some(r.value)
      ensures r.Err? ==> r.message == CREDENCIAIS_INCORRETAS && currentUser == old(currentUser)
      ensures users == old(users) && activities == old(activities)
    {
      var found := Find(users, (u: User) => u.email == email && u.password == password);
      if found.None? {
        assert forall i :: 0 <= i < |users| ==> !(users[i].email == email && users[i].password == password);
        return Err(CREDENCIAIS_INCORRETAS);
      }
      var i :| 0 <= i < |users| && users[i] == found.value &&
        forall j :: 0 <= j < i ==> !(users[j].email == email && users[j].password == password);
      currentUser := Some(found.value);
      r := Ok(found.value);
      assert users[i] == r.value;
    }

    /** `getCurrentUser`: the stored session, or `null`. */
    function GetCurrentUser(): (u: Option<User>)
      reads this
      ensures u.Some? <==> currentUser.Some?
      ensures u.Some? ==> u.value == currentUser.value
    {
      currentUser
    }

    /** `logout`: removes the session; nothing else changes. */
    method Logout()
      modifies this
      ensures GetCurrentUser() == None
      ensures users == old(users) && activities == old(activities)
    {
      currentUser := None;
    }

    /** `updateUser`: merges the patch into the first user with its id, in place, keeps the list
        length and every other user, and stores the merged user as current. A missing id
        fails and changes nothing. */
    method UpdateUser(patch: UserPatch) returns (r: Result<User>)
      modifies this
      ensures r.Err? <==> forall i :: 0 <= i < |old(users)| ==> old(users)[i].id != patch.id
      ensures r.Err? ==> r.message == USUARIO_NAO_ENCONTRADO && users == old(users) &&
                         currentUser == old(currentUser)
      ensures r.Ok? ==>
        exists i :: 0 <= i < |old(users)| && old(users)[i].id == patch.id &&
          (forall j :: 0 <= j < i ==> old(users)[j].id != patch.id) &&
          r.value == Merge(old(users)[i], patch) && users == old(users)[i := r.value]
      ensures r.Ok? ==> currentUser == Some(r.value) && |users| == |old(users)|
      ensures activities == old(activities)
    {
      var index := FirstIndex(users, (u: User) => u.id == patch.id);
      if index.None? {
        return Err(USUARIO_NAO_ENCONTRADO);
      }
      var merged := Merge(users[index.value], patch);
      users := users[index.value := merged];
      currentUser := Some(merged);
      r := Ok(merged);
    }

    /** `getActivitiesForUser`: the activities the user owns (as teacher for role "teacher",
        as student otherwise), each decorated with the counterpart's name, newest first. */
    function GetActivitiesForUser(userId: string, userRole: string): (r: seq<ActivityView>)
      reads this
      ensures NewestFirst(r)
      ensures forall i :: 0 <= i < |r| ==> (r[i].activity in activities &&
        Owns(r[i].activity, userId, userRole) && r[i] == Decorate(r[i].activity, users, userRole))
      ensures forall i :: 0 <= i < |activities| && Owns(activities[i], userId, userRole) ==>
        Decorate(activities[i], users, userRole) in r
      ensures |r| == |Filter(activities, (a: Activity) => Owns(a, userId, userRole))|
      ensures multiset(r) ==
        multiset(DecorateAll(Filter(activities, (a: Activity) => Owns(a, userId, userRole)), users, userRole))
    {
      var own := Filter(activities, (a: Activity) => Owns(a, userId, userRole));
      var decorated := DecorateAll(own, users, userRole);
      var sorted := SortNewestFirst(decorated);
      forall i | 0 <= i < |sorted|
        ensures sorted[i].activity in activities && Owns(sorted[i].activity, userId, userRole)
        ensures sorted[i] == Decorate(sorted[i].activity, users, userRole)
      {
        InDecorateAll(own, users, userRole, sorted[i]);
      }
      forall i | 0 <= i < |activities| && Owns(activities[i], userId, userRole)
        ensures Decorate(activities[i], users, userRole) in sorted
      {
        var k :| 0 <= k < |own| && own[k] == activities[i];
        assert decorated[k] == Decorate(activities[i], users, userRole);
      }
      sorted
    }

    /** `getActivityById`: `null` for an absent id, else the first activity with it, decorated
        with both names. */
    function GetActivityById(activityId: string): (r: Option<ActivityView>)
      reads this
      ensures r.None? <==> forall i :: 0 <= i < |activities| ==> activities[i].id != activityId
      ensures r.Some? ==> r.value.activity.id == activityId
      ensures r.Some? ==>
        exists i :: 0 <= i < |activities| && activities[i] == r.value.activity &&
          forall j :: 0 <= j < i ==> activities[j].id != activityId
      ensures r.Some? ==>
        r.value.studentName == Some(NameOr(users, r.value.activity.studentId, ALUNO_NAO_ENCONTRADO)) &&
        r.value.teacherName == Some(NameOr(users, r.value.activity.teacherId, PROFESSOR_NAO_ENCONTRADO))
    {
      match Find(activities, (a: Activity) => a.id == activityId)
      case None => None
      case Some(a) =>
        Some(ActivityView(a, Some(NameOr(users, a.studentId, ALUNO_NAO_ENCONTRADO)),
                          Some(NameOr(users, a.teacherId, PROFESSOR_NAO_ENCONTRADO))))
    }

    /** `createActivity`: appends exactly one activity stamped with the clock reading `now`. */
    method CreateActivity(data: ActivityData, now: nat) returns (created: Activity)
      modifies this
      ensures created == Activity(NatToString(now), data.title, data.description,
                                  data.teacherId, data.studentId, now)
      ensures activities == old(activities) + [created]
      ensures users == old(users) && currentUser == old(currentUser)
    {
      created := Activity(NatToString(now), data.title, data.description, data.teacherId,
                          data.studentId, now);
      activities := activities + [created];
    }

    /** `deleteActivity`: removes every activity with this id and keeps the rest in order. */
    method DeleteActivity(activityId: string)
      modifies this
      ensures activities == Filter(old(activities), (a: Activity) => a.id != activityId)
      ensures forall i :: 0 <= i < |activities| ==> activities[i].id != activityId
      ensures forall i :: 0 <= i < |old(activities)| && old(activities)[i].id != activityId ==>
        old(activities)[i] in activities
      ensures IsSubsequence(activities, old(activities))
      ensures forall a: Activity ::
                multiset(activities)[a] == (if a.id != activityId then multiset(old(activities))[a] else 0)
      ensures users == old(users) && currentUser == old(currentUser)
    {
      FilterIsSubsequence(activities, (a: Activity) => a.id != activityId);
      FilterCounts(activities, (a: Activity) => a.id != activityId);
      activities := Filter(activities, (a: Activity) => a.id != activityId);
    }

    /** `getStudentsForTeacher`: the users with role "student", in stored order. */
    function GetStudentsForTeacher(): (r: seq<User>)
      reads this
      ensures forall i :: 0 <= i < |r| ==> r[i].role == "student" && r[i] in users
      ensures forall i :: 0 <= i < |users| && users[i].role == "student" ==> users[i] in r
      ensures IsSubsequence(r, users)
      ensures forall u :: multiset(r)[u] == (if u.role == "student" then multiset(users)[u] else 0)
    {
      var isStudent := (u: User) => u.role == "student";
      FilterIsSubsequence(users, isStudent);
      FilterCounts(users, isStudent);
      Filter(users, isStudent)
    }
  }
}
