# APAE Digital — a verified model of its stateful core

APAE Digital is a school and therapy companion app: a React Native client with a NestJS backend.
Teachers (professores) create activities (atividades) and assign students (alunos) to them.
Users register and sign in, earn points, badges and streaks, and keep working offline.
This project models in Dafny the parts of the app that hold state or make decisions, and proves
properties of that model:

- `atividades.dfy` (module `Atividades`): the backend `AtividadeService`.
  - The activity repository is a map from id to stored row, and the student repository is a set of ids.
  - Creating, listing, reading, updating and deleting activities are class methods and functions with their HTTP errors.
  - Assigning a student to an activity adds it only once.
- `local_data.dfy` (module `LocalData`): the client's `DataService`.
  - Users, activities and the current session live in key-value storage, modelled as sequence fields.
  - It covers registration with the duplicate-email check, login, logout, the merge update of a user, and creating and deleting activities.
  - The role-dependent activity query decorates the activities with names and sorts them newest first.
- `gamification.dfy` (module `Gamification`): points and levels, badges, and the day-based streak.
  - Achievements unlock at fixed thresholds, and completing an activity triggers all of this.
- `offline.dfy` (module `Offline`): the `OfflineService`.
  - It keeps a first-in first-out queue of operations waiting for the network, a keyed cache, and connectivity listeners.
- `registration.dfy` (module `Registration`): the registration wizard.
  - It covers the per-step validators, the step counter kept within 1..4, the digit-only postal-code (CEP) and school-code (INEP) lookups, and the email check.
- `teacher_students.dfy` (module `TeacherStudents`): the rule that chooses which users a teacher's student screen lists.
- `progress_bar.dfy` (module `ProgressBar`): how the wizard's step indicator classifies each step circle.
- `common.dfy` (module `Common`): shared pieces.
  - `Option` stands for `null`/`undefined`.
  - It also has JavaScript's `filter`, `find` and `findIndex`, and the decimal text of a clock reading.

How the model represents the environment:

- Storage is held in class fields.
- Readings of the clock are parameters: `now` for `Date.now()`, and `today` as a day number, with yesterday being `today - 1`.
- The outcomes of calls into code that is not part of this model are parameters. These are network requests, the simulated API sync, and repository exceptions:
  - `fault` is a repository exception;
  - `syncFails` is a failed sync;
  - `response`, `result` and `reported` are service answers, with `None` for a failed request.

## Model

| member | source | states |
|---|---|---|
| Atividades.Hydrate | backend/src/atividade/atividade.service.ts:65-69 | The single-row read keeps every stored field, puts `professor` as stored (`null` when absent) and defaults `aluno` to the empty list. |
| Atividades.HydrateForList | backend/src/atividade/atividade.service.ts:40-44 | A listed row keeps every stored field including the original `aluno`, and adds `alunos`, taken from `aluno` and defaulted to the empty list. The read/write asymmetry of the source is kept. |
| Atividades.RowsBetween | backend/src/atividade/atividade.service.ts:35-44 | Every listed entry is the normalised copy of a stored row, and the entries have strictly increasing ids (no row twice). |
| Atividades.RowsBetweenComplete | backend/src/atividade/atividade.service.ts:35-44 | Every stored row in the id range appears in the list, so nothing is filtered out. |
| Atividades.ApplyUpdate | backend/src/atividade/atividade.service.ts:80-81 | An update replaces exactly the supplied fields. Id and students are untouched, and a supplied teacher id reassigns the teacher. |
| Atividades.UpdateOnlyTitle | backend/src/atividade/atividade.service.ts:80-81 | A body with only `titulo` changes only the title. |
| Atividades.AddAluno | backend/src/atividade/atividade.service.ts:122-128 | After assignment the student is listed. The list grows by one exactly when the student was absent, and the existing entries keep their order at the front. |
| Atividades.AddAlunoOnce | backend/src/atividade/atividade.service.ts:122-128 | On a duplicate-free list the student ends up listed exactly once and the list stays duplicate-free. |
| Atividades.AssignTwiceOnce | backend/src/atividade/atividade.service.ts:122-128 | Assigning the same student twice is the same as assigning once, and lists the student exactly once. |
| Atividades.AtividadeService.constructor | backend/src/atividade/atividade.service.ts:10-17 | The service starts with an empty activity repository over a given student repository. |
| Atividades.AtividadeService.CreateAtividade | backend/src/atividade/atividade.service.ts:20-30 | Inserts one row under a fresh id holding exactly title, description, date, time and the teacher id. No duplicate check is made and no students are set. Nothing else changes. |
| Atividades.AtividadeService.GetAtividades | backend/src/atividade/atividade.service.ts:33-51 | A repository exception gives 500 "Erro ao buscar atividades". Otherwise every entry is the normalised copy of a stored row, listed once. The repository `find` has no `order`; listing in increasing id order is a choice of this model. |
| Atividades.AtividadeService.GetAtividadesListsAll | backend/src/atividade/atividade.service.ts:33-44 | Every stored activity is in the list; no scoping applies. |
| Atividades.AtividadeService.GetAtividade | backend/src/atividade/atividade.service.ts:54-77 | A repository exception gives 500 "Erro ao buscar atividade". An absent id gives 404 "Atividade não encontrada". Otherwise the result is the normalised row. |
| Atividades.AtividadeService.UpdateAtividade | backend/src/atividade/atividade.service.ts:80-83 | Applies the supplied fields to an existing row, and is a no-op for an absent id. Returns exactly what a read of the id returns, so an absent id gives 404. |
| Atividades.AtividadeService.DeleteAtividade | backend/src/atividade/atividade.service.ts:86-100 | A repository exception gives 500 and removes nothing. An absent id gives 404 "Atividade não encontrada". Otherwise the row is removed, the success message is returned, and a later read of that id gives 404. |
| Atividades.AtividadeService.AssignAluno | backend/src/atividade/atividade.service.ts:103-131 | There are two distinct 404s: a missing activity, then a missing student. Either changes nothing. Otherwise the student is appended unless already listed, the row is saved, and the loaded row is returned without its unloaded teacher. The student then occurs exactly once. |
| LocalData.LowerChar | src/dataService.js:23 | `toLowerCase` on a character: capitals A-Z map to their lower case and other characters outside Latin-1 capitals are unchanged. |
| LocalData.Lower | src/dataService.js:23 | `toLowerCase` on a string, character by character, length kept. |
| LocalData.ExactImpliesIgnoringCase | src/dataService.js:23 | An email `register` rejects is also one `checkEmailExists` reports as taken. |
| LocalData.CaseVariantIsAcceptedByRegister | src/dataService.js:23 | The converse fails. With "A@x" stored, `checkEmailExists("a@x")` says taken while `register` accepts "a@x". |
| LocalData.Merge | src/dataService.js:102 | The spread merge: supplied fields override the stored user, the others are kept. |
| LocalData.Owns | src/dataService.js:129-139 | For role "teacher" the activity is owned when its teacher id equals the user id, for any other role when its student id does; a missing id never matches. |
| LocalData.Decorate | src/dataService.js:131-143 | The display copy keeps the activity. A teacher gets only the student's name and anyone else only the teacher's name, each the first matching user's name or the not-found text. |
| LocalData.NameOr | src/dataService.js:132-133 | The name of the first user with the given id, or the not-found text when no user has it. |
| LocalData.InsertNewest | src/dataService.js:135 | Insertion step of the newest-first sort: one more element, the same elements as a multiset. |
| LocalData.InsertNewestSorted | src/dataService.js:135 | Insertion keeps a newest-first list newest first. |
| LocalData.SortNewestFirst | src/dataService.js:135 | The sort by `createdAt` descending returns a newest-first permutation of its input. |
| LocalData.DecorateAll | src/dataService.js:131-134 | Each owned activity is mapped to its copy with the counterpart's name, in order. |
| LocalData.InDecorateAll | src/dataService.js:131-134 | Every decorated entry is the decoration of one of the owned activities. |
| LocalData.DataService.constructor | src/dataService.js:3-18 | The service reads the stored users, activities and session. |
| LocalData.DataService.CheckEmailExists | src/dataService.js:20-28 | Taken exactly when some stored email equals the given one ignoring letter case. |
| LocalData.DataService.Register | src/dataService.js:38-65 | An exactly matching email fails with "Email já cadastrado" and changes nothing. Otherwise exactly one new user is appended at the end, stamped with the clock, and made current. |
| LocalData.DataService.Login | src/dataService.js:67-77 | Fails with "Email ou senha incorretos" exactly when no user matches both email and password, leaving the session. Otherwise returns the first matching user and stores it as current. |
| LocalData.DataService.GetCurrentUser | src/dataService.js:79-87 | The stored session or `null`. |
| LocalData.DataService.Logout | src/dataService.js:89-95 | Afterwards `getCurrentUser` answers `null`; users and activities are unchanged. |
| LocalData.DataService.UpdateUser | src/dataService.js:97-109 | Fails with "Usuário não encontrado" exactly when no user has the id, changing nothing. Otherwise only the first user with that id is replaced by the merge, the length is kept, and the merged user becomes current. |
| LocalData.DataService.GetActivitiesForUser | src/dataService.js:123-146 | Exactly the activities the user owns: as teacher for role "teacher", as student otherwise. Each is decorated with the counterpart's name or the not-found text, newest first. The result is a permutation of the decorated owned activities, so each appears as often as it is stored. |
| LocalData.DataService.GetActivityById | src/dataService.js:148-163 | `null` exactly when no activity has the id. Otherwise the first one with it, with both names or their not-found texts. |
| LocalData.DataService.CreateActivity | src/dataService.js:165-175 | Appends exactly one activity with the given fields, stamped with the clock. |
| LocalData.DataService.DeleteActivity | src/dataService.js:177-181 | Removes every activity with the id and keeps all others in their order, each as many times as before. |
| LocalData.DataService.GetStudentsForTeacher | src/dataService.js:183-186 | Exactly the users with role "student", in stored order (a subsequence of the users), each as often as it is stored. |
| Gamification.CalculateLevel | frontend/src/services/gamificationService.js:42-44 | The level is the one whose 100-point band contains the total: `(level-1)*100 <= points < level*100`. |
| Gamification.LevelMonotone | frontend/src/services/gamificationService.js:42-44 | More points never give a lower level. |
| Gamification.LevelAtLeastOne | frontend/src/services/gamificationService.js:42-44 | A non-negative total is at level 1 or more. |
| Gamification.GetProgressToNextLevel | frontend/src/services/gamificationService.js:46-58 | The span is 100 and the progress lies in [0, 100). The progress is what the total exceeds the current level's threshold by. |
| Gamification.LevelUpIffThresholdReached | frontend/src/services/gamificationService.js:27-33 | A level-up happens exactly when the new total reaches the next threshold. A non-positive amount never levels up, and at most 100 points raise at most one level. |
| Gamification.PointsFor | frontend/src/services/gamificationService.js:179-187 | The mapped points for the five known types, 10 for any other, always between 10 and 30. |
| Gamification.NextStreak | frontend/src/services/gamificationService.js:94-120 | The same day leaves the streak unchanged. Yesterday extends the run by one; any other day restarts it at 1. Best becomes the maximum and today becomes the last day. |
| Gamification.NextStreakKeepsBest | frontend/src/services/gamificationService.js:112-113 | Best stays at least current and never decreases, and the last day is today. |
| Gamification.ConsecutiveDaysExtendStreak | frontend/src/services/gamificationService.js:104-106 | Updating on n consecutive days lengthens the run by n. |
| Gamification.MissedDayRestarts | frontend/src/services/gamificationService.js:107-110 | A gap of more than one day restarts the run at 1. |
| Gamification.AvailableAchievements | frontend/src/services/gamificationService.js:123-132 | The six achievements. |
| Gamification.AchievementIdsDistinct | frontend/src/services/gamificationService.js:123-132 | No two achievements share an id. |
| Gamification.ShouldUnlock | frontend/src/services/gamificationService.js:144-163 | "first_login" always unlocks; any other achievement needs a streak of 7 or more or at least 100 points, and an unknown id never unlocks. |
| Gamification.ShouldUnlockMonotone | frontend/src/services/gamificationService.js:144-163 | More points and a longer streak never take an unlock rule back. |
| Gamification.NewUnlocks | frontend/src/services/gamificationService.js:139-171 | Each unlocked achievement is an available one not yet among the badges whose threshold rule holds. |
| Gamification.UnlocksAmong | frontend/src/services/gamificationService.js:139-171 | The achievements of a list that unlock, in list order: never more than the list, each one from the list and due for unlocking. |
| Gamification.UnlocksAmongComplete | frontend/src/services/gamificationService.js:139-171 | Every achievement of the list that is due for unlocking is among the unlocks. |
| Gamification.UnlocksAmongNone | frontend/src/services/gamificationService.js:139-171 | When nothing in the list is due, nothing unlocks. |
| Gamification.UnlocksAmongFirst | frontend/src/services/gamificationService.js:139-171 | An achievement due at the head of the list is the first unlock. |
| Gamification.UnlockOneMore | frontend/src/services/gamificationService.js:164-168 | Unlocking one more achievement adds its id at the end of the badges and adds its points to the bonus when they are positive. |
| Gamification.UnlocksStep | frontend/src/services/gamificationService.js:139-171 | One iteration of the achievement loop: the current achievement is added exactly when it unlocks, and its id was not unlocked earlier in the loop. |
| Gamification.UnlocksAmongTwice | frontend/src/services/gamificationService.js:139-171 | A second pass with the first pass's badges added unlocks nothing. |
| Gamification.Ids | frontend/src/services/gamificationService.js:166 | The ids of a list of achievements, position by position. |
| Gamification.FirstLoginAlwaysUnlocks | frontend/src/services/gamificationService.js:145-147 | "first_login" is the first unlock whenever it is missing. |
| Gamification.CheckTwiceUnlocksNothingNew | frontend/src/services/gamificationService.js:134-175 | Checking twice with the same statistics unlocks nothing the second time. |
| Gamification.GamificationService.constructor | frontend/src/services/gamificationService.js:12-19 | Empty storage reads as 0 points, no badges and the streak `{0, 0, null}`. |
| Gamification.GamificationService.AddPoints | frontend/src/services/gamificationService.js:21-40 | Stores old plus amount. Reports the new total, the new level, the reason, and a level-up exactly when the level rose. |
| Gamification.GamificationService.UnlockBadge | frontend/src/services/gamificationService.js:70-82 | Appends the id and answers true exactly when it was absent. Otherwise answers false with the badges unchanged, so a repeat call is a no-op. |
| Gamification.GamificationService.UpdateStreak | frontend/src/services/gamificationService.js:94-120 | The stored and returned streak is `NextStreak` of the old one; best stays at least current. |
| Gamification.GamificationService.CheckAchievements | frontend/src/services/gamificationService.js:134-175 | Returns exactly the achievements that unlock against the badges held at the start, in catalogue order. Appends their ids to the badges and adds their positive points to the total. |
| Gamification.GamificationService.UnlockEach | frontend/src/services/gamificationService.js:139-172 | The loop of `checkAchievements` over any list with distinct ids, with the same contract. |
| Gamification.GamificationService.UnlockIfDue | frontend/src/services/gamificationService.js:140-171 | For an achievement not yet held: unlocks exactly when its condition holds, then appends its id and awards its positive points; nothing else changes. |
| Gamification.GamificationService.CompleteActivity | frontend/src/services/gamificationService.js:178-201 | Awards the mapped points and updates the streak. Unlocks against the new total and current run. The returned points exclude the achievement bonus, which the stored total includes. The returned level is the level of the returned points, and the reason is "Atividade: " followed by the type. |
| Offline.Stamp | src/services/offlineService.js:85-89 | A queued operation keeps the handed-in fields and gets the clock as timestamp and its decimal text as id. |
| Offline.Lookup | src/services/offlineService.js:66-80 | With a non-empty key: the entry under it, or `null` when absent. With no key or the empty key: the whole cache. |
| Offline.LookupAfterStore | src/services/offlineService.js:53-73 | After caching under a non-empty key, that key reads back the new entry and other keys read as before. |
| Offline.EmptyKeyReadsEverything | src/services/offlineService.js:56 | Data cached under the empty key cannot be read back by it, because that key returns the whole cache. |
| Offline.Unsubscribed | src/services/offlineService.js:38-40 | The unsubscribed callback is gone and every other listener is kept. |
| Offline.SubscribeThenUnsubscribe | src/services/offlineService.js:34-40 | Subscribing a new callback and unsubscribing it restores the listener list. |
| Offline.OfflineService.constructor | src/services/offlineService.js:5-13 | The service starts online with no listeners and the stored queue and cache. |
| Offline.OfflineService.AddNetworkListener | src/services/offlineService.js:34-35 | Appends the callback to the listeners. |
| Offline.OfflineService.RemoveNetworkListener | src/services/offlineService.js:38-40 | Removes the callback, keeping the others in order. |
| Offline.OfflineService.GetQueueSize | src/services/offlineService.js:196-198 | The size is 0 exactly when the queue is empty. |
| Offline.OfflineService.GetCachedData | src/services/offlineService.js:66-80 | With a non-empty key, the current cache entry under it or `null` when absent. With no key or the empty key, the whole current cache. |
| Offline.OfflineService.CacheData | src/services/offlineService.js:53-64 | Stores data and time under the key; the other keys are unchanged. |
| Offline.OfflineService.QueueOperation | src/services/offlineService.js:83-95 | The queue size grows by one and the stamped operation is appended at the end. |
| Offline.OfflineService.ProcessOfflineQueue | src/services/offlineService.js:107-131 | Leaves the queue empty, and changes nothing at all when it was empty. |
| Offline.OfflineService.SaveData | src/services/offlineService.js:157-181 | Always caches first. Queues exactly one `SAVE_DATA` operation when offline, or when online and the sync fails; queues nothing otherwise. |
| Offline.OfflineService.HandleNetworkChange | src/services/offlineService.js:17-28 | Records the new status. Coming back online empties the queue; otherwise the queue is unchanged. |
| Offline.OfflineService.ClearQueue | src/services/offlineService.js:204-207 | The queue size becomes 0. |
| Offline.OfflineService.ClearCache | src/services/offlineService.js:200-202 | The cache becomes empty. |
| Registration.TrimStart | frontend/src/RegisterPageNew.jsx:64 | Drops only leading white space and leaves a non-white first character. |
| Registration.TrimEnd | frontend/src/RegisterPageNew.jsx:64 | Drops only trailing white space and leaves a non-white last character. |
| Registration.Trim | frontend/src/RegisterPageNew.jsx:64 | `trim` leaves a string whose ends are not white space. |
| Registration.BlankIffAllWhitespace | frontend/src/RegisterPageNew.jsx:64 | A field fails the emptiness test exactly when it is all white space. |
| Registration.AtSignIsNotBlank | frontend/src/RegisterPageNew.jsx:68 | An email with '@' is never blank, so the '@' test subsumes the blank test. |
| Registration.Utf16Length | frontend/src/RegisterPageNew.jsx:76 | `length` counts UTF-16 units: between one and two per character. |
| Registration.DigitsOnly | frontend/src/RegisterPageNew.jsx:113 | The cleaned code holds only digits. It is a subsequence of the input, and each digit occurs in it exactly as often as in the input, so "11111111" keeps all eight digits. |
| Registration.DigitsOnlyIdempotent | frontend/src/RegisterPageNew.jsx:113 | Cleaning a clean code changes nothing. |
| Registration.LookupCode | frontend/src/RegisterPageNew.jsx:113-114 | A lookup proceeds exactly when the cleaned code has 8 digits, and it uses the cleaned code. |
| Registration.Utf16OfDigits | frontend/src/RegisterPageNew.jsx:114 | A digit string has one UTF-16 unit per character. |
| Registration.SeparatedCodeIsLookedUp | frontend/src/RegisterPageNew.jsx:113-114 | A code typed with a separator between its digit groups, such as "01310-100", is looked up by its 8 digits. |
| Registration.StepValid | frontend/src/RegisterPageNew.jsx:61-110 | Step 1 is valid iff name and email are non-blank, the email has '@', there is no email error, the password has 6 or more units and equals the confirmation. Step 2 needs a non-blank address and city, step 3 a role, step 4 the accepted terms. Any other step is valid. |
| Registration.LastStepIgnoresEarlierSteps | frontend/src/RegisterPageNew.jsx:101-106 | At step 4 a form without a name is accepted, because only the current step is checked. |
| Registration.OrEmpty | frontend/src/RegisterPageNew.jsx:124-126 | `x \|\| ''`: the value when present, else the empty string. |
| Registration.WithAddress | frontend/src/RegisterPageNew.jsx:121-127 | The address becomes the street plus ", " or empty, and city, state and neighbourhood become the answer's or empty. Nothing else in the form changes. |
| Registration.FoundAddressPassesStepTwo | frontend/src/RegisterPageNew.jsx:85-94 | An answer with a street and a non-blank city makes step 2 valid. |
| Registration.TakenEmailBlocksStepOne | frontend/src/RegisterPageNew.jsx:72-75 | Once the email is reported as taken, step 1 is invalid. |
| Registration.RegisterWizard.constructor | frontend/src/RegisterPageNew.jsx:12-36 | The wizard starts at step 1 with an empty form and no email error. |
| Registration.RegisterWizard.ValidateCurrentStep | frontend/src/RegisterPageNew.jsx:61-110 | The rule of the current step on the current form. Step 1 fails while an email error is shown, step 2 needs address and city, and step 4 needs the accepted terms. |
| Registration.RegisterWizard.NextStep | frontend/src/RegisterPageNew.jsx:49-54 | Advances by one, never past step 4, and only when the current step is valid; otherwise the step is unchanged. The step stays in 1..4. |
| Registration.RegisterWizard.PrevStep | frontend/src/RegisterPageNew.jsx:56-59 | Goes back by one, never before step 1; the step stays in 1..4. |
| Registration.RegisterWizard.FetchAddressByCep | frontend/src/RegisterPageNew.jsx:112-142 | Looks up only an 8-digit cleaned code and fills the address fields only on an answer without `erro`. Otherwise the form is unchanged. |
| Registration.RegisterWizard.ValidateSchool | frontend/src/RegisterPageNew.jsx:144-162 | Looks up only an 8-digit cleaned code and records the school name only on a valid answer. |
| Registration.RegisterWizard.CheckEmailExists | frontend/src/RegisterPageNew.jsx:164-179 | Without '@' nothing changes. Otherwise the error is cleared, and set to the taken message exactly when the backend reports the email as taken. |
| Registration.RegisterWizard.HandleSubmit | frontend/src/RegisterPageNew.jsx:181-182 | Submits exactly when the current step, and no other, is valid. |
| TeacherStudents.SelectStudents | src/TeacherStudents.jsx:19-22 | With no truthy teacher id anywhere, a user is listed iff its role is 'student'. Otherwise a user is listed iff its teacher id equals the current user's id, regardless of role. Everything listed is a stored user. |
| TeacherStudents.SelectionIsSubsequence | src/TeacherStudents.jsx:19-21 | The result is a subsequence of the user list. |
| TeacherStudents.NoMatchingTeacherListsNobody | src/TeacherStudents.jsx:20-22 | With teacher ids in use and none matching, nobody is listed, even when students exist. |
| TeacherStudents.NobodySignedInListsUnassigned | src/TeacherStudents.jsx:21 | With nobody signed in and teacher ids in use, exactly the users without a teacher id are listed. |
| TeacherStudents.EmptyTeacherIdsSelectByRole | src/TeacherStudents.jsx:19-20 | Teacher ids that are all empty strings do not switch the rule: selection stays by role. |
| ProgressBar.Classify | src/components/ProgressBar.jsx:17-18 | A step is completed iff its index is below the current step and inactive otherwise. The active class is unreachable. |
| ProgressBar.StepCount | src/components/ProgressBar.jsx:13 | The number of steps is `totalSteps`, or 0 when negative. |
| ProgressBar.Steps | src/components/ProgressBar.jsx:13-28 | Exactly `totalSteps` steps numbered 1..`totalSteps`. The circle is completed iff its index is below the current step and is never active, the text style equals the circle style, and the title is the matching title. |
| ProgressBar.CompletedCount | src/components/ProgressBar.jsx:13-18 | The number of completed steps is the current step clamped to 0..`totalSteps`. |

## Left out

- Storage I/O: AsyncStorage reads and writes and JSON parsing and serialising are left out. Their catch-and-default paths are left out too. Storage is held in the class fields.
- `getUsers`, `getActivities`, `getPoints`, `getBadges`, `getStreak` and `loadOfflineQueue` are not modelled as separate operations. They only read storage, and are the fields themselves. The `GamificationService` constructor starts from empty storage, which gives the defaults of `getPoints`, `getBadges` and `getStreak`. The `DataService` and `OfflineService` constructors take the stored values as arguments: the users, activities and session, and the queue and cache.
- Catch paths are left out, except where they change the outcome: the backend 500s, via `fault`. `addPoints` answering `{points: 0, levelUp: false}` after a storage failure and the similar defaults of `updateStreak` and `unlockBadge` are not modelled.
- Clock values: `Date.now()`, `new Date().toISOString()` and `toDateString()` are parameters. `createdAt` is the clock reading as a number rather than an ISO string, and the newest-first order compares those numbers.
- SaveData: one clock reading `now` serves both the cache entry and the queued operation. The source reads the clock twice.
- The backend id generator is a counter. The frontend ids are the decimal text of `now`, so two users created at the same instant would share an id, as in the source.
- LocalData.DataService.Register and LocalData.DataService.CreateActivity do not model a user- or activity-supplied `id` or `createdAt` overriding the generated one through the spread. The input records have no such fields.
- LocalData.Merge does not model a patch that carries `createdAt` or fields beyond the modelled ones.
- LocalData.LowerChar lowers only A-Z and the Latin-1 capitals. `toLowerCase` on other scripts is not modelled.
- LocalData.SortNewestFirst does not prove stability: the order of activities with equal `createdAt` is not stated.
- Atividades.AtividadeService.UpdateAtividade does not model a repository exception during the update or the read-back, nor the ORM refusing an update with no fields.
- Atividades: the `Atividade` and `Aluno` entity files are not part of this model. The `aluno` property is taken to be the loaded students relation, a list of student ids.
  - This reading conflicts with the queries themselves. `getAtividades`, `getAtividade` and `assignAluno` load a relation named `alunos` (atividade.service.ts lines 36, 58 and 106), and the web client reads `a.alunos`.
  - If `aluno` is the relation, those three queries name a relation that does not exist and the ORM rejects them; none of that rejection is modelled.
  - If `alunos` is the relation, `getAtividades` always overwrites it with `[]`, and the push onto `aluno` in `assignAluno` is never saved.
  - The model follows the first reading with the queries succeeding: `aluno` holds the students, `alunos` is derived from it, and the save keeps the push.
- Atividades.ApplyUpdate assumes every supplied field, `professorId` included, is an updatable property of the entity. `repository.update` rejects unknown properties, and that rejection is not modelled.
- Offline.Stamp reads the clock once, so a queued operation's id is the decimal text of its timestamp. The source calls `Date.now()` twice, and the two readings can differ.
- The list operation takes no scoping parameters, and there is no remove-student operation. Neither is modelled beyond what the code does.
- Network and native wrappers are not modelled: NetInfo, `fetch`, `axios` and the educational services. Their answers are parameters.
  - `getData` and `getNetworkStatus` are left out. They only combine the simulated API fetch with the modelled cache lookup.
  - `fetchFromAPI` and `syncToAPI` simulate latency.
- Offline.OfflineService.HandleNetworkChange does not fire listener callbacks, and the listeners' own effects are not modelled.
- Offline: data payloads are their JSON text. For a key that does not name an inherited object property, the stored entry is a truthy object, so `cachedData[key] || null` is then a presence test.
- Offline.Lookup does not model keys that name properties inherited from `Object.prototype` ("constructor", "toString", "__proto__"). The source returns the inherited value for such a key, for example the `Object` function for "constructor" on an empty cache, where the model returns `null`.
- Offline.LookupAfterStore does not hold for "__proto__" in the source. Assigning that key sets the cache object's prototype, which `JSON.stringify` does not save, so a later read returns `Object.prototype` and not the stored entry. Such keys are not modelled.
- Offline.OfflineService.GetCachedData has the same gap as `Offline.Lookup` on the current cache: keys naming inherited object properties are not modelled.
- Offline.OfflineService.CacheData stores every key as an own entry. In the source the key "__proto__" sets the prototype and stores nothing. Keys naming inherited object properties are not modelled.
- Floating point is left out: the `percentage` of `getProgressToNextLevel` and the progress-bar width.
- Gamification.PointsFor does not model activity types that name inherited object properties (such as "constructor"). The source would look those up on the object prototype.
- Registration: the render functions of the wizard and the field-edit handlers are not part of this model. Alerts, loading flags and animations are UI side effects and are left out.
- Registration.RegisterWizard.HandleSubmit does not model the registration request itself or the navigation after it.
