# lms-frontend core, modelled in Dafny

This project models the client-side core of the learning-management web
front end: the notification bell in the page header, the authentication
context that keeps the signed-in user and the stored tokens, the form
validation schemas, the role-dependent sidebar, the lesson and task lists of
a course (sorting, the add/edit/expand/delete state, the rows they render)
and the star-rating widget.

Component state that the source keeps with React state hooks becomes a class
whose fields the methods update (`NotificationBell.Bell`,
`AuthContext.AuthProvider`, `LessonList.LessonListState`,
`TaskList.TaskListState`). What a component renders is a function of that
state (`View`). Server answers, confirmation dialogs and the clock are
parameters: a request that succeeds or fails is a `bool` or an `Option`
argument. A `rejected` result says that the handler's promise rejects, so
the error reaches its caller. A `changed` result says that the list called
its `onLessonsChange` or `onTasksChange` callback. The
schemas, the sidebar filter, the sort and the star widget are pure and are
functions with lemmas.

Files:

- `wrappers.dfy`: `Option` and `Result`.
- `seq_lemmas.dfy`: associativity of concatenation, used as a proof hint.
- `decimal.dfy`: decimal rendering of numbers, as template literals print them, with its parser.
- `notification_bell.dfy`: the bell.
- `auth_context.dfy`: the authentication provider.
- `validations.dfy`: the schemas.
- `sidebar.dfy`: the sidebar.
- `stable_sort.dfy`: the stable sort by a numeric key behind both lists.
- `lesson_list.dfy`: the lesson list.
- `task_list.dfy`: the task list.
- `star_rating.dfy`: the star widget.

## Model

| member | source | states |
|---|---|---|
| Decimal.NatToString | src/components/layout/NotificationBell.tsx:116 | a count renders as at least one digit, with no leading zero, and is one character exactly when it is below 10 |
| Decimal.ParseNatToString | src/components/layout/NotificationBell.tsx:116 | reading a rendered count back gives the count |
| Decimal.NatToStringInjective | src/components/ui/StarRating.tsx:41 | distinct numbers render differently |
| Decimal.ParseIntToString | src/components/tasks/TaskList.tsx:195-197 | reading an integer's text back, minus sign included, gives the integer |
| Decimal.IntToStringInjective | src/components/tasks/TaskList.tsx:195-197 | distinct integer ids render differently, including negative ones |
| NotificationBell.MarkReadChangesOnlyThatEntry | src/components/layout/NotificationBell.tsx:64-66 | marking one notification read keeps length and order, sets `read` exactly on entries with that id, and leaves every other field and entry as it was |
| NotificationBell.MarkReadIdempotent | src/components/layout/NotificationBell.tsx:64-66 | marking the same id twice gives the same list as marking it once |
| NotificationBell.MarkAllReadFlagsEveryEntry | src/components/layout/NotificationBell.tsx:74-78 | "mark all read" keeps length and order, flags every entry read and changes no other field |
| NotificationBell.Bell.constructor | src/components/layout/NotificationBell.tsx:14-16 | the bell starts closed, with no notifications and a zero count |
| NotificationBell.Bell.FetchUnreadCount | src/components/layout/NotificationBell.tsx:20-27 | a successful poll sets the count; a failed one leaves all state unchanged |
| NotificationBell.Bell.Toggle | src/components/layout/NotificationBell.tsx:48-58 | the dropdown flips; the list is replaced by the fetched one only when opening and the fetch succeeded; the count is kept |
| NotificationBell.Bell.ClickOutside | src/components/layout/NotificationBell.tsx:36-43 | a click outside closes the dropdown and changes nothing else |
| NotificationBell.Bell.Read | src/components/layout/NotificationBell.tsx:60-72 | an unread notification is marked on the server; when that fails the promise rejects and nothing changes; otherwise the entry is flagged read and the count drops by one but not below zero; the dropdown closes and the link is followed exactly when it is non-empty |
| NotificationBell.Bell.MarkAllAsRead | src/components/layout/NotificationBell.tsx:74-78 | on success every entry is read and the count is zero; on failure the promise rejects and nothing changes |
| NotificationBell.BadgeLabel | src/components/layout/NotificationBell.tsx:114-117 | a badge shows exactly when the count is positive; it reads "9+" above nine and otherwise the single digit of the count, which parses back to the count |
| NotificationBell.View | src/components/layout/NotificationBell.tsx:121-164 | the dropdown shows exactly when open; the "mark all" button shows exactly when the count is positive; the empty message shows exactly when the list is empty; at most the first 20 notifications are listed, in order, each marked unread as it is |
| NotificationBell.Bucket | src/components/layout/NotificationBell.tsx:80-91 | an elapsed time is "just now" exactly below one minute; otherwise the minutes, hours or days shown are the elapsed time rounded down in that unit, with minutes below 60 and hours below 24 |
| NotificationBell.FormatTimeReadsBack | src/components/layout/NotificationBell.tsx:80-91 | every relative-time text reads back as the bucket it was made from, so different buckets never share a text |
| AuthContext.WithoutTokens | src/context/AuthContext.tsx:38-39 | both token keys are gone, every other stored key is kept with its value, and no key is added |
| AuthContext.WithTokens | src/context/AuthContext.tsx:52-53 | both tokens are stored under their keys and every other stored key is kept with its value |
| AuthContext.AuthProvider.constructor | src/context/AuthContext.tsx:25-26 | the provider starts with no user and loading |
| AuthContext.AuthProvider.RestoreSession | src/context/AuthContext.tsx:28-44 | the session request is made exactly when an access token is stored; a successful request sets the user, a failed one clears both tokens and the user; loading ends in every case |
| AuthContext.AuthProvider.Authenticate | src/context/AuthContext.tsx:50-62 | a successful answer stores both tokens and sets the user; a failure rejects and changes nothing |
| AuthContext.AuthProvider.Login | src/context/AuthContext.tsx:50-55 | the form's credentials are posted unchanged to the login endpoint; success stores the tokens and the user, failure rejects and changes nothing |
| AuthContext.AuthProvider.Register | src/context/AuthContext.tsx:57-62 | the form's data is posted unchanged to the register endpoint; success stores the tokens and the user, failure rejects and changes nothing |
| AuthContext.AuthProvider.Logout | src/context/AuthContext.tsx:64-72 | whether or not the server answers, the tokens and the user are cleared; a server failure still rejects |
| AuthContext.UseAuth | src/context/AuthContext.tsx:81-86 | the hook fails with the fixed message exactly outside a provider and otherwise returns the provider's value |
| AuthContext.LogoutWithServerDown | src/context/AuthContext.tsx:64-72 | after restoring a session, logging in and logging out with the server down, no user and no access token remain and the logout rejected |
| Validations.Utf16Length | src/lib/validations.ts:6 | a string's length in UTF-16 code units lies between its character count and twice that |
| Validations.Utf16LengthInBmp | src/lib/validations.ts:24 | for text inside the Basic Multilingual Plane the length is the character count |
| Validations.AstralCharacterCountsTwice | src/lib/validations.ts:24 | a character outside the Basic Multilingual Plane counts two towards a length limit |
| Validations.FirstLine | src/lib/validations.ts:26 | the first line is the longest prefix without a line terminator, and is followed by one when it is not the whole string |
| Validations.LookaheadFindsInFirstLine | src/lib/validations.ts:26 | a `^(?=.*[C])` lookahead succeeds exactly when a character of class C occurs in the first line |
| Validations.LetterAndDigitInFirstLine | src/lib/validations.ts:25-28 | the password pattern holds exactly when the first line has an ASCII letter and an ASCII digit |
| Validations.PatternAcceptsLetterAndDigit | src/lib/validations.ts:25-28 | "password1" matches the pattern |
| Validations.PatternNeedsDigit | src/lib/validations.ts:25-28 | "password" does not match |
| Validations.PatternNeedsLetter | src/lib/validations.ts:25-28 | "12345678" does not match |
| Validations.PatternStopsAtLineBreak | src/lib/validations.ts:25-28 | a letter before a line break and a digit after it do not satisfy the pattern |
| Validations.StringIssues | src/lib/validations.ts:4-10 | a string field yields at most one issue per check, all on the field's path; none exactly when every check passes; the first check's message first when it fails |
| Validations.StringIssuesPerFailingCheck | src/lib/validations.ts:4-10 | every check runs: each failing check reports exactly one issue with its own message and a passing check none, in the order the checks are declared |
| Validations.FirstMessage | src/components/lessons/LessonForm.tsx:41 | the message a field displays is absent exactly when no issue is on its path, and otherwise is an issue on that path |
| Validations.StringIssuesFirstMessage | src/lib/validations.ts:22-28 | a field displays the message of its first failing check, in the schema's order |
| Validations.OtherFieldUnaffected | src/lib/validations.ts:13-35 | the checks of one field never change what another field displays |
| Validations.MismatchIssues | src/lib/validations.ts:32-35 | the refinement adds exactly one issue, on the confirmation field, exactly when the passwords differ |
| Validations.RoleIssues | src/lib/validations.ts:99-101 | the role enum gives exactly one issue, with the fixed message, exactly when the role is not one of the three names |
| Validations.RoleNamesAreTheRoles | src/lib/validations.ts:99 | the names the enum accepts are exactly the names of the user roles |
| Validations.LoginValidIff | src/lib/validations.ts:3-11 | the login schema accepts exactly a non-empty valid e-mail with a non-empty password |
| Validations.RegisterValidIff | src/lib/validations.ts:13-35 | the register schema accepts exactly a 1–100 unit name, a valid e-mail, a password of at least 8 units matching the pattern, and a non-empty equal confirmation |
| Validations.ForgotPasswordValidIff | src/lib/validations.ts:37-42 | the forgot-password schema accepts exactly a non-empty valid e-mail |
| Validations.ResetPasswordValidIff | src/lib/validations.ts:44-58 | the reset schema accepts exactly a strong new password with a non-empty equal confirmation |
| Validations.CourseValidIff | src/lib/validations.ts:60-69 | the course schema accepts exactly a 1–200 unit title and a 1–2000 unit description |
| Validations.LessonValidIff | src/lib/validations.ts:71-81 | the lesson schema accepts exactly a 1–200 unit title and a 1–500 unit content path |
| Validations.AdminCreateUserValidIff | src/lib/validations.ts:87-102 | the admin-create schema accepts exactly a valid e-mail, a password of at least 8 units, a 1–100 unit name and one of the three roles |
| Validations.AdminUpdateUserValidIff | src/lib/validations.ts:104-112 | the admin-update schema accepts exactly a 1–100 unit name and one of the three roles |
| Validations.SubmissionValidIff | src/lib/validations.ts:114-120 | the submission schema accepts exactly a non-empty valid URL of at most 500 units |
| Validations.FeedbackValidIff | src/lib/validations.ts:122-127 | the feedback schema accepts exactly a 1–5000 unit comment |
| Validations.RegisterConfirmMessage | src/lib/validations.ts:29-35 | with differing passwords the confirmation field shows "required" when empty and the mismatch message otherwise |
| Validations.ResetConfirmMessage | src/lib/validations.ts:52-58 | the same for the reset form |
| Validations.AdminPasswordNeedsOnlyLength | src/lib/validations.ts:92-94 | the admin password check accepts "password", which the strength pattern of the register form rejects |
| Validations.EmptyLessonFormMessages | src/__tests__/components/lessons/LessonForm.test.tsx:39-48 | an empty lesson form is refused, showing "title required" and "content path required" |
| Validations.LessonFormAccepted | src/__tests__/components/lessons/LessonForm.test.tsx:57-73 | the form filled as in the test is accepted |
| Sidebar.VisibleItems | src/components/layout/Sidebar.tsx:34-39 | every entry shown comes from the list and is visible to the role |
| Sidebar.SidebarItems | src/components/layout/Sidebar.tsx:26-39 | outside a provider the sidebar fails with the hook's message; inside, it lists the general pages, then the admin pages for an admin, then the submissions page for an admin or instructor, and only the general pages when nobody is signed in |
| Sidebar.SidebarThroughSession | src/components/layout/Sidebar.tsx:26-39 | reading the provider's value: after the check on mount an admin sees all eight pages and an unrestored session the general pages; after a login an admin sees all eight pages, an instructor the general pages and Submissions, a learner the general pages only; after a logout, whatever the server answered, only the general pages show |
| Sidebar.VisibleFrom | src/components/layout/Sidebar.tsx:34-39 | the indices picked from a position on are increasing, visible, and include every visible index |
| Sidebar.VisibleItemsKeepOrder | src/components/layout/Sidebar.tsx:34-39 | the filter keeps exactly the visible items, in their original order |
| Sidebar.VisibleNavItems | src/components/layout/Sidebar.tsx:14-39 | the menu is the four general entries, then the three admin pages for an admin, then the submissions page for an admin or instructor |
| Sidebar.VisibleItemsPerRole | src/components/layout/Sidebar.tsx:14-39 | a signed-out user and a learner see the four general entries, an instructor also sees submissions, an admin sees all eight |
| Sidebar.IsActiveIffSegmentPrefix | src/components/layout/Sidebar.tsx:41-42 | an entry is highlighted exactly when the path equals its href or continues it after a slash |
| Sidebar.IsActiveExamples | src/components/layout/Sidebar.tsx:41-42 | "/courses/3" highlights "/courses"; "/coursesX" and "/course" do not |
| StableSort.SortBy | src/components/lessons/LessonList.tsx:80 | the sort returns a permutation of its input, ordered by the key |
| StableSort.SortByCorrect | src/components/lessons/LessonList.tsx:80 | the sort is a permutation, ordered by the key, and stable: entries with equal keys keep their input order |
| StableSort.SortedAndStableIsUnique | src/components/lessons/LessonList.tsx:80 | any ordered and stable rearrangement is the sorted one |
| StableSort.PermutationKeepsDistinctKeys | src/components/lessons/LessonList.tsx:120 | rearranging a list with distinct ids keeps the ids distinct |
| LessonList.SortedLessons | src/components/lessons/LessonList.tsx:80 | lessons are shown as a permutation of the input, by ascending sort order, ties in input order |
| LessonList.SortedLessonsUnique | src/components/lessons/LessonList.tsx:80 | this order is the only one with those properties |
| LessonList.RowFor | src/components/lessons/LessonList.tsx:116-206 | a lesson renders as its edit form exactly when it is the one being edited; otherwise it is expanded exactly when it is the expanded lesson, shows the edit and delete buttons exactly when expanded for an admin, and its delete button shows the busy state exactly while that lesson is being deleted |
| LessonList.Rows | src/components/lessons/LessonList.tsx:116-206 | one row per lesson, in order, each as described for a single row |
| LessonList.LessonListState.constructor | src/components/lessons/LessonList.tsx:28-32 | the list starts with no form open, nothing edited, expanded or being deleted, and no error |
| LessonList.LessonListState.OpenAddForm | src/components/lessons/LessonList.tsx:86-96 | opening the add form closes any edit form |
| LessonList.LessonListState.CancelAddForm | src/components/lessons/LessonList.tsx:110 | cancelling closes the add form and changes nothing else |
| LessonList.LessonListState.StartEditing | src/components/lessons/LessonList.tsx:180-183 | editing a lesson closes the add form |
| LessonList.LessonListState.CancelEditing | src/components/lessons/LessonList.tsx:130 | cancelling closes the edit form and changes nothing else |
| LessonList.LessonListState.ToggleExpanded | src/components/lessons/LessonList.tsx:138-142 | clicking the expanded lesson collapses it; clicking another expands that one alone |
| LessonList.LessonListState.CreateLesson | src/components/lessons/LessonList.tsx:34-48 | the request carries the form fields and sort order `count + 1`; success closes the form, clears the error and reports a change; failure keeps the form and sets the create error |
| LessonList.LessonListState.UpdateLesson | src/components/lessons/LessonList.tsx:50-64 | without a lesson being edited nothing happens; otherwise success closes the edit form and reports a change, failure keeps it and sets the update error |
| LessonList.LessonListState.BeginDelete | src/components/lessons/LessonList.tsx:66-70 | a declined confirmation changes nothing; an accepted one clears the error and marks the lesson as being deleted |
| LessonList.LessonListState.FinishDelete | src/components/lessons/LessonList.tsx:70-77 | the delete mark is cleared; success reports a change, failure sets the delete error |
| LessonList.LessonListState.DeleteLesson | src/components/lessons/LessonList.tsx:66-78 | the whole delete: the lesson is marked while the request runs and unmarked after it; the error and change report follow the outcome |
| LessonList.LessonListState.View | src/components/lessons/LessonList.tsx:80-211 | the add button shows exactly for an admin while the add form is closed; the error banner exactly when there is an error; the empty message exactly when there are no lessons; one row per lesson in sorted order |
| LessonList.SingleExpandedRow | src/components/lessons/LessonList.tsx:116-142 | with distinct lesson ids, at most one row is expanded and at most one is an edit form |
| TaskList.SortedTasks | src/components/tasks/TaskList.tsx:78 | tasks are shown as a permutation of the input, by ascending sort order, ties in input order |
| TaskList.SortedTasksUnique | src/components/tasks/TaskList.tsx:78 | this order is the only one with those properties |
| TaskList.SortedTasksReversesTwo | src/__tests__/components/tasks/TaskList.test.tsx:144-161 | two tasks given in descending sort order are shown in ascending order |
| TaskList.SentDescription | src/components/tasks/TaskList.tsx:39 | the description is sent exactly when it is non-empty, unchanged |
| TaskList.SubmissionPathReadsBack | src/components/tasks/TaskList.tsx:195-197 | the submit link is "/courses/", the course id, "/tasks/" and the task id: reading that shape back gives exactly the two ids |
| TaskList.SubmissionPathInjective | src/components/tasks/TaskList.tsx:195-197 | different course and task ids never give the same submit link |
| TaskList.RowFor | src/components/tasks/TaskList.tsx:114-206 | a task renders as its edit form exactly when it is the one being edited; otherwise it is expanded exactly when it is the expanded task, and when expanded shows its description exactly when that is non-empty, the edit and delete buttons exactly for an admin and, exactly for an enrolled user, a submit button leading to the submission page of this course and task; its delete button shows the busy state exactly while that task is being deleted |
| TaskList.Rows | src/components/tasks/TaskList.tsx:114-206 | one row per task, in order, each as described for a single row |
| TaskList.TaskListState.constructor | src/components/tasks/TaskList.tsx:28-32 | the list starts with no form open, nothing edited, expanded or being deleted, and no error |
| TaskList.TaskListState.OpenAddForm | src/components/tasks/TaskList.tsx:84-90 | opening the add form closes any edit form |
| TaskList.TaskListState.CancelAddForm | src/components/tasks/TaskList.tsx:108 | cancelling closes the add form and changes nothing else |
| TaskList.TaskListState.StartEditing | src/components/tasks/TaskList.tsx:171-174 | editing a task closes the add form |
| TaskList.TaskListState.CancelEditing | src/components/tasks/TaskList.tsx:127 | cancelling closes the edit form and changes nothing else |
| TaskList.TaskListState.ToggleExpanded | src/components/tasks/TaskList.tsx:135-139 | clicking the expanded task collapses it; clicking another expands that one alone |
| TaskList.TaskListState.CreateTask | src/components/tasks/TaskList.tsx:34-47 | the request carries the title, the description only when non-empty, and sort order `count + 1`; success closes the form and reports a change, failure keeps it and sets the create error |
| TaskList.TaskListState.UpdateTask | src/components/tasks/TaskList.tsx:49-62 | without a task being edited nothing happens; otherwise success closes the edit form and reports a change, failure keeps it and sets the update error |
| TaskList.TaskListState.BeginDelete | src/components/tasks/TaskList.tsx:64-68 | a declined confirmation changes nothing; an accepted one clears the error and marks the task as being deleted |
| TaskList.TaskListState.FinishDelete | src/components/tasks/TaskList.tsx:68-75 | the delete mark is cleared; success reports a change, failure sets the delete error |
| TaskList.TaskListState.DeleteTask | src/components/tasks/TaskList.tsx:64-76 | the whole delete, as for lessons |
| TaskList.TaskListState.View | src/components/tasks/TaskList.tsx:78-217 | the add button shows exactly for an admin while the add form is closed; the error banner exactly when there is an error; the empty message exactly when there are no tasks and no add form; one row per task in sorted order, an expanded one offering an enrolled user the submission page of this course and task |
| TaskList.SingleExpandedRow | src/components/tasks/TaskList.tsx:114-139 | with distinct task ids, at most one row is expanded and at most one is an edit form |
| StarRating.StarCount | src/components/ui/StarRating.tsx:13-26 | five stars by default, otherwise the maximum given, none for a negative maximum |
| StarRating.StarsUpTo | src/components/ui/StarRating.tsx:26-41 | n stars, the i-th with value i + 1 |
| StarRating.Stars | src/components/ui/StarRating.tsx:26-41 | one button per star; star i has value i + 1, is filled exactly when its value is at most the rating, is disabled exactly when the widget is read-only, and is labelled with its value |
| StarRating.FilledStarsFormPrefix | src/components/ui/StarRating.tsx:28 | filled stars come before empty ones |
| StarRating.FilledCount | src/components/ui/StarRating.tsx:28 | the number of filled stars is the rating rounded down, kept between zero and the star count |
| StarRating.Click | src/components/ui/StarRating.tsx:33-35 | a click reports the star's value exactly when the widget is interactive and has a handler |
| StarRating.LabelsDistinct | src/components/ui/StarRating.tsx:41 | no two stars share an accessible label |
| StarRating.DefaultWidgetExample | src/__tests__/components/ui/StarRating.test.tsx:7-30 | rating 3 with the defaults gives five disabled stars, the first three filled; an interactive star labelled "4星" reports 4 |

## Left out

- HTTP calls (the notification, auth, course and task API modules) are not part of this model; each call's outcome is a parameter, and the request a list sends is a result.
- The 30-second polling timer, the document click listener and its clean-up are left out; a poll is one `FetchUnreadCount` call and a click outside is one `ClickOutside` call.
- Local storage is a map from keys to strings held by the provider; its persistence across page loads is not modelled.
- The router push after reading a notification and the `onChange`, `onLessonsChange` and `onTasksChange` callbacks are results (`navigateTo`, `reported`, `changed`), not calls.
- The e-mail and URL formats belong to the validation library; they are the `Formats` parameter, not a definition.
- The task form schema is imported by the task list but not defined in the schema file; task form data is taken as given.
- Type errors of the schemas (a number where a string is expected) are left out, since the model's form fields are typed; an optional `published` flag is `Option<bool>`.
- NotificationBell.FormatTime: takes the elapsed milliseconds as an integer; parsing `createdAt` and reading the clock are left out, and so is the "NaN" text an unparsable date would give.
- StarRating.StarCount: a fractional or very large `maxRating` and a NaN rating are left out; `Array.from` throws for a length of 2^32 or more.
- Sizes, colours, icons and the theme are presentation and are left out.
- The wiring of the form library (which fields are registered, when validation runs) is left out; a form displays the first issue on each path, as `Validations.FirstMessage` says.
- The signed-in user's role is declared with two roles (LEARNER and ADMIN) in the shared auth types, while the admin types and the sidebar use three; the model widens the user's role to the three so that the instructor-only submissions link can be modelled. Role strings outside those three are not modelled.
- The task list tests pass `description: null` although the task type says `string`; the model uses a string, and an empty one behaves like null since both are falsy where the description is shown.
- Focus handling, keyboard events and loading spinners are left out.
- The course id that the lesson and task lists pass as the first argument of their create, update and delete calls is left out of the modelled requests; it is the list's fixed `courseId` prop, so a modelled request holds the body sent and, for an update or a delete, the item's id.
