# securitybot in Dafny

A Dafny model of the alert-escalation engine of securitybot, a chat bot that
asks users to confirm security alerts raised about them. It checks their
answers with Duo Push and escalates the alerts it cannot confirm. The model
also covers the query builders of the web API and the command-line explorer.
One module stands for each source file:

- `StateMachine` (securitybot/state_machine.py): the eager state machine.
  Its constructor checks the tables. Its step runs the current state's
  `during` hook and fires at most one transition, the first in declaration
  order whose condition holds. Hooks are recorded as values, not called.
- `User` (securitybot/user.py): one chat user. It has the queue of alerts
  addressed to it, the five-state verification machine and the hooks of
  every state. Everything a user does to the outside world is recorded as
  an `Effect`: chat messages, alerts, reports, Duo pushes, task-status
  writes and leaving the active users. What a step reads arrives as an
  `Env`: the clock, the Duo status, `can_auth` and the reporting channel.
- `Bot` (securitybot/bot.py): input cleaning and command parsing, user
  validation and lookup, the routing of new alerts in `_add_task`, command
  handling with its success and failure replies, and the walk over the
  active users.
- `Commands` (securitybot/commands.py): the command functions `hi`, `help`,
  the blacklist toggles, the answers, `ignore` (duration parsing and the
  four-hour cap) and `test`.
- `Auth` (securitybot/auth/auth.py, securitybot/auth/duo.py): the four
  authorization states and the Duo implementation that moves between them.
  The Duo client's answers and the clock are inputs.
- `Util` (securitybot/util.py): `enum`, `tuple_builder`, business hours and
  the escalation deadline. Time is a whole number of seconds.
- `Blacklist` (securitybot/blacklist/sql_blacklist.py): the in-memory set of
  blacklisted names.
- `Tasker` (securitybot/tasker, securitybot/ignored_alerts.py): tasks as
  values, the status writes made for them, and the table of ignored titles
  with its expiry.
- `SqlText`, `Api`, `QueryDb` (frontend/securitybot_api.py,
  scripts/query_db.py): the `%s` placeholders, the WHERE/AND chaining,
  default arguments, the ordering whitelist, `-Nh` time parsing, column
  dropping and the text table.
- `Strings`, `Wrappers`: the string helpers (whitespace split, join, ASCII
  lower case, digits, the string order of `sorted`) and `Option`/`Result`.

The outside world is never called:
- The chat service, the task database and Duo are represented by what is
  sent or written to them, and by what they answer, passed in as parameters.
- The database of the query builders is a function from a statement to its
  rows.
- Python exceptions are the `Err` case of a `Result`, carrying the
  exception's name.

Where the design description and the code differ, the model follows the
code:
- The task statuses are OPEN, INPROGRESS and VERIFICATION. There is no
  Complete status and no `performed=false` marking.
- An alert for an unknown or blacklisted user is not finalized and not
  announced. It is set to VERIFICATION, with the comment 'invalid user' or
  'blacklisted'.
- An alert with an ignored title is dropped from the user's queue by
  `add_task` and set to VERIFICATION with the ignore reason as its comment.
- The user machine has the five states need_task, action_performed_check,
  auth_permission_check, waiting_on_auth and task_finished. It has no
  malformed-answer counter, no retry limit and no cancellation.
- A "no" answer finishes the task without a second factor.
- Chat delivery is not retried.
- The command vocabulary is the loaded command table, not a fixed set of
  commands.

## Model

| member | source | states |
|---|---|---|
| StateMachine.FirstBadTransition | securitybot/state_machine.py:80-87 | no error exactly when every transition names a declared source and a declared dest |
| StateMachine.FirstBadTransitionSkips | securitybot/state_machine.py:80-87 | transitions that pass the checks do not change which error is raised first |
| StateMachine.FirstBadTransitionAt | securitybot/state_machine.py:80-87 | the first transition in declaration order with an undeclared state decides the exception; its source is checked before its dest |
| StateMachine.Outgoing | securitybot/state_machine.py:79-95 | a state's transition list holds only declared transitions that leave that state |
| StateMachine.OutgoingExtend | securitybot/state_machine.py:91-95 | filing one more transition extends only its source's list, at the end |
| StateMachine.OutgoingOfPut | securitybot/state_machine.py:91-95 | appending `ts[i]` under its source turns the lists of the first i transitions into those of the first i+1 |
| StateMachine.OutgoingAppend | securitybot/state_machine.py:80-95 | the lists of a concatenation of declarations are the concatenated lists, order kept |
| StateMachine.OutgoingUniform | securitybot/state_machine.py:80-95 | a block of transitions that all leave one state is filed whole under it and nowhere else |
| StateMachine.FiledPut | securitybot/state_machine.py:82-95 | filing a transition whose source and dest are declared keeps every list well formed |
| StateMachine.FirstEnabled | securitybot/state_machine.py:108-115 | the index found is of an enabled transition with none enabled before it; None only when none is enabled |
| StateMachine.FirstEnabledIs | securitybot/state_machine.py:108-115 | the transition taken is exactly the first enabled one in declaration order |
| StateMachine.UnconditionalFires | securitybot/state_machine.py:200-203 | a transition without a condition is always enabled, so a step never passes it by |
| StateMachine.StepResult | securitybot/state_machine.py:97-115 | the new state is declared and the `during` hook always runs first |
| StateMachine.StepWithoutTransition | securitybot/state_machine.py:103-115 | with no enabled transition the state stays and only `during` runs |
| StateMachine.StepTakesFirstEnabled | securitybot/state_machine.py:106-115 | the first enabled transition is taken and the hooks run as during, action, on_exit of the source, on_enter of the dest |
| StateMachine.Machine.Init | securitybot/state_machine.py:73-76 | the machine starts in the initial state with no hook run |
| StateMachine.Machine.BuildStates | securitybot/state_machine.py:65-71 | one State per name, with the hooks the three dictionaries give it or None |
| StateMachine.Machine.BuildTransitions | securitybot/state_machine.py:78-95 | fails exactly with the first bad transition's error; otherwise every state's list is its outgoing transitions in declaration order |
| StateMachine.Machine.Create | securitybot/state_machine.py:54-95 | raises duplicate names, then an undeclared initial state, then the first bad transition; otherwise starts in `initial` with the declared tables |
| StateMachine.Machine.Step | securitybot/state_machine.py:97-115 | the new state and the hooks run are those of one step from the old state, and the trace grows by exactly those hooks |
| Util.Enum | securitybot/util.py:13-15 | every name is a key, bound to the index of its last occurrence in the list |
| Util.EnumExtend | securitybot/util.py:14 | binding the last name to its index extends the table of the names before it |
| Util.EnumOfDistinct | securitybot/util.py:13-15 | with distinct names the i-th name is bound to exactly i |
| Util.TupleBuilder | securitybot/util.py:17-21 | the answer is kept as given and a missing text becomes the empty string |
| Util.OpeningOnFacts | securitybot/util.py:27-40 | the opening hour of a day falls within business hours exactly when that day is Monday to Friday |
| Util.FirstWeekdayFromIsFirst | securitybot/util.py:66-68 | the march over the weekend stops at the first weekday, at most two days on, skipping only weekend days |
| Util.ExpirationWraps | securitybot/util.py:58-69 | a deadline outside business hours moves to the opening hour of the first weekday after start's day plus the overrun past closing time |
| Util.GetExpirationTime | securitybot/util.py:42-70 | the loop computes the wrapped deadline and steps at most two days |
| Util.SameDayExpiry | tests/util_test.py:50-55 | Monday 10:00 plus four hours is Monday 14:00 |
| Util.NextDayExpiry | tests/util_test.py:57-80 | Monday 17:00 plus two hours is Tuesday 11:00, and Friday 17:00 plus two hours is Monday 11:00 |
| Util.WeekdayReadFromOwnZone | securitybot/util.py:35-40 | the hour is read in the local zone but the weekday in the datetime's own zone, so one instant can count differently by zone |
| Auth.CodeMatchesEnum | securitybot/auth/auth.py:11-15 | each state's stored code is the index `enum` binds to its name |
| Auth.NextStatusCases | securitybot/auth/duo.py:65-79 | polling leaves NONE and DENIED alone; a pending push stays pending while Duo waits, then becomes AUTHORIZED (stamped now) or DENIED (time reset) |
| Auth.AuthorizationLapses | securitybot/auth/duo.py:61-63 | an authorization is kept for strictly less than AUTH_TIME (two hours) after it was granted and lapses to NONE from then on, or at once when no time was recorded |
| Auth.DuoAuth.constructor | securitybot/auth/duo.py:15-27 | a new authorizer is in NONE with no transaction and the minimum time |
| Auth.DuoAuth.CanAuth | securitybot/auth/duo.py:29-40 | true exactly when preauth answers 'auth' and some device lists 'push' |
| Auth.DuoAuth.Auth | securitybot/auth/duo.py:42-59 | one push request is sent for this user, carrying the reason only when it is given and not empty, and the state becomes PENDING on the returned transaction id |
| Auth.DuoAuth.AuthStatus | securitybot/auth/duo.py:65-79 | the new state and time are the transition above, and the state is what is returned |
| Auth.DuoAuth.Reset | securitybot/auth/duo.py:81-84 | back to NONE with no transaction; the authorization time is kept |
| Blacklist.SqlBlacklist.constructor | securitybot/blacklist/sql_blacklist.py:11-19 | the blacklist holds exactly the first column of every row of the table |
| Blacklist.SqlBlacklist.Add | securitybot/blacklist/sql_blacklist.py:31-40 | the name joins the set and nothing else changes |
| Blacklist.SqlBlacklist.Remove | securitybot/blacklist/sql_blacklist.py:42-51 | the name leaves the set and nothing else changes |
| Blacklist.AddThenRemove | securitybot/blacklist/sql_blacklist.py:31-51 | removing a freshly added name restores the set, and adding leaves other names' membership alone |
| Tasker.StatusCodeMatchesEnum | securitybot/tasker/tasker.py:48 | each status code is the index `enum('OPEN', 'INPROGRESS', 'VERIFICATION')` binds to its name |
| Tasker.LastStatusWriteWins | securitybot/tasker/sql_tasker.py:80-108 | the stored status is the one the last status write for that task set, whatever came before |
| Tasker.IgnoreTask | securitybot/ignored_alerts.py:31-49 | the row keyed by (user, title) now holds the reason and the expiry now + ttl; every other row is unchanged |
| Tasker.Prune | securitybot/ignored_alerts.py:9-14 | exactly the rows whose `until` is still in the future survive |
| Tasker.Ignored | securitybot/ignored_alerts.py:16-29 | a title is reported exactly when the user has a live row for it, with that row's reason |
| Tasker.IgnoredAfterPrune | securitybot/ignored_alerts.py:27-29 | pruning first does not change what is reported |
| Tasker.IgnoredUntilExpiry | securitybot/ignored_alerts.py:31-49 | an ignored title is reported with its reason strictly before its ttl runs out and not from then on |
| Strings.Token | securitybot/bot.py:414 | the token is the longest whitespace-free prefix: whitespace or the end follows it |
| Strings.Words | securitybot/bot.py:392-416 | `split()` yields only non-empty words without whitespace, where a unicode text also splits at non-ASCII whitespace and a byte string does not |
| Strings.TokenOf | securitybot/bot.py:414 | a whitespace-free word followed by whitespace or nothing is read whole |
| Strings.WordsOfJoin | securitybot/bot.py:414 | splitting words joined with single spaces gives back the same words |
| Strings.WordsAgree | securitybot/bot.py:392-416 | on text without non-ASCII whitespace the unicode split and the byte-string split give the same words |
| Strings.TokenAgree | securitybot/bot.py:392-416 | on text without non-ASCII whitespace the first word is the same for a unicode text and a byte string |
| Strings.Join | securitybot/commands.py:50 | joining one string gives that string |
| Strings.Lower | securitybot/bot.py:59 | same length, each ASCII capital lowered and every other character kept |
| Strings.LeadingDigits | securitybot/commands.py:56 | the greedy `[0-9]+` prefix: all digits, and no digit follows it |
| Strings.NatDigits | securitybot/commands.py:81-82 | `int()` of the decimal digits of n is n |
| Strings.LeadingDigitsOf | securitybot/commands.py:56 | digits followed by a non-digit are matched exactly |
| Strings.LexLessTotal | securitybot/commands.py:23 | any two different names are ordered one way or the other |
| Strings.LexLessIrreflexive | securitybot/commands.py:23 | no name sorts before itself |
| Strings.LexLessTransitive | securitybot/commands.py:23 | string order is transitive |
| Strings.Least | securitybot/commands.py:23 | a non-empty set of names has a least one, which `sorted` yields first |
| Strings.Sorted | securitybot/commands.py:23 | `sorted` of a set of names lists each of them once, in strictly increasing order |
| Strings.StrictlySortedUnique | securitybot/commands.py:23 | a set of names has exactly one strictly sorted listing |
| Strings.IndentAppend | securitybot/bot.py:328 | quoting the lines of a concatenation quotes each part |
| Strings.IndentSingleLine | securitybot/bot.py:328 | text without a line break gains no prefix inside it |
| Strings.PrefixLinesSingle | securitybot/bot.py:328 | a single line is prefixed once |
| Strings.PrefixLinesSplit | securitybot/user.py:245 | at a line break the two sides are prefixed separately and rejoined with it |
| User.GetName | securitybot/user.py:407-416 | the profile's first name when present and non-empty, otherwise the user name |
| User.KeptDroppedSnoc | securitybot/user.py:338-344 | the kept queue and the escalation writes grow by one task per loop turn |
| User.CleanQueue | securitybot/user.py:337-345 | the loop keeps exactly the tasks whose titles are not ignored, in order, and writes an escalation for each ignored one with its reason as comment |
| User.KeptMembers | securitybot/user.py:331-345 | a task stays queued exactly when it was queued and its title is not ignored |
| User.KeptAll | securitybot/user.py:331-345 | with nothing ignored the queue is kept whole and nothing is written |
| User.KeptAppendClean | securitybot/user.py:287-296 | on a clean queue only the appended task can be dropped |
| User.AddTaskQueues | securitybot/user.py:287-296 | a task whose title is not ignored joins the end of the queue; an ignored one is escalated with the ignore reason and never queued |
| User.ApplyHook | securitybot/user.py:135-148 | no hook moves the machine and every hook only appends to what the user has made happen |
| User.ApplyHooks | securitybot/user.py:160-162 | hooks run in order keep the state and only append effects |
| User.UserStep | securitybot/user.py:160-162 | a step only appends effects |
| User.OutgoingBlocks | securitybot/user.py:63-134 | the transition list splits into the five per-state blocks |
| User.BlocksUniform | securitybot/user.py:63-134 | each block holds only transitions leaving its own state |
| User.ChecksUniform | securitybot/user.py:70-122 | the action-check block and the permission-check block each leave only their own state |
| User.SingletonBlocksUniform | securitybot/user.py:64-69 | the need_task, waiting and finished blocks each leave only their own state |
| User.OutgoingFrom | securitybot/user.py:63-134 | the transitions leaving each state are exactly its block, in declaration order |
| User.OutgoingNeedTask | securitybot/user.py:64-69 | need_task has the single transition on `_has_tasks` |
| User.OutgoingActionCheck | securitybot/user.py:70-102 | action_performed_check tries already-authed, cannot-2FA, performed, not-performed, slow, in that order |
| User.OutgoingPermissionCheck | securitybot/user.py:103-122 | auth_permission_check tries allows, denies, slow, in that order |
| User.OutgoingWaiting | securitybot/user.py:123-128 | waiting_on_auth has the single transition on `_auth_completed` |
| User.OutgoingFinished | securitybot/user.py:129-133 | task_finished has the single unconditional transition back to need_task |
| User.StateNamesDistinct | securitybot/user.py:57-62 | the five state names are pairwise different |
| User.StateNames | securitybot/user.py:57-62 | the state table holds exactly the five declared states |
| User.DeclaredTargets | securitybot/user.py:63-134 | every declared transition ends in a declared state |
| User.OutgoingTargets | securitybot/user.py:63-134 | every transition leaving a state ends in a declared state |
| User.UserMachineChecks | securitybot/user.py:150-151 | the user's machine passes every check of the StateMachine constructor |
| User.User.constructor | securitybot/user.py:30-151 | a new user is in need_task with no task, no answer, no authorization and no deadline, and owns a machine built from the declared tables |
| User.User.Send | securitybot/user.py:369-377 | one message with the key is sent and nothing else changes |
| User.User.ActOnNotPerformed | securitybot/user.py:230-252 | 'escalated' is sent, then, when a reporting channel is set, the report with the comment (or 'No comment provided.') quoted with '> ' |
| User.User.AutoEscalate | securitybot/user.py:219-228 | the escalation note is appended to the comment, the task is written as awaiting verification, the deadline is dropped and 'no_response' is sent |
| User.User.BeginAuth | securitybot/user.py:381-388 | 'sending_push' is sent, then a push for the pending task's description |
| User.User.NextTask | securitybot/user.py:298-307 | the head of the queue becomes pending and is announced, the answer is reset and the deadline is two business hours on |
| User.User.UpdateTaskResponse | securitybot/user.py:257-266 | a yes or no answer and its text are copied into the task; the answer is reset either way |
| User.User.UpdateTaskAuth | securitybot/user.py:268-279 | 'good_auth' and authenticated on success; otherwise 'bad_auth', a Duo reset and not authenticated |
| User.User.UpdateTasks | securitybot/user.py:331-345 | the ignored table is pruned and read, and the queue is cleaned against it |
| User.User.CompleteTask | securitybot/user.py:310-329 | backs off a confirmed title for 21 hours, writes the task as awaiting verification, releases it, cleans the queue, then 'bwtm' or 'bye' and cleanup |
| User.User.RunHook | securitybot/user.py:135-148 | each hook does what its callback does |
| User.User.RunHooks | securitybot/user.py:106-114 | the hooks run in order |
| User.User.Step | securitybot/user.py:160-162 | one step of the user's machine: the state stays valid and the new state is the specified step |
| User.User.Fire | securitybot/user.py:160-162 | the machine's step with the conditions read after the during hook; the remaining hooks complete it |
| User.User.AddTask | securitybot/user.py:287-296 | the task is appended, then the queue is cleaned |
| User.User.PositiveResponse | securitybot/user.py:349-357 | the last answer becomes yes with the text; nothing else changes |
| User.User.NegativeResponse | securitybot/user.py:359-367 | the last answer becomes no with the text; nothing else changes |
| User.User.Record | securitybot/user.py:369-377 | one effect is appended on the user's behalf and nothing else changes |
| User.UserStepMatchesMachine | securitybot/user.py:150-162 | the user's step is the StateMachine step on the user's tables, its hooks run in order after the during hook |
| User.NeedTaskStep | securitybot/user.py:64-69 | from need_task nothing happens without a task; with one, the first task is taken, announced and given a deadline |
| User.ActionCheckConfirmed | securitybot/user.py:70-88 | on a yes the task is finished at once when Duo already authorizes, finished with 'no_2fa' when 2FA is impossible, else permission is asked with '2fa'; the answer is recorded |
| User.ConfirmedAlreadyAuthed | securitybot/user.py:70-75 | a yes from a user already authorized finishes the task |
| User.ConfirmedCannotTwoFa | securitybot/user.py:76-82 | a yes from a user who cannot do 2FA finishes the task with 'no_2fa' |
| User.ConfirmedAsksPermission | securitybot/user.py:83-88 | a yes from a user who can do 2FA moves to asking permission with '2fa' |
| User.ActionCheckDenied | securitybot/user.py:89-95 | a no finishes the task, says 'escalated' and reports to the reporting channel |
| User.ActionCheckSilent | securitybot/user.py:96-102 | without an answer nothing happens until the deadline passes, then the task is escalated silently and finished |
| User.PermissionGranted | securitybot/user.py:103-108 | a yes to 2FA sends 'sending_push' and a push, and waits |
| User.PermissionDenied | securitybot/user.py:109-115 | a no to 2FA finishes the task with 'escalated' |
| User.PermissionSilent | securitybot/user.py:116-122 | without an answer the same deadline escalates and finishes |
| User.WaitingStep | securitybot/user.py:123-128 | Duo's status is read each step; authorized or denied finishes the task with good_auth or bad_auth and a Duo reset; otherwise only the status is stored |
| User.FinishedStep | securitybot/user.py:129-133 | from task_finished the user always returns to need_task, completing the task on the way |
| User.CompleteTaskOutcome | securitybot/user.py:310-345 | the task is written and released; a confirmed title is backed off and no queued copy of it remains; the queue only shrinks; the last effect is cleanup exactly when the queue is empty |
| User.StepKeepsInv | securitybot/user.py:160-162 | every step keeps a pending task present exactly outside need_task |
| Commands.SayHi | securitybot/commands.py:16-18 | the user is sent the 'hi' message formatted with their name, nothing else changes, and the command returns nothing |
| Commands.SortedNames | securitybot/commands.py:23 | the command names, each once, in strictly increasing order |
| Commands.HelpMessage | securitybot/commands.py:20-29 | the header and a blank line, the entry of every listed command in sorted name order, then the footer |
| Commands.SendHelp | securitybot/commands.py:20-30 | the help text above is sent to the user, nothing else changes, and the command returns nothing |
| Commands.ListingAppend | securitybot/commands.py:23-28 | the listing of a concatenation of names is the concatenation of their listings |
| Commands.ListingAt | securitybot/commands.py:23-28 | each command contributes its entry (name, info, quoted usage lines) exactly when it is not hidden or '-a' was given, in place |
| Commands.AddToBlacklistFor | securitybot/commands.py:32-38 | returns True and adds the name exactly when it was absent; otherwise the blacklist is unchanged |
| Commands.RemoveFromBlacklistFor | securitybot/commands.py:40-46 | returns True and removes the name exactly when it was present; otherwise the blacklist is unchanged |
| Commands.Positive | securitybot/commands.py:48-50 | the user's last reply becomes (yes, the arguments joined by single spaces) |
| Commands.Negative | securitybot/commands.py:52-54 | the user's last reply becomes (no, the arguments joined by single spaces) |
| Commands.Group | securitybot/commands.py:56 | an optional group either consumes nothing or a non-empty prefix of the text |
| Commands.PlanIgnore | securitybot/commands.py:60-90 | refuses unless there are two arguments and 'current' with a pending task; 'last' reads the missing `old_tasks`; a duration of more than 999999999 whole days raises OverflowError; a zero duration is refused; a longer one than four hours is capped and noticed |
| Commands.IgnoreTask | securitybot/commands.py:60-93 | returns True exactly when the pending task's title is entered into the ignored table for the chosen time; the user gets the capping or zero-time notice; 'last' and a duration too long for a `timedelta` raise, recording nothing |
| Commands.TestAlert | securitybot/commands.py:95-99 | returns True |
| Commands.GroupOf | securitybot/commands.py:56 | digits followed by the unit letter, in either case, read back as their number and leave the rest |
| Commands.DurationRoundTrip | securitybot/commands.py:76-84 | `<h>h<m>m` reads back as h hours and m minutes |
| Commands.HoursOnly | securitybot/commands.py:76-84 | `<h>h` or `<h>H` reads as h hours and no minutes |
| Commands.MinutesOnly | securitybot/commands.py:76-84 | `<m>m` or `<m>M` reads as no hours and m minutes |
| Commands.NoDigitsNoTime | securitybot/commands.py:76-90 | text not starting with a digit is a zero duration, so `ignore` answers with the no-time notice |
| Commands.IgnoreSilencesTask | securitybot/commands.py:60-93 | after a successful `ignore` the pending task's title is reported ignored with reason 'ignored' until the chosen time runs out, and never past four hours |
| Commands.HoursOverflow | securitybot/commands.py:76-90 | `ignore current <h>h` raises OverflowError exactly from 24 * (999999999 + 1) hours on; below that it returns True exactly when h is not zero |
| Bot.CleanChar | securitybot/bot.py:44-50 | a smart quote or dash is replaced by its plain ASCII spelling, so no smart character is left; any other character stays as it is |
| Bot.CleanInput | securitybot/bot.py:37-52 | no smart quote or dash is left in the cleaned text, and the text never becomes shorter |
| Bot.CleanInputAppend | securitybot/bot.py:37-52 | cleaning works character by character: cleaning a concatenation concatenates the cleaned parts |
| Bot.CleanInputPlain | securitybot/bot.py:37-52 | text without smart characters comes back unchanged |
| Bot.CleanInputIdempotent | securitybot/bot.py:37-52 | cleaning twice gives the same text as cleaning once |
| Bot.StripPunctuation | securitybot/bot.py:54-63 | the result holds none of the characters of PUNCTUATION, and each of its characters comes from the input |
| Bot.CleanCommand | securitybot/bot.py:56-64 | a cleaned command holds no punctuation mark and no upper-case letter |
| Bot.StripAppend | securitybot/bot.py:63 | removing punctuation works character by character over a concatenation |
| Bot.StripNothing | securitybot/bot.py:63 | text without punctuation is not changed |
| Bot.CleanCommandAppend | securitybot/bot.py:56-64 | command cleaning distributes over concatenation |
| Bot.CleanCommandIdempotent | securitybot/bot.py:56-64 | a cleaned command is already clean |
| Bot.TrailingPunctuation | securitybot/bot.py:56-64 | a word followed by a punctuation mark cleans to the same command as the word alone ("hi!" is "hi") |
| Bot.ParseCommand | securitybot/bot.py:397-416 | parsing fails exactly when the cleaned text has no token (IndexError) or its first token holds a non-ASCII character, whose UTF-8 bytes `clean_command`'s `encode` cannot decode as ASCII (UnicodeDecodeError) |
| Bot.ParseCommandOfWords | securitybot/bot.py:397-416 | words joined by single spaces parse into the cleaned first word and the remaining words unchanged, whether shlex agrees or fails over to the plain split; a non-ASCII first word raises UnicodeDecodeError instead |
| Bot.ParseCommandTrailingPunctuation | securitybot/bot.py:397-416 | a single word with a punctuation mark after it parses as that word's command, with no arguments, unless the word is not ASCII, when UnicodeDecodeError is raised |
| Bot.IsCommand | securitybot/bot.py:392-395 | raises IndexError exactly when the unicode text has no word, splitting at ASCII and non-ASCII whitespace; otherwise says yes exactly when the cleaned first word is a command key |
| Bot.CleanCommandAscii | securitybot/bot.py:56-64 | a cleaned command is ASCII exactly when the command was |
| Bot.IsCommandFindsParsedKey | securitybot/bot.py:392-416 | on text without smart characters or non-ASCII whitespace whose shlex split is the whitespace split, a key of the command table that parse_command yields passes is_command; text that passes is_command yields such a key or makes parse_command raise UnicodeDecodeError, and with ASCII command names the two agree exactly |
| Bot.IsCommandCleaned | securitybot/bot.py:392-416 | the check on the text as parse_command splits it (cleaned, ASCII whitespace only) raises IndexError exactly when that text has no word, and rejects a first word that is not ASCII |
| Bot.CleanedIsCommandFindsParsedKey | securitybot/bot.py:392-416 | checked on the text as parse_command splits it, is_command says yes exactly when parse_command yields a key of the command table, whatever the text holds |
| Bot.CleanedAgreesOnPlainText | securitybot/bot.py:392-416 | the corrected check says yes only where is_command as written does, and gives the same answer on text without smart characters or non-ASCII whitespace when the command names are ASCII |
| Bot.SplitAtWideSpace | securitybot/bot.py:395 | the unicode split breaks two words joined by a character such as U+001C or U+00A0 that only unicode treats as whitespace |
| Bot.PlainClean | securitybot/bot.py:37-64 | lower-case letters, U+001C and no-break spaces survive clean_input and clean_command unchanged |
| Bot.PlainOneWord | securitybot/bot.py:414 | lower-case letters, U+001C and no-break spaces form one word of the byte-string split |
| Bot.WideSpacePasses | securitybot/bot.py:392-395 | a command and an argument joined by such a character pass is_command |
| Bot.PlainParses | securitybot/bot.py:397-416 | such text, read by shlex as one token, parses as its own key when it is ASCII and raises UnicodeDecodeError otherwise |
| Bot.SeparatorUnknownKey | securitybot/bot.py:392-416 | as written, a command and an argument joined by U+001C pass is_command, yet parse_command yields the whole text as a key that names no command |
| Bot.NoBreakSpaceDecodeError | securitybot/bot.py:392-416 | as written, a command and an argument joined by a no-break space pass is_command, yet parse_command raises UnicodeDecodeError |
| Bot.PlainNameValid | securitybot/bot.py:218-230 | a name without whitespace is valid exactly when a user has that name |
| Bot.TwoWordsInvalid | securitybot/bot.py:223-224 | a name of two words is never valid, whether known or not |
| Bot.WritesAppend | securitybot/bot.py:232-260 | the task writes among a user's effects distribute over concatenation |
| Bot.WritesOfStores | securitybot/bot.py:232-260 | the writes a user stores are read back unchanged and in order |
| Bot.IgnoredTaskLeftInProgress | securitybot/bot.py:232-260 | as written, an alert whose title the user ignored leaves the queue and is escalated, yet the last status stored for it is INPROGRESS |
| Bot.KeptNotIgnored | securitybot/user.py:331-345 | when no queued task has an ignored title, a task with an ignored title is not queued by add_task |
| Bot.MarkThenQueueIgnored | securitybot/bot.py:232-260 | in the corrected order, an alert with an ignored title is not queued and its last stored status is VERIFICATION |
| Bot.MarkThenQueueKept | securitybot/bot.py:232-260 | in the corrected order, an alert whose title is not ignored is queued and its last stored status is INPROGRESS |
| Bot.MarkThenQueueStatus | securitybot/bot.py:232-260 | in the corrected order, the alert is queued exactly when its title is not ignored, and its last stored status is VERIFICATION when ignored and INPROGRESS otherwise |
| Bot.BatchSnoc | securitybot/bot.py:262-271 | the escalations and the users taking tasks of a batch grow one task at a time |
| Bot.TakerIdsExactly | securitybot/bot.py:262-289 | a user becomes active through a batch exactly when some task of the batch names that user, the name is valid and it is not blacklisted |
| Bot.AdmitIn | securitybot/bot.py:232-260 | a task changes the state of no user but the one it names |
| Bot.AdmitInSkips | securitybot/bot.py:236-260 | a task for an invalid or blacklisted name leaves every user, the ignored table and the active ids as they were |
| Bot.AdmitInTakes | securitybot/bot.py:247-255 | a task a user takes gives that user the corrected-order state of its old state with the shared table, greeted when its id was not active; the table becomes the one it leaves, and its id joins the active ids |
| Bot.AdmitAllNext | securitybot/bot.py:262-271 | one more task of the batch is one more `_add_task` on the state the earlier tasks left |
| Bot.AdmitAllUntouched | securitybot/bot.py:262-271 | a user named by no task of the batch keeps its state |
| Bot.AdmitAllActive | securitybot/bot.py:262-271 | the ids active after a batch are those active before and those of the users who took a task |
| Bot.Reply | securitybot/bot.py:211-216 | at most one message is sent: the success message when the command returned something truthy and that message is set, the failure message when it returned something falsy and that message is set |
| Bot.SecurityBot.constructor | securitybot/bot.py:337-349 | one fresh user per team member, filed by id and by name; no user is active, no write is made yet, and the blacklist holds the first column of its rows |
| Bot.SecurityBot.PopulateUsers | securitybot/bot.py:337-349 | every member is filed by its id and its name, a later member replacing an earlier one, each user fresh with its own state machine |
| Bot.SecurityBot.Enrol | securitybot/bot.py:345-348 | one more member is filed by id and by name, with a fresh user |
| Bot.SecurityBot.UserLookup | securitybot/bot.py:351-363 | the lookup succeeds exactly for a known id and returns the user with that id; otherwise it fails with 'User <id> not found' |
| Bot.SecurityBot.UserLookupByName | securitybot/bot.py:365-377 | the lookup succeeds exactly for a known name and returns the user with that name; otherwise it fails with 'User <name> not found' |
| Bot.SecurityBot.AddTask | securitybot/bot.py:232-260 | as written: an invalid user's task is escalated with 'invalid user', a blacklisted user's with 'blacklisted'; otherwise the user becomes active, is greeted if new, and gets the task queued and then set in progress |
| Bot.SecurityBot.AddTaskCorrected | securitybot/bot.py:232-260 | as AddTask, but the task is set in progress before it is queued; the escalations written are exactly those of the task |
| Bot.SecurityBot.EscalateCorrected | securitybot/bot.py:236-260 | a task no user takes is escalated with 'invalid user' or 'blacklisted'; nothing else changes |
| Bot.SecurityBot.AddTasks | securitybot/bot.py:262-289 | after a batch the escalations written are those of its tasks in order, a user is active exactly when it was before or took a task, and every user's state, the ignored table and the active ids are those the tasks leave going through `_add_task` (corrected order) one after the other |
| Bot.SecurityBot.AdmitNext | securitybot/bot.py:267-271 | one more task of the batch goes through `_add_task`: its escalation is written and the users, the ignored table and the active ids move one task further along the batch |
| Bot.SecurityBot.Admit | securitybot/bot.py:232-260 | the task's escalation is written; the user who takes it, if any, gets the corrected-order state of `_add_task`, greeted when new, its id becomes active and the table is the one it leaves; every other user keeps its state |
| Bot.SecurityBot.Escalated | securitybot/bot.py:236-260 | a task no user takes is escalated and changes no user, the ignored table or the active ids |
| Bot.SecurityBot.AdmitTaken | securitybot/bot.py:247-255 | a task a user takes moves the users, the table and the active ids one task on, and writes no escalation |
| Bot.SecurityBot.TakeAlone | securitybot/bot.py:247-255 | the taker's state becomes the corrected-order state, greeted when new, its id joins the active ids, and every other user keeps its state |
| Bot.SecurityBot.TakeMarked | securitybot/bot.py:247-255 | the user's state and the table become those `_add_task` leaves in the corrected order, and its id joins the active ids |
| Bot.SecurityBot.Escalate | securitybot/bot.py:245-246 | the task with the given comment is set to VERIFICATION and written back; nothing else changes |
| Bot.SecurityBot.Activate | securitybot/bot.py:250-253 | the user is added to the active users and greeted when it was not active; otherwise nothing changes |
| Bot.SecurityBot.Mark | securitybot/bot.py:255 | the INPROGRESS status write is appended to the user's effects |
| Bot.SecurityBot.Queue | securitybot/bot.py:254 | the user's state becomes what add_task makes of it, with the bot's ignored table |
| Bot.SecurityBot.Take | securitybot/bot.py:248-255 | the user becomes active, greeted if new; the task is queued and then set in progress |
| Bot.SecurityBot.TakeCorrected | securitybot/bot.py:248-255 | as Take, but the task is set in progress before it is queued |
| Bot.SecurityBot.RunCommand | securitybot/bot.py:210-211 | the command function's result, the blacklist, the ignored table and the user's state after it are those of its function: hi and help send their message, the responses record the answer, ignore sends its notices and records the title, the blacklist commands toggle the name, test changes nothing |
| Bot.SecurityBot.RunBotCommand | securitybot/bot.py:211 | the blacklist commands and test return what their functions return and change only the blacklist |
| Bot.SecurityBot.RunUserCommand | securitybot/bot.py:211 | hi, help and the responses return nothing (falsy); hi and help send their message, and the responses set the last answer to yes or no with the arguments joined by spaces |
| Bot.SecurityBot.RunIgnore | securitybot/bot.py:211 | ignore returns truthy exactly when it ignored the pending alert's title, raises when asked to ignore from old tasks, and updates the ignored table accordingly |
| Bot.SecurityBot.HandleCommand | securitybot/bot.py:203-216 | text with no token raises IndexError, a non-ASCII first token UnicodeDecodeError and an unknown command KeyError, each leaving the user, the blacklist and the ignored table unchanged; otherwise the outcome decides the result, the blacklist and the ignored table are those the command leaves, and the user's state is the command's followed by the reply |
| Bot.SecurityBot.Advance | securitybot/bot.py:306 | the user takes one step of its state machine with the bot's ignored table |
| Bot.SecurityBot.StepUser | securitybot/bot.py:304-315 | the user's state becomes one `UserStep` of its state with the bot's ignored table, and it leaves the active users exactly when that step said goodbye |
| Bot.SecurityBot.HandleUsers | securitybot/bot.py:299-306 | each user active at the start takes exactly one step, in an order that lists each of them once; the users' states and the ignored table are those the steps leave one after the other in that order; an id stays active exactly when its step did not say goodbye, and no user becomes active |
| Bot.StepIn | securitybot/bot.py:304-306 | one user's step changes no other user's state |
| Bot.StepAllSkips | securitybot/bot.py:303-306 | a user the walk has not reached yet keeps its state |
| Bot.StepAllVisitsOnce | securitybot/bot.py:303-306 | a user the walk visits once ends in one `UserStep` of its starting state, read with the ignored table the users before it left |
| Bot.SecurityBot.VisitNext | securitybot/bot.py:304-306 | one more user of the walk takes its step: its state becomes `UserStep` of it with the current table, and the other users keep theirs |
| Bot.SecurityBot.StepAlone | securitybot/bot.py:304-306 | one user of the walk takes its step; the other users of the walk keep their states |
| Bot.SecurityBot.CleanupUser | securitybot/bot.py:308-315 | the user's id leaves the active users, whether or not it was there; nothing else changes |
| SqlText.PlaceholdersJoin | frontend/securitybot_api.py:56-58 | the placeholder list is the comma-join of `n` copies of `%s` |
| SqlText.PlaceholdersHoles | frontend/securitybot_api.py:56-58 | the placeholder list holds exactly `n` placeholders |
| SqlText.PlaceholdersShape | frontend/securitybot_api.py:56-58 | a non-empty placeholder list is three characters per placeholder less one, and ends in a placeholder |
| SqlText.BuildInHoles | frontend/securitybot_api.py:56-58 | a template with no `%` of its own, filled by build_in, holds exactly as many placeholders as items |
| SqlText.BuildWhere | frontend/securitybot_api.py:60-67 | the clause holds exactly the condition's placeholders, and ends in a newline |
| SqlText.RowDict | frontend/securitybot_api.py:72 | the keys of a row's dictionary are exactly the fields that have a value in the row (zip stops at the shorter side) |
| SqlText.RowDictAt | frontend/securitybot_api.py:72 | with distinct field names, each field maps to the value at its own position |
| SqlText.BuildQueryDict | frontend/securitybot_api.py:69-72 | one dictionary per result row |
| SqlText.QueryDictRows | frontend/securitybot_api.py:69-72 | with distinct field names, row `i`'s dictionary maps field `j` to the row's value `j` |
| SqlText.Conditions | frontend/securitybot_api.py:148-177 | the chained conditions never start with `s`, so no placeholder forms where they join the text before them |
| SqlText.ConditionsSnoc | frontend/securitybot_api.py:148-177 | one more filter appends its WHERE or AND line to the text and its parameters to the list |
| SqlText.ConditionsChain | frontend/securitybot_api.py:148-177 | the first condition is opened by WHERE (unless one came before) and every later one by AND |
| SqlText.ConditionsHoles | frontend/securitybot_api.py:148-177 | when each filter has one placeholder per parameter, the chained text holds exactly as many placeholders as the parameter list has entries |
| Api.BuildResponse | frontend/securitybot_api.py:29-37 | a fresh response is not ok, with no error, no info and no content |
| Api.Unknown | frontend/securitybot_api.py:51-54 | the unknown arguments are exactly the supplied ones that no default names |
| Api.UnknownOnce | frontend/securitybot_api.py:51-54 | each unknown argument is warned about once |
| Api.Merged | frontend/securitybot_api.py:46-49 | the merged arguments hold every supplied and every default key; a supplied value is kept and a missing one takes its default |
| Api.BuildArguments | frontend/securitybot_api.py:44-54 | the arguments become the merged ones, and `info` gains one warning line per unknown argument, in order |
| Api.FillDefaults | frontend/securitybot_api.py:46-49 | the loop over the defaults yields the merged arguments |
| Api.WarnUnknown | frontend/securitybot_api.py:51-54 | the loop over the arguments appends one warning line per unknown argument, in order |
| Api.UnknownSnoc | frontend/securitybot_api.py:51-54 | one more argument appends its warning, if it has one, after the earlier warnings |
| Api.Items | frontend/securitybot_api.py:160-166 | a list expands to its items and a string to one item per character; `len` of a number, a time or None raises TypeError |
| Api.QueryDefaults | frontend/securitybot_api.py:115-141 | after the defaults are filled in, every argument `query` reads is present |
| Api.AddFilter | frontend/securitybot_api.py:150-152 | appending a condition keeps the statement the chained conditions of the filters so far, its parameters theirs, and sets has_where |
| Api.AddSingle | frontend/securitybot_api.py:149-157 | a one-parameter filter is added exactly when its argument is not None |
| Api.AddMultiple | frontend/securitybot_api.py:159-167 | an IN filter over the argument's items is added when it is not None; a value without a length raises |
| Api.BuildAlertsQuery | frontend/securitybot_api.py:143-182 | the statement built clause by clause is the one of the filters status, performed, titles, ldap, before and after, then the ordering and the limit |
| Api.StatusHoles | frontend/securitybot_api.py:107-108 | the status and performed conditions hold one placeholder each |
| Api.TimeHoles | frontend/securitybot_api.py:111-112 | the before and after conditions hold one placeholder each |
| Api.InTemplates | frontend/securitybot_api.py:109-110 | the IN templates hold no placeholder of their own |
| Api.TailHoles | frontend/securitybot_api.py:113 | the orderings hold no `%`, the limit holds one placeholder, and none of them forms a placeholder with the text before it |
| Api.AlertFiltersBalanced | frontend/securitybot_api.py:148-177 | each filter of `query` has one placeholder per parameter |
| Api.SingleBalanced | frontend/securitybot_api.py:149-157 | a one-parameter filter with one placeholder is balanced |
| Api.MultipleBalanced | frontend/securitybot_api.py:159-167 | an IN filter has one placeholder per item |
| Api.StatementHoles | frontend/securitybot_api.py:179-182 | balanced conditions, the ordering and the limit add exactly one placeholder per parameter, the limit included |
| Api.QueryPlaceholders | frontend/securitybot_api.py:143-182 | the statement `query` sends holds, after its SELECT text, exactly one placeholder per parameter, and the limit is its last parameter |
| Api.AuthenticatedIgnored | frontend/securitybot_api.py:121-182 | the `authenticated` argument is accepted but filters nothing: the statement does not depend on it |
| Api.ConvertRowsExactly | frontend/securitybot_api.py:193-195 | conversion succeeds exactly when every row holds a DATETIME under the field, and then each row has only that field replaced by its unix time |
| Api.ConvertTimes | frontend/securitybot_api.py:193-195 | the loop over the rows yields the converted rows or the exception of the first row that fails |
| Api.ConvertRowsFail | frontend/securitybot_api.py:193-195 | a row that fails after rows that convert gives the exception of the whole loop |
| Api.Query | frontend/securitybot_api.py:126-199 | a statement the database rejects gives a not-ok response with error 'Invalid parameters'; otherwise the response is ok with the converted alerts under 'alerts'; the info holds the warnings either way |
| Api.IgnoredDefaults | frontend/securitybot_api.py:212-229 | after the defaults are filled in, `limit` and `ldap` are present |
| Api.BuildIgnoredQuery | frontend/securitybot_api.py:231-240 | the statement is the optional `ldap IN` filter, always opened by WHERE, then the ordering and the limit |
| Api.IgnoredPlaceholders | frontend/securitybot_api.py:231-240 | the statement `ignored` sends holds, after its SELECT text, exactly one placeholder per parameter |
| Api.Ignored | frontend/securitybot_api.py:217-256 | as Api.Query, with `until` converted and the rows listed under 'ignored' |
| Api.BlacklistDefaults | frontend/securitybot_api.py:269-285 | after the defaults are filled in, `limit` is present |
| Api.Blacklist | frontend/securitybot_api.py:273-296 | the fixed statement runs with the limit as its one parameter; a rejection gives 'Invalid parameters', otherwise the rows are listed under 'blacklist' |
| Api.BlacklistPlaceholders | frontend/securitybot_api.py:260-265 | the blacklist statement holds exactly one placeholder, for the limit |
| QueryDb.TitleInPlaceholders | scripts/query_db.py:67-69 | the title condition lists exactly `n` comma-separated `%s`, and holds no other placeholder |
| QueryDb.BuildOrderBy | scripts/query_db.py:188-195 | ordering succeeds exactly for event_time, ldap and title, and otherwise raises ValueError; the clause it returns holds no `%` |
| QueryDb.OrderColumnsPlain | scripts/query_db.py:188-194 | no whitelisted ordering clause holds a `%` |
| QueryDb.ParseTime | scripts/query_db.py:197-209 | a time parses exactly when it starts with an optional `-`, digits and `h` or `H`, and then gives the signed number; otherwise it raises ValueError |
| QueryDb.TimeMatchUnique | scripts/query_db.py:197 | the unit can only sit right after the longest run of digits, so the match is unique |
| QueryDb.ParseTimeRoundTrip | scripts/query_db.py:197-209 | the text `<n>h` (with `-` for a negative `n`) parses back to `n`, whatever follows it |
| QueryDb.NumberHoles | scripts/query_db.py:53-55 | the status and performed conditions hold one placeholder each |
| QueryDb.BeforeHoles | scripts/query_db.py:61 | the before condition holds one placeholder |
| QueryDb.AfterHoles | scripts/query_db.py:63 | the after condition holds one placeholder |
| QueryDb.NumberFilterBalanced | scripts/query_db.py:105-112 | a status or performed filter has one placeholder per parameter |
| QueryDb.TimeFilterBalanced | scripts/query_db.py:120-125 | a time filter has one placeholder per parameter |
| QueryDb.TitlesFilterBalanced | scripts/query_db.py:115-117 | the title filter has one placeholder per title |
| QueryDb.AlertFiltersBalanced | scripts/query_db.py:101-125 | every filter of `alerts` has one placeholder per parameter |
| QueryDb.AlertsPlaceholders | scripts/query_db.py:101-130 | the statement holds, after its SELECT text, exactly one placeholder per parameter, and the limit is the last parameter |
| QueryDb.AlertsWhereOnce | scripts/query_db.py:173-186 | the conditions open with WHERE only when no earlier build_where ran in the process, and with AND otherwise |
| QueryDb.ConditionsOpen | scripts/query_db.py:173-186 | non-empty conditions start with WHERE, or AND after an earlier condition |
| QueryDb.Script.constructor | scripts/query_db.py:65 | the process starts with HAS_WHERE false |
| QueryDb.Script.BuildWhere | scripts/query_db.py:173-186 | the clause is opened by WHERE when HAS_WHERE was false and by AND otherwise, and HAS_WHERE is true afterwards |
| QueryDb.Script.AddFilter | scripts/query_db.py:105-108 | the statement text stays the SELECT text followed by the chained conditions of the filters so far, and the parameters theirs |
| QueryDb.Script.AddNumber | scripts/query_db.py:105-112 | a status or performed filter is added exactly when the option is given, and then HAS_WHERE is set |
| QueryDb.Script.AddTitles | scripts/query_db.py:115-117 | the title filter is added exactly when titles are given, and then HAS_WHERE is set |
| QueryDb.Script.AddTime | scripts/query_db.py:120-125 | a time bound sets HAS_WHERE before it is parsed; a malformed one raises ValueError, a well-formed one adds its filter |
| QueryDb.Script.AddChoices | scripts/query_db.py:104-117 | the status, performed and title filters are chained after the SELECT text |
| QueryDb.Script.BuildFilters | scripts/query_db.py:101-125 | all filters are chained in the order status, performed, titles, before, after; HAS_WHERE ends true exactly when it was or a filter option is given, even when a time fails to parse |
| QueryDb.Script.BuildAlertsQuery | scripts/query_db.py:101-130 | the statement is the chained filters, the ordering and the limit; a bad time or ordering raises ValueError |
| QueryDb.Script.Alerts | scripts/query_db.py:99-171 | the statement is sent to the database, and the result is the table of its rows with the hidden columns dropped |
| QueryDb.ToRemove | scripts/query_db.py:136-160 | a column is removed exactly when `--drop` names it, or its flag hides it (hash, status when filtered, event_time, splunk_url, ldap when anonymised) |
| QueryDb.Dropped | scripts/query_db.py:162-165 | each row keeps exactly its columns that are not removed, with their values |
| QueryDb.DropColumns | scripts/query_db.py:162-165 | the nested loop of pops removes exactly the listed columns from every row |
| QueryDb.Kept | scripts/query_db.py:168 | the fields shown are exactly the query fields not removed |
| QueryDb.KeptAppend | scripts/query_db.py:168 | keeping distributes over concatenation, so the shown fields keep their original order |
| QueryDb.Matrix | scripts/query_db.py:169 | the matrix exists exactly when every row has every shown field (else KeyError), and then holds per row the values of the shown fields in order |
| QueryDb.FullRowsTable | scripts/query_db.py:134-171 | rows with a value for every query field always give a table: the shown fields and, per row, their values taken positionally |
| QueryDb.KeptField | scripts/query_db.py:168 | a shown field has a value in every dictionary built from a full row |
| QueryDb.TableShape | scripts/query_db.py:168-171 | the matrix has one row per result and each row one value per shown field |
| QueryDb.ColumnCount | scripts/query_db.py:223 | zip yields as many columns as the shortest row has cells |
| QueryDb.Width | scripts/query_db.py:223 | a column's width is at least every cell's length and equal to one of them |
| QueryDb.Widths | scripts/query_db.py:223 | one width per column, each at least every cell's length in that column |
| QueryDb.Pad | scripts/query_db.py:225-227 | a cell is left-aligned and padded with spaces to a positive width, never cut; width 0 (the spec `'{:0}'`, zero padding after the sign) raises ValueError on a string |
| QueryDb.FormatRowWidth | scripts/query_db.py:225-227 | a row whose cells fit their widths is formatted, when it formats at all, to exactly the line width |
| QueryDb.Formatted | scripts/query_db.py:227 | ValueError, as the header row's FormatRow raises it, exactly when a column has width 0; otherwise each line is the row formatted with the widths of the whole table, and all lines are equally long |
| QueryDb.TableLines | scripts/query_db.py:219-229 | ValueError exactly when a column has width 0; otherwise the header line comes first, then dashes as long as the header, then one line per matrix row, every line as long as the header |
| QueryDb.TableLinesRow | scripts/query_db.py:219-229 | when the table formats, line `i + 2` below the dashes is matrix row `i` formatted with the widths of the whole table |
| QueryDb.TableLinesFails | scripts/query_db.py:219-227 | the table raises ValueError exactly when some column's cells, the header's included, are all empty |
| QueryDb.NamedFieldsFormat | scripts/query_db.py:219-227 | with non-empty field names, as every table the script prints has, the table always formats |
| QueryDb.EmptyFieldFails | scripts/query_db.py:219-227 | `pretty_print([''], [])` raises ValueError |
| QueryDb.PrettyPrint | scripts/query_db.py:216-233 | fails exactly when the table does |
| QueryDb.WidthsTight | scripts/query_db.py:223 | each column is as wide as its widest cell, header included, and no wider |

## Left out

- Chat I/O (Slack), the SQL text of the tasker, the ignored table and the blacklist, database connections and retries, and logging: the model records what is sent and written instead.
- The configuration loading (`_load_config`, `_load_messages`, `_load_commands`), the `run` loop with its sleeps, `handle_messages`, `alert_user`'s message formats and `create_new_alert`: the model starts from a loaded command table and message names.
- `handle_in_progress_tasks` and `handle_verifying_tasks`: both are empty in the source.
- `shlex.split`: its quoting rules are a parameter (`Bot.Tokenizer`) that either yields tokens or fails over to the whitespace split.
- Unicode: `lower()` is modelled on ASCII letters only, and a character stands for its UTF-8 bytes; of `encode('utf-8')` only the UnicodeDecodeError that `clean_command` raises on a byte string holding a non-ASCII character is modelled (`Bot.ParseCommand`). A unicode text splits at the whitespace of Python 2.7's character database (`Strings.IsWideSpace`), an encoded byte string at ASCII whitespace only.
- Bot.IsCommandFindsParsedKey: it holds only on text without non-ASCII whitespace, and its exact agreement needs ASCII command names (those of the command table are); on other text is_command can accept a command that parse_command then does not find or cannot encode (see Findings).
- Duo's `urlencode` of the push information, and the HTTP calls to Duo: the Duo client's answers are inputs.
- pytz: the local zone is a fixed offset of -8 hours with no daylight saving. `datetime(..., tzinfo=LOCAL_TZ)` with pytz gives the zone's LMT offset, which is not modelled.
- Bot.SecurityBot.constructor: it does not run `recover_in_progress_tasks`; that is `Bot.SecurityBot.AddTasks` on the recovered tasks.
- Bot.SecurityBot.AddTasks: it routes each task through `_add_task` in the corrected order (`Bot.SecurityBot.AddTaskCorrected`); the order as written is `Bot.SecurityBot.AddTask`.
- Commands.TestAlert: it returns True but does not file the test alert, because that goes through `create_new_alert` and the database.
- Commands.IgnoreTask: the 'last' choice raises, because `User` never defines `old_tasks`; the model returns that exception and records nothing.
- Blacklist.SqlBlacklist.Remove: it requires the name to be present, because `set.remove` raises otherwise and no caller catches it.
- StateMachine.Machine.Create: an exception is its kind and the offending name (`MachineError`), not the text of its message.
- `custom_alert.py`, the Splunk plugins, `securitybot_frontend.py`, `frontend.py`, `main.py` and `db_up.py`: entry points and HTTP handlers around the core.
- `exception_response` and `create_alert` in frontend/securitybot_api.py: they wrap exceptions and the alert-creation database call.
- The `blacklist` and `ignored` listings, `main` and `init` of scripts/query_db.py: fixed statements sent to the database and printed.
- `pretty_print`: cells are taken as the strings `str()` makes of them, and printing the joined lines is not modelled.
- Api.Query, Api.Ignored, QueryDb.Script.Alerts: the SELECT text before the filters is not proved free of placeholders; the placeholder lemmas count the placeholders after it.
- Integer widths: Python integers are unbounded, like Dafny's. The one bound modelled is that of `timedelta` in `ignore` (999999999 days, OverflowError); `datetime` arithmetic past the year 9999 is not modelled.
- The conversion of DATETIME columns to unix time in frontend/securitybot_api.py:195,252 (`strftime('%s')`): a DATETIME is taken as its unix seconds, while `strftime('%s')` reads the naive value in the server's local zone.

## Findings

| source | as written | input that shows it | evidently intended | confidence | as-written member | corrected member |
|---|---|---|---|---|---|---|
| securitybot/bot.py:254-255 | `_add_task` queues the task with `user.add_task(task)` and only then calls `task.set_in_progress()`. When the title is ignored, `add_task` has already dropped the task and set it to VERIFICATION, and the later INPROGRESS write overwrites that. | a new alert for a known, not blacklisted user who has ignored that alert's title: the user's queue stays without it and its stored status ends as INPROGRESS | the task is set in progress before it is queued, so an ignored alert ends in VERIFICATION and every INPROGRESS alert waits in a user's queue | high (not executed) | Bot.IgnoredTaskLeftInProgress | Bot.MarkThenQueueStatus |
| securitybot/bot.py:392-416 | `is_command` splits the unicode text, which also breaks at whitespace only unicode knows, such as the ASCII separator U+001C, while `parse_command` splits the cleaned, encoded byte string at ASCII whitespace only. | the text `hi` + U+001C + `there` when `hi` is a command: is_command says yes, parse_command yields the key `hi` + U+001C + `there`, and `self.commands[key]` raises KeyError out of `handle_messages` | is_command checks the key that handle_command will look up, so text it accepts always names a command | high (not executed) | Bot.SeparatorUnknownKey | Bot.CleanedIsCommandFindsParsedKey |
| securitybot/bot.py:56-64 | With a non-ASCII break such as U+00A0, the same mismatch hands `parse_command` a first token holding UTF-8 bytes above 0x7F, and `clean_command` calls `encode('utf-8')` on that byte string, which Python 2 first decodes as ASCII. | the text `hi` + U+00A0 + `there` when `hi` is a command: is_command says yes, and parse_command raises UnicodeDecodeError out of `handle_messages` | text that is_command accepts parses without an exception | high (not executed) | Bot.NoBreakSpaceDecodeError | Bot.CleanedIsCommandFindsParsedKey |
