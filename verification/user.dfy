/**
 * securitybot/user.py: one chat user, the queue of alerts addressed to them
 * and the state machine that walks them through each alert.
 *
 * Everything the user object does to the outside world (chat messages, the
 * bot's alert and report messages, Duo pushes, task-table writes, leaving
 * the bot's active users) is recorded as an `Effect`, oldest first. What it
 * reads from the outside world on a step (the clock, the Duo status, Duo's
 * `can_auth` answer, the bot's reporting channel) arrives as an `Env`. The
 * ignored-alerts table is passed in and handed back.
 */
module User {
  import opened Wrappers
  import Util
  import Auth
  import Strings
  import T = Tasker
  import SM = StateMachine

  const ESCALATION_TIME: int := 2 * Util.HOUR
  const BACKOFF_TIME: int := 21 * Util.HOUR
  const BACKOFF_REASON: string := "auto backoff after confirmation"
  const ESCALATED_COMMENT: string := "Automatically escalated. No response received."
  const NO_COMMENT: string := "No comment provided."

  const NEED_TASK: string := "need_task"
  const ACTION_PERFORMED_CHECK: string := "action_performed_check"
  const AUTH_PERMISSION_CHECK: string := "auth_permission_check"
  const WAITING_ON_AUTH: string := "waiting_on_auth"
  const TASK_FINISHED: string := "task_finished"

  const STATES: seq<string> := [NEED_TASK, ACTION_PERFORMED_CHECK, AUTH_PERMISSION_CHECK, WAITING_ON_AUTH, TASK_FINISHED]

  /** The conditions guarding the user's transitions. */
  datatype Cond =
    | HasTasks
    | AlreadyAuthed
    | CannotTwoFa
    | PerformedAction
    | DidNotPerformAction
    | SlowResponseTime
    | AllowsAuthorization
    | DeniesAuthorization
    | AuthCompleted

  /** The callbacks the user's machine runs as actions and state hooks. */
  datatype Hook =
    | SendMessage(key: string)
    | ActOnNotPerformed
    | AutoEscalate
    | UpdateAuth
    | BeginAuth
    | NextTask
    | UpdateTaskResponse
    | ResetMessage
    | UpdateTaskAuth
    | CompleteTask

  type UserTransition = SM.Transition<Cond, Hook>

  const FROM_NEED_TASK: seq<UserTransition> := [
    SM.Transition(NEED_TASK, ACTION_PERFORMED_CHECK, Some(HasTasks), None)
  ]

  const FROM_ACTION_CHECK: seq<UserTransition> := [
    SM.Transition(ACTION_PERFORMED_CHECK, TASK_FINISHED, Some(AlreadyAuthed), None),
    SM.Transition(ACTION_PERFORMED_CHECK, TASK_FINISHED, Some(CannotTwoFa), Some(SendMessage("no_2fa"))),
    SM.Transition(ACTION_PERFORMED_CHECK, AUTH_PERMISSION_CHECK, Some(PerformedAction), None),
    SM.Transition(ACTION_PERFORMED_CHECK, TASK_FINISHED, Some(DidNotPerformAction), Some(ActOnNotPerformed)),
    SM.Transition(ACTION_PERFORMED_CHECK, TASK_FINISHED, Some(SlowResponseTime), Some(AutoEscalate))
  ]

  const FROM_PERMISSION_CHECK: seq<UserTransition> := [
    SM.Transition(AUTH_PERMISSION_CHECK, WAITING_ON_AUTH, Some(AllowsAuthorization), None),
    SM.Transition(AUTH_PERMISSION_CHECK, TASK_FINISHED, Some(DeniesAuthorization), Some(SendMessage("escalated"))),
    SM.Transition(AUTH_PERMISSION_CHECK, TASK_FINISHED, Some(SlowResponseTime), Some(AutoEscalate))
  ]

  const FROM_WAITING: seq<UserTransition> := [
    SM.Transition(WAITING_ON_AUTH, TASK_FINISHED, Some(AuthCompleted), None)
  ]

  const FROM_FINISHED: seq<UserTransition> := [
    SM.Transition(TASK_FINISHED, NEED_TASK, None, None)
  ]

  /** The transition list in declaration order. */
  const TRANSITIONS: seq<UserTransition> :=
    FROM_NEED_TASK + FROM_ACTION_CHECK + FROM_PERMISSION_CHECK + FROM_WAITING + FROM_FINISHED

  const DURING: map<string, Hook> := map[WAITING_ON_AUTH := UpdateAuth]

  const ON_ENTER: map<string, Hook> := map[AUTH_PERMISSION_CHECK := SendMessage("2fa"), WAITING_ON_AUTH := BeginAuth]

  const ON_EXIT: map<string, Hook> := map[
    NEED_TASK := NextTask,
    ACTION_PERFORMED_CHECK := UpdateTaskResponse,
    AUTH_PERMISSION_CHECK := ResetMessage,
    WAITING_ON_AUTH := UpdateTaskAuth,
    TASK_FINISHED := CompleteTask
  ]

  /** The user's state table. */
  function States(): map<string, SM.State<Hook>>
  {
    SM.StateTable(STATES, DURING, ON_ENTER, ON_EXIT)
  }

  /** The chat system's record of a user: `id`, `name` and the optional `profile.first_name`. */
  datatype UserInfo = UserInfo(id: string, name: string, firstName: Option<string>)

  /** `get_name()`: the profile's first name when it is present and non-empty, else the user name. */
  function GetName(info: UserInfo): (r: string)
    ensures info.firstName.Some? && info.firstName.value != "" ==> r == info.firstName.value
    ensures !(info.firstName.Some? && info.firstName.value != "") ==> r == info.name
  {
    match info.firstName
    case Some(first) => if first != "" then first else info.name
    case None => info.name
  }

  /** `_escalation_time`: `datetime.max` is `Never`. */
  datatype Deadline = Never | At(utc: int)

  /** What one step observes: the time, Duo's answers and the bot's reporting channel. */
  datatype Env = Env(now: int, authStatus: Auth.AuthState, canAuth: bool, reportingChannel: Option<string>)

  /** Something the user object makes happen outside itself. */
  datatype Effect =
    | Message(key: string)
    | Alert(description: string, reason: string)
    | Report(channel: string, username: string, title: string, description: string, comment: string, url: string)
    | StartAuth(reason: string)
    | ResetAuth
    | Store(write: T.Write)
    | Cleanup
    | Formatted(key: string, arg: string)
    | Say(text: string)

  /** `tuple_builder()`: no answer, empty text. */
  const NO_MESSAGE: Util.Response := Util.TupleBuilder(None, None)

  /** The user's mutable state, as a value. */
  datatype UserData = UserData(
    state: string,
    tasks: seq<T.Task>,
    pending: Option<T.Task>,
    lastMessage: Util.Response,
    lastAuth: Auth.AuthState,
    escalation: Deadline,
    effects: seq<Effect>,
    ignored: T.IgnoreTable)

  /** A freshly built user: no tasks, no answer, no authorization, no deadline. */
  function Initial(ignored: T.IgnoreTable): UserData
  {
    UserData(NEED_TASK, [], None, NO_MESSAGE, Auth.NoAuth, Never, [], ignored)
  }

  /** The writes as effects. */
  function Stores(ws: seq<T.Write>): seq<Effect>
  {
    seq(|ws|, i requires 0 <= i < |ws| => Store(ws[i]))
  }

  /** The bot's `alert_user` message for a task: its description and its reason quoted with `>`. */
  function AlertFor(t: T.Task): Effect
  {
    Alert(t.description, Strings.PrefixLines(">", t.reason))
  }

  // The conditions.

  predicate Holds(c: Cond, d: UserData, env: Env)
  {
    match c
    case HasTasks => |d.tasks| != 0
    case AlreadyAuthed => d.lastMessage.answer == Some(true) && env.authStatus == Auth.Authorized
    case CannotTwoFa => d.lastMessage.answer == Some(true) && !env.canAuth
    case PerformedAction => d.lastMessage.answer == Some(true)
    case DidNotPerformAction => d.lastMessage.answer == Some(false)
    case SlowResponseTime => d.escalation.At? && env.now > d.escalation.utc
    case AllowsAuthorization => d.lastMessage.answer == Some(true)
    case DeniesAuthorization => d.lastMessage.answer == Some(false)
    case AuthCompleted => d.lastAuth == Auth.Authorized || d.lastAuth == Auth.Denied
  }

  /** The conditions as the machine sees them while the user is in `d`. */
  function Guards(d: UserData, env: Env): Cond -> bool
  {
    c => Holds(c, d, env)
  }

  // What each hook does.

  function ApplySend(d: UserData, key: string): UserData
  {
    d.(effects := d.effects + [Message(key)])
  }

  /** The report to the reporting channel, if there is one: the user's comment quoted with `> `. */
  function ReportFor(d: UserData, name: string, channel: Option<string>): seq<Effect>
  {
    if channel.None? || d.pending.None? then []
    else
      var t := d.pending.value;
      var comment := if d.lastMessage.text != "" then d.lastMessage.text else NO_COMMENT;
      [Report(channel.value, name, t.title, t.description, Strings.PrefixLines("> ", comment), t.url)]
  }

  /** `_act_on_not_performed`: "escalated", then the report. */
  function ApplyActOnNotPerformed(d: UserData, name: string, channel: Option<string>): UserData
  {
    d.(effects := d.effects + [Message("escalated")] + ReportFor(d, name, channel))
  }

  /** `_auto_escalate`: the escalation note is appended to the comment, the task is escalated, the deadline dropped. */
  function ApplyAutoEscalate(d: UserData): UserData
  {
    match d.pending
    case None => d
    case Some(p) =>
      var t := p.(comment := p.comment + ESCALATED_COMMENT);
      d.(pending := Some(t), effects := d.effects + Stores(T.SetVerifying(t)) + [Message("no_response")], escalation := Never)
  }

  /** `begin_auth`: "sending_push", then a Duo push for the pending task. */
  function ApplyBeginAuth(d: UserData): UserData
  {
    d.(effects := d.effects + [Message("sending_push")] + (if d.pending.Some? then [StartAuth(d.pending.value.description)] else []))
  }

  /** `_next_task`: the head of the queue becomes pending and is announced; the deadline is two business hours away. */
  function ApplyNextTask(d: UserData, now: int): UserData
  {
    if |d.tasks| == 0 then d
    else
      var t := d.tasks[0];
      d.(pending := Some(t), tasks := d.tasks[1..], effects := d.effects + [AlertFor(t)], lastMessage := NO_MESSAGE,
         escalation := At(Util.ExpirationTime(Util.Stamp(now, 0), ESCALATION_TIME).utc))
  }

  /** `_update_task_response`: a yes or no answer is copied into the task; the message is reset either way. */
  function ApplyUpdateTaskResponse(d: UserData): UserData
  {
    var p := if d.lastMessage.answer.Some? && d.pending.Some?
             then Some(d.pending.value.(performed := d.lastMessage.answer.value, comment := d.lastMessage.text))
             else d.pending;
    d.(pending := p, lastMessage := NO_MESSAGE)
  }

  /** `_update_task_auth`: records whether 2FA succeeded; a failure also resets Duo. */
  function ApplyUpdateTaskAuth(d: UserData): UserData
  {
    match d.pending
    case None => d
    case Some(t) =>
      if d.lastAuth == Auth.Authorized
      then d.(effects := d.effects + [Message("good_auth")], pending := Some(t.(authenticated := true)))
      else d.(effects := d.effects + [Message("bad_auth"), ResetAuth], pending := Some(t.(authenticated := false)))
  }

  /** The queued tasks whose titles are not ignored, in order. */
  function Kept(ts: seq<T.Task>, ignored: map<string, string>): seq<T.Task>
  {
    if |ts| == 0 then []
    else Kept(ts[..|ts| - 1], ignored) + (if ts[|ts| - 1].title in ignored then [] else [ts[|ts| - 1]])
  }

  /** The writes escalating each ignored queued task, with the ignore reason as its comment. */
  function Dropped(ts: seq<T.Task>, ignored: map<string, string>): seq<Effect>
  {
    if |ts| == 0 then []
    else
      var t := ts[|ts| - 1];
      Dropped(ts[..|ts| - 1], ignored)
      + (if t.title in ignored then Stores(T.SetVerifying(t.(comment := ignored[t.title]))) else [])
  }

  /** Kept and Dropped grow by one task at a time. */
  lemma KeptDroppedSnoc(ts: seq<T.Task>, i: nat, ignored: map<string, string>)
    requires i < |ts|
    ensures Kept(ts[..i + 1], ignored) == Kept(ts[..i], ignored) + (if ts[i].title in ignored then [] else [ts[i]])
    ensures Dropped(ts[..i + 1], ignored)
         == Dropped(ts[..i], ignored) + (if ts[i].title in ignored then Stores(T.SetVerifying(ts[i].(comment := ignored[ts[i].title]))) else [])
  {
    assert ts[..i + 1][..i] == ts[..i];
  }

  /** The loop of `_update_tasks`: one pass over the queue, keeping or escalating each task. */
  method CleanQueue(queue: seq<T.Task>, ignored: map<string, string>) returns (cleaned: seq<T.Task>, dropped: seq<Effect>)
    ensures cleaned == Kept(queue, ignored) && dropped == Dropped(queue, ignored)
  {
    cleaned, dropped := [], [];
    var i := 0;
    while i < |queue|
      invariant 0 <= i <= |queue|
      invariant cleaned == Kept(queue[..i], ignored)
      invariant dropped == Dropped(queue[..i], ignored)
    {
      KeptDroppedSnoc(queue, i, ignored);
      var t := queue[i];
      if t.title in ignored {
        dropped := dropped + Stores(T.SetVerifying(t.(comment := ignored[t.title])));
      } else {
        cleaned := cleaned + [t];
      }
      i := i + 1;
    }
    assert queue[..i] == queue;
  }

  /** `_update_tasks`: the ignored table is pruned, and ignored tasks leave the queue escalated. */
  function ApplyUpdateTasks(d: UserData, name: string, now: int): UserData
  {
    var ig := T.Ignored(d.ignored, name, now);
    d.(ignored := T.Prune(d.ignored, now), tasks := Kept(d.tasks, ig), effects := d.effects + Dropped(d.tasks, ig))
  }

  /** `_complete_task`: backs off a confirmed alert, escalates the task, and says goodbye when the queue is empty. */
  function ApplyCompleteTask(d: UserData, name: string, now: int): UserData
  {
    match d.pending
    case None => d
    case Some(t) =>
      var table := if t.performed then T.IgnoreTask(d.ignored, name, t.title, BACKOFF_REASON, BACKOFF_TIME, now) else d.ignored;
      var d1 := ApplyUpdateTasks(d.(ignored := table, pending := None, lastMessage := NO_MESSAGE,
                                    effects := d.effects + Stores(T.SetVerifying(t))), name, now);
      d1.(effects := d1.effects + (if |d1.tasks| > 0 then [Message("bwtm")] else [Message("bye"), Cleanup]))
  }

  /** `add_task`: the task joins the end of the queue, then the queue is cleaned. */
  function ApplyAddTask(d: UserData, task: T.Task, name: string, now: int): UserData
  {
    ApplyUpdateTasks(d.(tasks := d.tasks + [task]), name, now)
  }

  /** One hook. No hook moves the machine. */
  function ApplyHook(h: Hook, d: UserData, name: string, env: Env): (r: UserData)
    ensures r.state == d.state
    ensures d.effects <= r.effects
  {
    match h
    case SendMessage(key) => ApplySend(d, key)
    case ActOnNotPerformed => ApplyActOnNotPerformed(d, name, env.reportingChannel)
    case AutoEscalate => ApplyAutoEscalate(d)
    case UpdateAuth => d.(lastAuth := env.authStatus)
    case BeginAuth => ApplyBeginAuth(d)
    case NextTask => ApplyNextTask(d, env.now)
    case UpdateTaskResponse => ApplyUpdateTaskResponse(d)
    case ResetMessage => d.(lastMessage := NO_MESSAGE)
    case UpdateTaskAuth => ApplyUpdateTaskAuth(d)
    case CompleteTask => ApplyCompleteTask(d, name, env.now)
  }

  /** Hooks run in order. */
  function ApplyHooks(hs: seq<Hook>, d: UserData, name: string, env: Env): (r: UserData)
    ensures r.state == d.state
    ensures d.effects <= r.effects
  {
    if |hs| == 0 then d
    else ApplyHook(hs[|hs| - 1], ApplyHooks(hs[..|hs| - 1], d, name, env), name, env)
  }

  /** The user's state after the `during` hook of its state. */
  function AfterDuring(d: UserData, name: string, env: Env): UserData
  {
    ApplyHooks(SM.Run(SM.Get(DURING, d.state)), d, name, env)
  }

  /** The hooks a transition out of `s` runs: its action, `s`'s `on_exit`, then the destination's `on_enter`. */
  function Fired(s: string, t: UserTransition): seq<Hook>
  {
    SM.Run(t.action) + SM.Run(SM.Get(ON_EXIT, s)) + SM.Run(SM.Get(ON_ENTER, t.dest))
  }

  /**
   * `step()`: the state's `during` hook runs, then the conditions are read
   * from what it left, and the first transition declared for the state whose
   * condition holds is taken with its hooks.
   */
  function UserStep(d: UserData, name: string, env: Env): (r: UserData)
    ensures d.effects <= r.effects
  {
    var d1 := AfterDuring(d, name, env);
    var out := Block(d.state);
    match SM.FirstEnabled(out, Guards(d1, env))
    case None => d1
    case Some(k) => ApplyHooks(Fired(d.state, out[k]), d1.(state := out[k].dest), name, env)
  }

  /** A user holds a pending task exactly when it is past `need_task`. */
  predicate Inv(d: UserData)
  {
    d.state in STATES && (d.state == NEED_TASK <==> d.pending.None?)
  }

  // The tables.

  /** The declaration splits into one block per source state. */
  lemma OutgoingBlocks(s: string)
    ensures SM.Outgoing(TRANSITIONS, s)
         == SM.Outgoing(FROM_NEED_TASK, s) + SM.Outgoing(FROM_ACTION_CHECK, s) + SM.Outgoing(FROM_PERMISSION_CHECK, s)
            + SM.Outgoing(FROM_WAITING, s) + SM.Outgoing(FROM_FINISHED, s)
  {
    var a := FROM_NEED_TASK;
    var b := a + FROM_ACTION_CHECK;
    var c := b + FROM_PERMISSION_CHECK;
    var e := c + FROM_WAITING;
    SM.OutgoingAppend(e, FROM_FINISHED, s);
    SM.OutgoingAppend(c, FROM_WAITING, s);
    SM.OutgoingAppend(b, FROM_PERMISSION_CHECK, s);
    SM.OutgoingAppend(a, FROM_ACTION_CHECK, s);
  }

  /** The block of declarations whose source is `s`. */
  function Block(s: string): seq<UserTransition>
  {
    if s == NEED_TASK then FROM_NEED_TASK
    else if s == ACTION_PERFORMED_CHECK then FROM_ACTION_CHECK
    else if s == AUTH_PERMISSION_CHECK then FROM_PERMISSION_CHECK
    else if s == WAITING_ON_AUTH then FROM_WAITING
    else if s == TASK_FINISHED then FROM_FINISHED
    else []
  }

  /** Each block lists only its own source state. */
  lemma BlocksUniform(s: string)
    ensures SM.Outgoing(FROM_NEED_TASK, s) == if s == NEED_TASK then FROM_NEED_TASK else []
    ensures SM.Outgoing(FROM_ACTION_CHECK, s) == if s == ACTION_PERFORMED_CHECK then FROM_ACTION_CHECK else []
    ensures SM.Outgoing(FROM_PERMISSION_CHECK, s) == if s == AUTH_PERMISSION_CHECK then FROM_PERMISSION_CHECK else []
    ensures SM.Outgoing(FROM_WAITING, s) == if s == WAITING_ON_AUTH then FROM_WAITING else []
    ensures SM.Outgoing(FROM_FINISHED, s) == if s == TASK_FINISHED then FROM_FINISHED else []
  {
    ChecksUniform(s);
    SingletonBlocksUniform(s);
  }

  /** The two check states' blocks list only their own source state. */
  lemma ChecksUniform(s: string)
    ensures SM.Outgoing(FROM_ACTION_CHECK, s) == if s == ACTION_PERFORMED_CHECK then FROM_ACTION_CHECK else []
    ensures SM.Outgoing(FROM_PERMISSION_CHECK, s) == if s == AUTH_PERMISSION_CHECK then FROM_PERMISSION_CHECK else []
  {
    forall i | 0 <= i < |FROM_ACTION_CHECK| ensures FROM_ACTION_CHECK[i].source == ACTION_PERFORMED_CHECK {
      assert i in {0, 1, 2, 3, 4};
    }
    SM.OutgoingUniform(FROM_ACTION_CHECK, ACTION_PERFORMED_CHECK, s);
    forall i | 0 <= i < |FROM_PERMISSION_CHECK| ensures FROM_PERMISSION_CHECK[i].source == AUTH_PERMISSION_CHECK {
      assert i in {0, 1, 2};
    }
    SM.OutgoingUniform(FROM_PERMISSION_CHECK, AUTH_PERMISSION_CHECK, s);
  }

  /** The one-transition blocks list only their own source state. */
  lemma SingletonBlocksUniform(s: string)
    ensures SM.Outgoing(FROM_NEED_TASK, s) == if s == NEED_TASK then FROM_NEED_TASK else []
    ensures SM.Outgoing(FROM_WAITING, s) == if s == WAITING_ON_AUTH then FROM_WAITING else []
    ensures SM.Outgoing(FROM_FINISHED, s) == if s == TASK_FINISHED then FROM_FINISHED else []
  {
    SM.OutgoingUniform(FROM_NEED_TASK, NEED_TASK, s);
    SM.OutgoingUniform(FROM_WAITING, WAITING_ON_AUTH, s);
    SM.OutgoingUniform(FROM_FINISHED, TASK_FINISHED, s);
  }

  /** The transitions leaving each state are exactly its block, in declaration order. */
  lemma OutgoingFrom(s: string)
    ensures SM.Outgoing(TRANSITIONS, s) == Block(s)
  {
    if s == NEED_TASK {
      OutgoingNeedTask();
    } else if s == ACTION_PERFORMED_CHECK {
      OutgoingActionCheck();
    } else if s == AUTH_PERMISSION_CHECK {
      OutgoingPermissionCheck();
    } else if s == WAITING_ON_AUTH {
      OutgoingWaiting();
    } else if s == TASK_FINISHED {
      OutgoingFinished();
    } else {
      OutgoingBlocks(s);
      BlocksUniform(s);
    }
  }

  /** The five state names differ, already in their lengths. */
  lemma StateNamesDistinct()
    ensures SM.Distinct(STATES)
    ensures NEED_TASK != ACTION_PERFORMED_CHECK && NEED_TASK != AUTH_PERMISSION_CHECK && NEED_TASK != WAITING_ON_AUTH
    ensures NEED_TASK != TASK_FINISHED && ACTION_PERFORMED_CHECK != AUTH_PERMISSION_CHECK
    ensures ACTION_PERFORMED_CHECK != WAITING_ON_AUTH && ACTION_PERFORMED_CHECK != TASK_FINISHED
    ensures AUTH_PERMISSION_CHECK != WAITING_ON_AUTH && AUTH_PERMISSION_CHECK != TASK_FINISHED
    ensures WAITING_ON_AUTH != TASK_FINISHED
  {
    assert |NEED_TASK| == 9 && |ACTION_PERFORMED_CHECK| == 22 && |AUTH_PERMISSION_CHECK| == 21;
    assert |WAITING_ON_AUTH| == 15 && |TASK_FINISHED| == 13;
  }

  /** Four empty blocks leave just the fifth. */
  lemma OnlyOneBlock(a: seq<UserTransition>, b: seq<UserTransition>, c: seq<UserTransition>, d: seq<UserTransition>, e: seq<UserTransition>)
    ensures b == [] && c == [] && d == [] && e == [] ==> a + b + c + d + e == a
    ensures a == [] && c == [] && d == [] && e == [] ==> a + b + c + d + e == b
    ensures a == [] && b == [] && d == [] && e == [] ==> a + b + c + d + e == c
    ensures a == [] && b == [] && c == [] && e == [] ==> a + b + c + d + e == d
    ensures a == [] && b == [] && c == [] && d == [] ==> a + b + c + d + e == e
  {
  }

  lemma OutgoingNeedTask()
    ensures SM.Outgoing(TRANSITIONS, NEED_TASK) == FROM_NEED_TASK
  {
    StateNamesDistinct();
    OutgoingBlocks(NEED_TASK);
    BlocksUniform(NEED_TASK);
    OnlyOneBlock(SM.Outgoing(FROM_NEED_TASK, NEED_TASK), SM.Outgoing(FROM_ACTION_CHECK, NEED_TASK),
      SM.Outgoing(FROM_PERMISSION_CHECK, NEED_TASK), SM.Outgoing(FROM_WAITING, NEED_TASK), SM.Outgoing(FROM_FINISHED, NEED_TASK));
  }

  lemma OutgoingActionCheck()
    ensures SM.Outgoing(TRANSITIONS, ACTION_PERFORMED_CHECK) == FROM_ACTION_CHECK
  {
    StateNamesDistinct();
    OutgoingBlocks(ACTION_PERFORMED_CHECK);
    BlocksUniform(ACTION_PERFORMED_CHECK);
    OnlyOneBlock(SM.Outgoing(FROM_NEED_TASK, ACTION_PERFORMED_CHECK), SM.Outgoing(FROM_ACTION_CHECK, ACTION_PERFORMED_CHECK),
      SM.Outgoing(FROM_PERMISSION_CHECK, ACTION_PERFORMED_CHECK), SM.Outgoing(FROM_WAITING, ACTION_PERFORMED_CHECK), SM.Outgoing(FROM_FINISHED, ACTION_PERFORMED_CHECK));
  }

  lemma OutgoingPermissionCheck()
    ensures SM.Outgoing(TRANSITIONS, AUTH_PERMISSION_CHECK) == FROM_PERMISSION_CHECK
  {
    StateNamesDistinct();
    OutgoingBlocks(AUTH_PERMISSION_CHECK);
    BlocksUniform(AUTH_PERMISSION_CHECK);
    OnlyOneBlock(SM.Outgoing(FROM_NEED_TASK, AUTH_PERMISSION_CHECK), SM.Outgoing(FROM_ACTION_CHECK, AUTH_PERMISSION_CHECK),
      SM.Outgoing(FROM_PERMISSION_CHECK, AUTH_PERMISSION_CHECK), SM.Outgoing(FROM_WAITING, AUTH_PERMISSION_CHECK), SM.Outgoing(FROM_FINISHED, AUTH_PERMISSION_CHECK));
  }

  lemma OutgoingWaiting()
    ensures SM.Outgoing(TRANSITIONS, WAITING_ON_AUTH) == FROM_WAITING
  {
    StateNamesDistinct();
    OutgoingBlocks(WAITING_ON_AUTH);
    BlocksUniform(WAITING_ON_AUTH);
    OnlyOneBlock(SM.Outgoing(FROM_NEED_TASK, WAITING_ON_AUTH), SM.Outgoing(FROM_ACTION_CHECK, WAITING_ON_AUTH),
      SM.Outgoing(FROM_PERMISSION_CHECK, WAITING_ON_AUTH), SM.Outgoing(FROM_WAITING, WAITING_ON_AUTH), SM.Outgoing(FROM_FINISHED, WAITING_ON_AUTH));
  }

  lemma OutgoingFinished()
    ensures SM.Outgoing(TRANSITIONS, TASK_FINISHED) == FROM_FINISHED
  {
    StateNamesDistinct();
    OutgoingBlocks(TASK_FINISHED);
    BlocksUniform(TASK_FINISHED);
    OnlyOneBlock(SM.Outgoing(FROM_NEED_TASK, TASK_FINISHED), SM.Outgoing(FROM_ACTION_CHECK, TASK_FINISHED),
      SM.Outgoing(FROM_PERMISSION_CHECK, TASK_FINISHED), SM.Outgoing(FROM_WAITING, TASK_FINISHED), SM.Outgoing(FROM_FINISHED, TASK_FINISHED));
  }

  /** The declared states are the states of the table. */
  lemma StateNames()
    ensures forall s :: s in States() <==> s in STATES
  {
  }

  /** Every transition ends in a declared state. */
  lemma OutgoingTargets(s: string)
    ensures SM.Targets(States(), SM.Outgoing(TRANSITIONS, s))
  {
    var out := SM.Outgoing(TRANSITIONS, s);
    StateNames();
    DeclaredTargets();
    forall i | 0 <= i < |out| ensures out[i].dest in States() {
      assert out[i] in TRANSITIONS;
    }
  }

  /** Every declared transition ends in a declared state. */
  lemma DeclaredTargets()
    ensures forall t :: t in TRANSITIONS ==> t.dest in STATES
  {
    forall t | t in TRANSITIONS ensures t.dest in STATES {
      var i :| 0 <= i < |TRANSITIONS| && TRANSITIONS[i] == t;
      assert i in {0, 1, 2, 3, 4, 5, 6, 7, 8, 9, 10};
    }
  }

  /** The user's machine is accepted by the `StateMachine` constructor. */
  lemma UserMachineChecks()
    ensures SM.Check(STATES, TRANSITIONS, NEED_TASK).None?
  {
    assert SM.Distinct(STATES);
    forall i | 0 <= i < |TRANSITIONS|
      ensures SM.TransitionError(STATES, TRANSITIONS[i]).None?
    {
      assert TRANSITIONS[i] in TRANSITIONS;
    }
  }

  /** `User`: the chat record, the queue and the machine driving them. */
  class User {
    const info: UserInfo
    const fsm: SM.Machine<Cond, Hook>
    var tasks: seq<T.Task>
    var pending: Option<T.Task>
    var lastMessage: Util.Response
    var lastAuth: Auth.AuthState
    var escalation: Deadline
    var effects: seq<Effect>
    /** The number of steps taken. */
    ghost var steps: nat

    /** The user's state as a value, with the ignored table `ignored`. */
    function Data(ignored: T.IgnoreTable): UserData
      reads this, fsm
    {
      UserData(fsm.state, tasks, pending, lastMessage, lastAuth, escalation, effects, ignored)
    }

    /** The machine is the user's machine. */
    ghost predicate Wired()
      reads this, fsm
    {
      && fsm.Valid()
      && fsm.states == States()
      && (forall s :: SM.OutgoingOf(fsm.transitions, s) == SM.Outgoing(TRANSITIONS, s))
    }

    ghost predicate Valid()
      reads this, fsm
    {
      Wired() && Inv(Data(map[]))
    }

    constructor (info: UserInfo)
      ensures Valid() && fresh(fsm)
      ensures this.info == info && Data(map[]) == Initial(map[]) && steps == 0
    {
      var r := SM.Machine.Create(STATES, TRANSITIONS, NEED_TASK, DURING, ON_ENTER, ON_EXIT);
      UserMachineChecks();
      this.info := info;
      fsm := r.value;
      tasks := [];
      pending := None;
      lastMessage := NO_MESSAGE;
      lastAuth := Auth.NoAuth;
      escalation := Never;
      effects := [];
      steps := 0;
    }

    method Send(key: string, ghost ign: T.IgnoreTable)
      modifies this
      ensures Data(ign) == ApplySend(old(Data(ign)), key) && steps == old(steps)
    {
      effects := effects + [Message(key)];
    }

    method ActOnNotPerformed(channel: Option<string>, ghost ign: T.IgnoreTable)
      modifies this
      ensures Data(ign) == ApplyActOnNotPerformed(old(Data(ign)), info.name, channel) && steps == old(steps)
    {
      effects := effects + [Message("escalated")];
      if channel.Some? && pending.Some? {
        var t := pending.value;
        var comment := if lastMessage.text != "" then lastMessage.text else NO_COMMENT;
        effects := effects + [Report(channel.value, info.name, t.title, t.description, Strings.PrefixLines("> ", comment), t.url)];
      }
    }

    method AutoEscalate(ghost ign: T.IgnoreTable)
      modifies this
      ensures Data(ign) == ApplyAutoEscalate(old(Data(ign))) && steps == old(steps)
    {
      if pending.Some? {
        var t := pending.value.(comment := pending.value.comment + ESCALATED_COMMENT);
        pending := Some(t);
        effects := effects + Stores(T.SetVerifying(t));
        escalation := Never;
        effects := effects + [Message("no_response")];
      }
    }

    method BeginAuth(ghost ign: T.IgnoreTable)
      modifies this
      ensures Data(ign) == ApplyBeginAuth(old(Data(ign))) && steps == old(steps)
    {
      effects := effects + [Message("sending_push")];
      if pending.Some? {
        effects := effects + [StartAuth(pending.value.description)];
      }
    }

    method NextTask(now: int, ghost ign: T.IgnoreTable)
      modifies this
      ensures Data(ign) == ApplyNextTask(old(Data(ign)), now) && steps == old(steps)
    {
      if |tasks| == 0 {
        return;
      }
      pending := Some(tasks[0]);
      tasks := tasks[1..];
      effects := effects + [AlertFor(pending.value)];
      lastMessage := NO_MESSAGE;
      var deadline: Util.Stamp;
      ghost var days: nat;
      deadline, days := Util.GetExpirationTime(Util.Stamp(now, 0), ESCALATION_TIME);
      escalation := At(deadline.utc);
    }

    method UpdateTaskResponse(ghost ign: T.IgnoreTable)
      modifies this
      ensures Data(ign) == ApplyUpdateTaskResponse(old(Data(ign))) && steps == old(steps)
    {
      if lastMessage.answer.Some? && pending.Some? {
        pending := Some(pending.value.(performed := lastMessage.answer.value, comment := lastMessage.text));
      }
      lastMessage := NO_MESSAGE;
    }

    method UpdateTaskAuth(ghost ign: T.IgnoreTable)
      modifies this
      ensures Data(ign) == ApplyUpdateTaskAuth(old(Data(ign))) && steps == old(steps)
    {
      if pending.None? {
        return;
      }
      if lastAuth == Auth.Authorized {
        effects := effects + [Message("good_auth")];
        pending := Some(pending.value.(authenticated := true));
      } else {
        effects := effects + [Message("bad_auth"), ResetAuth];
        pending := Some(pending.value.(authenticated := false));
      }
    }

    /** `_update_tasks`: the table is read and pruned, and the queue is cleaned. */
    method UpdateTasks(now: int, ign: T.IgnoreTable) returns (ign': T.IgnoreTable)
      modifies this
      ensures Data(ign') == ApplyUpdateTasks(old(Data(ign)), info.name, now) && steps == old(steps)
    {
      var ignored := T.Ignored(ign, info.name, now);
      ign' := T.Prune(ign, now);
      var cleaned, dropped := CleanQueue(tasks, ignored);
      tasks := cleaned;
      effects := effects + dropped;
    }

    method CompleteTask(now: int, ign: T.IgnoreTable) returns (ign': T.IgnoreTable)
      modifies this
      ensures Data(ign') == ApplyCompleteTask(old(Data(ign)), info.name, now) && steps == old(steps)
    {
      ign' := ign;
      if pending.None? {
        return;
      }
      var t := pending.value;
      if t.performed {
        ign' := T.IgnoreTask(ign', info.name, t.title, BACKOFF_REASON, BACKOFF_TIME, now);
      }
      effects := effects + Stores(T.SetVerifying(t));
      pending := None;
      lastMessage := NO_MESSAGE;
      ign' := UpdateTasks(now, ign');
      if |tasks| > 0 {
        effects := effects + [Message("bwtm")];
      } else {
        effects := effects + [Message("bye"), Cleanup];
      }
    }

    /** Runs one hook. */
    method RunHook(h: Hook, env: Env, ign: T.IgnoreTable) returns (ign': T.IgnoreTable)
      modifies this
      ensures Data(ign') == ApplyHook(h, old(Data(ign)), info.name, env) && steps == old(steps)
    {
      ign' := ign;
      match h
      case SendMessage(key) => Send(key, ign);
      case ActOnNotPerformed => ActOnNotPerformed(env.reportingChannel, ign);
      case AutoEscalate => AutoEscalate(ign);
      case UpdateAuth => lastAuth := env.authStatus;
      case BeginAuth => BeginAuth(ign);
      case NextTask => NextTask(env.now, ign);
      case UpdateTaskResponse => UpdateTaskResponse(ign);
      case ResetMessage => lastMessage := NO_MESSAGE;
      case UpdateTaskAuth => UpdateTaskAuth(ign);
      case CompleteTask => ign' := CompleteTask(env.now, ign);
    }

    /** Runs hooks in order. */
    method RunHooks(hs: seq<Hook>, env: Env, ign: T.IgnoreTable) returns (ign': T.IgnoreTable)
      modifies this
      ensures Data(ign') == ApplyHooks(hs, old(Data(ign)), info.name, env) && steps == old(steps)
    {
      ign' := ign;
      var i := 0;
      while i < |hs|
        invariant 0 <= i <= |hs|
        invariant Data(ign') == ApplyHooks(hs[..i], old(Data(ign)), info.name, env) && steps == old(steps)
      {
        assert hs[..i + 1][..i] == hs[..i];
        ign' := RunHook(hs[i], env, ign');
        i := i + 1;
      }
      assert hs[..i] == hs;
    }

    /** `step()`. */
    method Step(env: Env, ign: T.IgnoreTable) returns (ign': T.IgnoreTable)
      requires Valid()
      modifies this, fsm
      ensures Valid()
      ensures Data(ign') == UserStep(old(Data(ign)), info.name, env)
      ensures steps == old(steps) + 1
    {
      ghost var d0 := Data(ign);
      StepKeepsInv(d0, info.name, env);
      var fired, n;
      ign', fired, n := Fire(env, ign);
      ign' := RunHooks(fired[n..], env, ign');
      steps := steps + 1;
    }

    /**
     * The first part of `step()`: the `during` hooks run and the machine
     * takes its first enabled transition; running the `fired` hooks from
     * `n` on then completes the step.
     */
    method Fire(env: Env, ign: T.IgnoreTable) returns (ign': T.IgnoreTable, fired: seq<Hook>, n: nat)
      requires Valid()
      modifies this, fsm
      ensures Wired() && steps == old(steps) && n <= |fired|
      ensures UserStep(old(Data(ign)), info.name, env) == ApplyHooks(fired[n..], Data(ign'), info.name, env)
    {
      ghost var d0 := Data(ign);
      ghost var out := SM.Outgoing(TRANSITIONS, d0.state);
      UserStepMatchesMachine(d0, info.name, env);
      var during := SM.Run(fsm.states[fsm.state].during);
      ign' := RunHooks(during, env, ign);
      var snapshot := Data(ign');
      assert snapshot == ApplyHooks(during, d0, info.name, env);
      assert SM.OutgoingOf(fsm.transitions, d0.state) == out;
      fired := fsm.Step(Guards(snapshot, env));
      ghost var r := SM.StepResult(States(), out, d0.state, Guards(snapshot, env));
      assert (fsm.state, fired) == r;
      assert Data(ign') == snapshot.(state := r.0);
      n := |during|;
    }

    /** `add_task(task)`. */
    method AddTask(task: T.Task, now: int, ign: T.IgnoreTable) returns (ign': T.IgnoreTable)
      requires Valid()
      modifies this
      ensures Valid()
      ensures Data(ign') == ApplyAddTask(old(Data(ign)), task, info.name, now) && steps == old(steps)
    {
      tasks := tasks + [task];
      ign' := UpdateTasks(now, ign);
    }

    /** `positive_response(text)`. */
    method PositiveResponse(text: string, ghost ign: T.IgnoreTable)
      requires Valid()
      modifies this
      ensures Valid()
      ensures Data(ign) == old(Data(ign)).(lastMessage := Util.TupleBuilder(Some(true), Some(text))) && steps == old(steps)
    {
      lastMessage := Util.TupleBuilder(Some(true), Some(text));
    }

    /** `negative_response(text)`. */
    method NegativeResponse(text: string, ghost ign: T.IgnoreTable)
      requires Valid()
      modifies this
      ensures Valid()
      ensures Data(ign) == old(Data(ign)).(lastMessage := Util.TupleBuilder(Some(false), Some(text))) && steps == old(steps)
    {
      lastMessage := Util.TupleBuilder(Some(false), Some(text));
    }

    /** Something the bot does on this user's behalf (a greeting, a command reply, a task write). */
    method Record(e: Effect, ghost ign: T.IgnoreTable)
      requires Valid()
      modifies this
      ensures Valid()
      ensures Data(ign) == old(Data(ign)).(effects := old(effects) + [e]) && steps == old(steps)
    {
      effects := effects + [e];
    }
  }

  // What the queue operations do.

  /** A task stays queued exactly when its title is not ignored. */
  lemma {:induction false} KeptMembers(ts: seq<T.Task>, ignored: map<string, string>)
    ensures forall t :: t in Kept(ts, ignored) <==> t in ts && t.title !in ignored
  {
    if |ts| > 0 {
      KeptMembers(ts[..|ts| - 1], ignored);
      assert ts == ts[..|ts| - 1] + [ts[|ts| - 1]];
    }
  }

  /** A queue with nothing ignored is kept whole, and nothing is escalated. */
  lemma {:induction false} KeptAll(ts: seq<T.Task>, ignored: map<string, string>)
    requires forall i :: 0 <= i < |ts| ==> ts[i].title !in ignored
    ensures Kept(ts, ignored) == ts && Dropped(ts, ignored) == []
  {
    if |ts| > 0 {
      KeptAll(ts[..|ts| - 1], ignored);
      assert ts == ts[..|ts| - 1] + [ts[|ts| - 1]];
    }
  }

  /**
   * `add_task` on a clean queue: a task whose title is not ignored joins the
   * end of the queue; an ignored one is escalated with the ignore reason as
   * its comment and never queued.
   */
  lemma AddTaskQueues(d: UserData, task: T.Task, name: string, now: int)
    requires forall i :: 0 <= i < |d.tasks| ==> d.tasks[i].title !in T.Ignored(d.ignored, name, now)
    ensures var ig := T.Ignored(d.ignored, name, now);
      var r := ApplyAddTask(d, task, name, now);
      && r.state == d.state && r.pending == d.pending
      && (task.title !in ig ==> r.tasks == d.tasks + [task] && r.effects == d.effects)
      && (task.title in ig ==> r.tasks == d.tasks
                               && r.effects == d.effects + Stores(T.SetVerifying(task.(comment := ig[task.title]))))
  {
    var ig := T.Ignored(d.ignored, name, now);
    KeptAppendClean(d.tasks, task, ig);
  }

  /** A task appended to a queue none of whose titles is ignored is the only one that can be dropped. */
  lemma KeptAppendClean(ts: seq<T.Task>, task: T.Task, ignored: map<string, string>)
    requires forall i :: 0 <= i < |ts| ==> ts[i].title !in ignored
    ensures Kept(ts + [task], ignored) == ts + (if task.title in ignored then [] else [task])
    ensures Dropped(ts + [task], ignored)
         == if task.title in ignored then Stores(T.SetVerifying(task.(comment := ignored[task.title]))) else []
  {
    KeptAll(ts, ignored);
    assert (ts + [task])[..|ts|] == ts;
  }

  // What one step does, state by state.

  /**
   * `UserStep` is the `StateMachine` step on the user's tables: the state
   * and hooks `step()` reports for the user's machine, run in order after the
   * `during` hook.
   */
  lemma UserStepMatchesMachine(d: UserData, name: string, env: Env)
    requires d.state in States()
    ensures var st := States();
      var during := SM.Run(st[d.state].during);
      var d1 := ApplyHooks(during, d, name, env);
      SM.Targets(st, SM.Outgoing(TRANSITIONS, d.state))
      && var r := SM.StepResult(st, SM.Outgoing(TRANSITIONS, d.state), d.state, Guards(d1, env));
         UserStep(d, name, env) == ApplyHooks(r.1[|during|..], d1.(state := r.0), name, env)
  {
    var st := States();
    StateNames();
    OutgoingFrom(d.state);
    OutgoingTargets(d.state);
    var during := SM.Run(st[d.state].during);
    assert during == SM.Run(SM.Get(DURING, d.state));
    var d1 := ApplyHooks(during, d, name, env);
    var out := SM.Outgoing(TRANSITIONS, d.state);
    match SM.FirstEnabled(out, Guards(d1, env))
    case None =>
      SM.StepWithoutTransition(st, out, d.state, Guards(d1, env));
      assert during[|during|..] == [];
    case Some(k) =>
      SM.StepTakesFirstEnabled(st, out, d.state, Guards(d1, env), k);
      assert st[d.state].onExit == SM.Get(ON_EXIT, d.state);
      assert st[out[k].dest].onEnter == SM.Get(ON_ENTER, out[k].dest);
      SM.AfterPrefix(during, SM.Run(out[k].action), SM.Run(st[d.state].onExit), SM.Run(st[out[k].dest].onEnter));
  }

  /** From `need_task` the user moves on exactly when a task is queued, and is alerted to the first one. */
  lemma NeedTaskStep(d: UserData, name: string, env: Env)
    requires d.state == NEED_TASK
    ensures |d.tasks| == 0 ==> UserStep(d, name, env) == d
    ensures |d.tasks| > 0 ==>
              UserStep(d, name, env)
              == d.(state := ACTION_PERFORMED_CHECK, pending := Some(d.tasks[0]), tasks := d.tasks[1..],
                    effects := d.effects + [AlertFor(d.tasks[0])], lastMessage := NO_MESSAGE,
                    escalation := At(Util.ExpirationTime(Util.Stamp(env.now, 0), ESCALATION_TIME).utc))
  {
    if |d.tasks| == 0 {
      assert SM.FirstEnabled(FROM_NEED_TASK, Guards(AfterDuring(d, name, env), env)).None?;
    } else {
      SM.FirstEnabledIs(FROM_NEED_TASK, Guards(AfterDuring(d, name, env), env), 0);
      assert Fired(NEED_TASK, FROM_NEED_TASK[0]) == [NextTask];
      ApplyOne(NextTask, d.(state := ACTION_PERFORMED_CHECK), name, env);
    }
  }

  lemma ApplyOne(h: Hook, d: UserData, name: string, env: Env)
    ensures ApplyHooks([h], d, name, env) == ApplyHook(h, d, name, env)
  {
    assert [h][..0] == [];
  }

  lemma ApplyTwo(h1: Hook, h2: Hook, d: UserData, name: string, env: Env)
    ensures ApplyHooks([h1, h2], d, name, env) == ApplyHook(h2, ApplyHook(h1, d, name, env), name, env)
  {
    assert [h1, h2][..1] == [h1];
    ApplyOne(h1, d, name, env);
  }

  /** The task with the user's answer recorded. */
  function Answered(t: T.Task, m: Util.Response, performed: bool): T.Task
  {
    t.(performed := performed, comment := m.text)
  }

  /** The task after `_auto_escalate`. */
  function Escalated(t: T.Task): T.Task
  {
    t.(comment := t.comment + ESCALATED_COMMENT)
  }

  /**
   * In `action_performed_check`, a "yes": finished at once when Duo already
   * authorizes the user, finished with "no_2fa" when the user cannot do 2FA,
   * else on to asking permission for a push. The answer is recorded in the task.
   */
  lemma ActionCheckConfirmed(d: UserData, name: string, env: Env)
    requires d.state == ACTION_PERFORMED_CHECK && d.pending.Some? && d.lastMessage.answer == Some(true)
    ensures var task := Answered(d.pending.value, d.lastMessage, true);
      var r := UserStep(d, name, env);
      && (env.authStatus == Auth.Authorized ==>
            r == d.(state := TASK_FINISHED, pending := Some(task), lastMessage := NO_MESSAGE))
      && (env.authStatus != Auth.Authorized && !env.canAuth ==>
            r == d.(state := TASK_FINISHED, pending := Some(task), lastMessage := NO_MESSAGE,
                    effects := d.effects + [Message("no_2fa")]))
      && (env.authStatus != Auth.Authorized && env.canAuth ==>
            r == d.(state := AUTH_PERMISSION_CHECK, pending := Some(task), lastMessage := NO_MESSAGE,
                    effects := d.effects + [Message("2fa")]))
  {
    if env.authStatus == Auth.Authorized {
      ConfirmedAlreadyAuthed(d, name, env);
    } else if !env.canAuth {
      ConfirmedCannotTwoFa(d, name, env);
    } else {
      ConfirmedAsksPermission(d, name, env);
    }
  }

  /** A confirmed action by a user already authorized finishes the task. */
  lemma ConfirmedAlreadyAuthed(d: UserData, name: string, env: Env)
    requires d.state == ACTION_PERFORMED_CHECK && d.pending.Some? && d.lastMessage.answer == Some(true)
    requires env.authStatus == Auth.Authorized
    ensures UserStep(d, name, env)
         == d.(state := TASK_FINISHED, pending := Some(Answered(d.pending.value, d.lastMessage, true)), lastMessage := NO_MESSAGE)
  {
    SM.FirstEnabledIs(FROM_ACTION_CHECK, Guards(AfterDuring(d, name, env), env), 0);
    assert Fired(ACTION_PERFORMED_CHECK, FROM_ACTION_CHECK[0]) == [UpdateTaskResponse];
    ApplyOne(UpdateTaskResponse, d.(state := TASK_FINISHED), name, env);
  }

  /** A confirmed action by a user who cannot use 2FA finishes the task with 'no_2fa'. */
  lemma ConfirmedCannotTwoFa(d: UserData, name: string, env: Env)
    requires d.state == ACTION_PERFORMED_CHECK && d.pending.Some? && d.lastMessage.answer == Some(true)
    requires env.authStatus != Auth.Authorized && !env.canAuth
    ensures UserStep(d, name, env)
         == d.(state := TASK_FINISHED, pending := Some(Answered(d.pending.value, d.lastMessage, true)), lastMessage := NO_MESSAGE,
               effects := d.effects + [Message("no_2fa")])
  {
    SM.FirstEnabledIs(FROM_ACTION_CHECK, Guards(AfterDuring(d, name, env), env), 1);
    assert Fired(ACTION_PERFORMED_CHECK, FROM_ACTION_CHECK[1]) == [SendMessage("no_2fa"), UpdateTaskResponse];
    ApplyTwo(SendMessage("no_2fa"), UpdateTaskResponse, d.(state := TASK_FINISHED), name, env);
  }

  /** A confirmed action by a user who can use 2FA moves on to asking permission, with '2fa'. */
  lemma ConfirmedAsksPermission(d: UserData, name: string, env: Env)
    requires d.state == ACTION_PERFORMED_CHECK && d.pending.Some? && d.lastMessage.answer == Some(true)
    requires env.authStatus != Auth.Authorized && env.canAuth
    ensures UserStep(d, name, env)
         == d.(state := AUTH_PERMISSION_CHECK, pending := Some(Answered(d.pending.value, d.lastMessage, true)), lastMessage := NO_MESSAGE,
               effects := d.effects + [Message("2fa")])
  {
    SM.FirstEnabledIs(FROM_ACTION_CHECK, Guards(AfterDuring(d, name, env), env), 2);
    assert Fired(ACTION_PERFORMED_CHECK, FROM_ACTION_CHECK[2]) == [UpdateTaskResponse, SendMessage("2fa")];
    ApplyTwo(UpdateTaskResponse, SendMessage("2fa"), d.(state := AUTH_PERMISSION_CHECK), name, env);
  }

  /**
   * In `action_performed_check`, a "no": the task is finished, the user is told
   * it was escalated, and the reporting channel gets the report.
   */
  lemma ActionCheckDenied(d: UserData, name: string, env: Env)
    requires d.state == ACTION_PERFORMED_CHECK && d.pending.Some? && d.lastMessage.answer == Some(false)
    ensures UserStep(d, name, env)
         == d.(state := TASK_FINISHED, pending := Some(Answered(d.pending.value, d.lastMessage, false)),
               lastMessage := NO_MESSAGE,
               effects := d.effects + [Message("escalated")] + ReportFor(d, name, env.reportingChannel))
  {
    SM.FirstEnabledIs(FROM_ACTION_CHECK, Guards(AfterDuring(d, name, env), env), 3);
    assert Fired(ACTION_PERFORMED_CHECK, FROM_ACTION_CHECK[3]) == [ActOnNotPerformed, UpdateTaskResponse];
    ApplyTwo(ActOnNotPerformed, UpdateTaskResponse, d.(state := TASK_FINISHED), name, env);
  }

  /**
   * In `action_performed_check` without an answer: nothing happens until the
   * deadline has passed; then the task is escalated and finished.
   */
  lemma ActionCheckSilent(d: UserData, name: string, env: Env)
    requires d.state == ACTION_PERFORMED_CHECK && d.pending.Some? && d.lastMessage.answer.None?
    ensures !Holds(SlowResponseTime, d, env) ==> UserStep(d, name, env) == d
    ensures Holds(SlowResponseTime, d, env) ==>
              var task := Escalated(d.pending.value);
              UserStep(d, name, env)
              == d.(state := TASK_FINISHED, pending := Some(task), lastMessage := NO_MESSAGE, escalation := Never,
                    effects := d.effects + Stores(T.SetVerifying(task)) + [Message("no_response")])
  {
    if Holds(SlowResponseTime, d, env) {
      SM.FirstEnabledIs(FROM_ACTION_CHECK, Guards(AfterDuring(d, name, env), env), 4);
      assert Fired(ACTION_PERFORMED_CHECK, FROM_ACTION_CHECK[4]) == [AutoEscalate, UpdateTaskResponse];
      ApplyTwo(AutoEscalate, UpdateTaskResponse, d.(state := TASK_FINISHED), name, env);
    } else {
      assert SM.FirstEnabled(FROM_ACTION_CHECK, Guards(AfterDuring(d, name, env), env)).None?;
    }
  }

  /** In `auth_permission_check`, a "yes" sends a Duo push for the task and waits for it. */
  lemma PermissionGranted(d: UserData, name: string, env: Env)
    requires d.state == AUTH_PERMISSION_CHECK && d.pending.Some? && d.lastMessage.answer == Some(true)
    ensures UserStep(d, name, env)
         == d.(state := WAITING_ON_AUTH, lastMessage := NO_MESSAGE,
               effects := d.effects + [Message("sending_push"), StartAuth(d.pending.value.description)])
  {
    SM.FirstEnabledIs(FROM_PERMISSION_CHECK, Guards(AfterDuring(d, name, env), env), 0);
    assert Fired(AUTH_PERMISSION_CHECK, FROM_PERMISSION_CHECK[0]) == [ResetMessage, BeginAuth];
    ApplyTwo(ResetMessage, BeginAuth, d.(state := WAITING_ON_AUTH), name, env);
  }

  /** In `auth_permission_check`, a "no" finishes the task as escalated. */
  lemma PermissionDenied(d: UserData, name: string, env: Env)
    requires d.state == AUTH_PERMISSION_CHECK && d.pending.Some? && d.lastMessage.answer == Some(false)
    ensures UserStep(d, name, env)
         == d.(state := TASK_FINISHED, lastMessage := NO_MESSAGE, effects := d.effects + [Message("escalated")])
  {
    SM.FirstEnabledIs(FROM_PERMISSION_CHECK, Guards(AfterDuring(d, name, env), env), 1);
    assert Fired(AUTH_PERMISSION_CHECK, FROM_PERMISSION_CHECK[1]) == [SendMessage("escalated"), ResetMessage];
    ApplyTwo(SendMessage("escalated"), ResetMessage, d.(state := TASK_FINISHED), name, env);
  }

  /** In `auth_permission_check` without an answer: the same deadline applies. */
  lemma PermissionSilent(d: UserData, name: string, env: Env)
    requires d.state == AUTH_PERMISSION_CHECK && d.pending.Some? && d.lastMessage.answer.None?
    ensures !Holds(SlowResponseTime, d, env) ==> UserStep(d, name, env) == d
    ensures Holds(SlowResponseTime, d, env) ==>
              var task := Escalated(d.pending.value);
              UserStep(d, name, env)
              == d.(state := TASK_FINISHED, pending := Some(task), lastMessage := NO_MESSAGE, escalation := Never,
                    effects := d.effects + Stores(T.SetVerifying(task)) + [Message("no_response")])
  {
    if Holds(SlowResponseTime, d, env) {
      SM.FirstEnabledIs(FROM_PERMISSION_CHECK, Guards(AfterDuring(d, name, env), env), 2);
      assert Fired(AUTH_PERMISSION_CHECK, FROM_PERMISSION_CHECK[2]) == [AutoEscalate, ResetMessage];
      ApplyTwo(AutoEscalate, ResetMessage, d.(state := TASK_FINISHED), name, env);
    } else {
      assert SM.FirstEnabled(FROM_PERMISSION_CHECK, Guards(AfterDuring(d, name, env), env)).None?;
    }
  }

  /**
   * In `waiting_on_auth` the Duo status is read on every step; once it is
   * authorized or denied the task records the outcome and is finished, and a
   * denial also resets Duo.
   */
  lemma WaitingStep(d: UserData, name: string, env: Env)
    requires d.state == WAITING_ON_AUTH && d.pending.Some?
    ensures env.authStatus == Auth.Authorized ==>
              UserStep(d, name, env)
              == d.(state := TASK_FINISHED, lastAuth := env.authStatus,
                    pending := Some(d.pending.value.(authenticated := true)),
                    effects := d.effects + [Message("good_auth")])
    ensures env.authStatus == Auth.Denied ==>
              UserStep(d, name, env)
              == d.(state := TASK_FINISHED, lastAuth := env.authStatus,
                    pending := Some(d.pending.value.(authenticated := false)),
                    effects := d.effects + [Message("bad_auth"), ResetAuth])
    ensures env.authStatus != Auth.Authorized && env.authStatus != Auth.Denied ==>
              UserStep(d, name, env) == d.(lastAuth := env.authStatus)
  {
    ApplyOne(UpdateAuth, d, name, env);
    assert AfterDuring(d, name, env) == d.(lastAuth := env.authStatus);
    if env.authStatus == Auth.Authorized || env.authStatus == Auth.Denied {
      SM.FirstEnabledIs(FROM_WAITING, Guards(AfterDuring(d, name, env), env), 0);
      assert Fired(WAITING_ON_AUTH, FROM_WAITING[0]) == [UpdateTaskAuth];
      ApplyOne(UpdateTaskAuth, d.(lastAuth := env.authStatus, state := TASK_FINISHED), name, env);
    } else {
      assert SM.FirstEnabled(FROM_WAITING, Guards(AfterDuring(d, name, env), env)).None?;
    }
  }

  /** From `task_finished` the user always returns to `need_task`, completing the task on the way. */
  lemma FinishedStep(d: UserData, name: string, env: Env)
    requires d.state == TASK_FINISHED
    ensures UserStep(d, name, env) == ApplyCompleteTask(d, name, env.now).(state := NEED_TASK)
  {
    SM.FirstEnabledIs(FROM_FINISHED, Guards(AfterDuring(d, name, env), env), 0);
    assert Fired(TASK_FINISHED, FROM_FINISHED[0]) == [CompleteTask];
    ApplyOne(CompleteTask, d.(state := NEED_TASK), name, env);
  }

  /**
   * `_complete_task`: the task is escalated with its final response and
   * released; a confirmed alert is backed off for 21 hours, so queued copies
   * of it are dropped; the user is told "bwtm" when tasks remain, else "bye"
   * and leaves the active users.
   */
  lemma CompleteTaskOutcome(d: UserData, name: string, now: int)
    requires d.pending.Some?
    ensures var t := d.pending.value;
      var r := ApplyCompleteTask(d, name, now);
      && r.pending.None? && r.lastMessage == NO_MESSAGE && r.state == d.state
      && |r.effects| > |d.effects| + 2
      && r.effects[..|d.effects| + 2] == d.effects + Stores(T.SetVerifying(t))
      && (t.performed ==> T.Lookup(r.ignored, name, t.title) == Some(T.IgnoreEntry(BACKOFF_REASON, now + BACKOFF_TIME)))
      && (t.performed ==> forall q :: q in r.tasks ==> q.title != t.title)
      && (forall q :: q in r.tasks ==> q in d.tasks)
      && (r.effects[|r.effects| - 1] == Cleanup <==> |r.tasks| == 0)
  {
    var t := d.pending.value;
    var table := if t.performed then T.IgnoreTask(d.ignored, name, t.title, BACKOFF_REASON, BACKOFF_TIME, now) else d.ignored;
    var ig := T.Ignored(table, name, now);
    KeptMembers(d.tasks, ig);
    assert BACKOFF_TIME > 0;
    var d0 := d.(ignored := table, pending := None, lastMessage := NO_MESSAGE, effects := d.effects + Stores(T.SetVerifying(t)));
    var d1 := ApplyUpdateTasks(d0, name, now);
    assert d1.effects[..|d.effects| + 2] == d.effects + Stores(T.SetVerifying(t));
  }

  /** Every step keeps the pending task present exactly past `need_task`. */
  lemma StepKeepsInv(d: UserData, name: string, env: Env)
    requires Inv(d)
    ensures Inv(UserStep(d, name, env))
  {
    var m := d.lastMessage.answer;
    if d.state == NEED_TASK {
      NeedTaskStep(d, name, env);
    } else if d.state == ACTION_PERFORMED_CHECK {
      match m
      case Some(yes) =>
        if yes {
          ActionCheckConfirmed(d, name, env);
        } else {
          ActionCheckDenied(d, name, env);
        }
      case None =>
        ActionCheckSilent(d, name, env);
    } else if d.state == AUTH_PERMISSION_CHECK {
      match m
      case Some(yes) =>
        if yes {
          PermissionGranted(d, name, env);
        } else {
          PermissionDenied(d, name, env);
        }
      case None =>
        PermissionSilent(d, name, env);
    } else if d.state == WAITING_ON_AUTH {
      WaitingStep(d, name, env);
    } else {
      FinishedStep(d, name, env);
      CompleteTaskOutcome(d, name, env.now);
    }
  }
}
