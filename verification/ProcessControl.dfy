/** The suspend and resume channel between the client and one application
    (client/app_control.cpp:161-187, 624-648, 1114-1165, api/boinc_api.cpp:913-998,
    1386-1395): a queue in the client, a shared slot for one message, and a
    reader in the application. */
module ProcessControl {
  import opened ClientTypes
  import opened MessageQueue
  import opened Wrappers

  // ---- the protocol on values -------------------------------------------

  /** The application's side.  `direct` is the option to act on messages in the
      timer thread, `critical` the depth of critical sections. */
  datatype App = App(
    direct: bool, suspended: bool, suspendRequest: bool, critical: int,
    quitRequest: bool, abortRequest: bool, haveNetwork: bool, reread: bool, exited: bool)

  datatype Sys = Sys(state: TaskState, queue: seq<Msg>, slot: Option<Msg>, app: App)

  predicate Toggles(m: Msg) {
    m.Suspend? || m.Resume?
  }

  predicate Informs(m: Msg) {
    m.RereadAppInfo? || m.NetworkAvailable?
  }

  /** `msg_queue_send`: straight into the slot if nothing is waiting. */
  function Sent(s: Sys, m: Msg): Sys {
    if s.queue == [] && s.slot.None? then s.(slot := Some(m)) else s.(queue := s.queue + [m])
  }

  function Polled(s: Sys): Sys {
    if s.queue != [] && s.slot.None? then s.(slot := Some(s.queue[0]), queue := s.queue[1..]) else s
  }

  /** `suspend` and `unsuspend`: an opposite message at the end of the queue is
      taken back, otherwise a message is sent. */
  function AfterSuspend(s: Sys): Sys {
    (if Purges(s.queue, Resume) then s.(queue := Front(s.queue)) else Sent(s, Suspend)).(state := Suspended)
  }

  function AfterUnsuspend(s: Sys): Sys {
    (if Purges(s.queue, Suspend) then s.(queue := Front(s.queue)) else Sent(s, Resume)).(state := Executing)
  }

  /** What a suspend or resume does to the application. */
  function Toggled(a: App, m: Msg): App {
    match m
    case Suspend =>
      if a.direct && a.critical != 0 then a.(suspendRequest := true)
      else if a.direct then a.(suspended := true, suspendRequest := false)
      else a.(suspended := true)
    case Resume => a.(suspended := false)
    case _ => a
  }

  /** What a quit or abort does, or one that has been put off. */
  function Stopped(a: App, m: Msg): App {
    var quit := a.quitRequest || m.Quit?;
    var abort := a.abortRequest || m.Abort?;
    a.(quitRequest := quit, abortRequest := abort, exited := a.exited
      || ((quit || abort) && a.critical == 0 && a.direct))
  }

  /** What a message does to the application. */
  function OnMsg(a: App, m: Msg): App {
    var b := Stopped(Toggled(a, m), m);
    b.(reread := b.reread || m.RereadAppInfo?, haveNetwork := b.haveNetwork || m.NetworkAvailable?)
  }

  /** What is done at the end of each call, outside critical sections. */
  function Deferred(a: App): App {
    if a.exited || !a.direct || a.critical != 0 then a
    else if a.quitRequest || a.abortRequest then a.(exited := true)
    else a.(suspended := a.suspended || a.suspendRequest, suspendRequest := false)
  }

  /** `handle_process_control_msg`, called by the timer thread. */
  function Handled(s: Sys): Sys {
    if s.app.exited then s
    else if s.slot.Some? then
      var a := OnMsg(s.app, s.slot.value);
      s.(slot := None, app := if a.exited then a else Deferred(a))
    else s.(app := Deferred(s.app))
  }

  // ---- first in, first out, with cancellation ----------------------------

  /** Messages on their way, oldest first. */
  function InTransit(s: Sys): seq<Msg> {
    (if s.slot.Some? then [s.slot.value] else []) + s.queue
  }

  /** What the client did to the queue: messages sent and messages taken back. */
  datatype Act = Submit(msg: Msg) | TakeBack(msg: Msg)

  function AfterAct(before: seq<Msg>, a: Act): seq<Msg> {
    match a
    case Submit(m) => before + [m]
    case TakeBack(m) => if Purges(before, m) then Front(before) else before
  }

  /** The messages sent, without those taken back again. */
  function Net(acts: seq<Act>): seq<Msg> {
    if acts == [] then [] else AfterAct(Net(acts[..|acts| - 1]), acts[|acts| - 1])
  }

  lemma SendIsLast(s: Sys, m: Msg)
    ensures InTransit(Sent(s, m)) == InTransit(s) + [m]
  {
  }

  lemma PollMovesNothing(s: Sys)
    ensures InTransit(Polled(s)) == InTransit(s)
  {
    if s.queue != [] && s.slot.None? {
      assert [s.queue[0]] + s.queue[1..] == s.queue;
    }
  }

  lemma ReadTakesFirst(s: Sys)
    requires s.slot.Some? && !s.app.exited
    ensures InTransit(s) == [s.slot.value] + InTransit(Handled(s))
  {
  }

  lemma PurgeTakesLast(s: Sys, m: Msg)
    requires Purges(s.queue, m)
    ensures Purges(InTransit(s), m) && InTransit(s.(queue := Front(s.queue))) == Front(InTransit(s))
  {
    assert s.queue == Front(s.queue) + [m];
  }

  // ---- no two toggles in a row ------------------------------------------

  ghost predicate NoTwoToggles(q: seq<Msg>) {
    forall i :: 0 < i < |q| ==> !(Toggles(q[i - 1]) && Toggles(q[i]))
  }

  function Count(q: seq<Msg>): (n: nat)
    ensures n <= |q|
  {
    if q == [] then 0 else Count(Front(q)) + if Toggles(q[|q| - 1]) then 1 else 0
  }

  /** Toggles alone cannot make the queue grow: there is at most one more of
      them than of the other messages. */
  lemma {:induction false} TogglesAreFew(q: seq<Msg>)
    requires NoTwoToggles(q)
    ensures 2 * Count(q) <= |q| + 1
    ensures q != [] && !Toggles(q[|q| - 1]) ==> 2 * Count(q) <= |q|
  {
    if q != [] {
      TogglesAreFew(Front(q));
      if Toggles(q[|q| - 1]) && |q| > 1 {
        assert Front(q)[|q| - 2] == q[|q| - 2];
      }
    }
  }

  // ---- agreement --------------------------------------------------------

  /** Whether the application will be suspended once it has read `q`. */
  function Outcome(q: seq<Msg>, suspended: bool): bool {
    if q == [] then suspended
    else match q[|q| - 1]
      case Suspend => true
      case Resume => false
      case _ => Outcome(Front(q), suspended)
  }

  predicate HasToggle(q: seq<Msg>) {
    exists i :: 0 <= i < |q| && Toggles(q[i])
  }

  /** Client and application agree about what is on its way. */
  ghost predicate Agrees(s: Sys) {
    Outcome(InTransit(s), Base(s)) == s.state.Suspended?
  }

  predicate Live(s: Sys) {
    s.state.Executing? || s.state.Suspended?
  }

  /** The queue never has two toggles in a row, and its end tells what the task
      is: this does not depend on what the application does. */
  ghost predicate Coherent(s: Sys) {
    && NoTwoToggles(s.queue)
    && (s.state.Executing? ==> !Purges(s.queue, Suspend)) && (s.state.Suspended? ==> !Purges(s.queue, Resume))
  }

  function Base(s: Sys): bool {
    Told(s.app)
  }

  lemma {:induction false} OutcomeOfToggles(q: seq<Msg>, a: bool, b: bool)
    ensures HasToggle(q) ==> Outcome(q, a) == Outcome(q, b)
    ensures !HasToggle(q) ==> Outcome(q, a) == a
  {
    if q != [] {
      OutcomeOfToggles(Front(q), a, b);
      if Toggles(q[|q| - 1]) {
        assert HasToggle(q);
      } else if HasToggle(q) {
        var i :| 0 <= i < |q| && Toggles(q[i]);
        assert Toggles(Front(q)[i]);
      }
    }
  }

  lemma {:induction false} OutcomeOfFirst(m: Msg, q: seq<Msg>, a: bool)
    ensures Outcome([m] + q, a) == Outcome(q, Outcome([m], a))
  {
    if q == [] {
      assert [m] + q == [m];
    } else {
      assert Front([m] + q) == [m] + Front(q);
      OutcomeOfFirst(m, Front(q), a);
    }
  }

  // ---- runs -------------------------------------------------------------

  /** A step of the client, of the timer thread, or of the application. */
  datatype Event =
    | ClientSuspends | ClientResumes | ClientSends(msg: Msg) | ClientQuits | ClientAborts | ClientPolls
    | TimerTick | EnterCritical | LeaveCritical

  /** The client only suspends an executing task, and only resumes a suspended one. */
  function Next(s: Sys, e: Event): Sys {
    match e
    case ClientSuspends => if s.state.Executing? then AfterSuspend(s) else s
    case ClientResumes => if s.state.Suspended? then AfterUnsuspend(s) else s
    case ClientSends(m) => if Informs(m) then Sent(s, m) else s
    case ClientQuits => Sent(s, Quit).(state := QuitPending)
    case ClientAborts => Sent(s, Abort).(state := AbortPending)
    case ClientPolls => Polled(s)
    case TimerTick => Handled(s)
    case EnterCritical => s.(app := s.app.(critical := s.app.critical + 1))
    case LeaveCritical => s.(app := s.app.(critical := if s.app.critical - 1 < 0 then 0 else s.app.critical - 1))
  }

  /** A process has just been started. */
  function Started(direct: bool): Sys {
    Sys(Executing, [], None, App(direct, false, false, 0, false, false, false, false, false))
  }

  function Run(s: Sys, es: seq<Event>): Sys {
    if es == [] then s else Next(Run(s, es[..|es| - 1]), es[|es| - 1])
  }

  lemma AppendKeeps(q: seq<Msg>, m: Msg)
    requires NoTwoToggles(q) && (Toggles(m) ==> !Purges(q, Suspend) && !Purges(q, Resume))
    ensures NoTwoToggles(q + [m])
  {
  }

  lemma FrontOfToggle(q: seq<Msg>)
    requires NoTwoToggles(q) && q != [] && Toggles(q[|q| - 1])
    ensures NoTwoToggles(Front(q)) && !Purges(Front(q), Suspend) && !Purges(Front(q), Resume)
  {
    assert |q| > 1 ==> !Toggles(q[|q| - 1 - 1]);
  }

  lemma TailKeeps(q: seq<Msg>)
    requires NoTwoToggles(q) && q != []
    ensures NoTwoToggles(q[1..])
  {
    forall i | 0 < i < |q[1..]| ensures !(Toggles(q[1..][i - 1]) && Toggles(q[1..][i])) {
      var k := i + 1;
      assert q[1..][i - 1] == q[k - 1] && q[1..][i] == q[k];
    }
  }

  lemma CoherenceStep(s: Sys, e: Event)
    requires Coherent(s)
    ensures Coherent(Next(s, e))
  {
    match e {
      case ClientSuspends =>
        if s.state.Executing? {
          if Purges(s.queue, Resume) {
            FrontOfToggle(s.queue);
          } else {
            AppendKeeps(s.queue, Suspend);
          }
        }
      case ClientResumes =>
        if s.state.Suspended? {
          if Purges(s.queue, Suspend) {
            FrontOfToggle(s.queue);
          } else {
            AppendKeeps(s.queue, Resume);
          }
        }
      case ClientPolls =>
        if s.queue != [] {
          TailKeeps(s.queue);
        }
      case ClientSends(m) =>
        if Informs(m) {
          AppendKeeps(s.queue, m);
        }
      case ClientQuits => AppendKeeps(s.queue, Quit);
      case ClientAborts => AppendKeeps(s.queue, Abort);
      case _ =>
    }
  }

  /** On every run, two toggles are never next to each other in the queue. */
  lemma {:induction false} CoherentOverRuns(direct: bool, es: seq<Event>)
    ensures Coherent(Run(Started(direct), es))
  {
    if es != [] {
      CoherentOverRuns(direct, es[..|es| - 1]);
      CoherenceStep(Run(Started(direct), es[..|es| - 1]), es[|es| - 1]);
    }
  }

  ghost predicate OnlyToggles(q: seq<Msg>) {
    forall i :: 0 <= i < |q| ==> Toggles(q[i])
  }

  predicate SendsToggle(e: Event) {
    !e.ClientSends? && !e.ClientQuits? && !e.ClientAborts?
  }

  lemma {:induction false} OnlyTogglesQueued(direct: bool, es: seq<Event>)
    requires forall i :: 0 <= i < |es| ==> SendsToggle(es[i])
    ensures OnlyToggles(Run(Started(direct), es).queue)
  {
    if es != [] {
      OnlyTogglesQueued(direct, es[..|es| - 1]);
    }
  }

  /** However often the client toggles, at most one toggle waits in its queue. */
  lemma TogglingWaitsOnce(direct: bool, es: seq<Event>)
    requires forall i :: 0 <= i < |es| ==> SendsToggle(es[i])
    ensures |Run(Started(direct), es).queue| <= 1
  {
    OnlyTogglesQueued(direct, es);
    CoherentOverRuns(direct, es);
    AtMostOne(Run(Started(direct), es).queue);
  }

  lemma AtMostOne(q: seq<Msg>)
    ensures OnlyToggles(q) && |q| > 1 ==> !NoTwoToggles(q)
  {
    if OnlyToggles(q) && |q| > 1 {
      var i := 1;
      assert Toggles(q[i - 1]) && Toggles(q[i]);
    }
  }

  // ---- agreement over runs ----------------------------------------------

  /** Client and application agree, and will if the client now suspends or resumes. */
  ghost predicate Follows(s: Sys) {
    Agrees(s) && Agrees(Next(s, ClientSuspends)) && Agrees(Next(s, ClientResumes))
  }

  /** A toggle that the client can still take back makes a difference. */
  ghost predicate EndCounts(s: Sys) {
    s.queue != [] && Toggles(s.queue[|s.queue| - 1]) ==> Outcome(Front(InTransit(s)), Base(s)) != s.state.Suspended?
  }

  lemma SuspendAgrees(s: Sys)
    ensures Agrees(AfterSuspend(s)) <==> (Purges(s.queue, Resume) ==> Outcome(Front(InTransit(s)), Base(s)))
  {
    SendIsLast(s, Suspend);
    if Purges(s.queue, Resume) { PurgeTakesLast(s, Resume); }
  }

  lemma ResumeAgrees(s: Sys)
    ensures Agrees(AfterUnsuspend(s)) <==> (Purges(s.queue, Suspend) ==> !Outcome(Front(InTransit(s)), Base(s)))
  {
    SendIsLast(s, Resume);
    if Purges(s.queue, Suspend) { PurgeTakesLast(s, Suspend); }
  }

  lemma FollowsIff(s: Sys)
    requires Live(s) && Coherent(s)
    ensures Follows(s) <==> Agrees(s) && EndCounts(s)
  {
    SuspendAgrees(s);
    ResumeAgrees(s);
    assert Next(s, ClientSuspends) == if s.state.Executing? then AfterSuspend(s) else s;
    assert Next(s, ClientResumes) == if s.state.Suspended? then AfterUnsuspend(s) else s;
  }

  lemma ToggleKeepsEnd(s: Sys)
    requires Live(s) && Coherent(s) && Agrees(s)
    ensures s.state.Executing? ==> EndCounts(AfterSuspend(s))
    ensures s.state.Suspended? ==> EndCounts(AfterUnsuspend(s))
  {
    SendIsLast(s, Suspend);
    SendIsLast(s, Resume);
    if s.queue != [] && Toggles(s.queue[|s.queue| - 1]) { FrontOfToggle(s.queue); }
    assert Front(InTransit(s) + [Suspend]) == InTransit(s) && Front(InTransit(s) + [Resume]) == InTransit(s);
  }

  lemma SendKeeps(s: Sys, m: Msg)
    requires Agrees(s) && !Toggles(m)
    ensures Agrees(Sent(s, m)) && EndCounts(Sent(s, m))
  {
    SendIsLast(s, m);
    assert Front(InTransit(s) + [m]) == InTransit(s);
  }

  lemma CriticalKeeps(s: Sys, n: int)
    ensures Agrees(s.(app := s.app.(critical := n))) == Agrees(s)
            && EndCounts(s.(app := s.app.(critical := n))) == EndCounts(s)
  {
  }

  lemma PollKeeps(s: Sys)
    requires Agrees(s) && EndCounts(s)
    ensures Agrees(Polled(s)) && EndCounts(Polled(s))
  {
    PollMovesNothing(s);
  }

  /** A resume is read while the application has put off a suspend. */
  predicate Stale(s: Sys) {
    !s.app.exited && s.slot == Some(Resume) && s.app.suspendRequest
  }

  /** Such a read does harm unless a later toggle is on its way that the client
      cannot take back. */
  predicate Harmful(s: Sys) {
    Stale(s) && (s.queue == [] || !HasToggle(Front(s.queue)))
  }

  lemma BaseAfterRead(s: Sys)
    requires s.slot.Some? && !s.app.exited
    ensures Base(Handled(s)) == (Stale(s) || Outcome([s.slot.value], Base(s)))
    ensures Stale(s) ==> !Outcome([s.slot.value], Base(s))
  {
    assert Front([s.slot.value]) == [];
    ToldAfter(s.app, s.slot.value);
    ToldLater(OnMsg(s.app, s.slot.value));
  }

  /** Whether the application is, or has been asked to be, suspended. */
  predicate Told(a: App) {
    a.suspended || a.suspendRequest
  }

  lemma ToldToggled(a: App, m: Msg)
    ensures Told(Toggled(a, m)) == if m.Suspend? then true else if m.Resume? then a.suspendRequest else Told(a)
  {
  }

  lemma ToldStopped(a: App, m: Msg)
    ensures Told(Stopped(a, m)) == Told(a)
  {
  }

  lemma ToldAfter(a: App, m: Msg)
    ensures Told(OnMsg(a, m)) == if m.Suspend? then true else if m.Resume? then a.suspendRequest else Told(a)
  {
    hide Toggled, Stopped;
    ToldToggled(a, m);
    ToldStopped(Toggled(a, m), m);
  }

  lemma ToldLater(a: App)
    ensures Told(Deferred(a)) == Told(a)
  {
  }

  /** What reading does to what `q`, the first messages of the queue, amount to. */
  lemma ReadOutcome(s: Sys, q: seq<Msg>)
    requires s.slot.Some? && !s.app.exited
    ensures Outcome([s.slot.value] + q, Base(s)) == Outcome(q, Base(Handled(s))) <==> !(Stale(s) && !HasToggle(q))
  {
    hide Handled, Base, Stale;
    var m := s.slot.value;
    BaseAfterRead(s);
    OutcomeOfFirst(m, q, Base(s));
    OutcomeOfToggles(q, Outcome([m], Base(s)), Base(Handled(s)));
    OutcomeOfToggles(q, Base(Handled(s)), Outcome([m], Base(s)));
  }

  /** Whether the application still does what the client expects after reading:
      unless a resume is read while a suspend has been put off, and no later
      toggle is on its way. */
  lemma WhenReadingDisagrees(s: Sys)
    requires Agrees(s)
    ensures Agrees(Handled(s)) <==> !(Stale(s) && !HasToggle(s.queue))
  {
    if s.slot.Some? && !s.app.exited {
      assert InTransit(Handled(s)) == s.queue;
      ReadOutcome(s, s.queue);
    }
  }

  lemma EndAfterRead(s: Sys)
    requires EndCounts(s) && !s.app.exited && s.slot.Some?
    requires s.queue != [] && Toggles(s.queue[|s.queue| - 1])
    ensures EndCounts(Handled(s)) <==> !(Stale(s) && !HasToggle(Front(s.queue)))
  {
    assert Front(InTransit(s)) == [s.slot.value] + Front(s.queue);
    assert InTransit(Handled(s)) == s.queue == Handled(s).queue;
    ReadOutcome(s, Front(s.queue));
  }

  lemma HasToggleEnd(q: seq<Msg>)
    requires q != []
    ensures HasToggle(q) <==> HasToggle(Front(q)) || Toggles(q[|q| - 1])
  {
    if i :| 0 <= i < |q| && Toggles(q[i]) {
      assert i < |q| - 1 ==> Toggles(Front(q)[i]);
    }
    if i :| 0 <= i < |Front(q)| && Toggles(Front(q)[i]) {
      assert Toggles(q[i]);
    }
  }

  lemma ReadKeepsIff(s: Sys)
    requires Agrees(s) && EndCounts(s)
    ensures Agrees(Handled(s)) && EndCounts(Handled(s)) <==> !Harmful(s)
  {
    WhenReadingDisagrees(s);
    if s.slot.Some? && !s.app.exited && s.queue != [] {
      HasToggleEnd(s.queue);
      if Toggles(s.queue[|s.queue| - 1]) { EndAfterRead(s); }
    }
  }

  /** Exactly when a step of a live task loses the agreement: the application
      makes a harmful read. */
  lemma FollowsStep(s: Sys, e: Event)
    requires Coherent(s) && Live(s) && Live(Next(s, e)) && Follows(s)
    ensures Follows(Next(s, e)) <==> !(e.TimerTick? && Harmful(s))
  {
    hide Agrees, EndCounts, Coherent, Harmful, Handled, Sent, Polled;
    CoherenceStep(s, e);
    FollowsIff(s);
    FollowsIff(Next(s, e));
    match e {
      case ClientSuspends => ToggleKeepsEnd(s);
      case ClientResumes => ToggleKeepsEnd(s);
      case ClientSends(m) => if Informs(m) { SendKeeps(s, m); }
      case ClientPolls => PollKeeps(s);
      case TimerTick => ReadKeepsIff(s);
      case EnterCritical => CriticalKeeps(s, s.app.critical + 1);
      case LeaveCritical => CriticalKeeps(s, if s.app.critical - 1 < 0 then 0 else s.app.critical - 1);
      case _ =>
    }
  }

  /** No tick of the run makes a harmful read. */
  predicate NeverHarmful(s: Sys, es: seq<Event>) {
    es != [] ==>
      && NeverHarmful(s, es[..|es| - 1])
      && (es[|es| - 1].TimerTick? ==> !Harmful(Run(s, es[..|es| - 1])))
  }

  /** The agreement holds all along the run. */
  ghost predicate FollowsAllAlong(s: Sys, es: seq<Event>) {
    Follows(Run(s, es)) && (es != [] ==> FollowsAllAlong(s, es[..|es| - 1]))
  }

  /** On every run of a live task, the client's suspends and resumes are followed
      all along exactly if the application never makes a harmful read. */
  lemma {:induction false} FollowsIffNeverHarmful(direct: bool, es: seq<Event>)
    requires Live(Run(Started(direct), es))
    ensures FollowsAllAlong(Started(direct), es) <==> NeverHarmful(Started(direct), es)
  {
    var s := Started(direct);
    CoherentOverRuns(direct, es);
    if es != [] {
      var front := es[..|es| - 1];
      CoherentOverRuns(direct, front);
      FollowsIffNeverHarmful(direct, front);
      if NeverHarmful(s, front) {
        FollowsStep(Run(s, front), es[|es| - 1]);
      }
    } else {
      FollowsIff(s);
    }
  }

  /** After a harmful read, application and client disagree at once or as soon as
      the client takes its last message back. */
  lemma HarmfulReadDisagrees(direct: bool, es: seq<Event>)
    requires Live(Run(Started(direct), es)) && FollowsAllAlong(Started(direct), es) && Harmful(Run(Started(direct), es))
    ensures var t := Next(Run(Started(direct), es), TimerTick);
            Live(t) && (!Agrees(t) || !Agrees(Next(t, ClientSuspends)) || !Agrees(Next(t, ClientResumes)))
  {
    CoherentOverRuns(direct, es);
    FollowsStep(Run(Started(direct), es), TimerTick);
  }

  /** Every tick of the run that reads a suspend is outside critical sections. */
  predicate SuspendsOutside(s: Sys, es: seq<Event>) {
    es != [] ==>
      && SuspendsOutside(s, es[..|es| - 1])
      && (es[|es| - 1].TimerTick? && Run(s, es[..|es| - 1]).slot == Some(Suspend) ==>
           Run(s, es[..|es| - 1]).app.critical == 0)
  }

  lemma NoRequestRead(a: App, m: Msg)
    requires !a.suspendRequest && (m.Suspend? ==> a.critical == 0)
    ensures !OnMsg(a, m).suspendRequest
  {
  }

  lemma ClientSparesApp(s: Sys, e: Event)
    requires !e.TimerTick? && !e.EnterCritical? && !e.LeaveCritical?
    ensures Next(s, e).app == s.app
  {
  }

  lemma NoRequestStep(s: Sys, e: Event)
    requires !s.app.suspendRequest && (e.TimerTick? && s.slot == Some(Suspend) ==> s.app.critical == 0)
    ensures !Next(s, e).app.suspendRequest
  {
    if e.TimerTick? {
      if s.slot.Some? { NoRequestRead(s.app, s.slot.value); }
    } else if !e.EnterCritical? && !e.LeaveCritical? {
      ClientSparesApp(s, e);
    }
  }

  lemma {:induction false} OutsideIsNeverHarmful(direct: bool, es: seq<Event>)
    requires SuspendsOutside(Started(direct), es)
    ensures NeverHarmful(Started(direct), es) && !Run(Started(direct), es).app.suspendRequest
  {
    if es != [] {
      OutsideIsNeverHarmful(direct, es[..|es| - 1]);
      NoRequestStep(Run(Started(direct), es[..|es| - 1]), es[|es| - 1]);
    }
  }

  /** On every run in which suspends are read outside critical sections, what is
      on its way brings the application to what the client thinks it is, and no
      suspend is put off. */
  lemma AppFollowsClient(direct: bool, es: seq<Event>)
    requires SuspendsOutside(Started(direct), es) && Live(Run(Started(direct), es))
    ensures Agrees(Run(Started(direct), es)) && !Run(Started(direct), es).app.suspendRequest
    ensures var s := Run(Started(direct), es); Outcome(InTransit(s), s.app.suspended) <==> s.state.Suspended?
  {
    OutsideIsNeverHarmful(direct, es);
    FollowsIffNeverHarmful(direct, es);
  }

  /** The next step of a run. */
  lemma Then(s: Sys, es: seq<Event>, e: Event) returns (more: seq<Event>)
    ensures more == es + [e] && Run(s, more) == Next(Run(s, es), e)
  {
    more := es + [e];
    assert more[..|es|] == es;
  }

  /** Otherwise a put-off suspend can outlive a later resume: here the client has
      resumed the task, nothing is on its way, and the application is suspended. */
  lemma StaleSuspend() returns (es: seq<Event>)
    ensures var s := Run(Started(true), es);
            s.state.Executing? && InTransit(s) == [] && s.app.suspended && s.app.critical == 0
  {
    var s := Started(true);
    es := Then(s, [], EnterCritical);
    es := Then(s, es, ClientSuspends);
    es := Then(s, es, TimerTick);
    var app := App(true, false, true, 1, false, false, false, false, false);
    assert Run(s, es) == Sys(Suspended, [], None, app);
    es := Then(s, es, ClientResumes);
    assert Run(s, es) == Sys(Executing, [], Some(Resume), app);
    es := Then(s, es, TimerTick);
    assert Run(s, es) == Sys(Executing, [], None, app);
    es := Then(s, es, LeaveCritical);
    es := Then(s, es, TimerTick);
  }

  /** The client's own steps lead to the queue of `MessageQueue.TimeoutOnNothing`. */
  lemma NothingInTransit() returns (es: seq<Event>)
    ensures var s := Run(Started(true), es);
            es == [ClientSends(NetworkAvailable), ClientSuspends, ClientResumes, TimerTick] && s.queue == []
              && s.slot == None
  {
    var s := Started(true);
    es := Then(s, [], ClientSends(NetworkAvailable));
    assert Run(s, es) == Sys(Executing, [], Some(NetworkAvailable), s.app);
    es := Then(s, es, ClientSuspends);
    assert Run(s, es) == Sys(Suspended, [Suspend], Some(NetworkAvailable), s.app);
    hide Run;
    es := Then(s, es, ClientResumes);
    assert Run(s, es) == Sys(Executing, [], Some(NetworkAvailable), s.app);
    es := Then(s, es, TimerTick);
  }

  /** And to that of `MessageQueue.StuckUnnoticed`. */
  lemma SuspendInSlot() returns (es: seq<Event>)
    ensures var s := Run(Started(true), es);
            && es == [ClientSends(NetworkAvailable), ClientSuspends, ClientSends(RereadAppInfo), TimerTick, ClientPolls]
            && s.queue == [RereadAppInfo] && s.slot == Some(Suspend)
  {
    var s := Started(true);
    es := Then(s, [], ClientSends(NetworkAvailable));
    assert Run(s, es) == Sys(Executing, [], Some(NetworkAvailable), s.app);
    hide Run;
    es := Then(s, es, ClientSuspends);
    es := Then(s, es, ClientSends(RereadAppInfo));
    assert Run(s, es).queue == [Suspend, RereadAppInfo] && Run(s, es).slot == Some(NetworkAvailable);
    es := Then(s, es, TimerTick);
    es := Then(s, es, ClientPolls);
    assert [Suspend, RereadAppInfo][1..] == [RereadAppInfo];
  }

  // ---- when the application exits ---------------------------------------

  lemma ToggledKeeps(a: App, m: Msg)
    ensures var b := Toggled(a, m);
            && b.exited == a.exited && b.direct == a.direct && b.critical == a.critical
            && b.quitRequest == a.quitRequest && b.abortRequest == a.abortRequest
            && b.haveNetwork == a.haveNetwork && b.reread == a.reread
  {
  }

  lemma StoppedIs(a: App, m: Msg)
    requires !a.exited
    ensures var b := Stopped(a, m);
            && (b.exited <==> a.direct && a.critical == 0 && (a.quitRequest || a.abortRequest || m.Quit? || m.Abort?))
            && b.direct == a.direct && b.critical == a.critical
            && b.quitRequest == (a.quitRequest || m.Quit?) && b.abortRequest == (a.abortRequest || m.Abort?)
            && b.haveNetwork == a.haveNetwork && b.reread == a.reread
  {
  }

  lemma ReadExits(a: App, m: Msg)
    requires !a.exited
    ensures var b := OnMsg(a, m);
            && (b.exited <==> a.direct && a.critical == 0 && (a.quitRequest || a.abortRequest || m.Quit? || m.Abort?))
            && b.direct == a.direct && b.critical == a.critical
            && b.quitRequest == (a.quitRequest || m.Quit?) && b.abortRequest == (a.abortRequest || m.Abort?)
            && b.haveNetwork == (a.haveNetwork || m.NetworkAvailable?) && b.reread == (a.reread || m.RereadAppInfo?)
  {
    hide Toggled, Stopped;
    ToggledKeeps(a, m);
    StoppedIs(Toggled(a, m), m);
  }

  lemma DeferredExits(a: App)
    requires !a.exited
    ensures var b := Deferred(a);
            && (b.exited <==> a.direct && a.critical == 0 && (a.quitRequest || a.abortRequest))
            && b.direct == a.direct && b.critical == a.critical
            && b.quitRequest == a.quitRequest && b.abortRequest == a.abortRequest
            && b.haveNetwork == a.haveNetwork && b.reread == a.reread
  {
  }

  /** The application exits exactly when its timer finds it outside critical sections
      and a quit or an abort has come: one that comes inside is put off. */
  lemma ExitsIff(s: Sys, e: Event)
    requires !s.app.exited
    ensures Next(s, e).app.exited <==>
              && e.TimerTick? && s.app.direct && s.app.critical == 0
              && (s.app.quitRequest || s.app.abortRequest || s.slot == Some(Quit) || s.slot == Some(Abort))
  {
    hide OnMsg, Deferred;
    if e.TimerTick? {
      if s.slot.Some? {
        ReadExits(s.app, s.slot.value);
        if !OnMsg(s.app, s.slot.value).exited {
          DeferredExits(OnMsg(s.app, s.slot.value));
        }
      } else {
        DeferredExits(s.app);
      }
    } else if !e.EnterCritical? && !e.LeaveCritical? {
      hide Next;
      ClientSparesApp(s, e);
    }
  }

  lemma ReadSuspends(a: App, m: Msg)
    requires !a.exited
    ensures var b := OnMsg(a, m);
            && (b.suspended <==>
                 if m.Suspend? then a.suspended || !a.direct || a.critical == 0 else a.suspended && !m.Resume?)
            && (b.suspendRequest <==>
                if m.Suspend? && a.direct then a.critical != 0 else a.suspendRequest)
  {
    hide Stopped;
    StoppedSpares(Toggled(a, m), m);
  }

  lemma StoppedSpares(a: App, m: Msg)
    ensures Stopped(a, m).suspended == a.suspended && Stopped(a, m).suspendRequest == a.suspendRequest
  {
  }

  /** The application becomes suspended exactly when its timer finds it outside
      critical sections and a suspend has come, unless it exits. */
  lemma SuspendsIff(s: Sys, e: Event)
    requires !s.app.exited && !s.app.suspended && s.app.direct
    ensures Next(s, e).app.suspended <==>
              && e.TimerTick? && s.app.critical == 0
              && (s.slot == Some(Suspend) || (s.app.suspendRequest && !Next(s, e).app.exited))
  {
    hide OnMsg;
    if e.TimerTick? {
      if s.slot.Some? {
        ReadExits(s.app, s.slot.value);
        ReadSuspends(s.app, s.slot.value);
      }
    } else if !e.EnterCritical? && !e.LeaveCritical? {
      hide Next;
      ClientSparesApp(s, e);
    }
  }

  // ---- order over runs --------------------------------------------------

  /** What a step does to the messages sent. */
  function ActsOf(s: Sys, e: Event): seq<Act> {
    match e
    case ClientSuspends => if s.state.Executing?
      then [if Purges(s.queue, Resume) then TakeBack(Resume) else Submit(Suspend)] else []
    case ClientResumes => if s.state.Suspended?
      then [if Purges(s.queue, Suspend) then TakeBack(Suspend) else Submit(Resume)] else []
    case ClientSends(m) => if Informs(m) then [Submit(m)] else []
    case ClientQuits => [Submit(Quit)]
    case ClientAborts => [Submit(Abort)]
    case _ => []
  }

  function ReadsOf(s: Sys, e: Event): seq<Msg> {
    if e.TimerTick? && !s.app.exited && s.slot.Some? then [s.slot.value] else []
  }

  function Acts(s: Sys, es: seq<Event>): seq<Act> {
    if es == [] then []
    else Acts(s, es[..|es| - 1]) + ActsOf(Run(s, es[..|es| - 1]), es[|es| - 1])
  }

  function Reads(s: Sys, es: seq<Event>): seq<Msg> {
    if es == [] then []
    else Reads(s, es[..|es| - 1]) + ReadsOf(Run(s, es[..|es| - 1]), es[|es| - 1])
  }

  lemma FlagsStep(s: Sys, e: Event)
    ensures var (a, b, got) := (s.app, Next(s, e).app, ReadsOf(s, e));
            && (b.quitRequest <==> a.quitRequest || Quit in got) && (b.abortRequest <==> a.abortRequest || Abort in got)
            && (b.haveNetwork <==> a.haveNetwork || NetworkAvailable in got)
            && (b.reread <==> a.reread || RereadAppInfo in got)
  {
    hide OnMsg, Deferred;
    if e.TimerTick? {
      if !s.app.exited {
        if s.slot.Some? {
          ReadExits(s.app, s.slot.value);
          if !OnMsg(s.app, s.slot.value).exited {
            DeferredExits(OnMsg(s.app, s.slot.value));
          }
        } else {
          DeferredExits(s.app);
        }
      }
    } else if !e.EnterCritical? && !e.LeaveCritical? {
      hide Next;
      ClientSparesApp(s, e);
    }
  }

  /** What the application knows is exactly what it has read. */
  lemma {:induction false} FlagsAreReads(direct: bool, es: seq<Event>)
    ensures var (a, got) := (Run(Started(direct), es).app, Reads(Started(direct), es));
            && (a.quitRequest <==> Quit in got) && (a.abortRequest <==> Abort in got)
            && (a.haveNetwork <==> NetworkAvailable in got) && (a.reread <==> RereadAppInfo in got)
  {
    if es != [] {
      FlagsAreReads(direct, es[..|es| - 1]);
      hide Next, ReadsOf;
      FlagsStep(Run(Started(direct), es[..|es| - 1]), es[|es| - 1]);
    }
  }

  lemma NetNext(acts: seq<Act>, a: Act)
    ensures Net(acts + [a]) == AfterAct(Net(acts), a)
  {
    assert (acts + [a])[..|acts|] == acts;
  }

  lemma FifoStep(s: Sys, e: Event, acts: seq<Act>, got: seq<Msg>)
    requires Net(acts) == got + InTransit(s)
    ensures Net(acts + ActsOf(s, e)) == got + ReadsOf(s, e) + InTransit(Next(s, e))
  {
    var q := InTransit(s);
    match e {
      case ClientSuspends =>
        if s.state.Executing? {
          ToggleInOrder(s, Resume, Suspend, acts, got);
        } else {
          assert acts + [] == acts && got + [] == got;
        }
      case ClientResumes =>
        if s.state.Suspended? {
          ToggleInOrder(s, Suspend, Resume, acts, got);
        } else {
          assert acts + [] == acts && got + [] == got;
        }
      case TimerTick =>
        assert acts + [] == acts;
        if s.slot.Some? && !s.app.exited {
          ReadTakesFirst(s);
          assert got + ([s.slot.value] + InTransit(Next(s, e))) == got + [s.slot.value] + InTransit(Next(s, e));
        } else {
          assert got + [] == got;
        }
      case ClientSends(m) =>
        if Informs(m) {
          SendInOrder(s, m, acts, got);
        } else {
          assert acts + [] == acts && got + [] == got;
        }
      case ClientQuits => SendInOrder(s, Quit, acts, got);
      case ClientAborts => SendInOrder(s, Abort, acts, got);
      case _ =>
        assert acts + [] == acts && got + [] == got;
        PollMovesNothing(s);
    }
  }

  lemma SendInOrder(s: Sys, m: Msg, acts: seq<Act>, got: seq<Msg>)
    requires Net(acts) == got + InTransit(s)
    ensures Net(acts + [Submit(m)]) == got + [] + InTransit(Sent(s, m))
  {
    SendIsLast(s, m);
    NetNext(acts, Submit(m));
    assert got + (InTransit(s) + [m]) == got + InTransit(s) + [m] && got + [] == got;
  }

  lemma ToggleInOrder(s: Sys, back: Msg, m: Msg, acts: seq<Act>, got: seq<Msg>)
    requires Net(acts) == got + InTransit(s)
    ensures Purges(s.queue, back) ==> Net(acts + [TakeBack(back)]) == got + [] + InTransit(s.(queue := Front(s.queue)))
    ensures Net(acts + [Submit(m)]) == got + [] + InTransit(Sent(s, m))
  {
    SendInOrder(s, m, acts, got);
    if Purges(s.queue, back) {
      PurgeTakesLast(s, back);
      NetNext(acts, TakeBack(back));
      assert Front(got + InTransit(s)) == got + Front(InTransit(s)) && got + [] == got;
    }
  }

  /** On every run the messages sent, without those taken back, are those read
      followed by those on their way: nothing is lost, added or overtaken. */
  lemma {:induction false} FirstInFirstOut(direct: bool, es: seq<Event>)
    ensures var s := Started(direct); Net(Acts(s, es)) == Reads(s, es) + InTransit(Run(s, es))
  {
    if es != [] {
      var s := Started(direct);
      FirstInFirstOut(direct, es[..|es| - 1]);
      FifoStep(Run(s, es[..|es| - 1]), es[|es| - 1], Acts(s, es[..|es| - 1]), Reads(s, es[..|es| - 1]));
    }
  }

  // ---- the objects ------------------------------------------------------

  class Application {
    const direct: bool
    var suspended: bool
    var suspendRequest: bool
    var inCriticalSection: int
    var quitRequest: bool
    var abortRequest: bool
    var haveNetwork: bool
    var reread: bool
    var exited: bool

    constructor (direct: bool)
      ensures View() == Started(direct).app
    {
      this.direct := direct;
      suspended, suspendRequest, inCriticalSection := false, false, 0;
      quitRequest, abortRequest, haveNetwork, reread, exited := false, false, false, false, false;
    }

    ghost function View(): App
      reads this
    {
      App(direct, suspended, suspendRequest, inCriticalSection, quitRequest, abortRequest, haveNetwork, reread, exited)
    }

    method OnToggle(m: Msg)
      modifies this
      ensures View() == Toggled(old(View()), m)
    {
      if m == Suspend {
        if direct {
          if inCriticalSection != 0 {
            suspendRequest := true;
          } else {
            suspended := true;
            suspendRequest := false;
          }
        } else {
          suspended := true;
        }
      }
      if m == Resume {
        suspended := false;
      }
    }

    method OnStop(m: Msg)
      requires !exited
      modifies this
      ensures View() == Stopped(old(View()), m)
    {
      if quitRequest || m == Quit {
        quitRequest := true;
        if inCriticalSection == 0 && direct { exited := true; }
      }
      if abortRequest || m == Abort {
        abortRequest := true;
        if inCriticalSection == 0 && direct { exited := true; }
      }
    }

    method OnMessage(m: Msg)
      requires !exited
      modifies this
      ensures View() == OnMsg(old(View()), m)
    {
      OnToggle(m);
      assert exited == old(exited) by { assert View().exited == old(View()).exited; }
      OnStop(m);
      ghost var v := View();
      if m == RereadAppInfo { reread := true; }
      if m == NetworkAvailable { haveNetwork := true; }
      assert View() == v.(reread := v.reread || m.RereadAppInfo?, haveNetwork := v.haveNetwork || m.NetworkAvailable?);
    }

    method DoDeferred()
      modifies this
      ensures View() == Deferred(old(View()))
    {
      if exited || !direct || inCriticalSection != 0 { return; }
      if quitRequest || abortRequest {
        exited := true;
        return;
      }
      if suspendRequest && !suspended {
        suspended := true;
      }
      suspendRequest := false;
    }

    method HandleProcessControlMsg(channel: MsgChannel)
      modifies this, channel
      ensures forall state, queue ::
                Sys(state, queue, channel.slot, View()) == Handled(Sys(state, queue, old(channel.slot), old(View())))
      ensures exited && !old(exited) ==> old(inCriticalSection) == 0 && direct
      ensures suspended && !old(suspended) && direct ==> old(inCriticalSection) == 0
    {
      if exited { return; }
      var m := channel.GetMsg();
      if m.Some? {
        OnMessage(m.value);
        if exited { return; }
      }
      DoDeferred();
    }

    method BeginCriticalSection()
      modifies this
      ensures View() == old(View()).(critical := old(inCriticalSection) + 1)
    {
      inCriticalSection := inCriticalSection + 1;
    }

    method EndCriticalSection()
      modifies this
      ensures View() ==
                old(View()).(critical := if old(inCriticalSection) - 1 < 0 then 0 else old(inCriticalSection) - 1)
    {
      inCriticalSection := inCriticalSection - 1;
      if inCriticalSection < 0 {
        inCriticalSection := 0;
      }
    }
  }

  /** A task with its queue, its channel, and its process on the other side. */
  class Session {
    const queue: MsgQueue
    const channel: MsgChannel
    const app: Application
    var state: TaskState

    /** `start`: the queue and the channel are empty, and the process is new. */
    constructor (direct: bool)
      ensures View() == Started(direct)
      ensures fresh(queue) && fresh(channel) && fresh(app)
    {
      queue := new MsgQueue();
      channel := new MsgChannel();
      app := new Application(direct);
      state := Executing;
    }

    ghost function View(): Sys
      reads this, queue, channel, app
    {
      Sys(state, queue.msgs, channel.slot, app.View())
    }

    method Suspend(now: real)
      requires state.Executing?
      modifies this, queue, channel
      ensures View() == Next(old(View()), ClientSuspends)
    {
      var n := queue.Purge(Msg.Resume, channel);
      if n == 0 {
        queue.Send(Msg.Suspend, channel, now);
      }
      state := Suspended;
    }

    method Unsuspend(now: real)
      requires state.Suspended?
      modifies this, queue, channel
      ensures View() == Next(old(View()), ClientResumes)
    {
      var n := queue.Purge(Msg.Suspend, channel);
      if n == 0 {
        queue.Send(Msg.Resume, channel, now);
      }
      state := Executing;
    }

    method RequestExit(now: real)
      modifies this, queue, channel
      ensures View() == Next(old(View()), ClientQuits)
    {
      queue.Send(Quit, channel, now);
      state := QuitPending;
    }

    method RequestAbort(now: real)
      modifies this, queue, channel
      ensures View() == Next(old(View()), ClientAborts)
    {
      queue.Send(Abort, channel, now);
      state := AbortPending;
    }

    method SendNetworkAvailable(now: real)
      modifies queue, channel
      ensures View() == Next(old(View()), ClientSends(NetworkAvailable))
    {
      queue.Send(NetworkAvailable, channel, now);
    }

    /** A process that has not taken a message for 180 seconds is to be restarted. */
    method ProcessControlPoll(now: real) returns (restart: bool)
      modifies queue, channel
      ensures restart == old(queue.Timeout(now, 180.0))
      ensures View() == if restart then old(View()) else Next(old(View()), ClientPolls)
    {
      restart := queue.Timeout(now, 180.0);
      if !restart {
        queue.Poll(channel);
      }
    }

    method TimerHandler()
      modifies app, channel
      ensures View() == Next(old(View()), TimerTick)
    {
      app.HandleProcessControlMsg(channel);
    }
  }
}
