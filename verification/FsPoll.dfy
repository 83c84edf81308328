/** The life of file-poll contexts (deps/libuv/src/fs-poll.c): a handle owns a chain of contexts,
    one for each period of polling; a context has a stat request and a timer of its own, which the
    loop must not be asked for twice, and goes away when its timer is closed. */
module FsPoll {
  import opened Options

  // What the loop has to do for a context: a stat is in flight, its timer runs, its timer is closing.
  datatype Ctx = Ctx(id: nat, stat: bool, timer: bool, closing: bool)

  // Exactly one of the three, or the user's callback for it is running.
  predicate OneUnderWay(c: Ctx, callback: bool)
  {
    (if c.stat then 1 else 0) + (if c.timer then 1 else 0) + (if c.closing then 1 else 0)
      + (if callback then 1 else 0) == 1
  }

  // uv_close stops a timer that runs, and must not get one that closes already.
  function CloseTimer(c: Ctx): Option<Ctx>
  {
    if c.closing then None else Some(c.(timer := false, closing := true))
  }

  // uv_timer_start fails for a timer that closes, and poll_cb aborts then.
  function StartTimer(c: Ctx): Option<Ctx>
  {
    if c.closing then None else Some(c.(timer := true))
  }

  // The one request of a context must not be in use.
  function IssueStat(c: Ctx): Option<Ctx>
  {
    if c.stat then None else Some(c.(stat := true))
  }

  // The state of a file that was not seen yet.
  const NO_STAT: int := 0

  // How a start of an inactive handle goes: no memory for the context, no memory for its first
  // request, or well.
  datatype Launch = NoContext | NoRequest | Launched

  // The user calls start, stop and close, from a callback or not; the rest is the loop's.
  datatype Event =
    | Start(launch: Launch)
    | Stop
    | Close
    | StatDone(id: nat, reports: bool)     // reports: the callback is due, if the handle is active
    | CallbackDone
    | TimerFired(id: nat)
    | TimerClosed(id: nat)

  predicate IsCall(e: Event)
  {
    e.Start? || e.Stop? || e.Close?
  }

  // The newest context comes first; inside is the context whose poll_cb waits for the user's
  // callback; dangling are freed contexts whose timer the loop still lists; ended counts how often
  // the handle was marked as closed.
  datatype State = State(active: bool, closing: bool, chain: seq<Ctx>, inside: Option<nat>,
                         freed: seq<nat>, dangling: seq<nat>, made: nat, ended: nat)

  datatype Outcome = Now(s: State) | AssertFails | Impossible

  const INIT: State := State(false, false, [], None, [], [], 0, 0)

  function IndexOf(chain: seq<Ctx>, id: nat): (i: nat)
    ensures i <= |chain| && (i < |chain| ==> chain[i].id == id)
    ensures forall j :: 0 <= j < i ==> chain[j].id != id
  {
    if chain == [] || chain[0].id == id then 0 else 1 + IndexOf(chain[1..], id)
  }

  // A context, if it is linked.
  function CtxOf(s: State, id: nat): Option<Ctx>
  {
    var i := IndexOf(s.chain, id);
    if i < |s.chain| then Some(s.chain[i]) else None
  }

  // What an operation makes of a context; one that must not happen ends the run.
  function Put(s: State, id: nat, c: Option<Ctx>): Outcome
    requires IndexOf(s.chain, id) < |s.chain|
  {
    if c.None? then AssertFails else Now(s.(chain := s.chain[IndexOf(s.chain, id) := c.value]))
  }

  // uv_fs_poll_start.  A start without memory for the request frees the context, whose timer the
  // loop knows already.
  function Started(s: State, launch: Launch): State
  {
    if s.active then s
    else match launch
      case NoContext => s
      case NoRequest => s.(freed := s.freed + [s.made], dangling := s.dangling + [s.made], made := s.made + 1)
      case Launched => s.(active := true, chain := [Ctx(s.made, true, false, false)] + s.chain, made := s.made + 1)
  }

  // uv_fs_poll_stop: a running timer is closed, a stat under way is left to poll_cb.
  function Stopped(s: State): Outcome
  {
    if !s.active then Now(s)
    else if s.chain == [] then AssertFails
    else if s.chain[0].timer then
      (match CloseTimer(s.chain[0])
       case Some(c) => Now(s.(active := false, chain := s.chain[0 := c]))
       case None => AssertFails)
    else Now(s.(active := false))
  }

  // uv_close, which must not be called twice.
  function Closed(s: State): Outcome
  {
    if s.closing then AssertFails
    else match Stopped(s.(closing := true))
      case Now(s') => Now(if s'.chain == [] then s'.(ended := s'.ended + 1) else s')
      case o => o
  }

  // The end of poll_cb: the timer is closed or started.
  function Rearmed(s: State, c: Ctx): Option<Ctx>
  {
    if !s.active || s.closing then CloseTimer(c) else StartTimer(c)
  }

  // poll_cb: an inactive or closing handle gets no callback.
  function Polled(s: State, id: nat, c: Ctx, reports: bool): Outcome
    requires IndexOf(s.chain, id) < |s.chain|
  {
    if s.active && !s.closing && reports then Put(s.(inside := Some(id)), id, Some(c)) else Put(s, id, Rearmed(s, c))
  }

  // timer_close_cb: what is freed must not be used by the loop any more.
  function Unlinked(s: State, id: nat, c: Ctx): Outcome
    requires IndexOf(s.chain, id) < |s.chain|
  {
    if c.stat || c.timer then AssertFails
    else
      var i := IndexOf(s.chain, id);
      var rest := s.chain[..i] + s.chain[i + 1..];
      Now(s.(chain := rest, freed := s.freed + [id], ended := if rest == [] && s.closing then s.ended + 1 else s.ended))
  }

  // While a callback runs, the loop does not.
  function Step(s: State, e: Event): Outcome
  {
    match e
    case Start(launch) => Now(Started(s, launch))
    case Stop => Stopped(s)
    case Close => Closed(s)
    case StatDone(id, reports) =>
      var c := CtxOf(s, id);
      if s.inside.Some? || c.None? || !c.value.stat then Impossible
      else Polled(s, id, c.value.(stat := false), reports)
    case CallbackDone =>
      if s.inside.None? then Impossible
      else
        var id := s.inside.value;
        var c := CtxOf(s, id);
        if c.None? then AssertFails else Put(s.(inside := None), id, Rearmed(s, c.value))
    case TimerFired(id) =>
      var c := CtxOf(s, id);
      if s.inside.Some? || c.None? || !c.value.timer then Impossible
      else if s.chain[0].id != id then AssertFails
      else Put(s, id, IssueStat(c.value.(timer := false)))
    case TimerClosed(id) =>
      var c := CtxOf(s, id);
      if s.inside.Some? || c.None? || !c.value.closing then Impossible
      else Unlinked(s, id, c.value)
  }

  // No stat of an earlier period is under way, and poll_cb does not wait for a callback.
  predicate Quiet(s: State)
  {
    s.inside.None? && forall i :: 0 <= i < |s.chain| ==> !s.chain[i].stat
  }

  // The calling discipline: a handle is closed once and not started afterwards; and it is not
  // started again before poll_cb of the earlier period has returned.
  predicate Allowed(s: State, e: Event)
  {
    && (e == Start(Launched) && !s.active ==> Quiet(s) && !s.closing)
    && (e == Close ==> !s.closing)
  }

  // A run; impossible events change nothing.
  function Run(s: State, es: seq<Event>): Outcome
    decreases |es|
  {
    if es == [] then Now(s)
    else match Step(s, es[0])
      case Now(s') => Run(s', es[1..])
      case Impossible => Run(s, es[1..])
      case AssertFails => AssertFails
  }

  predicate Disciplined(s: State, es: seq<Event>)
    decreases |es|
  {
    es == [] ||
    (Allowed(s, es[0]) &&
     match Step(s, es[0])
     case Now(s') => Disciplined(s', es[1..])
     case Impossible => Disciplined(s, es[1..])
     case AssertFails => true)
  }

  // ---------------------------------------------------------------- what every step keeps

  // Every context made is linked or freed, once.
  ghost predicate Accounted(s: State)
  {
    && (forall i, j :: 0 <= i < j < |s.chain| ==> s.chain[i].id != s.chain[j].id)
    && (forall i, j :: 0 <= i < j < |s.freed| ==> s.freed[i] != s.freed[j])
    && (forall i :: 0 <= i < |s.chain| ==> s.chain[i].id < s.made && s.chain[i].id !in s.freed)
    && (forall id :: id in s.freed ==> id < s.made)
    && |s.chain| + |s.freed| == s.made
  }

  // Only the newest context can still be at work, and it is while the handle is active; and exactly
  // one thing is under way for every context.
  ghost predicate Inv(s: State)
  {
    && Accounted(s)
    && (forall i :: 0 <= i < |s.chain| ==> OneUnderWay(s.chain[i], s.inside == Some(s.chain[i].id)))
    && (forall i :: 1 <= i < |s.chain| ==> s.chain[i].closing)
    && (s.inside.Some? ==> s.chain != [] && s.inside == Some(s.chain[0].id))
    && (s.active ==> s.chain != [] && !s.chain[0].closing && !s.closing)
    && (!s.active && s.chain != [] ==> !s.chain[0].timer)
    && s.ended == (if s.closing && s.chain == [] then 1 else 0)
  }

  // What Stop needs: an active handle's newest context can have its timer closed.
  predicate Stoppable(s: State)
  {
    s.active ==> s.chain != [] && (s.chain[0].timer ==> !s.chain[0].closing)
  }

  lemma IndexAt(chain: seq<Ctx>, i: nat)
    requires i < |chain| && forall a, b :: 0 <= a < b < |chain| ==> chain[a].id != chain[b].id
    ensures IndexOf(chain, chain[i].id) == i
  {
  }

  // A context only changes what is under way for it.
  lemma ChangeKeeps(s: State, i: nat, c: Ctx, s': State)
    requires Accounted(s) && i < |s.chain| && c.id == s.chain[i].id
    requires s'.chain == s.chain[i := c] && s'.freed == s.freed && s'.made == s.made
    ensures Accounted(s')
  {
  }

  lemma StoppedKeeps(s: State)
    requires Inv(s)
    ensures Stopped(s).Now? && Inv(Stopped(s).s)
  {
    if s.active && s.chain[0].timer {
      ChangeKeeps(s, 0, CloseTimer(s.chain[0]).value, Stopped(s).s);
    }
  }

  lemma ClosedKeeps(s: State)
    requires Inv(s) && !s.closing
    ensures Closed(s).Now? && Inv(Closed(s).s)
  {
    if s.active && s.chain[0].timer {
      ChangeKeeps(s, 0, CloseTimer(s.chain[0]).value, Closed(s).s);
    }
  }

  lemma StartedAccounted(s: State, launch: Launch)
    requires Accounted(s)
    ensures Accounted(Started(s, launch))
  {
    assert forall i :: 0 <= i < |s.freed| ==> s.freed[i] in s.freed;
    if !s.active && launch == Launched {
      var s' := Started(s, launch);
      assert forall i :: 1 <= i < |s'.chain| ==> s'.chain[i] == s.chain[i - 1];
    }
  }

  lemma StartedKeeps(s: State, launch: Launch)
    requires Inv(s) && Allowed(s, Start(launch))
    ensures Inv(Started(s, launch))
  {
    hide Accounted;
    StartedAccounted(s, launch);
    if !s.active && launch == Launched {
      var s' := Started(s, launch);
      assert forall i :: 1 <= i < |s'.chain| ==> s'.chain[i] == s.chain[i - 1];
    }
  }

  // The contexts behind the newest have other ids.
  lemma Apart(s: State, c: Ctx)
    requires Accounted(s) && s.chain != []
    ensures forall i :: 1 <= i < |s.chain| ==> s.chain[0 := c][i] == s.chain[i] && s.chain[i].id != s.chain[0].id
  {
  }

  lemma StatKeeps(s: State, id: nat, reports: bool)
    requires Inv(s) && s.inside.None? && CtxOf(s, id).Some? && CtxOf(s, id).value.stat
    ensures var o := Step(s, StatDone(id, reports)); o.Now? && Inv(o.s)
  {
    hide Accounted;
    var c := s.chain[0];
    assert OneUnderWay(s.chain[IndexOf(s.chain, id)], false);
    assert c.id == id && IndexOf(s.chain, id) == 0;
    var s' := Step(s, StatDone(id, reports)).s;
    ChangeKeeps(s, 0, s'.chain[0], s');
    Apart(s, s'.chain[0]);
  }

  lemma CallbackKeeps(s: State)
    requires Inv(s) && s.inside.Some?
    ensures var o := Step(s, CallbackDone); o.Now? && Inv(o.s)
  {
    hide Accounted;
    var c := s.chain[0];
    assert OneUnderWay(c, true);
    assert IndexOf(s.chain, c.id) == 0;
    var s' := Step(s, CallbackDone).s;
    ChangeKeeps(s, 0, s'.chain[0], s');
    Apart(s, s'.chain[0]);
  }

  lemma FiredKeeps(s: State, id: nat)
    requires Inv(s) && s.inside.None? && CtxOf(s, id).Some? && CtxOf(s, id).value.timer
    ensures var o := Step(s, TimerFired(id)); o.Now? && Inv(o.s)
  {
    hide Accounted;
    assert OneUnderWay(s.chain[IndexOf(s.chain, id)], false);
    assert s.chain[0].id == id;
    ChangeKeeps(s, 0, IssueStat(s.chain[0].(timer := false)).value, Step(s, TimerFired(id)).s);
  }

  lemma UnlinkAccounted(s: State, i: nat, ended: nat)
    requires Accounted(s) && i < |s.chain|
    ensures Accounted(s.(chain := s.chain[..i] + s.chain[i + 1..], freed := s.freed + [s.chain[i].id], ended := ended))
  {
    var rest := s.chain[..i] + s.chain[i + 1..];
    var freed := s.freed + [s.chain[i].id];
    forall k | 0 <= k < |rest| ensures rest[k] == s.chain[if k < i then k else k + 1] && rest[k].id !in freed {
    }
  }

  lemma ClosedTimerKeeps(s: State, id: nat)
    requires Inv(s) && s.inside.None? && CtxOf(s, id).Some? && CtxOf(s, id).value.closing
    ensures var o := Step(s, TimerClosed(id)); o.Now? && Inv(o.s)
  {
    hide Accounted;
    var i := IndexOf(s.chain, id);
    var rest := s.chain[..i] + s.chain[i + 1..];
    assert OneUnderWay(s.chain[i], false);
    UnlinkAccounted(s, i, if rest == [] && s.closing then s.ended + 1 else s.ended);
    forall k | 0 <= k < |rest| ensures rest[k] == s.chain[if k < i then k else k + 1] {
    }
  }

  // With the discipline, no step asks the loop for what it must not do.
  lemma StepKeeps(s: State, e: Event)
    requires Inv(s) && Allowed(s, e)
    ensures !Step(s, e).AssertFails? && (Step(s, e).Now? ==> Inv(Step(s, e).s))
  {
    hide Inv;
    match e {
      case Start(launch) => StartedKeeps(s, launch);
      case Stop => StoppedKeeps(s);
      case Close => ClosedKeeps(s);
      case StatDone(id, reports) =>
        if s.inside.None? && CtxOf(s, id).Some? && CtxOf(s, id).value.stat { StatKeeps(s, id, reports); }
      case CallbackDone => if s.inside.Some? { CallbackKeeps(s); }
      case TimerFired(id) =>
        if s.inside.None? && CtxOf(s, id).Some? && CtxOf(s, id).value.timer { FiredKeeps(s, id); }
      case TimerClosed(id) =>
        if s.inside.None? && CtxOf(s, id).Some? && CtxOf(s, id).value.closing { ClosedTimerKeeps(s, id); }
    }
  }

  lemma {:induction false} RunKeeps(s: State, es: seq<Event>)
    requires Inv(s) && Disciplined(s, es)
    ensures Run(s, es).Now? && Inv(Run(s, es).s)
    decreases |es|
  {
    hide Inv, Allowed, Step;
    if es != [] {
      StepKeeps(s, es[0]);
      match Step(s, es[0]) {
        case Now(s') => RunKeeps(s', es[1..]);
        case Impossible => RunKeeps(s, es[1..]);
      }
    }
  }

  /** In every disciplined run, whatever the callbacks call: no assertion fails, no timer is closed
      twice or started while it closes, no request is used twice; for every linked context exactly one
      of these is under way, or its callback; every context made is linked or was freed, never both
      and never freed twice; and the handle is marked as closed exactly when it is closing and its
      chain is empty, and then once. */
  lemma RunSafe(es: seq<Event>)
    requires Disciplined(INIT, es)
    ensures Run(INIT, es).Now?
    ensures
      var s := Run(INIT, es).s;
      && (forall i :: 0 <= i < |s.chain| ==> OneUnderWay(s.chain[i], s.inside == Some(s.chain[i].id)))
      && (forall i, j :: 0 <= i < j < |s.freed| ==> s.freed[i] != s.freed[j])
      && (forall i :: 0 <= i < |s.chain| ==> s.chain[i].id !in s.freed)
      && |s.chain| + |s.freed| == s.made
      && s.ended == (if s.closing && s.chain == [] then 1 else 0)
  {
    RunKeeps(INIT, es);
  }

  // ---------------------------------------------------------------- starts that are too early

  // Where a start is too early, the newest context is the one that is still polled.
  lemma BusyAtHead(s: State)
    requires Inv(s) && !Quiet(s)
    ensures s.chain != [] && s.chain[0].id != s.made
    ensures s.chain[0] == Ctx(s.chain[0].id, s.inside.None?, false, false)
    ensures s.inside.Some? ==> s.inside.value == s.chain[0].id
  {
    if s.inside.None? {
      var i :| 0 <= i < |s.chain| && s.chain[i].stat;
      assert OneUnderWay(s.chain[i], false);
    }
    assert OneUnderWay(s.chain[0], s.inside == Some(s.chain[0].id));
  }

  // What the loop then does: poll_cb returns, and the timer it starts fires.
  function Onward(s: State): seq<Event>
    requires s.chain != []
  {
    var id := s.chain[0].id;
    [if s.inside.Some? then CallbackDone else StatDone(id, false), TimerFired(id)]
  }

  // The earlier context, now the second, finds the handle active and goes on polling.
  lemma SecondFires(s: State, id: nat)
    requires s.active && !s.closing && |s.chain| >= 2 && s.chain[0].id != id
    requires s.chain[1] == Ctx(id, s.inside.None?, false, false)
    requires s.inside.Some? ==> s.inside.value == id
    ensures Run(s, [if s.inside.Some? then CallbackDone else StatDone(id, false), TimerFired(id)]) == AssertFails
  {
    var e := if s.inside.Some? then CallbackDone else StatDone(id, false);
    assert s.chain[1..][0].id == id && IndexOf(s.chain, id) == 1;
    var s' := s.(chain := s.chain[1 := Ctx(id, false, true, false)], inside := None);
    assert Step(s, e) == Now(s');
    assert s'.chain[1..][0].id == id && IndexOf(s'.chain, id) == 1;
    assert Step(s', TimerFired(id)) == AssertFails;
    var es := [e, TimerFired(id)];
    assert es[1..] == [TimerFired(id)];
    assert Run(s', es[1..]) == AssertFails;
  }

  /** Every early start can fail: when a handle is started again while a stat of the earlier period is
      under way, or out of the callback of that period, the earlier context finds the handle active,
      goes on polling, and the assertion of its next timer fails. */
  lemma EarlyStartFails(s: State)
    requires Inv(s) && !s.active && !s.closing && !Quiet(s)
    ensures s.chain != [] && Run(Started(s, Launched), Onward(s)) == AssertFails
  {
    hide Inv, Run;
    BusyAtHead(s);
    var s' := Started(s, Launched);
    assert s'.chain[1] == s.chain[0];
    SecondFires(s', s.chain[0].id);
  }

  // Only starts and closes can break the discipline.
  lemma OnwardDisciplined(s: State, es: seq<Event>)
    requires |es| == 2 && !IsCall(es[0]) && !IsCall(es[1])
    ensures Disciplined(s, es)
  {
    hide Step;
    assert forall t :: Allowed(t, es[0]) && Allowed(t, es[1]);
    assert es[1..][0] == es[1] && es[1..][1..] == [];
    assert forall t :: Disciplined(t, es[1..]);
  }

  /** The discipline is the weakest for starts: after a start of a handle that is not closed, every
      disciplined run is safe exactly when poll_cb of the earlier period had returned. */
  lemma StartExact(s: State)
    requires Inv(s) && !s.active && !s.closing
    ensures Quiet(s) <==>
      forall es :: Disciplined(Started(s, Launched), es) ==> Run(Started(s, Launched), es).Now?
  {
    hide Inv, Run, Disciplined;
    var s' := Started(s, Launched);
    if Quiet(s) {
      StartedKeeps(s, Launched);
      forall es | Disciplined(s', es) ensures Run(s', es).Now? {
        RunKeeps(s', es);
      }
    } else {
      EarlyStartFails(s);
      OnwardDisciplined(s', Onward(s));
    }
  }

  lemma RunOn(s: State, es: seq<Event>)
    requires es != [] && Step(s, es[0]).Now?
    ensures Run(s, es) == Run(Step(s, es[0]).s, es[1..])
  {
    hide Step;
  }

  /** So can the start of a handle out of its own callback, after a stop, as to change the path. */
  lemma RestartInCallbackFails(s: State)
    requires Inv(s) && s.active && s.inside.None? && s.chain[0].stat
    ensures var id := s.chain[0].id;
      Run(s, [StatDone(id, true), Stop, Start(Launched), CallbackDone, TimerFired(id)]) == AssertFails
  {
    hide Accounted, Run;
    var id := s.chain[0].id;
    var es := [StatDone(id, true), Stop, Start(Launched), CallbackDone, TimerFired(id)];
    assert OneUnderWay(s.chain[0], false);
    StatKeeps(s, id, true);
    var s1 := Step(s, es[0]).s;
    StoppedKeeps(s1);
    var s2 := Step(s1, Stop).s;
    EarlyStartFails(s2);
    assert Onward(s2) == es[3..];
    RunOn(s, es);
    RunOn(s1, es[1..]);
    RunOn(s2, es[2..]);
    assert es[1..][1..] == es[2..] && es[2..][1..] == es[3..];
  }

  // ---------------------------------------------------------------- starts that fail

  // Does a start of the run get a context but no request?
  predicate LacksRequest(s: State, es: seq<Event>)
    decreases |es|
  {
    es != [] &&
    ((es[0] == Start(NoRequest) && !s.active) ||
     match Step(s, es[0])
     case Now(s') => LacksRequest(s', es[1..])
     case Impossible => LacksRequest(s, es[1..])
     case AssertFails => false)
  }

  lemma StepDangles(s: State, e: Event)
    requires Step(s, e).Now?
    ensures Step(s, e).s.dangling ==
      s.dangling + (if e == Start(NoRequest) && !s.active then [s.made] else [])
  {
  }

  lemma ImpossibleNoCall(s: State, e: Event)
    requires Step(s, e).Impossible?
    ensures !IsCall(e)
  {
  }

  lemma {:induction false} DanglingGrows(s: State, es: seq<Event>)
    requires Run(s, es).Now?
    ensures |s.dangling| <= |Run(s, es).s.dangling|
    ensures |s.dangling| == |Run(s, es).s.dangling| <==> !LacksRequest(s, es)
    decreases |es|
  {
    hide Step;
    if es != [] {
      match Step(s, es[0]) {
        case Now(s') =>
          StepDangles(s, es[0]);
          DanglingGrows(s', es[1..]);
        case Impossible =>
          DanglingGrows(s, es[1..]);
          assert es[0] != Start(NoRequest) by { ImpossibleNoCall(s, es[0]); }
      }
    }
  }

  /** The timer of a freed context stays in the loop's list exactly when a start of the run got a
      context but no request: its error path frees the context without closing the timer. */
  lemma DanglesExactly(es: seq<Event>)
    requires Run(INIT, es).Now?
    ensures Run(INIT, es).s.dangling != [] <==> LacksRequest(INIT, es)
  {
    DanglingGrows(INIT, es);
  }

  // ---------------------------------------------------------------- the delay

  // The delay until the next stat, in unsigned arithmetic.
  function Delay(interval: nat, now: nat, start: nat): nat
    requires 1 <= interval && start <= now
  {
    interval - (now - start) % interval
  }

  // The timer is due between one tick and one interval from now, on a multiple of the interval
  // after the start of the period.
  lemma DelayLands(interval: nat, now: nat, start: nat)
    requires 1 <= interval && start <= now
    ensures 1 <= Delay(interval, now, start) <= interval
    ensures now + Delay(interval, now, start) == start + ((now - start) / interval + 1) * interval
  {
  }

  // ---------------------------------------------------------------- contexts as linked objects

  // What a context remembers: nothing yet, the error of the stat before, or that there was none; and
  // the file's state at the last stat that succeeded.
  datatype Memory = Memory(busy: int, stat: int)

  class PollCtx {
    ghost const id: nat
    var stat: bool           // the request is in flight
    var timer: bool          // the timer is active
    var closing: bool        // the timer is closing
    var previous: PollCtx?
    var interval: nat
    var startTime: nat
    var delay: nat           // what the timer was last started with
    var busyPolling: int
    var statbuf: int

    constructor (ghost id: nat, interval: nat, now: nat)
      ensures this.id == id && stat && !timer && !closing && previous == null && startTime == now
      ensures busyPolling == 0 && statbuf == NO_STAT
      ensures this.interval == if interval == 0 then 1 else interval
    {
      this.id := id;
      stat, timer, closing, previous := true, false, false, null;
      this.interval := if interval == 0 then 1 else interval;
      startTime, delay, busyPolling, statbuf := now, 0, 0, NO_STAT;
    }

    // What the loop has to do for the object, as a value.
    ghost function Flags(): Ctx
      reads this`stat, this`timer, this`closing
    {
      Ctx(id, stat, timer, closing)
    }

    ghost function Recalls(): Memory
      reads this
    {
      Memory(busyPolling, statbuf)
    }

    // What the loop does not touch.
    ghost function Settings(): (nat, nat, nat, int, int)
      reads this
    {
      (interval, startTime, delay, busyPolling, statbuf)
    }

    method UvClose()
      requires !closing
      modifies this`timer, this`closing
      ensures Some(Flags()) == CloseTimer(old(Flags())) && Settings() == old(Settings())
    {
      timer, closing := false, true;
    }

    method UvTimerStart(delay: nat)
      requires !closing
      modifies this`timer, this`delay
      ensures Some(Flags()) == StartTimer(old(Flags())) && this.delay == delay
    {
      timer := true;
      this.delay := delay;
    }

    method UvFsStat()
      requires !stat
      modifies this`stat
      ensures Some(Flags()) == IssueStat(old(Flags()))
    {
      stat := true;
    }
  }

  // A context points to the next.
  ghost predicate LinkOk(c: PollCtx, next: PollCtx?)
    reads c`previous, c`interval
  {
    c.previous == next && c.interval >= 1
  }

  ghost predicate Matches(c: PollCtx, x: Ctx)
    reads c`stat, c`timer, c`closing
  {
    c.Flags() == x
  }

  function First(chain: seq<PollCtx>, end: PollCtx?): PollCtx?
  {
    if chain == [] then end else chain[0]
  }

  // The objects are linked in order up to end, and stand for these contexts.
  ghost predicate Chained(chain: seq<PollCtx>, links: seq<Ctx>, end: PollCtx?)
    reads chain`previous, chain`interval, chain`stat, chain`timer, chain`closing
    decreases |chain|
  {
    && |chain| == |links|
    && (chain != [] ==>
         && LinkOk(chain[0], First(chain[1..], end)) && Matches(chain[0], links[0])
         && Chained(chain[1..], links[1..], end))
  }

  predicate Distinct(chain: seq<PollCtx>)
  {
    forall i, j :: 0 <= i < j < |chain| ==> chain[i] != chain[j]
  }

  lemma {:induction false} ChainedSplit(chain: seq<PollCtx>, links: seq<Ctx>, end: PollCtx?, i: nat)
    requires i <= |chain| == |links|
    ensures Chained(chain, links, end) <==>
      Chained(chain[..i], links[..i], First(chain[i..], end)) && Chained(chain[i..], links[i..], end)
    decreases i
  {
    hide LinkOk, Matches;
    if i == 0 {
      assert chain[0..] == chain && links[0..] == links;
    } else {
      assert chain[1..][..i - 1] == chain[..i][1..] && links[1..][..i - 1] == links[..i][1..];
      assert chain[1..][i - 1..] == chain[i..] && links[1..][i - 1..] == links[i..];
      ChainedSplit(chain[1..], links[1..], end, i - 1);
      assert First(chain[1..], end) == First(chain[..i][1..], First(chain[i..], end));
    }
  }

  // The i-th object.
  lemma ChainedAt(chain: seq<PollCtx>, links: seq<Ctx>, end: PollCtx?, i: nat)
    requires Chained(chain, links, end) && i < |chain|
    ensures |chain| == |links|
    ensures LinkOk(chain[i], First(chain[i + 1..], end)) && Matches(chain[i], links[i])
    ensures Chained(chain[i + 1..], links[i + 1..], end)
  {
    hide LinkOk, Matches;
    ChainedSplit(chain, links, end, i);
    assert chain[i..][1..] == chain[i + 1..] && links[i..][1..] == links[i + 1..];
  }

  lemma Spliced(a: seq<PollCtx>, c: PollCtx, b: seq<PollCtx>, la: seq<Ctx>, x: Ctx, lb: seq<Ctx>)
    requires Chained(a, la, c) && Chained(b, lb, null) && LinkOk(c, First(b, null)) && Matches(c, x)
    ensures Chained(a + [c] + b, la + [x] + lb, null)
  {
    hide LinkOk, Matches;
    var all, links := a + [c] + b, la + [x] + lb;
    assert all[..|a|] == a && all[|a|..] == [c] + b && links[..|a|] == la && links[|a|..] == [x] + lb;
    assert ([c] + b)[1..] == b && ([x] + lb)[1..] == lb;
    ChainedSplit(all, links, null, |a|);
  }

  lemma SamePlace(chain: seq<PollCtx>, i: nat, j: nat)
    requires Distinct(chain) && i < |chain| && j < |chain| && chain[i] == chain[j]
    ensures i == j
  {
  }

  lemma FirstOnly(chain: seq<PollCtx>, i: nat)
    requires Distinct(chain) && i < |chain| && chain[i] == First(chain, null)
    ensures i == 0
  {
  }

  lemma Elsewhere(chain: seq<PollCtx>, i: nat)
    requires Distinct(chain) && i < |chain|
    ensures chain[i] !in chain[..i] && chain[i] !in chain[i + 1..]
    ensures forall k :: i < k < |chain| ==> chain[i] != chain[k]
    ensures i + 1 < |chain| ==> chain[i] !in chain[i + 2..]
  {
  }

  lemma RestHead(chain: seq<PollCtx>, i: nat)
    requires i < |chain| && Distinct(chain)
    ensures
      var rest := chain[..i] + chain[i + 1..];
      && chain[i] !in rest && Distinct(rest)
      && First(rest, null) == (if i == 0 then First(chain[1..], null) else chain[0])
  {
  }

  lemma HeadGone(chain: seq<PollCtx>, links: seq<Ctx>)
    requires Chained(chain, links, null) && chain != []
    ensures chain[0].previous == First(chain[1..], null) && (chain[0].previous == null <==> |chain| == 1)
    ensures Chained(chain[..0] + chain[1..], links[..0] + links[1..], null)
  {
    assert chain[..0] + chain[1..] == chain[1..] && links[..0] + links[1..] == links[1..];
  }

  lemma IntervalPositive(c: PollCtx, next: PollCtx?)
    requires LinkOk(c, next)
    ensures c.interval >= 1
  {
  }

  lemma Rejoined(chain: seq<PollCtx>, links: seq<Ctx>, i: nat, c: Ctx)
    requires i < |chain| == |links| && Matches(chain[i], c) && LinkOk(chain[i], First(chain[i + 1..], null))
    requires Chained(chain[..i], links[..i], chain[i]) && Chained(chain[i + 1..], links[i + 1..], null)
    ensures Chained(chain, links[i := c], null)
  {
    hide LinkOk, Matches, Chained;
    Spliced(chain[..i], chain[i], chain[i + 1..], links[..i], c, links[i + 1..]);
    assert chain[..i] + [chain[i]] + chain[i + 1..] == chain;
    assert links[..i] + [c] + links[i + 1..] == links[i := c];
  }

  lemma Pushed(c: PollCtx, chain: seq<PollCtx>, links: seq<Ctx>)
    requires Distinct(chain) && c !in chain && Chained(chain, links, null)
    requires c.previous == First(chain, null) && c.interval >= 1
    ensures Distinct([c] + chain) && Chained([c] + chain, [c.Flags()] + links, null) && ([c] + chain)[1..] == chain
  {
    assert ([c] + chain)[1..] == chain && ([c.Flags()] + links)[1..] == links;
  }

  // What changes of one object alone leaves the others linked.
  lemma ChangeAt(chain: seq<PollCtx>, links: seq<Ctx>, i: nat)
    requires Distinct(chain) && Chained(chain, links, null) && i < |chain|
    ensures |links| == |chain|
    ensures chain[i] !in chain[..i] && chain[i] !in chain[i + 1..]
    ensures LinkOk(chain[i], First(chain[i + 1..], null)) && Matches(chain[i], links[i])
    ensures Chained(chain[..i], links[..i], chain[i]) && Chained(chain[i + 1..], links[i + 1..], null)
  {
    hide LinkOk, Matches, Chained;
    Elsewhere(chain, i);
    ChainedAt(chain, links, null, i);
    ChainedSplit(chain, links, null, i);
  }

  // The same for the head, whose rest is found without a split.
  lemma HeadChanges(chain: seq<PollCtx>, links: seq<Ctx>, c: Ctx)
    requires Distinct(chain) && Chained(chain, links, null) && chain != []
    ensures chain[0] !in chain[1..] && LinkOk(chain[0], First(chain[1..], null)) && Matches(chain[0], links[0])
    ensures Chained(chain[1..], links[1..], null) && links[0 := c][1..] == links[1..]
  {
    Elsewhere(chain, 0);
  }

  // ---------------------------------------------------------------- steps as the methods take them

  lemma ClosedStep(s: State, i: nat)
    requires i < |s.chain| && s.chain[i].closing && !s.chain[i].stat && !s.chain[i].timer && s.inside.None?
    requires IndexOf(s.chain, s.chain[i].id) == i
    ensures
      var o := Step(s, TimerClosed(s.chain[i].id));
      && o.Now? && o.s.chain == s.chain[..i] + s.chain[i + 1..]
      && o.s.active == s.active && o.s.closing == s.closing && o.s.inside == s.inside
      && o.s.ended == if |s.chain| == 1 && s.closing then s.ended + 1 else s.ended
  {
  }

  lemma AccountedIndex(s: State, i: nat)
    requires Accounted(s) && i < |s.chain|
    ensures IndexOf(s.chain, s.chain[i].id) == i
  {
    IndexAt(s.chain, i);
  }

  // A linked context whose timer is closed, and the step that unlinks it.
  lemma ClosingAt(chain: seq<PollCtx>, s: State, i: nat)
    requires Inv(s) && s.inside.None? && Chained(chain, s.chain, null) && i < |chain| && chain[i].closing
    ensures |chain| == |s.chain|
    ensures
      var o := Step(s, TimerClosed(chain[i].id));
      && o.Now? && o.s.chain == s.chain[..i] + s.chain[i + 1..]
      && o.s.active == s.active && o.s.closing == s.closing && o.s.inside == s.inside
      && o.s.ended == if |s.chain| == 1 && s.closing then s.ended + 1 else s.ended
  {
    hide Step, Accounted;
    ChainedAt(chain, s.chain, null, i);
    assert OneUnderWay(s.chain[i], false);
    AccountedIndex(s, i);
    ClosedStep(s, i);
  }

  lemma FiredStep(s: State, id: nat)
    requires s.chain != [] && s.inside.None? && s.chain[0] == Ctx(id, false, true, false)
    ensures Step(s, TimerFired(id)) == Now(s.(chain := s.chain[0 := Ctx(id, true, false, false)]))
  {
  }

  // The head, while its stat is in flight, and what its end leads to.
  lemma PolledHead(s: State, id: nat, reports: bool)
    requires Inv(s) && s.inside.None? && s.chain != [] && s.chain[0].id == id && s.chain[0].stat
    ensures s.chain[0] == Ctx(id, true, false, false) && (s.active ==> !s.closing)
    ensures Rearmed(s, Ctx(id, false, false, false)).Some?
    ensures
      var c := Ctx(id, false, false, false);
      Step(s, StatDone(id, reports)) ==
        if s.active && reports then Now(s.(inside := Some(id), chain := s.chain[0 := c]))
        else Now(s.(chain := s.chain[0 := Rearmed(s, c).value]))
  {
    hide Accounted;
    assert OneUnderWay(s.chain[0], false);
  }

  lemma PolledOn(s: State, s1: State, c: Ctx)
    requires s.chain != [] && s1 == s.(chain := s.chain[0 := c]) && s.inside.None?
    requires Rearmed(s, c).Some?
    ensures s1.(chain := s1.chain[0 := Rearmed(s1, c).value], inside := None)
      == s.(chain := s.chain[0 := Rearmed(s, c).value])
  {
    assert s1.chain[0 := Rearmed(s, c).value] == s.chain[0 := Rearmed(s, c).value];
  }

  // While a callback runs, its context has nothing else under way, and the contexts that were linked
  // stay as they are: a new one at most goes in front of them.
  ghost predicate Kept(chain: seq<Ctx>, s: State)
  {
    && Accounted(s) && |chain| <= |s.chain| && s.chain[|s.chain| - |chain|..] == chain
    && s.chain != [] && !s.chain[0].timer
  }

  lemma SameAccounted(s: State, s': State)
    requires Accounted(s) && s'.chain == s.chain && s'.freed == s.freed && s'.made == s.made
    ensures Accounted(s')
  {
  }

  lemma CallKeeps(chain: seq<Ctx>, s: State, e: Event)
    requires Kept(chain, s) && IsCall(e) && Step(s, e).Now?
    ensures Kept(chain, Step(s, e).s) && Step(s, e).s.inside == s.inside
  {
    hide Accounted;
    var s', n := Step(s, e).s, |s.chain| - |chain|;
    match e {
      case Start(launch) =>
        StartedAccounted(s, launch);
        if !s.active && launch == Launched {
          assert s'.chain[n + 1..] == s.chain[n..];
        }
      case Stop => SameAccounted(s, s');
      case Close => SameAccounted(s, s');
    }
  }

  // The end of poll_cb, wherever its context has come to be.
  lemma CallbackStep(s: State, i: nat, c: Ctx)
    requires Accounted(s) && i < |s.chain| && s.chain[i] == c && !c.closing && s.inside == Some(c.id)
    ensures Step(s, CallbackDone) == Now(s.(inside := None, chain := s.chain[i := Rearmed(s, c).value]))
  {
    IndexAt(s.chain, i);
  }

  lemma InvAccounted(s: State)
    requires Inv(s)
    ensures Accounted(s)
  {
  }

  lemma HeadMatches(chain: seq<PollCtx>, links: seq<Ctx>)
    requires Chained(chain, links, null) && chain != []
    ensures |links| == |chain| && chain[0].Flags() == links[0]
  {
  }

  lemma KeptFirst(s: State)
    requires Accounted(s) && s.chain != [] && !s.chain[0].timer
    ensures Kept(s.chain, s)
  {
  }

  lemma StillThere(chain: seq<Ctx>, s: State)
    requires Kept(chain, s) && chain != []
    ensures Accounted(s) && |chain| <= |s.chain| && s.chain[|s.chain| - |chain|] == chain[0]
  {
    assert s.chain[|s.chain| - |chain|..][0] == chain[0];
  }

  lemma RunCall(s: State, es: seq<Event>)
    requires es != [] && IsCall(es[0]) && Run(s, es).Now?
    ensures Step(s, es[0]).Now? && Run(s, es) == Run(Step(s, es[0]).s, es[1..])
  {
  }

  // ---------------------------------------------------------------- what the user is told

  // What the callback is given: the error or zero, and the file's state before and now.
  datatype Report = Report(status: int, prev: int, curr: int)

  datatype Poll = Poll(result: int, stat: int)

  // The callback is due on a new error, after an error, and when the file changed.
  function Told(m: Memory, p: Poll): Option<Report>
  {
    if p.result != 0 then (if m.busy != p.result then Some(Report(p.result, m.stat, NO_STAT)) else None)
    else if m.busy < 0 || (m.busy > 0 && m.stat != p.stat) then Some(Report(0, m.stat, p.stat))
    else None
  }

  function After(m: Memory, p: Poll): Memory
  {
    if p.result != 0 then m.(busy := p.result) else Memory(1, p.stat)
  }

  // What a context that was polled so far remembers.
  function MemoryAfter(polls: seq<Poll>): Memory
  {
    if polls == [] then Memory(0, NO_STAT) else After(MemoryAfter(polls[..|polls| - 1]), polls[|polls| - 1])
  }

  function LastStat(polls: seq<Poll>): int
  {
    if polls == [] then NO_STAT
    else if polls[|polls| - 1].result == 0 then polls[|polls| - 1].stat
    else LastStat(polls[..|polls| - 1])
  }

  // A new error, a success behind an error, or a success with another state than the one before it.
  predicate Due(polls: seq<Poll>, k: nat)
    requires k < |polls|
  {
    if polls[k].result < 0 then k == 0 || polls[k - 1].result != polls[k].result
    else k > 0 && (polls[k - 1].result < 0 || polls[k - 1].stat != polls[k].stat)
  }

  lemma {:induction false} Remembers(polls: seq<Poll>)
    requires forall i :: 0 <= i < |polls| ==> polls[i].result <= 0
    ensures MemoryAfter(polls).stat == LastStat(polls)
    ensures polls == [] ==> MemoryAfter(polls).busy == 0
    ensures polls != [] ==>
      MemoryAfter(polls).busy == if polls[|polls| - 1].result < 0 then polls[|polls| - 1].result else 1
    decreases |polls|
  {
    if polls != [] {
      Remembers(polls[..|polls| - 1]);
    }
  }

  /** Over all the stats of a period of polling: the user is told of one exactly when it is due, and then
      of the last state that was seen before it. */
  lemma ReportsExactly(polls: seq<Poll>, k: nat)
    requires k < |polls| && forall i :: 0 <= i < |polls| ==> polls[i].result <= 0
    ensures
      var told := Told(MemoryAfter(polls[..k]), polls[k]);
      && (told.Some? <==> Due(polls, k))
      && (told.Some? ==>
           told == Some(Report(polls[k].result, LastStat(polls[..k]),
                               if polls[k].result == 0 then polls[k].stat else NO_STAT)))
  {
    Remembers(polls[..k]);
  }

  // ---------------------------------------------------------------- the handle

  class FsPollHandle {
    var pollCtx: PollCtx?
    var active: bool
    var closing: bool
    var ended: nat                 // how often the handle was marked as closed
    ghost var chain: seq<PollCtx>
    ghost var abs: State           // the handle as a state of the machine above

    ghost predicate Valid()
      reads this, chain
    {
      && Distinct(chain) && pollCtx == First(chain, null) && Chained(chain, abs.chain, null)
      && active == abs.active && closing == abs.closing && ended == abs.ended
    }

    constructor ()
      ensures Valid() && abs == INIT
    {
      pollCtx, active, closing, ended := null, false, false, 0;
      chain, abs := [], INIT;
    }

    method Start(launch: Launch, interval: nat, now: nat)
      requires Valid()
      modifies this
      ensures Valid() && Now(abs) == Step(old(abs), Event.Start(launch))
      ensures launch == Launched && !old(active) ==>
        && chain != [] && fresh(chain[0]) && chain[1..] == old(chain)
        && chain[0].startTime == now && chain[0].interval == (if interval == 0 then 1 else interval)
        && chain[0].Recalls() == Memory(0, NO_STAT)
      ensures !(launch == Launched && !old(active)) ==> chain == old(chain)
    {
      if active || launch == NoContext {
        return;
      }
      hide Distinct, Chained, LinkOk, Matches;
      ghost var was, links := chain, abs.chain;
      var ctx := new PollCtx(abs.made, interval, now);
      abs := Started(abs, launch);
      if launch == NoRequest {
        return;
      }
      if pollCtx != null {
        ctx.previous := pollCtx;
      }
      pollCtx := ctx;
      chain := [ctx] + was;
      active := true;
      Pushed(ctx, was, links);
    }

    method Stop()
      requires Valid() && Stoppable(abs)
      modifies this`active, this`abs, chain
      ensures Valid() && Now(abs) == Stopped(old(abs))
      ensures forall c :: c in chain ==> c.Settings() == old(c.Settings())
    {
      if !active {
        return;
      }
      hide Chained, Distinct, LinkOk;
      var ctx := pollCtx;
      ChangeAt(chain, abs.chain, 0);
      if ctx.timer {
        ctx.UvClose();
        Rejoined(chain, abs.chain, 0, CloseTimer(abs.chain[0]).value);
      }
      active := false;
      abs := Stopped(abs).s;
    }

    method Close()
      requires Valid() && Stoppable(abs) && !closing
      modifies this`active, this`closing, this`ended, this`abs, chain
      ensures Valid() && Now(abs) == Closed(old(abs))
      ensures forall c :: c in chain ==> c.Settings() == old(c.Settings())
    {
      ghost var s := abs;
      Stop();
      closing := true;
      if pollCtx == null {
        ended := ended + 1;
      }
      abs := Closed(s).s;
    }

    // The user's callback, out of which the handle is stopped, started and closed at will.
    method CallBack(calls: seq<Event>, interval: nat, now: nat)
      requires Valid() && Accounted(abs) && chain != [] && !abs.chain[0].timer
      requires forall i :: 0 <= i < |calls| ==> IsCall(calls[i])
      requires Run(abs, calls).Now?
      modifies this, chain
      ensures Valid() && Now(abs) == Run(old(abs), calls) && Kept(old(abs.chain), abs) && abs.inside == old(abs.inside)
      ensures |old(chain)| <= |chain| && chain[|chain| - |old(chain)|..] == old(chain)
      ensures forall c :: c in old(chain) ==> c.Settings() == old(c.Settings())
    {
      hide Accounted, Kept, Chained, Distinct, Step;
      ghost var was, links := chain, abs.chain;
      HeadMatches(chain, abs.chain);
      KeptFirst(abs);
      var i := 0;
      assert calls[0..] == calls;
      while i < |calls|
        invariant i <= |calls| && Valid() && Kept(links, abs) && abs.inside == old(abs.inside)
        invariant Run(abs, calls[i..]) == Run(old(abs), calls)
        invariant |was| <= |chain| && chain[|chain| - |was|..] == was
        invariant forall c :: c in chain ==> c in was || fresh(c)
        invariant forall c :: c in was ==> c.Settings() == old(c.Settings())
      {
        RunCall(abs, calls[i..]);
        CallKeeps(links, abs, calls[i]);
        assert calls[i..][1..] == calls[i + 1..];
        assert forall j :: 0 <= j < |chain| ==> chain[j] in was || fresh(chain[j]);
        Called(calls[i], interval, now);
        i := i + 1;
      }
    }

    method Called(call: Event, interval: nat, now: nat)
      requires Valid() && IsCall(call) && Step(abs, call).Now?
      modifies this, chain
      ensures Valid() && Now(abs) == Step(old(abs), call)
      ensures chain == old(chain) || (chain != [] && chain[1..] == old(chain) && fresh(chain[0]))
      ensures forall c :: c in old(chain) ==> c.Settings() == old(c.Settings())
    {
      match call {
        case Start(launch) => Start(launch, interval, now);
        case Stop => Stop();
        case Close => Close();
      }
    }

    // The stat of ctx is done; calls is what the callback does to the handle, when there is one.
    // report is what the callback is given: on a new error, after an error, or when the file changed.
    method PollCb(ctx: PollCtx, result: int, statbuf: int, now: nat, calls: seq<Event>, interval: nat)
      returns (report: Option<Report>)
      requires Valid() && Inv(abs) && abs.inside.None? && chain != [] && ctx == chain[0]
      requires ctx.stat && ctx.startTime <= now
      requires result <= 0 && forall i :: 0 <= i < |calls| ==> IsCall(calls[i])
      requires active ==> Run(Step(abs, StatDone(ctx.id, true)).s, calls).Now?
      modifies this, chain
      ensures Valid()
      ensures report == if old(active) then Told(old(ctx.Recalls()), Poll(result, statbuf)) else None
      ensures ctx.Recalls() == if old(active) then After(old(ctx.Recalls()), Poll(result, statbuf))
        else old(ctx.Recalls())
      ensures old(active) && result == 0 ==> ctx.busyPolling == 1 && ctx.statbuf == statbuf
      ensures old(active) && result != 0 ==> ctx.busyPolling == result && ctx.statbuf == old(ctx.statbuf)
      ensures forall c :: c in old(chain) && c != ctx ==> c.Settings() == old(c.Settings())
      ensures Now(abs) == if report.None? then Step(old(abs), StatDone(ctx.id, false))
        else Step(Run(Step(old(abs), StatDone(ctx.id, true)).s, calls).s, CallbackDone)
      ensures ctx.startTime == old(ctx.startTime) && ctx.interval == old(ctx.interval) && ctx.interval >= 1
      ensures ctx.timer ==> ctx.delay == Delay(ctx.interval, now, ctx.startTime)
    {
      hide Inv, Run, Step, IndexOf, Rearmed, Chained, Distinct, Accounted, Kept, Told;
      ghost var s := abs;
      HeadMatches(chain, abs.chain);
      var live := active && !closing;
      report := Decide(ctx, live, result, statbuf);
      PolledHead(s, ctx.id, report.Some?);
      InvAccounted(s);
      Arrived(ctx, if report.Some? then Some(ctx.id) else None);
      ghost var i := 0;
      ghost var s1 := abs;
      if report.Some? {
        ghost var was := chain;
        CallBack(calls, interval, now);
        i := |chain| - |was|;
        HeadMatches(chain, abs.chain);
        StillThere(s1.chain, abs);
        assert chain[i..][0] == ctx && chain[i] == ctx;
        CallbackStep(abs, i, abs.chain[i]);
      } else {
        PolledOn(s, s1, s1.chain[0]);
      }
      ChainedAt(chain, abs.chain, null, i);
      if live {
        Remember(ctx, i, result, statbuf);
      }
      Rearm(ctx, i, now);
    }

    // Whether the callback is called, and what it is given.
    method Decide(ctx: PollCtx, live: bool, result: int, statbuf: int) returns (report: Option<Report>)
      ensures report == if live then Told(ctx.Recalls(), Poll(result, statbuf)) else None
    {
      report := None;
      if live {
        if result != 0 {
          if ctx.busyPolling != result {
            report := Some(Report(result, ctx.statbuf, NO_STAT));
          }
        } else if ctx.busyPolling != 0 {
          if ctx.busyPolling < 0 || ctx.statbuf != statbuf {
            report := Some(Report(0, ctx.statbuf, statbuf));
          }
        }
      }
    }

    // The request is back: nothing is under way for ctx but the callback, if it is called.
    method Arrived(ctx: PollCtx, ghost inside: Option<nat>)
      requires Valid() && Accounted(abs) && chain != [] && ctx == chain[0]
      modifies this`abs, ctx`stat
      ensures Valid() && Accounted(abs)
      ensures abs == old(abs).(chain := old(abs).chain[0 := old(abs).chain[0].(stat := false)], inside := inside)
      ensures ctx.Settings() == old(ctx.Settings())
    {
      hide Accounted, Chained, Distinct, LinkOk;
      HeadMatches(chain, abs.chain);
      ghost var c := abs.chain[0].(stat := false);
      ChangeAt(chain, abs.chain, 0);
      ChangeKeeps(abs, 0, c, abs.(chain := abs.chain[0 := c], inside := inside));
      ctx.stat := false;
      Rejoined(chain, abs.chain, 0, c);
      abs := abs.(chain := abs.chain[0 := c], inside := inside);
    }

    // What the next stat is compared with.
    method Remember(ctx: PollCtx, ghost i: nat, result: int, statbuf: int)
      requires Valid() && i < |chain| && ctx == chain[i]
      modifies ctx`busyPolling, ctx`statbuf
      ensures Valid() && ctx.Recalls() == After(old(ctx.Recalls()), Poll(result, statbuf))
    {
      if result != 0 {
        if ctx.busyPolling != result {
          ctx.busyPolling := result;
        }
      } else {
        ctx.statbuf := statbuf;
        ctx.busyPolling := 1;
      }
    }

    // The end of poll_cb: the timer is closed or started again.
    method Rearm(ctx: PollCtx, ghost i: nat, now: nat)
      requires Valid() && i < |chain| && ctx == chain[i] && ctx.startTime <= now && !ctx.closing && !ctx.timer
      modifies this`abs, ctx`timer, ctx`closing, ctx`delay
      ensures Valid() && i < |old(abs).chain| && Rearmed(old(abs), old(abs.chain[i])).Some?
      ensures abs == old(abs).(chain := old(abs).chain[i := Rearmed(old(abs), old(abs).chain[i]).value], inside := None)
      ensures ctx.interval >= 1 && (ctx.timer ==> ctx.delay == Delay(ctx.interval, now, ctx.startTime))
    {
      hide Chained, Distinct, LinkOk;
      ChangeAt(chain, abs.chain, i);
      ghost var c := Rearmed(abs, abs.chain[i]).value;
      IntervalPositive(ctx, First(chain[i + 1..], null));
      if !active || closing {
        ctx.UvClose();
      } else {
        ctx.UvTimerStart(Delay(ctx.interval, now, ctx.startTime));
      }
      Rejoined(chain, abs.chain, i, c);
      abs := abs.(chain := abs.chain[i := c], inside := None);
    }

    method TimerCb(ctx: PollCtx, now: nat)
      requires Valid() && Inv(abs) && abs.inside.None? && ctx in chain && ctx.timer
      modifies ctx, this`abs
      ensures Valid() && Now(abs) == Step(old(abs), TimerFired(ctx.id)) && ctx.startTime == now
      ensures ctx.Recalls() == old(ctx.Recalls()) && ctx.interval == old(ctx.interval)
    {
      hide Accounted, Step, IndexOf;
      ghost var i :| 0 <= i < |chain| && chain[i] == ctx;
      ChainedAt(chain, abs.chain, null, i);
      assert OneUnderWay(abs.chain[i], false);
      assert i == 0 && pollCtx == ctx;
      FiredStep(abs, ctx.id);
      ghost var c := abs.chain[0].(timer := false, stat := true);
      HeadChanges(chain, abs.chain, c);
      ctx.timer := false;
      ctx.startTime := now;
      ctx.UvFsStat();
      abs := abs.(chain := abs.chain[0 := c]);
    }

    // The timer of ctx is closed: ctx is unlinked, by a walk from the newest context, and freed.
    method TimerCloseCb(ctx: PollCtx)
      requires Valid() && Inv(abs) && abs.inside.None? && ctx in chain && ctx.closing
      modifies this`pollCtx, this`ended, this`chain, this`abs, chain
      ensures Valid() && ctx !in chain && Now(abs) == Step(old(abs), TimerClosed(ctx.id))
      ensures forall c :: c in old(chain) ==> c.Settings() == old(c.Settings())
    {
      hide Inv, Step, Distinct, Chained, IndexOf, Matches, LinkOk;
      ghost var s := abs;
      ghost var i :| 0 <= i < |chain| && chain[i] == ctx;
      ClosingAt(chain, s, i);
      RestHead(chain, i);
      ghost var rest, links := chain[..i] + chain[i + 1..], s.chain[..i] + s.chain[i + 1..];
      if ctx == pollCtx {
        FirstOnly(chain, i);
        HeadGone(chain, s.chain);
        pollCtx := ctx.previous;
        if pollCtx == null && closing {
          ended := ended + 1;
        }
      } else {
        Unlink(ctx, i, chain[i - 1]);
      }
      assert Chained(rest, links, null);
      chain := rest;
      abs := Step(s, TimerClosed(ctx.id)).s;
    }

    // The walk from the newest context to the one before ctx.
    method Before(ctx: PollCtx, ghost i: nat) returns (last: PollCtx)
      requires Valid() && 1 <= i < |chain| && chain[i] == ctx
      ensures last == chain[i - 1]
    {
      hide Chained, Distinct;
      ChainedAt(chain, abs.chain, null, 0);
      last := pollCtx;
      var it := last.previous;
      ghost var j := 0;
      while it != ctx
        invariant 0 <= j < i && last == chain[j] && it == First(chain[j + 1..], null)
        decreases i - j
      {
        assert it == chain[j + 1];
        ChainedAt(chain, abs.chain, null, j + 1);
        last := it;
        it := it.previous;
        j := j + 1;
      }
      SamePlace(chain, j + 1, i);
    }

    // The context before ctx points past it.
    method Unlink(ctx: PollCtx, ghost i: nat, ghost before: PollCtx)
      requires Valid() && 1 <= i < |chain| && chain[i] == ctx && chain[i - 1] == before
      modifies before`previous
      ensures Chained(chain[..i] + chain[i + 1..], abs.chain[..i] + abs.chain[i + 1..], null)
    {
      hide Chained, Distinct;
      var last := Before(ctx, i);
      ChainedAt(chain, abs.chain, null, i);
      ChainedAt(chain, abs.chain, null, i - 1);
      ChainedSplit(chain, abs.chain, null, i - 1);
      Elsewhere(chain, i - 1);
      ghost var a, b := chain[..i - 1], chain[i + 1..];
      last.previous := ctx.previous;
      Spliced(a, before, b, abs.chain[..i - 1], abs.chain[i - 1], abs.chain[i + 1..]);
      assert chain[..i] + chain[i + 1..] == a + [before] + b;
      assert abs.chain[..i] + abs.chain[i + 1..] == abs.chain[..i - 1] + [abs.chain[i - 1]] + abs.chain[i + 1..];
    }
  }
}
