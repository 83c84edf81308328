/** The HTTP response token (crates/eronom-net/cpp/er_http.cpp): one token shared by threads that
    respond, abort, copy, move and drop the objects holding it.  Every atomic operation is one step,
    and the steps of the threads interleave in any order. */
module ResponseToken {
  import opened Options

  // ends counts the calls of end on the response, deletes those of delete on the token.
  datatype Token = Token(res: bool, aborted: bool, responded: bool, refCount: nat, deletes: nat, ends: nat)

  // A holder is an object whose token pointer is set: a copy of the abort handler, a body context,
  // or the context on the other side of the language boundary.
  type Holder = nat

  // What a thread does next.  via is a holder it works through and does not change.
  datatype Pc =
    | Idle
    | LoadAborted(via: Holder)        // the three functions that end the response
    | Exchange(via: Holder)
    | LoadRes(via: Holder)
    | IssueEnd(via: Holder)
    | StoreAborted(via: Holder)       // the abort handler's call operator
    | StoreRes(via: Holder)
    | AddRef(via: Holder, dst: Holder)      // a copy: the pointer is taken, the count follows
    | Drop(own: Holder)                     // a destructor or er_http_response_release
    | DropForCopy(own: Holder, via: Holder) // copy assignment: own lets go, then copies via
    | DropForMove(own: Holder, src: Holder) // move assignment: own lets go, then takes from src
    | TakeOver(own: Holder, src: Holder)
    | Delete

  datatype State = State(token: Token, held: set<Holder>, threads: seq<Pc>)

  // ---------------------------------------------------------------- who touches what

  // Holders a thread reads the token through, and holders it is about to change.
  function Uses(pc: Pc): set<Holder>
  {
    match pc
    case LoadAborted(h) => {h}
    case Exchange(h) => {h}
    case LoadRes(h) => {h}
    case IssueEnd(h) => {h}
    case StoreAborted(h) => {h}
    case StoreRes(h) => {h}
    case AddRef(h, _) => {h}
    case DropForCopy(_, h) => {h}
    case _ => {}
  }

  function Changes(pc: Pc): set<Holder>
  {
    match pc
    case AddRef(_, d) => {d}
    case Drop(o) => {o}
    case DropForCopy(o, _) => {o}
    case DropForMove(o, src) => {o, src}
    case TakeOver(o, src) => {o, src}
    case _ => {}
  }

  // The holders that must exist for the thread's next step.
  function Needs(pc: Pc): set<Holder>
  {
    match pc
    case AddRef(h, _) => {h}
    case TakeOver(_, src) => {src}
    case _ => Uses(pc) + Changes(pc)
  }

  // The calling discipline: an object is not changed by one thread while another works with it.
  predicate Apart(a: Pc, b: Pc)
  {
    Changes(a) !! (Uses(b) + Changes(b)) && Changes(b) !! (Uses(a) + Changes(a))
  }

  predicate MayStart(s: State, t: nat, pc: Pc)
    requires t < |s.threads|
  {
    && s.threads[t] == Idle && Needs(pc) <= s.held
    && (pc.AddRef? ==> pc.dst !in s.held)
    && forall u :: 0 <= u < |s.threads| && u != t ==> Apart(pc, s.threads[u])
  }

  // Where an operation begins.
  predicate IsEntry(pc: Pc)
  {
    || pc.LoadAborted? || pc.StoreAborted? || pc.AddRef? || pc.Drop?
    || (pc.DropForCopy? && pc.own != pc.via) || (pc.DropForMove? && pc.own != pc.src)
  }

  // ---------------------------------------------------------------- the steps

  datatype Action = Begin(t: nat, pc: Pc) | Move(src: Holder, dst: Holder) | Go(t: nat)

  function At(s: State, t: nat, pc: Pc): State
    requires t < |s.threads|
  {
    s.(threads := s.threads[t := pc])
  }

  // fetch_sub: own no longer counts; the last one out deletes the token.
  function Decrement(s: State, t: nat, own: Holder, next: Pc): State
    requires t < |s.threads| && s.token.refCount > 0
  {
    At(s.(token := s.token.(refCount := s.token.refCount - 1), held := s.held - {own}), t,
       if s.token.refCount == 1 then Delete else next)
  }

  // One atomic operation of a thread.
  function Advance(s: State, t: nat): Option<State>
    requires t < |s.threads|
  {
    var k := s.token;
    match s.threads[t]
    case Idle => None
    case LoadAborted(h) => Some(At(s, t, if k.aborted then Idle else Exchange(h)))
    case Exchange(h) =>
      if k.responded then Some(At(s, t, Idle)) else Some(At(s.(token := k.(responded := true)), t, LoadRes(h)))
    case LoadRes(h) => Some(At(s, t, if k.res then IssueEnd(h) else Idle))
    case IssueEnd(_) => Some(At(s.(token := k.(ends := k.ends + 1)), t, Idle))
    case StoreAborted(h) => Some(At(s.(token := k.(aborted := true)), t, StoreRes(h)))
    case StoreRes(_) => Some(At(s.(token := k.(res := false)), t, Idle))
    case AddRef(_, d) => Some(At(s.(token := k.(refCount := k.refCount + 1), held := s.held + {d}), t, Idle))
    case Drop(o) => if k.refCount == 0 then None else Some(Decrement(s, t, o, Idle))
    case DropForCopy(o, h) => if k.refCount == 0 then None else Some(Decrement(s, t, o, AddRef(h, o)))
    case DropForMove(o, src) => if k.refCount == 0 then None else Some(Decrement(s, t, o, TakeOver(o, src)))
    case TakeOver(o, src) => Some(At(s.(held := s.held - {src} + {o}), t, Idle))
    case Delete => Some(At(s.(token := k.(deletes := k.deletes + 1)), t, Idle))
  }

  function Step(s: State, a: Action): Option<State>
  {
    match a
    case Begin(t, pc) => if t < |s.threads| && IsEntry(pc) && MayStart(s, t, pc) then Some(At(s, t, pc)) else None
    case Move(src, dst) =>   // move construction: the pointer changes its object
      if src in s.held && dst !in s.held && src != dst
        && (forall u :: 0 <= u < |s.threads| ==> Apart(DropForMove(dst, src), s.threads[u]))
      then Some(s.(held := s.held - {src} + {dst})) else None
    case Go(t) => if t < |s.threads| then Advance(s, t) else None
  }

  // A run; an action that is not enabled changes nothing.
  function Run(s: State, actions: seq<Action>): State
    decreases |actions|
  {
    if actions == [] then s
    else Run(match Step(s, actions[0]) case Some(s') => s' case None => s, actions[1..])
  }

  // A new token: one reference for the abort handler, one for the other side's context.
  function Start(n: nat): State
  {
    State(Token(true, false, false, 2, 0, 0), {0, 1}, seq(n, _ => Idle))
  }

  // ---------------------------------------------------------------- what every step keeps

  predicate Winner(pc: Pc) { pc.LoadRes? || pc.IssueEnd? }

  predicate ThreadOk(s: State, pc: Pc)
  {
    && Needs(pc) <= s.held
    && (pc.AddRef? ==> pc.dst !in s.held)
    && (pc.TakeOver? ==> pc.own !in s.held && pc.own != pc.src)
    && (pc.DropForCopy? ==> pc.own != pc.via) && (pc.DropForMove? ==> pc.own != pc.src)
    && (pc.StoreRes? ==> s.token.aborted)
    && (Winner(pc) ==> s.token.responded && s.token.ends == 0)
    && (pc.Delete? ==> s.held == {} && s.token.deletes == 0)
  }

  // Two threads keep apart, at most one has won the response, at most one deletes.
  predicate PairOk(a: Pc, b: Pc)
  {
    Apart(a, b) && !(Winner(a) && Winner(b)) && !(a.Delete? && b.Delete?)
  }

  ghost predicate Inv(s: State)
  {
    && s.token.refCount == |s.held|
    && s.token.ends <= 1 && (s.token.ends == 1 ==> s.token.responded)
    && s.token.deletes <= 1 && (s.token.deletes == 1 ==> s.held == {})
    && (s.held == {} ==> s.token.deletes == 1 || Delete in s.threads)
    && (!s.token.res ==> s.token.aborted)
    && (forall t :: 0 <= t < |s.threads| ==> ThreadOk(s, s.threads[t]))
    && (forall t, u :: 0 <= t < u < |s.threads| ==> PairOk(s.threads[t], s.threads[u]))
  }

  lemma StartInv(n: nat)
    ensures Inv(Start(n))
  {
    assert |{0, 1}| == 2;
  }

  // Changing one thread's place keeps the pairs when the new place does.
  lemma PairsKept(s: State, t: nat, pc: Pc)
    requires t < |s.threads| && Inv(s)
    requires forall u :: 0 <= u < |s.threads| && u != t ==> PairOk(pc, s.threads[u])
    ensures var n := At(s, t, pc).threads; forall a, b :: 0 <= a < b < |n| ==> PairOk(n[a], n[b])
  {
    var n := At(s, t, pc).threads;
    forall a, b | 0 <= a < b < |n| ensures PairOk(n[a], n[b]) {
      assert PairOk(pc, s.threads[a]) || a == t;
      assert PairOk(pc, s.threads[b]) || b == t;
    }
  }

  lemma Others(s: State, t: nat, u: nat)
    requires Inv(s) && t < |s.threads| && u < |s.threads| && t != u
    ensures PairOk(s.threads[t], s.threads[u]) && ThreadOk(s, s.threads[u])
  {
    if t > u {
      assert PairOk(s.threads[u], s.threads[t]);
    }
  }

  lemma SetSizes(held: set<Holder>, h: Holder)
    ensures h in held ==> |held - {h}| == |held| - 1
    ensures h !in held ==> |held + {h}| == |held| + 1
    ensures |held| == 0 <==> held == {}
  {
  }

  // Another thread q, while a thread goes from before to pc and changes only flags.
  lemma FlagOther(s: State, token: Token, before: Pc, pc: Pc, q: Pc)
    requires PairOk(before, q) && ThreadOk(s, q) && before != Delete && pc != Delete
    requires token.deletes == s.token.deletes && Uses(pc) <= Uses(before) && Changes(pc) == {}
    requires s.token.responded ==> token.responded
    requires token.ends == s.token.ends || before.IssueEnd?
    requires s.token.aborted ==> token.aborted
    requires Winner(pc) ==> Winner(before) || !s.token.responded
    ensures PairOk(pc, q) && ThreadOk(s.(token := token), q)
  {
  }

  lemma SameOk(a: State, b: State, pcs: seq<Pc>)
    requires a.token == b.token && a.held == b.held
    ensures forall i :: 0 <= i < |pcs| ==> ThreadOk(a, pcs[i]) == ThreadOk(b, pcs[i])
    ensures forall pc :: ThreadOk(a, pc) == ThreadOk(b, pc)
  {
  }

  // A step that only moves thread t and changes the flags.
  lemma FlagOwn(s: State, before: Pc, token: Token, pc: Pc)
    requires ThreadOk(s, before) && pc != Delete && before != Delete
    requires Uses(pc) <= Uses(before) && Changes(pc) == {} && !pc.TakeOver? && !pc.AddRef?
    requires pc.StoreRes? ==> token.aborted
    requires Winner(pc) ==> token.responded && token.ends == 0
    ensures ThreadOk(s.(token := token), pc)
  {
  }

  lemma FlagStep(s: State, t: nat, token: Token, pc: Pc)
    requires Inv(s) && t < |s.threads| && s.threads[t] != Delete && pc != Delete
    requires token.refCount == s.token.refCount && token.deletes == s.token.deletes
    requires Uses(pc) <= Uses(s.threads[t]) && Changes(pc) == {} && !pc.TakeOver? && !pc.AddRef?
    requires token.responded == s.token.responded || (token.responded && !s.token.responded)
    requires token.ends == s.token.ends || (s.threads[t].IssueEnd? && token.ends == 1)
    requires token.aborted == s.token.aborted || token.aborted
    requires !token.res ==> token.aborted
    requires pc.StoreRes? ==> token.aborted
    requires Winner(pc) ==> token.responded && token.ends == 0 && (Winner(s.threads[t]) || !s.token.responded)
    requires token.ends == 1 ==> token.responded
    ensures Inv(At(s.(token := token), t, pc))
  {
    var s' := At(s.(token := token), t, pc);
    assert ThreadOk(s, s.threads[t]);
    hide ThreadOk, PairOk, Apart, Uses, Changes, Needs;
    FlagOwn(s, s.threads[t], token, pc);
    SameOk(s.(token := token), s', s.threads);
    forall u | 0 <= u < |s.threads| && u != t ensures PairOk(pc, s.threads[u]) && ThreadOk(s', s.threads[u]) {
      Others(s, t, u);
      FlagOther(s, token, s.threads[t], pc, s.threads[u]);
    }
    PairsKept(s, t, pc);
    if s.held == {} && Delete in s.threads {
      var u :| 0 <= u < |s.threads| && s.threads[u] == Delete;
      assert s'.threads[u] == Delete;
    }
  }

  lemma EndStepKeeps(s: State, t: nat)
    requires Inv(s) && t < |s.threads|
    requires
      var pc := s.threads[t];
      pc.LoadAborted? || pc.Exchange? || pc.LoadRes? || pc.IssueEnd? || pc.StoreAborted? || pc.StoreRes?
    ensures Inv(Advance(s, t).value)
  {
    var k, pc := s.token, s.threads[t];
    assert ThreadOk(s, pc);
    match pc {
      case LoadAborted(h) => FlagStep(s, t, k, if k.aborted then Idle else Exchange(h));
      case Exchange(h) =>
        if k.responded {
          FlagStep(s, t, k, Idle);
        } else {
          FlagStep(s, t, k.(responded := true), LoadRes(h));
        }
      case LoadRes(h) => FlagStep(s, t, k, if k.res then IssueEnd(h) else Idle);
      case IssueEnd(_) => FlagStep(s, t, k.(ends := k.ends + 1), Idle);
      case StoreAborted(h) => FlagStep(s, t, k.(aborted := true), StoreRes(h));
      case StoreRes(_) => FlagStep(s, t, k.(res := false), Idle);
    }
  }

  // Another thread q, while a thread goes from before to pc and changes only its own holders.
  lemma OtherKept(s: State, before: Pc, pc: Pc, held: set<Holder>, token: Token, q: Pc)
    requires PairOk(before, q) && ThreadOk(s, q) && !Winner(pc)
    requires Uses(pc) + Changes(pc) <= Uses(before) + Changes(before) && Changes(pc) <= Changes(before)
    requires forall h :: h in s.held && h !in held ==> h in Changes(before)
    requires forall h :: h in held && h !in s.held ==> h in Changes(before)
    requires token == s.token.(refCount := token.refCount, deletes := token.deletes)
    requires pc.Delete? ==> s.held != {}
    requires if before == Delete then true else token.deletes == s.token.deletes && s.held != {}
    ensures PairOk(pc, q) && ThreadOk(State(token, held, s.threads), q)
  {
    assert Apart(before, q);
  }

  // The set of holders changes with the count, and nobody else works with what is changed.
  lemma HolderStep(s: State, t: nat, held: set<Holder>, token: Token, pc: Pc)
    requires Inv(s) && t < |s.threads|
    requires token == s.token.(refCount := |held|, deletes := token.deletes)
    requires Uses(pc) + Changes(pc) <= Uses(s.threads[t]) + Changes(s.threads[t])
      && Changes(pc) <= Changes(s.threads[t])
    requires forall h :: h in s.held && h !in held ==> h in Changes(s.threads[t])
    requires forall h :: h in held && h !in s.held ==> h in Changes(s.threads[t])
    requires ThreadOk(State(token, held, s.threads), pc) && !Winner(pc)
    requires pc.Delete? ==> s.threads[t] != Delete && s.held != {}
    requires if s.threads[t] == Delete then s.token.deletes == 0 && token.deletes == 1 && held == {} && pc == Idle
             else token.deletes == s.token.deletes && (held == {} ==> pc == Delete) && s.held != {}
    ensures Inv(At(State(token, held, s.threads), t, pc))
  {
    var mid := State(token, held, s.threads);
    var s' := At(mid, t, pc);
    forall u | 0 <= u < |s.threads| && u != t ensures PairOk(pc, s.threads[u]) && ThreadOk(mid, s.threads[u]) {
      Others(s, t, u);
      OtherKept(s, s.threads[t], pc, held, token, s.threads[u]);
    }
    hide PairOk, Apart, Uses, Changes, Needs;
    PairsKept(s, t, pc);
    SameOk(mid, s', s.threads);
    assert s'.threads[t] == pc;
  }

  // Letting go of own: the count still matches, and the next step finds what it needs.
  lemma DropNext(s: State, pc: Pc) returns (pc': Pc)
    requires ThreadOk(s, pc) && s.token.refCount == |s.held| && (pc.Drop? || pc.DropForCopy? || pc.DropForMove?)
    requires s.token.deletes <= 1 && (s.token.deletes == 1 ==> s.held == {})
    ensures s.held != {} && s.token.refCount - 1 == |s.held - {pc.own}|
      && (s.held - {pc.own} == {} <==> s.token.refCount == 1)
    ensures pc' == if s.token.refCount == 1 then Delete
      else if pc.Drop? then Idle else if pc.DropForCopy? then AddRef(pc.via, pc.own) else TakeOver(pc.own, pc.src)
    ensures ThreadOk(State(s.token.(refCount := |s.held - {pc.own}|), s.held - {pc.own}, s.threads), pc')
    ensures s.held - {pc.own} == {} ==> pc' == Delete
  {
    var held := s.held - {pc.own};
    SetSizes(s.held, pc.own);
    SetSizes(held, pc.own);
    if pc.DropForCopy? {
      assert pc.via in held;
    } else if pc.DropForMove? {
      assert pc.src in held;
    }
    pc' := if s.token.refCount == 1 then Delete
      else if pc.Drop? then Idle else if pc.DropForCopy? then AddRef(pc.via, pc.own) else TakeOver(pc.own, pc.src);
  }

  lemma DropAdvances(s: State, t: nat, pc': Pc)
    requires t < |s.threads| && s.token.refCount > 0
    requires var pc := s.threads[t]; pc.Drop? || pc.DropForCopy? || pc.DropForMove?
    requires var pc := s.threads[t];
      pc' == if s.token.refCount == 1 then Delete
        else if pc.Drop? then Idle else if pc.DropForCopy? then AddRef(pc.via, pc.own) else TakeOver(pc.own, pc.src)
    ensures
      var token, held := s.token.(refCount := s.token.refCount - 1), s.held - {s.threads[t].own};
      Advance(s, t) == Some(At(State(token, held, s.threads), t, pc'))
  {
  }

  lemma DropUses(pc: Pc, pc': Pc)
    requires pc.Drop? || pc.DropForCopy? || pc.DropForMove?
    requires pc' == Delete || pc' == if pc.Drop? then Idle
      else if pc.DropForCopy? then AddRef(pc.via, pc.own) else TakeOver(pc.own, pc.src)
    ensures Uses(pc') + Changes(pc') <= Uses(pc) + Changes(pc) && Changes(pc') <= Changes(pc)
    ensures pc.own in Changes(pc) && !Winner(pc')
  {
  }

  lemma DropStepKeeps(s: State, t: nat)
    requires Inv(s) && t < |s.threads|
    requires var pc := s.threads[t]; pc.Drop? || pc.DropForCopy? || pc.DropForMove?
    ensures Advance(s, t).Some? && Inv(Advance(s, t).value)
  {
    var pc := s.threads[t];
    assert ThreadOk(s, pc);
    hide ThreadOk, PairOk, Advance, Uses, Changes, Winner;
    var pc' := DropNext(s, pc);
    DropAdvances(s, t, pc');
    DropUses(pc, pc');
    HolderStep(s, t, s.held - {pc.own}, s.token.(refCount := |s.held - {pc.own}|), pc');
  }

  lemma AddStepKeeps(s: State, t: nat)
    requires Inv(s) && t < |s.threads| && s.threads[t].AddRef?
    ensures Inv(Advance(s, t).value)
  {
    var pc := s.threads[t];
    assert ThreadOk(s, pc);
    SetSizes(s.held, pc.dst);
    HolderStep(s, t, s.held + {pc.dst}, s.token.(refCount := |s.held + {pc.dst}|), Idle);
  }

  lemma SwapSizes(held: set<Holder>, src: Holder, dst: Holder)
    requires src in held && dst !in held
    ensures |held - {src} + {dst}| == |held|
  {
    SetSizes(held, src);
    SetSizes(held - {src}, dst);
  }

  lemma TakeStepKeeps(s: State, t: nat)
    requires Inv(s) && t < |s.threads| && s.threads[t].TakeOver?
    ensures Inv(Advance(s, t).value)
  {
    var pc := s.threads[t];
    assert ThreadOk(s, pc);
    SwapSizes(s.held, pc.src, pc.own);
    HolderStep(s, t, s.held - {pc.src} + {pc.own}, s.token.(refCount := |s.held|), Idle);
  }

  lemma DeleteStepKeeps(s: State, t: nat)
    requires Inv(s) && t < |s.threads| && s.threads[t].Delete?
    ensures Inv(Advance(s, t).value)
  {
    assert ThreadOk(s, s.threads[t]);
    HolderStep(s, t, s.held, s.token.(deletes := 1), Idle);
  }

  lemma BeginKeeps(s: State, t: nat, pc: Pc)
    requires Inv(s) && t < |s.threads| && IsEntry(pc) && MayStart(s, t, pc)
    ensures Inv(At(s, t, pc))
  {
    var s' := At(s, t, pc);
    forall u | 0 <= u < |s.threads| && u != t ensures PairOk(pc, s.threads[u]) {
      assert Apart(pc, s.threads[u]);
    }
    PairsKept(s, t, pc);
    assert Needs(pc) != {};
  }

  // Another thread, while the pointer moves from src to dst.
  lemma MoveOther(s: State, src: Holder, dst: Holder, q: Pc)
    requires ThreadOk(s, q) && Apart(DropForMove(dst, src), q) && src in s.held && dst !in s.held && src != dst
    ensures ThreadOk(s.(held := s.held - {src} + {dst}), q)
  {
    var held := s.held - {src} + {dst};
    assert dst in held && forall h :: h in s.held && h != src ==> h in held;
  }

  lemma MoveKeeps(s: State, src: Holder, dst: Holder)
    requires Inv(s) && src in s.held && dst !in s.held && src != dst
    requires forall u :: 0 <= u < |s.threads| ==> Apart(DropForMove(dst, src), s.threads[u])
    ensures Inv(s.(held := s.held - {src} + {dst}))
  {
    hide ThreadOk, PairOk, Apart;
    var s' := s.(held := s.held - {src} + {dst});
    SwapSizes(s.held, src, dst);
    assert dst in s'.held;
    forall u | 0 <= u < |s.threads| ensures ThreadOk(s', s.threads[u]) {
      MoveOther(s, src, dst, s.threads[u]);
    }
  }

  lemma StepKeeps(s: State, a: Action)
    requires Inv(s) && Step(s, a).Some?
    ensures Inv(Step(s, a).value)
  {
    hide Inv, Apart, MayStart;
    match a {
      case Begin(t, pc) => BeginKeeps(s, t, pc);
      case Move(src, dst) => MoveKeeps(s, src, dst);
      case Go(t) =>
        match s.threads[t] {
          case Idle =>
          case AddRef(_, _) => AddStepKeeps(s, t);
          case TakeOver(_, _) => TakeStepKeeps(s, t);
          case Delete => DeleteStepKeeps(s, t);
          case Drop(_) => DropStepKeeps(s, t);
          case DropForCopy(_, _) => DropStepKeeps(s, t);
          case DropForMove(_, _) => DropStepKeeps(s, t);
          case _ => EndStepKeeps(s, t);
        }
    }
  }

  lemma {:induction false} RunKeeps(s: State, actions: seq<Action>)
    requires Inv(s)
    ensures Inv(Run(s, actions))
    decreases |actions|
  {
    hide Inv, Step;
    if actions != [] {
      if Step(s, actions[0]).Some? {
        StepKeeps(s, actions[0]);
        RunKeeps(Step(s, actions[0]).value, actions[1..]);
      } else {
        RunKeeps(s, actions[1..]);
      }
    }
  }

  // ---------------------------------------------------------------- what holds in every run

  /** In every interleaving: the response is ended at most once, the count is the number of live
      holders, and the token is deleted at most once and only when no holder is left. */
  lemma AlwaysSafe(n: nat, actions: seq<Action>)
    ensures
      var s := Run(Start(n), actions);
      && s.token.ends <= 1 && s.token.refCount == |s.held|
      && s.token.deletes <= 1 && (s.token.deletes == 1 ==> s.held == {})
  {
    StartInv(n);
    RunKeeps(Start(n), actions);
  }

  // No thread that is about to touch the token finds it deleted.
  lemma NeverDangling(n: nat, actions: seq<Action>, t: nat)
    requires t < |Run(Start(n), actions).threads| && Run(Start(n), actions).threads[t] != Idle
    ensures Run(Start(n), actions).token.deletes == 0
  {
    StartInv(n);
    RunKeeps(Start(n), actions);
    var s := Run(Start(n), actions);
    assert ThreadOk(s, s.threads[t]);
  }

  // When the last holder is gone and nobody is in the middle of a step, the token has been deleted.
  lemma NeverLeaked(n: nat, actions: seq<Action>)
    requires var s := Run(Start(n), actions); s.held == {} && forall t :: 0 <= t < |s.threads| ==> s.threads[t] == Idle
    ensures Run(Start(n), actions).token.deletes == 1
  {
    StartInv(n);
    RunKeeps(Start(n), actions);
  }

  ghost predicate NoneEnding(s: State)
  {
    forall t :: 0 <= t < |s.threads| ==> !s.threads[t].IssueEnd?
  }

  // Once the abort handler has cleared the response and no thread is already calling end, the
  // response is never ended again.
  lemma {:induction false} AbortIsFinal(s: State, actions: seq<Action>)
    requires !s.token.res && NoneEnding(s)
    ensures Run(s, actions).token.ends == s.token.ends
    decreases |actions|
  {
    hide MayStart, Apart;
    if actions != [] && Step(s, actions[0]).Some? {
      AbortIsFinal(Step(s, actions[0]).value, actions[1..]);
    } else if actions != [] {
      AbortIsFinal(s, actions[1..]);
    }
  }

  ghost predicate NoneExchanging(s: State)
  {
    forall t :: 0 <= t < |s.threads| ==> !s.threads[t].Exchange?
  }

  // Once the abort is seen by every thread, the response is never taken any more: who comes later
  // turns back at the flag.
  lemma {:induction false} AbortTurnsBack(s: State, actions: seq<Action>)
    requires s.token.aborted && NoneExchanging(s)
    ensures
      var s' := Run(s, actions);
      s'.token.aborted && NoneExchanging(s') && s'.token.responded == s.token.responded
    decreases |actions|
  {
    hide MayStart, Apart;
    if actions != [] && Step(s, actions[0]).Some? {
      AbortTurnsBack(Step(s, actions[0]).value, actions[1..]);
    } else if actions != [] {
      AbortTurnsBack(s, actions[1..]);
    }
  }

  // A run through given states ends in the last of them.
  lemma {:induction false} Unroll(s: State, actions: seq<Action>, states: seq<State>)
    requires |states| == |actions| > 0 && Step(s, actions[0]) == Some(states[0])
    requires forall i :: 1 <= i < |actions| ==> Step(states[i - 1], actions[i]) == Some(states[i])
    ensures Run(s, actions) == states[|states| - 1]
    decreases |actions|
  {
    hide Step;
    if |actions| == 1 {
      assert Run(states[0], actions[1..]) == states[0];
    } else {
      forall i | 1 <= i < |actions[1..]| ensures Step(states[1..][i - 1], actions[1..][i]) == Some(states[1..][i]) {
        assert Step(states[i], actions[i + 1]) == Some(states[i + 1]);
      }
      Unroll(states[0], actions[1..], states[1..]);
    }
  }

  lemma OneMore(s: State, t: nat)
    requires t < |s.threads| && s.threads[t].IssueEnd?
    ensures Run(s, [Go(t)]).token.ends == s.token.ends + 1
  {
    hide Apart;
    var s' := At(s.(token := s.token.(ends := s.token.ends + 1)), t, Idle);
    assert Step(s, Go(t)) == Some(s');
    Unroll(s, [Go(t)], [s']);
  }

  // After the abort a run can still end the response exactly when some thread is already calling end.
  lemma AbortExact(s: State)
    requires !s.token.res
    ensures (exists actions :: Run(s, actions).token.ends > s.token.ends) <==> !NoneEnding(s)
  {
    hide Run, Step;
    if NoneEnding(s) {
      forall actions ensures Run(s, actions).token.ends == s.token.ends {
        AbortIsFinal(s, actions);
      }
    } else {
      var t: nat :| t < |s.threads| && s.threads[t].IssueEnd?;
      OneMore(s, t);
      assert Run(s, [Go(t)]).token.ends == s.token.ends + 1;
    }
  }

  // Thread 0 has won the response and read it.
  function ReadAlready(): State
  {
    At(Start(2).(token := Token(true, false, true, 2, 0, 0)), 0, IssueEnd(1))
  }

  lemma ReadFirst()
    ensures Run(Start(2), [Begin(0, LoadAborted(1)), Go(0), Go(0), Go(0)]) == ReadAlready()
  {
    var s0 := Start(2);
    var s1 := At(s0, 0, LoadAborted(1));
    var s2 := At(s1, 0, Exchange(1));
    var s3 := At(s2.(token := s2.token.(responded := true)), 0, LoadRes(1));
    var s4 := At(s3, 0, IssueEnd(1));
    assert s4.threads == [IssueEnd(1), Idle] == ReadAlready().threads;
    Unroll(s0, [Begin(0, LoadAborted(1)), Go(0), Go(0), Go(0)], [s1, s2, s3, s4]);
  }

  // A thread that has read the response before the abort still ends it afterwards.
  lemma EndAfterAbort()
    ensures
      var s := Run(ReadAlready(), [Begin(1, StoreAborted(0)), Go(1), Go(1)]);
      s.token.aborted && !s.token.res && s.token.ends == 0 && Run(s, [Go(0)]).token.ends == 1
  {
    var s4 := ReadAlready();
    var s5 := At(s4, 1, StoreAborted(0));
    var s6 := At(s5.(token := s5.token.(aborted := true)), 1, StoreRes(0));
    var s7 := At(s6.(token := s6.token.(res := false)), 1, Idle);
    Unroll(s4, [Begin(1, StoreAborted(0)), Go(1), Go(1)], [s5, s6, s7]);
    Unroll(s7, [Go(0)], [At(s7.(token := s7.token.(ends := 1)), 0, Idle)]);
  }
}
