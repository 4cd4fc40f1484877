/** Fan-in of any number of child triggers: goroutines sharing a cancellable context, a once-guard,
    the first error and a wait group, one shared-memory access per step. */
module CompositeTrigger {
  import opened Core

  type Error = string

  /** Where one child's goroutine is. `Returned` has the child's own result in hand, `Reporting`
      has seen its error with the context still live, `Cancelling` is inside the once-guard, `Done`
      has left the wait group; `heard` says whether it got past the context check. */
  datatype Child =
    | Running
    | Returned(err: Option<Error>)
    | Reporting(error: Error)
    | Cancelling(error: Error)
    | Done(err: Option<Error>, heard: bool)

  datatype World = World(
    children: seq<Child>,
    parentDone: bool,
    cancelled: bool,
    once: Option<nat>,
    onceDone: bool,
    firstErr: Option<Error>,
    result: Option<Option<Error>>)

  datatype Step =
    | ParentCancelled
    | ChildReturns(i: nat, err: Option<Error>)
    | CheckContext(i: nat)
    | EnterOnce(i: nat)
    | Cancel(i: nat)
    | StartReturns

  predicate ContextErr(w: World) {
    w.parentDone || w.cancelled
  }

  predicate Enabled(w: World, s: Step) {
    match s
    case ParentCancelled => true
    case ChildReturns(i, _) => i < |w.children| && w.children[i].Running?
    case CheckContext(i) => i < |w.children| && w.children[i].Returned?
    case EnterOnce(i) => i < |w.children| && w.children[i].Reporting? && (w.once.None? || w.onceDone)
    case Cancel(i) => i < |w.children| && w.children[i].Cancelling?
    case StartReturns => w.result.None? && forall i :: 0 <= i < |w.children| ==> w.children[i].Done?
  }

  function After(w: World, s: Step): World
    requires Enabled(w, s)
  {
    match s
    case ParentCancelled => w.(parentDone := true)
    case ChildReturns(i, err) => w.(children := w.children[i := Returned(err)])
    case CheckContext(i) =>
      var err := w.children[i].err;
      w.(children := w.children[i :=
        if err.Some? && !ContextErr(w) then Reporting(err.value) else Done(err, false)])
    case EnterOnce(i) =>
      var e := w.children[i].error;
      if w.once.None? then w.(once := Some(i), firstErr := Some(e), children := w.children[i := Cancelling(e)])
      else w.(children := w.children[i := Done(Some(e), true)])
    case Cancel(i) =>
      w.(cancelled := true, onceDone := true, children := w.children[i := Done(Some(w.children[i].error), true)])
    case StartReturns => w.(result := Some(w.firstErr))
  }

  predicate Init(w: World) {
    && (forall i :: 0 <= i < |w.children| ==> w.children[i].Running?)
    && !w.cancelled && w.once.None? && !w.onceDone && w.firstErr.None? && w.result.None?
  }

  datatype Run = Run(worlds: seq<World>, steps: seq<Step>)

  predicate IsRun(r: Run) {
    && |r.worlds| == |r.steps| + 1
    && Init(r.worlds[0])
    && forall k :: 0 <= k < |r.steps| ==> Enabled(r.worlds[k], r.steps[k]) && r.worlds[k + 1] == After(r.worlds[k], r.steps[k])
  }

  predicate ChildSound(w: World, i: nat)
    requires i < |w.children|
  {
    match w.children[i]
    case Cancelling(e) => w.once == Some(i) && !w.onceDone && w.firstErr == Some(e)
    case Done(err, heard) =>
      if heard then err.Some? && w.once.Some? && w.onceDone else err.Some? ==> ContextErr(w)
    case _ => true
  }

  /** The once-guard names the child whose error came first, before and after it cancels. */
  predicate GuardSound(w: World) {
    && (w.once.Some? <==> w.firstErr.Some?)
    && (w.once.Some? ==>
          && w.once.value < |w.children|
          && w.children[w.once.value] == if w.onceDone then Done(w.firstErr, true) else Cancelling(w.firstErr.value))
    && w.cancelled == w.onceDone
    && (w.onceDone ==> w.once.Some?)
  }

  predicate Inv(w: World) {
    && (forall i :: 0 <= i < |w.children| ==> ChildSound(w, i))
    && GuardSound(w)
    && (w.result.Some? ==> w.result.value == w.firstErr && forall i :: 0 <= i < |w.children| ==> w.children[i].Done?)
  }

  /** The child that took the step, and every other child. */
  lemma ChildStep(w: World, s: Step, i: nat)
    requires Inv(w) && Enabled(w, s) && i < |w.children|
    ensures |After(w, s).children| == |w.children| && ChildSound(After(w, s), i)
  {
    assert ChildSound(w, i);
    if !s.ParentCancelled? && !s.StartReturns? {
      assert ChildSound(w, s.i);
    }
  }

  lemma GuardStep(w: World, s: Step)
    requires Inv(w) && Enabled(w, s)
    ensures GuardSound(After(w, s))
  {
    match s
    case ParentCancelled =>
    case ChildReturns(i, _) => assert ChildSound(w, i);
    case CheckContext(i) => assert ChildSound(w, i);
    case EnterOnce(i) => assert ChildSound(w, i);
    case Cancel(i) => assert ChildSound(w, i);
    case StartReturns =>
  }

  lemma InvStep(w: World, s: Step)
    requires Inv(w) && Enabled(w, s)
    ensures Inv(After(w, s))
  {
    var w' := After(w, s);
    forall i | 0 <= i < |w'.children| ensures ChildSound(w', i) {
      ChildStep(w, s, i);
    }
    GuardStep(w, s);
  }

  lemma {:induction false} InvHolds(r: Run, k: nat)
    requires IsRun(r) && k < |r.worlds|
    ensures Inv(r.worlds[k])
  {
    if k > 0 {
      InvHolds(r, k - 1);
      InvStep(r.worlds[k - 1], r.steps[k - 1]);
    }
  }

  /** The child came back with an error while the context was still live. */
  predicate Heard(c: Child, e: Error) {
    c == Done(Some(e), true)
  }

  /** What a returned Start tells its caller, in every interleaving: every child has returned; an
      error is one child's own, and the siblings were told to stop; nil is returned exactly when no
      child's error was heard, and then a child can have failed only under a cancelled parent. */
  lemma FanInOutcome(r: Run, k: nat)
    requires IsRun(r) && k < |r.worlds| && r.worlds[k].result.Some?
    ensures var w := r.worlds[k];
      && (forall i :: 0 <= i < |w.children| ==> w.children[i].Done?)
      && (w.result.value.Some? ==> w.cancelled && exists i :: 0 <= i < |w.children| && Heard(w.children[i], w.result.value.value))
      && (w.result.value.None? <==> forall i :: 0 <= i < |w.children| ==> !w.children[i].heard)
      && (w.result.value.None? && !w.parentDone ==> forall i :: 0 <= i < |w.children| ==> w.children[i].err.None?)
  {
    InvHolds(r, k);
    var w := r.worlds[k];
    forall i | 0 <= i < |w.children|
      ensures w.result.value.None? ==> !w.children[i].heard
      ensures w.result.value.None? && !w.parentDone ==> w.children[i].err.None?
    {
      assert ChildSound(w, i);
    }
    if w.result.value.Some? {
      assert ChildSound(w, w.once.value);
      assert Heard(w.children[w.once.value], w.result.value.value);
    }
  }

  /** Nothing a returned Start said is revised by goroutines or contexts still moving. */
  lemma {:induction false} OutcomeStable(r: Run, k: nat, j: nat)
    requires IsRun(r) && k <= j < |r.worlds| && r.worlds[k].result.Some?
    ensures r.worlds[j].result == r.worlds[k].result && r.worlds[j].children == r.worlds[k].children
  {
    if k < j {
      OutcomeStable(r, k, j - 1);
      InvHolds(r, j - 1);
    }
  }

  // ---------------------------------------------------------------- Start does return

  function Weight(c: Child): nat {
    match c
    case Running => 4
    case Returned(_) => 3
    case Reporting(_) => 2
    case Cancelling(_) => 1
    case Done(_, _) => 0
  }

  function Total(cs: seq<Child>): nat {
    if cs == [] then 0 else Total(cs[..|cs| - 1]) + Weight(cs[|cs| - 1])
  }

  lemma {:induction false} TotalAfter(cs: seq<Child>, i: nat, c: Child)
    requires i < |cs|
    ensures Total(cs[i := c]) == Total(cs) - Weight(cs[i]) + Weight(c)
  {
    var last := |cs| - 1;
    if i < last {
      TotalAfter(cs[..last], i, c);
      assert cs[i := c][..last] == cs[..last][i := c];
    } else {
      assert cs[i := c][..last] == cs[..last];
    }
  }

  /** How many steps are left to take. */
  function Remaining(w: World): nat {
    Total(w.children) + if w.result.None? then 1 else 0
  }

  /** Every step but a cancellation from outside uses up what is left. */
  lemma StepsRunOut(w: World, s: Step)
    requires Enabled(w, s)
    ensures if s.ParentCancelled? then Remaining(After(w, s)) == Remaining(w) else Remaining(After(w, s)) < Remaining(w)
  {
    if !s.ParentCancelled? && !s.StartReturns? {
      TotalAfter(w.children, s.i, After(w, s).children[s.i]);
    }
  }

  /** Once every child has come back nothing waits for anything else: until Start has returned some
      step of its own is possible, the once-guard notwithstanding. */
  lemma NeverStuck(r: Run, k: nat) returns (s: Step)
    requires IsRun(r) && k < |r.worlds| && r.worlds[k].result.None?
    requires forall i :: 0 <= i < |r.worlds[k].children| ==> !r.worlds[k].children[i].Running?
    ensures Enabled(r.worlds[k], s) && !s.ParentCancelled? && !s.ChildReturns?
  {
    InvHolds(r, k);
    var w := r.worlds[k];
    if i :| 0 <= i < |w.children| && !w.children[i].Done? {
      match w.children[i]
      case Returned(_) => s := CheckContext(i);
      case Cancelling(_) => s := Cancel(i);
      case Reporting(_) =>
        if w.once.None? || w.onceDone {
          s := EnterOnce(i);
        } else {
          assert ChildSound(w, w.once.value);
          s := Cancel(w.once.value);
        }
    } else {
      s := StartReturns;
    }
  }
}
