/** Alert delivery: any number of senders bump an atomic count, the one that finds it zero submits
    the alert's work item, and the work-queue thread calls the handler until it has brought the
    count back to zero.  Every atomic operation is one step, so a run is an arbitrary interleaving
    of senders (threads, interrupt handlers, the handler itself) with the work-queue thread. */
module Alert {

  /** The atomic count has 32 bits. */
  const WORD: nat := 0x1_0000_0000

  datatype Mode = Ignore | Default | Handler

  /** Where one `k_alert_send` call stands: outside, past the increment that found zero, or past
      setting the work item's pending bit. */
  datatype Sender = Idle | Submitting | Appending

  /** Where the work-queue thread stands: waiting on its queue, holding the item with the pending
      bit not yet cleared, about to call the handler, about to pend the alert, or about to
      decrement the count. */
  datatype Worker = Waiting | Fetched | Calling | Pending | Called

  /** `queued` is how often the work item is linked into the work queue; the last four fields
      count sends, handler calls, handler calls that asked to pend, and semaphore gives. */
  datatype State = State(mode: Mode, count: nat, bit: bool, queued: nat, senders: seq<Sender>,
                         worker: Worker, sends: nat, calls: nat, refused: nat, given: nat)

  datatype Step =
    | Send(i: nat)
    | Mark(i: nat)
    | Append(i: nat)
    | Fetch
    | Clear
    | Call(handled: bool)
    | Pend
    | Finish

  function Init(mode: Mode, n: nat): State {
    State(mode, 0, false, 0, seq(n, _ => Idle), Waiting, 0, 0, 0, 0)
  }

  predicate Enabled(s: State, e: Step) {
    match e
    case Send(i) => i < |s.senders| && s.senders[i].Idle?
    case Mark(i) => i < |s.senders| && s.senders[i].Submitting?
    case Append(i) => i < |s.senders| && s.senders[i].Appending?
    case Fetch => s.worker.Waiting? && s.queued > 0
    case Clear => s.worker.Fetched?
    case Call(_) => s.worker.Calling?
    case Pend => s.worker.Pending?
    case Finish => s.worker.Called?
  }

  function Do(s: State, e: Step): State
    requires Enabled(s, e)
  {
    match e
    case Send(i) =>
      (match s.mode
       case Ignore => s.(sends := s.sends + 1)
       case Default => s.(sends := s.sends + 1, given := s.given + 1)
       case Handler =>
         s.(sends := s.sends + 1, count := if s.count + 1 == WORD then 0 else s.count + 1,
            senders := s.senders[i := if s.count == 0 then Submitting else Idle]))
    case Mark(i) => s.(bit := true, senders := s.senders[i := if s.bit then Idle else Appending])
    case Append(i) => s.(queued := s.queued + 1, senders := s.senders[i := Idle])
    case Fetch => s.(queued := s.queued - 1, worker := Fetched)
    case Clear => s.(bit := false, worker := if s.bit then Calling else Waiting)
    case Call(handled) =>
      s.(calls := s.calls + 1, refused := s.refused + (if handled then 0 else 1),
         worker := if handled then Called else Pending)
    case Pend => s.(given := s.given + 1, worker := Called)
    case Finish => s.(count := if s.count == 0 then WORD - 1 else s.count - 1,
                      worker := if s.count == 1 then Waiting else Calling)
  }

  // ------------------------------------------------------------ invariant

  ghost function At(s: State, pc: Sender): nat {
    multiset(s.senders)[pc]
  }

  /** Everyone who at this moment is responsible for the alert's work item. */
  ghost function Responsible(s: State): nat {
    At(s, Submitting) + At(s, Appending) + s.queued + (if s.worker.Waiting? then 0 else 1)
  }

  /** How often the work item has been submitted and not yet been accepted for execution. */
  ghost function Submitted(s: State): nat {
    At(s, Appending) + s.queued + (if s.worker.Fetched? then 1 else 0)
  }

  ghost predicate Delivering(s: State) {
    && s.count < WORD
    && Responsible(s) == (if s.count > 0 then 1 else 0)
    && Submitted(s) == (if s.bit then 1 else 0)
    && s.count == s.sends - s.calls + (if s.worker.Pending? || s.worker.Called? then 1 else 0)
    && s.refused == s.given + (if s.worker.Pending? then 1 else 0)
  }

  ghost predicate Untouched(s: State) {
    && s.count == 0 && !s.bit && s.queued == 0 && s.worker.Waiting? && s.calls == 0 && s.refused == 0
    && (forall i | 0 <= i < |s.senders| :: s.senders[i].Idle?)
  }

  ghost predicate Inv(s: State) {
    match s.mode
    case Ignore => Untouched(s) && s.given == 0
    case Default => Untouched(s) && s.given == s.sends
    case Handler => Delivering(s)
  }

  ghost function Is(a: Sender, b: Sender): nat {
    if a == b then 1 else 0
  }

  /** One sender moving from its step to `to` changes the two counts by exactly that. */
  lemma SenderMoves(t: seq<Sender>, i: nat, to: Sender, pc: Sender)
    requires i < |t|
    ensures multiset(t[i := to])[pc] == multiset(t)[pc] - Is(t[i], pc) + Is(to, pc)
    ensures Is(t[i], pc) <= multiset(t)[pc]
  {
    assert t[i] in multiset(t);
  }

  lemma SendInv(s: State, i: nat)
    requires Delivering(s) && Enabled(s, Send(i)) && s.mode.Handler?
    ensures Delivering(Do(s, Send(i))) <==> s.count + 1 < WORD
  {
    var to := if s.count == 0 then Submitting else Idle;
    SenderMoves(s.senders, i, to, Submitting);
    SenderMoves(s.senders, i, to, Appending);
  }

  lemma MarkInv(s: State, i: nat)
    requires Delivering(s) && Enabled(s, Mark(i))
    ensures Delivering(Do(s, Mark(i)))
  {
    var to := if s.bit then Idle else Appending;
    SenderMoves(s.senders, i, to, Submitting);
    SenderMoves(s.senders, i, to, Appending);
  }

  lemma AppendInv(s: State, i: nat)
    requires Delivering(s) && Enabled(s, Append(i))
    ensures Delivering(Do(s, Append(i)))
  {
    SenderMoves(s.senders, i, Idle, Submitting);
    SenderMoves(s.senders, i, Idle, Appending);
  }

  lemma WorkerInv(s: State, e: Step)
    requires Delivering(s) && Enabled(s, e) && !e.Send? && !e.Mark? && !e.Append?
    ensures Delivering(Do(s, e))
  {
  }

  /** A send that finds the largest count makes it zero. */
  predicate Wraps(s: State, e: Step) {
    e.Send? && s.mode.Handler? && s.count + 1 == WORD
  }

  /** Every step keeps the invariant, except exactly the send that makes the count wrap. */
  lemma StepInvIff(s: State, e: Step)
    requires Inv(s) && Enabled(s, e)
    ensures Inv(Do(s, e)) <==> !Wraps(s, e)
  {
    if s.mode.Handler? {
      hide Delivering;
      match e
      case Send(i) => SendInv(s, i);
      case Mark(i) => MarkInv(s, i);
      case Append(i) => AppendInv(s, i);
      case _ => WorkerInv(s, e);
    }
  }

  // ----------------------------------------------------------------- runs

  ghost predicate Legal(s: State, es: seq<Step>)
    decreases |es|
  {
    es != [] ==> Enabled(s, es[0]) && Legal(Do(s, es[0]), es[1..])
  }

  ghost function Run(s: State, es: seq<Step>): State
    requires Legal(s, es)
    decreases |es|
  {
    if es == [] then s else Run(Do(s, es[0]), es[1..])
  }

  /** The count never wraps: there are never as many undelivered sends as a word can count. */
  ghost predicate NoWrap(s: State, es: seq<Step>)
    requires Legal(s, es)
    decreases |es|
  {
    es != [] ==> !Wraps(s, es[0]) && NoWrap(Do(s, es[0]), es[1..])
  }

  /** The invariant holds in every state of the run. */
  ghost predicate InvThroughout(s: State, es: seq<Step>)
    requires Legal(s, es)
    decreases |es|
  {
    Inv(s) && (es != [] ==> InvThroughout(Do(s, es[0]), es[1..]))
  }

  /** Delivery goes right all through a run exactly when the count does not wrap in it. */
  lemma {:induction false} RunInvIff(s: State, es: seq<Step>)
    requires Inv(s) && Legal(s, es)
    ensures InvThroughout(s, es) <==> NoWrap(s, es)
    decreases |es|
  {
    hide Inv, Do, Enabled;
    if es != [] {
      StepInvIff(s, es[0]);
      if !Wraps(s, es[0]) {
        RunInvIff(Do(s, es[0]), es[1..]);
      }
    }
  }

  lemma {:induction false} RunInv(s: State, es: seq<Step>)
    requires Inv(s) && Legal(s, es) && NoWrap(s, es)
    ensures Inv(Run(s, es)) && Run(s, es).mode == s.mode
    decreases |es|
  {
    if es != [] {
      StepInvIff(s, es[0]);
      RunInv(Do(s, es[0]), es[1..]);
    }
  }

  lemma InitInv(mode: Mode, n: nat)
    ensures Inv(Init(mode, n))
  {
    IdleCounts(Init(mode, n));
  }

  ghost predicate Quiet(s: State) {
    && (forall i | 0 <= i < |s.senders| :: s.senders[i].Idle?)
    && s.queued == 0
    && s.worker.Waiting?
  }

  /** The sends, handler calls and refusals that a run consists of. */
  ghost function Sends(es: seq<Step>): nat {
    if es == [] then 0 else (if es[0].Send? then 1 else 0) + Sends(es[1..])
  }

  ghost function Calls(es: seq<Step>): nat {
    if es == [] then 0 else (if es[0].Call? then 1 else 0) + Calls(es[1..])
  }

  ghost function Refusals(es: seq<Step>): nat {
    if es == [] then 0 else (if es[0] == Call(false) then 1 else 0) + Refusals(es[1..])
  }

  /** The counters count what happens. */
  lemma {:induction false} CountersCount(s: State, es: seq<Step>)
    requires Legal(s, es)
    ensures var r := Run(s, es);
            && r.mode == s.mode && r.sends == s.sends + Sends(es)
            && r.calls == s.calls + Calls(es) && r.refused == s.refused + Refusals(es)
    decreases |es|
  {
    if es != [] {
      CountersCount(Do(s, es[0]), es[1..]);
    }
  }

  /** Safety under every interleaving in which the count does not wrap: a positive count always has
      exactly one party on its way to deliver it, the work item is never submitted twice, the pending
      bit says whether it is submitted, and once everything is quiet each send has been answered by
      exactly one handler call and each refusal by one semaphore give. */
  lemma AlertSafety(mode: Mode, n: nat, es: seq<Step>)
    requires Legal(Init(mode, n), es) && NoWrap(Init(mode, n), es)
    ensures var s := Run(Init(mode, n), es);
            && (s.count > 0 <==> Responsible(s) == 1)
            && Responsible(s) <= 1
            && (s.bit <==> Submitted(s) == 1)
            && (mode.Handler? ==> 0 <= Sends(es) - Calls(es) <= s.count)
            && (mode.Default? ==> s.given == Sends(es) && Calls(es) == 0)
            && (mode.Ignore? ==> s.given == Calls(es) == 0)
            && (Quiet(s) && mode.Handler? ==> s.count == 0 && Calls(es) == Sends(es) && s.given == Refusals(es))
  {
    InitInv(mode, n);
    RunInv(Init(mode, n), es);
    CountersCount(Init(mode, n), es);
    var s := Run(Init(mode, n), es);
    IdleCounts(s);
  }

  lemma IdleCounts(s: State)
    ensures (forall i | 0 <= i < |s.senders| :: s.senders[i].Idle?) <==> At(s, Submitting) == At(s, Appending) == 0
  {
    if forall i | 0 <= i < |s.senders| :: s.senders[i].Idle? {
      assert Submitting !in s.senders && Appending !in s.senders;
    } else {
      var i :| 0 <= i < |s.senders| && !s.senders[i].Idle?;
      assert s.senders[i] in multiset(s.senders);
    }
  }

  /** The work-queue thread always finds the pending bit set: no submission is dropped. */
  lemma ClearFindsBit(mode: Mode, n: nat, es: seq<Step>)
    requires Legal(Init(mode, n), es) && NoWrap(Init(mode, n), es)
    requires Run(Init(mode, n), es).worker.Fetched?
    ensures Run(Init(mode, n), es).bit
  {
    InitInv(mode, n);
    RunInv(Init(mode, n), es);
  }

  // ------------------------------------------------------------- progress

  /** How many steps are left if nobody sends again. */
  ghost function Remaining(s: State): int {
    3 * s.count + 4 * At(s, Submitting) + 3 * At(s, Appending) + 2 * s.queued
    + (match s.worker case Waiting => 0 case Fetched => 1 case Calling => 0 case Pending => -1 case Called => -2)
  }

  lemma MarkCloser(s: State, i: nat)
    requires Enabled(s, Mark(i))
    ensures Remaining(Do(s, Mark(i))) < Remaining(s)
  {
    var to := if s.bit then Idle else Appending;
    SenderMoves(s.senders, i, to, Submitting);
    SenderMoves(s.senders, i, to, Appending);
  }

  lemma AppendCloser(s: State, i: nat)
    requires Enabled(s, Append(i))
    ensures Remaining(Do(s, Append(i))) < Remaining(s)
  {
    SenderMoves(s.senders, i, Idle, Submitting);
    SenderMoves(s.senders, i, Idle, Appending);
  }

  lemma WorkerCloser(s: State, e: Step)
    requires Inv(s) && Enabled(s, e) && !e.Send? && !e.Mark? && !e.Append?
    ensures Remaining(Do(s, e)) < Remaining(s)
  {
  }

  lemma StepCloser(s: State, e: Step)
    requires Inv(s) && Enabled(s, e) && !e.Send?
    ensures Remaining(Do(s, e)) < Remaining(s)
  {
    hide Inv, Remaining, Do;
    match e
    case Mark(i) => MarkCloser(s, i);
    case Append(i) => AppendCloser(s, i);
    case _ => WorkerCloser(s, e);
  }

  lemma RemainingNonNegative(s: State)
    requires Inv(s)
    ensures 0 <= Remaining(s)
  {
    if !s.mode.Handler? {
      IdleCounts(s);
    }
  }

  /** Nobody is ever stuck: unless everything is quiet, some step other than a new send can run. */
  lemma SomeoneCanMove(s: State)
    requires Inv(s) && !Quiet(s)
    ensures exists e: Step :: !e.Send? && Enabled(s, e)
  {
    if i :| 0 <= i < |s.senders| && !s.senders[i].Idle? {
      assert if s.senders[i].Submitting? then Enabled(s, Mark(i)) else Enabled(s, Append(i));
    } else {
      match s.worker
      case Waiting => assert Enabled(s, Fetch);
      case Fetched => assert Enabled(s, Clear);
      case Calling => assert Enabled(s, Call(true));
      case Pending => assert Enabled(s, Pend);
      case Called => assert Enabled(s, Finish);
    }
  }

  lemma {:induction false} SilentNoWrap(s: State, es: seq<Step>)
    requires Legal(s, es) && forall i | 0 <= i < |es| :: !es[i].Send?
    ensures NoWrap(s, es)
    decreases |es|
  {
    hide Do, Enabled;
    if es != [] {
      SilentNoWrap(Do(s, es[0]), es[1..]);
    }
  }

  lemma {:induction false} SilentRunBound(s: State, es: seq<Step>)
    requires Inv(s) && Legal(s, es)
    requires forall i | 0 <= i < |es| :: !es[i].Send?
    ensures |es| <= Remaining(s) - Remaining(Run(s, es))
    decreases |es|
  {
    if es != [] {
      StepCloser(s, es[0]);
      StepInvIff(s, es[0]);
      SilentRunBound(Do(s, es[0]), es[1..]);
    }
  }

  /** No send is left undelivered: from any reachable state, however the remaining parties are
      scheduled once sending stops, at most `Remaining` steps happen, and where no further step can
      run every send has had its handler call. */
  lemma EverySendDelivered(mode: Mode, n: nat, before: seq<Step>, after: seq<Step>)
    requires Legal(Init(mode, n), before) && NoWrap(Init(mode, n), before)
    requires Legal(Run(Init(mode, n), before), after)
    requires forall i | 0 <= i < |after| :: !after[i].Send?
    ensures var s := Run(Init(mode, n), before);
            var t := Run(s, after);
            && |after| <= Remaining(s)
            && ((forall e: Step | Enabled(t, e) :: e.Send?) && mode.Handler? ==> t.calls == t.sends && t.count == 0)
  {
    InitInv(mode, n);
    RunInv(Init(mode, n), before);
    var s := Run(Init(mode, n), before);
    SilentNoWrap(s, after);
    RunInv(s, after);
    SilentRunBound(s, after);
    RemainingNonNegative(Run(s, after));
    if forall e: Step | Enabled(Run(s, after), e) :: e.Send? {
      StuckMeansDone(Run(s, after));
    }
  }

  lemma StuckMeansDone(s: State)
    requires Inv(s)
    requires forall e: Step | Enabled(s, e) :: e.Send?
    ensures s.mode.Handler? ==> s.calls == s.sends && s.count == 0
  {
    if !Quiet(s) {
      SomeoneCanMove(s);
    }
    IdleCounts(s);
  }

  // ------------------------------------------------------ too many sends

  /** One sender whose first send is queued, having sent `k` times since. */
  function Outpaced(k: nat): State
    requires k + 1 < WORD
  {
    State(Handler, k + 1, true, 1, [Idle], Waiting, k + 1, 0, 0, 0)
  }

  function Again(k: nat): seq<Step> {
    seq(k, _ => Send(0))
  }

  lemma {:induction false} SendsAgain(k: nat, n: nat)
    requires k + n + 1 < WORD
    ensures Legal(Outpaced(k), Again(n)) && Run(Outpaced(k), Again(n)) == Outpaced(k + n)
    decreases n
  {
    if n > 0 {
      assert [Idle][0 := Idle] == [Idle];
      assert Do(Outpaced(k), Send(0)) == Outpaced(k + 1);
      assert Again(n)[1..] == Again(n - 1);
      hide Do, Outpaced;
      SendsAgain(k + 1, n - 1);
    }
  }

  lemma {:induction false} RunConcat(s: State, a: seq<Step>, b: seq<Step>)
    requires Legal(s, a) && Legal(Run(s, a), b)
    ensures Legal(s, a + b) && Run(s, a + b) == Run(Run(s, a), b)
    decreases |a|
  {
    hide Do, Enabled;
    if a == [] {
      assert a + b == b;
    } else {
      assert (a + b)[1..] == a[1..] + b;
      RunConcat(Do(s, a[0]), a[1..], b);
    }
  }

  lemma FirstSend()
    ensures Legal(Init(Handler, 1), [Send(0), Mark(0), Append(0)])
    ensures Run(Init(Handler, 1), [Send(0), Mark(0), Append(0)]) == Outpaced(0)
  {
    var s0 := Init(Handler, 1);
    var s1 := Do(s0, Send(0));
    var s2 := Do(s1, Mark(0));
    assert s1.senders == [Submitting] && s2.senders == [Appending];
    var s3 := Do(s2, Append(0));
    assert s3.senders == [Idle] && s3 == Outpaced(0);
    assert Enabled(s0, Send(0)) && Enabled(s1, Mark(0)) && Enabled(s2, Append(0));
    hide Do, Enabled;
    assert [Append(0)][1..] == [] && [Mark(0), Append(0)][1..] == [Append(0)];
    assert [Send(0), Mark(0), Append(0)][1..] == [Mark(0), Append(0)];
    assert Legal(s3, []) && Legal(s2, [Append(0)]) && Legal(s1, [Mark(0), Append(0)]);
    assert Run(s2, [Append(0)]) == s3 && Run(s1, [Mark(0), Append(0)]) == s3;
  }

  lemma TwiceMore()
    ensures Legal(Outpaced(WORD - 2), [Send(0), Send(0)])
    ensures Responsible(Run(Outpaced(WORD - 2), [Send(0), Send(0)])) == 2
  {
    var s0 := Outpaced(WORD - 2);
    var s1 := Do(s0, Send(0));
    assert s1.senders == [Idle] && s1.count == 0;
    var s2 := Do(s1, Send(0));
    assert s2.senders == [Submitting] && multiset(s2.senders) == multiset{Submitting};
    assert Responsible(s2) == 2;
    assert Enabled(s0, Send(0)) && Enabled(s1, Send(0));
    hide Do, Enabled;
    assert [Send(0)][1..] == [] && [Send(0), Send(0)][1..] == [Send(0)];
    assert Legal(s2, []) && Legal(s1, [Send(0)]);
    assert Run(s1, [Send(0)]) == s2;
  }

  /** A sender that outpaces the work-queue thread by a whole word of sends. */
  function WrapRun(): seq<Step> {
    [Send(0), Mark(0), Append(0)] + (Again(WORD - 2) + [Send(0), Send(0)])
  }

  /** Past the largest count the protocol fails: the alert's work item is queued and a second party
      is on its way to submit it. */
  lemma WrapSubmitsTwice()
    ensures Legal(Init(Handler, 1), WrapRun())
    ensures Responsible(Run(Init(Handler, 1), WrapRun())) == 2
  {
    FirstSend();
    SendsAgain(0, WORD - 2);
    TwiceMore();
    hide Do, Enabled, Outpaced, Again, Init;
    RunConcat(Outpaced(0), Again(WORD - 2), [Send(0), Send(0)]);
    RunConcat(Init(Handler, 1), [Send(0), Mark(0), Append(0)], Again(WORD - 2) + [Send(0), Send(0)]);
  }
}
