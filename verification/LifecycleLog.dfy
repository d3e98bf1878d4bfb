// What the audit log says of an operation's life (gateway/staging.py,
// gateway/execution.py, gateway/scheduler.py, gateway/undo.py,
// api/routes/operations.py): its rows against its status, over every run.
module LifecycleLog {
  import opened Wrappers
  import opened Lifecycle

  // ----- the rows one step adds -----

  function Same(a: string, b: string): nat {
    if a == b then 1 else 0
  }

  /** Rows that an execution from start to end adds for its operation. */
  function ExecutionAdds(bodyless: bool, o: Outcome, event: string): nat {
    var met := Met(bodyless, o);
    if met.Preflight? then 0 else Same(FinalEvent(met), event)
  }

  function DecisionAdds(bodyless: bool, d: Decision, event: string): nat {
    match d
    case NoRule => 0
    case RuleReject => Same("rejected", event)
    case RuleApprove(o) => Same("approved", event) + ExecutionAdds(bodyless, o, event)
    case RuleDelay(_) => Same("scheduled", event)
    case RuleHold => Same("held", event)
  }

  /** Rows that a request adds for its operation. */
  function RequestAdds(v: View, e: Event, event: string): nat
    requires e.Stage? || e.Approve? || e.Reject? || e.Undo?
  {
    match e
    case Stage(_, _, bodyless, d) => Same("staged", event) + DecisionAdds(bodyless, d, event)
    case Approve(_, o) => ExecutionAdds(v.bodyless, o, event)
    case Reject(_) => Same("rejected", event)
    case Undo(_, succeeds) => if succeeds then Same("reverted", event) else 0
  }

  function PassAdds(phase: Phase, e: Event, event: string): nat {
    match e
    case Record(_) => if phase.Recording? then Same(FinalEvent(phase.outcome), event) else 0
    case ExpireOne(_) => Same("expired", event)
    case _ => 0
  }

  lemma LoggedRows(s: State, id: string, logged: string, x: string, event: string)
    ensures Log(s, id, logged).audit[(x, event)] == s.audit[(x, event)] + if x == id then Same(logged, event) else 0
    ensures Log(s, id, logged).ops == s.ops
  {
  }

  lemma ExecuteRows(s: State, id: string, o: Outcome, x: string, event: string)
    requires id in s.ops
    ensures ExecuteNow(s, id, o).audit[(x, event)] ==
            s.audit[(x, event)] + if x == id then ExecutionAdds(s.ops[id].bodyless, o, event) else 0
  {
    hide Log;
    var met := Met(s.ops[id].bodyless, o);
    if !met.Preflight? {
      LoggedRows(SetStatus(Contact(s, id, met), id, FinalStatus(met)), id, FinalEvent(met), x, event);
    }
  }

  lemma DecidedRows(s: State, id: string, now: int, d: Decision, x: string, event: string)
    requires id in s.ops
    ensures Decided(s, id, now, d).audit[(x, event)] ==
            s.audit[(x, event)] + if x == id then DecisionAdds(s.ops[id].bodyless, d, event) else 0
  {
    hide Log, ExecuteNow;
    match d {
      case NoRule =>
      case RuleReject => LoggedRows(SetStatus(s, id, Rejected), id, "rejected", x, event);
      case RuleApprove(o) =>
        LoggedRows(s, id, "approved", x, event);
        ExecuteRows(Log(s, id, "approved"), id, o, x, event);
      case RuleDelay(seconds) =>
        var at := now + if seconds > 0 then seconds else 0;
        LoggedRows(s.(ops := s.ops[id := s.ops[id].(scheduledAt := Some(at))]), id, "scheduled", x, event);
      case RuleHold => LoggedRows(s, id, "held", x, event);
    }
  }

  lemma RequestRows(s: State, e: Event, x: string, event: string)
    requires Enabled(s, e) && (e.Stage? || e.Approve? || e.Reject? || e.Undo?)
    ensures Apply(s, e).audit[(x, event)] == s.audit[(x, event)] + if x == e.id then RequestAdds(ViewOf(s, e.id), e, event) else 0
  {
    hide Log, ExecuteNow, Decided;
    match e {
      case Stage(id, now, bodyless, d) =>
        var inserted := s.(ops := s.ops[id := Op(Pending, None, now + EXPIRY_SECONDS, bodyless)]);
        LoggedRows(inserted, id, "staged", x, event);
        DecidedRows(Log(inserted, id, "staged"), id, now, d, x, event);
      case Approve(id, o) => ExecuteRows(s, id, o, x, event);
      case Reject(id) => LoggedRows(SetStatus(s, id, Rejected), id, "rejected", x, event);
      case Undo(id, succeeds) =>
        if succeeds {
          LoggedRows(SetStatus(s, id, Reverted), id, "reverted", x, event);
        }
    }
  }

  lemma PassRows(s: State, e: Event, x: string, event: string)
    requires Enabled(s, e) && Advances(e)
    ensures Apply(s, e).audit[(x, event)] ==
            s.audit[(x, event)] + if x == Subject(s, e) then PassAdds(PhaseOf(s.workers, e.w), e, event) else 0
  {
    hide Log, Distinct, Due, Stale;
    if e.Record? {
      var p := s.workers[e.w].phase;
      LoggedRows(s, p.id, FinalEvent(p.outcome), x, event);
    } else if e.ExpireOne? {
      var id := Subject(s, e);
      var moved := s.(workers := s.workers[e.w := ExpiryPass(s.workers[e.w].stale[1..])]);
      LoggedRows(if s.ops[id].status == Pending then SetStatus(moved, id, Expired) else moved, id, "expired", x, event);
    }
  }

  // ----- rows against status -----

  function Rows(s: State, id: string, event: string): nat {
    s.audit[(id, event)]
  }

  function If(b: bool): nat {
    if b then 1 else 0
  }

  /** Staged once, and one row for a rejection or an undo exactly when that is how it stands. */
  predicate Told(v: View, staged: nat, rejected: nat, reverted: nat) {
    && staged == If(v.known) && (!v.known ==> v.status == Pending)
    && rejected == If(v.status == Rejected) && reverted == If(v.status == Reverted)
  }

  predicate LogTells(s: State, id: string) {
    Told(ViewOf(s, id), Rows(s, id, "staged"), Rows(s, id, "rejected"), Rows(s, id, "reverted"))
  }

  /** What a request that can happen finds. */
  predicate Found(v: View, e: Event)
    requires e.Stage? || e.Approve? || e.Reject? || e.Undo?
  {
    match e
    case Stage(_, _, _, _) => !v.known
    case Approve(_, _) => v.known && v.status == Pending
    case Reject(_) => v.known && v.status == Pending
    case Undo(_, _) => v.known && v.status == Executed
  }

  lemma RequestStays(v: View, e: Event, staged: nat, rejected: nat, reverted: nat)
    requires (e.Stage? || e.Approve? || e.Reject? || e.Undo?) && Found(v, e) && Told(v, staged, rejected, reverted)
    ensures Told(RequestView(v, e), staged + RequestAdds(v, e, "staged"), rejected + RequestAdds(v, e, "rejected"),
                 reverted + RequestAdds(v, e, "reverted"))
  {
  }

  lemma RequestTells(s: State, e: Event, id: string)
    requires Enabled(s, e) && (e.Stage? || e.Approve? || e.Reject? || e.Undo?) && LogTells(s, id)
    ensures LogTells(Apply(s, e), id)
  {
    RequestFinds(s, e);
    hide Apply, Enabled, RequestAdds, RequestView, Found, Told, ViewOf;
    RequestEffect(s, e);
    RequestRows(s, e, id, "staged");
    RequestRows(s, e, id, "rejected");
    RequestRows(s, e, id, "reverted");
    if e.id == id {
      RequestStays(ViewOf(s, id), e, Rows(s, id, "staged"), Rows(s, id, "rejected"), Rows(s, id, "reverted"));
    }
  }

  lemma RequestFinds(s: State, e: Event)
    requires Enabled(s, e) && (e.Stage? || e.Approve? || e.Reject? || e.Undo?)
    ensures Found(ViewOf(s, e.id), e)
  {
  }

  lemma PassTells(s: State, e: Event, id: string)
    requires Inv(s) && Enabled(s, e) && Advances(e) && LogTells(s, id)
    ensures LogTells(Apply(s, e), id)
  {
    hide Apply, Inv, ViewOf, Enabled, Subject;
    PassEffect(s, e);
    PassRows(s, e, id, "staged");
    PassRows(s, e, id, "rejected");
    PassRows(s, e, id, "reverted");
    if id == Subject(s, e) {
      assert ViewOf(s, id).known by { SubjectKnown(s, e); }
      if e.Settle? {
        SettlesApproved(s, e);
      }
    }
  }

  /** An outcome is written to a row the pass itself claimed. */
  lemma SettlesApproved(s: State, e: Event)
    requires Inv(s) && Enabled(s, e) && e.Settle?
    ensures ViewOf(s, Subject(s, e)).status == Approved && PhaseOf(s.workers, e.w).Settling?
  {
    hide CountsFit;
    var id := Subject(s, e);
    assert Fits(s.workers, ViewOf(s, id), id);
    assert Holds(s.workers, e.w, id);
  }

  lemma StepTells(s: State, e: Event, id: string)
    requires Inv(s) && LogTells(s, id)
    ensures LogTells(Next(s, e), id)
  {
    hide LogTells, Apply, Inv;
    if Enabled(s, e) {
      if Advances(e) {
        PassTells(s, e, id);
      } else if e.SchedulerStart? || e.ExpiryStart? {
        StartTells(s, e, id);
      } else {
        RequestTells(s, e, id);
      }
    }
  }

  lemma StartTells(s: State, e: Event, id: string)
    requires Enabled(s, e) && (e.SchedulerStart? || e.ExpiryStart?) && LogTells(s, id)
    ensures LogTells(Apply(s, e), id)
  {
  }

  // ----- failures -----

  function Failures(s: State, id: string): nat {
    s.audit[(id, "execution_failed")] + s.audit[(id, "send_rate_exceeded")]
  }

  predicate FailedPhase(phase: Phase, id: string) {
    phase.Recording? && phase.id == id && !phase.outcome.Completed?
  }

  /** Some pass has marked the operation failed and has still to log it. */
  ghost predicate AboutToFail(workers: Workers, id: string) {
    exists w :: FailedPhase(PhaseOf(workers, w), id)
  }

  ghost predicate FailuresTold(s: State, id: string) {
    Failures(s, id) + If(AboutToFail(s.workers, id)) == If(ViewOf(s, id).status == Failed)
  }

  lemma FinalEvents(o: Outcome)
    ensures Same(FinalEvent(o), "execution_failed") + Same(FinalEvent(o), "send_rate_exceeded") == If(!o.Completed?)
  {
  }

  lemma RequestFails(s: State, e: Event, id: string)
    requires Enabled(s, e) && (e.Stage? || e.Approve? || e.Reject? || e.Undo?)
    requires FailuresTold(s, id) && (e.id == id ==> ViewOf(s, id).status != Failed)
    ensures FailuresTold(Apply(s, e), id)
  {
    hide Apply, AboutToFail, FinalEvent;
    RequestEffect(s, e);
    RequestRows(s, e, id, "execution_failed");
    RequestRows(s, e, id, "send_rate_exceeded");
    forall o ensures Same(FinalEvent(o), "execution_failed") + Same(FinalEvent(o), "send_rate_exceeded") == If(!o.Completed?) {
      FinalEvents(o);
    }
  }

  lemma PassFails(s: State, e: Event, id: string)
    requires Inv(s) && Enabled(s, e) && Advances(e) && FailuresTold(s, id)
    ensures FailuresTold(Apply(s, e), id)
  {
    hide Apply, Inv, ViewOf, Enabled, Subject, AboutToFail, FinalEvent, PhaseOf;
    PassEffect(s, e);
    PassRows(s, e, id, "execution_failed");
    PassRows(s, e, id, "send_rate_exceeded");
    OnlyHolderFails(s, e, id);
    if e.Record? && PhaseOf(s.workers, e.w).Recording? {
      FinalEvents(PhaseOf(s.workers, e.w).outcome);
    }
    if id == Subject(s, e) && e.Settle? {
      SettlesApproved(s, e);
    }
  }

  /** Who is about to log a failure: the pass that moved, or the one that was before. */
  lemma OnlyHolderFails(s: State, e: Event, id: string)
    requires Inv(s) && Enabled(s, e) && Advances(e)
    ensures var t := Apply(s, e);
            && (id != Subject(s, e) ==> (AboutToFail(t.workers, id) <==> AboutToFail(s.workers, id)))
            && (id == Subject(s, e) && (e.Settle? || e.Record?) ==>
                  && (AboutToFail(s.workers, id) <==> FailedPhase(PhaseOf(s.workers, e.w), id))
                  && (AboutToFail(t.workers, id) <==> FailedPhase(PhaseOf(t.workers, e.w), id)))
            && (e.Attempt? || e.Claim? || e.ExpireOne? ==> (AboutToFail(t.workers, id) <==> AboutToFail(s.workers, id)))
            && (e.Record? ==> PhaseOf(s.workers, e.w).Recording? && PhaseOf(s.workers, e.w).id == Subject(s, e))
  {
    hide Apply, Inv, PhaseOf, ViewOf;
    PassEffect(s, e);
    PhasesBefore(s, e);
    var t := Apply(s, e);
    if id == Subject(s, e) && (e.Settle? || e.Record?) {
      HeldByOne(s, e);
      forall x | x != e.w ensures !FailedPhase(PhaseOf(s.workers, x), id) {
        assert !Holds(s.workers, x, id);
      }
    }
    assert forall x :: x != e.w ==> PhaseOf(t.workers, x) == PhaseOf(s.workers, x);
    if e.Attempt? || e.Claim? || e.ExpireOne? || id != Subject(s, e) {
      assert !FailedPhase(PhaseOf(t.workers, e.w), id) && !FailedPhase(PhaseOf(s.workers, e.w), id);
    }
  }

  lemma PhasesBefore(s: State, e: Event)
    requires Enabled(s, e) && Advances(e)
    ensures e.Attempt? ==> PhaseOf(s.workers, e.w) == Executing(Subject(s, e))
    ensures e.Settle? ==> PhaseOf(s.workers, e.w).Settling? && PhaseOf(s.workers, e.w).id == Subject(s, e)
    ensures e.Record? ==> PhaseOf(s.workers, e.w).Recording? && PhaseOf(s.workers, e.w).id == Subject(s, e)
    ensures e.Claim? || e.ExpireOne? ==> PhaseOf(s.workers, e.w) == Idle
  {
  }

  lemma HeldByOne(s: State, e: Event)
    requires Inv(s) && Enabled(s, e) && (e.Settle? || e.Record?)
    ensures forall x :: x != e.w ==> !Holds(s.workers, x, Subject(s, e))
  {
    hide CountsFit;
    var id := Subject(s, e);
    assert Fits(s.workers, ViewOf(s, id), id);
    assert Holds(s.workers, e.w, id);
  }

  lemma StepFails(s: State, e: Event, id: string)
    requires Inv(s) && FailuresTold(s, id)
    ensures FailuresTold(Next(s, e), id)
  {
    hide Inv, Apply, FailuresTold;
    if Enabled(s, e) {
      if Advances(e) {
        PassFails(s, e, id);
      } else if e.SchedulerStart? || e.ExpiryStart? {
        StartFails(s, e, id);
      } else {
        assert e.id == id ==> ViewOf(s, id).status != Failed;
        RequestFails(s, e, id);
      }
    }
  }

  lemma StartFails(s: State, e: Event, id: string)
    requires Enabled(s, e) && (e.SchedulerStart? || e.ExpiryStart?) && FailuresTold(s, id)
    ensures FailuresTold(Apply(s, e), id)
  {
    hide Due, Stale, Distinct, FailedPhase;
    var t := Apply(s, e);
    assert forall x :: PhaseOf(t.workers, x) == PhaseOf(s.workers, x);
    assert AboutToFail(t.workers, id) <==> AboutToFail(s.workers, id);
  }

  // ----- every run -----

  lemma {:induction false} RunTells(s: State, events: seq<Event>, id: string)
    requires Inv(s) && LogTells(s, id) && FailuresTold(s, id)
    ensures LogTells(Run(s, events), id) && FailuresTold(Run(s, events), id)
    decreases |events|
  {
    hide Inv, Next, LogTells, FailuresTold;
    if events == [] {
    } else {
      StepKeepsInv(s, events[0]);
      StepTells(s, events[0], id);
      StepFails(s, events[0], id);
      RunTells(Next(s, events[0]), events[1..], id);
    }
  }

  /**
   * Over every run the log tells the life of every operation: one staged row for each operation there is, one
   * rejected row exactly when it was rejected, one reverted row exactly when it was undone, and one row of a
   * failed or refused execution exactly when it failed, unless a pass has still to write that row.
   */
  lemma LogTellsStatus(events: seq<Event>, id: string)
    ensures var t := Run(EMPTY, events);
            && t.audit[(id, "staged")] == (if id in t.ops then 1 else 0)
            && t.audit[(id, "rejected")] == (if id in t.ops && t.ops[id].status == Rejected then 1 else 0)
            && t.audit[(id, "reverted")] == (if id in t.ops && t.ops[id].status == Reverted then 1 else 0)
            && t.audit[(id, "execution_failed")] + t.audit[(id, "send_rate_exceeded")] + (if AboutToFail(t.workers, id) then 1 else 0)
               == (if id in t.ops && t.ops[id].status == Failed then 1 else 0)
  {
    hide Run, Inv, AboutToFail;
    EmptyInv();
    assert !AboutToFail(EMPTY.workers, id) by { NobodyAtWork(id); }
    RunTells(EMPTY, events, id);
  }

  lemma NobodyAtWork(id: string)
    ensures !AboutToFail(EMPTY.workers, id)
  {
  }

  // ----- sends the limiter refused -----

  /** The step ends an execution of the operation because the send limiter refused it. */
  predicate EndsRefused(s: State, e: Event, id: string) {
    Enabled(s, e) &&
    match e
    case Stage(x, _, bodyless, RuleApprove(RateLimited)) => x == id && !bodyless
    case Approve(x, RateLimited) => x == id && !s.ops[x].bodyless
    case Record(w) => s.workers[w].phase.id == id && s.workers[w].phase.outcome.RateLimited?
    case _ => false
  }

  function Refusals(s: State, events: seq<Event>, id: string): nat
    decreases |events|
  {
    if events == [] then 0 else If(EndsRefused(s, events[0], id)) + Refusals(Next(s, events[0]), events[1..], id)
  }

  lemma RefusalStep(s: State, e: Event, id: string)
    ensures Next(s, e).audit[(id, "send_rate_exceeded")] == s.audit[(id, "send_rate_exceeded")] + If(EndsRefused(s, e, id))
  {
    hide Apply;
    if Enabled(s, e) {
      if Advances(e) {
        PassRows(s, e, id, "send_rate_exceeded");
      } else if e.SchedulerStart? || e.ExpiryStart? {
        StartWritesNothing(s, e, id);
      } else {
        RequestRows(s, e, id, "send_rate_exceeded");
      }
    }
  }

  lemma StartWritesNothing(s: State, e: Event, id: string)
    requires Enabled(s, e) && (e.SchedulerStart? || e.ExpiryStart?)
    ensures Apply(s, e).audit == s.audit
  {
  }

  lemma {:induction false} RefusalsFrom(s: State, events: seq<Event>, id: string)
    ensures Run(s, events).audit[(id, "send_rate_exceeded")] == s.audit[(id, "send_rate_exceeded")] + Refusals(s, events, id)
    decreases |events|
  {
    hide Next, EndsRefused;
    if events == [] {
    } else {
      RefusalStep(s, events[0], id);
      RefusalsFrom(Next(s, events[0]), events[1..], id);
    }
  }

  /** Over every run each execution the limiter refused, and no other, is logged as one. */
  lemma RefusalsLogged(events: seq<Event>, id: string)
    ensures Run(EMPTY, events).audit[(id, "send_rate_exceeded")] == Refusals(EMPTY, events, id)
  {
    RefusalsFrom(EMPTY, events, id);
  }

  // ----- what is sent upstream -----

  /** An outcome in which something was sent. */
  predicate Sends(bodyless: bool, o: Outcome) {
    !bodyless && (o == Completed || o == RelayFailed(true))
  }

  /** The step sends the operation upstream: a rule or a human that approves it, or a pass that executes what it claimed. */
  predicate SendsIt(s: State, e: Event, id: string) {
    Enabled(s, e) &&
    match e
    case Stage(x, _, bodyless, RuleApprove(o)) => x == id && Sends(bodyless, o)
    case Approve(x, o) => x == id && Sends(s.ops[x].bodyless, o)
    case Attempt(w, o) => s.workers[w].phase.id == id && Sends(s.ops[id].bodyless, o)
    case _ => false
  }

  function TimesSent(s: State, events: seq<Event>, id: string): nat
    decreases |events|
  {
    if events == [] then 0 else If(SendsIt(s, events[0], id)) + TimesSent(Next(s, events[0]), events[1..], id)
  }

  lemma SendStep(s: State, e: Event, id: string)
    ensures Next(s, e).upstream[id] == s.upstream[id] + If(SendsIt(s, e, id))
  {
    hide Apply;
    if Enabled(s, e) {
      if Advances(e) {
        PassEffect(s, e);
        assert ViewOf(Next(s, e), id).contacts == Next(s, e).upstream[id];
      } else if e.SchedulerStart? || e.ExpiryStart? {
        StartSendsNothing(s, e);
      } else {
        RequestEffect(s, e);
        assert ViewOf(Next(s, e), id).contacts == Next(s, e).upstream[id];
      }
    }
  }

  lemma StartSendsNothing(s: State, e: Event)
    requires Enabled(s, e) && (e.SchedulerStart? || e.ExpiryStart?)
    ensures Apply(s, e).upstream == s.upstream
  {
  }

  lemma {:induction false} SentFrom(s: State, events: seq<Event>, id: string)
    ensures Run(s, events).upstream[id] == s.upstream[id] + TimesSent(s, events, id)
    decreases |events|
  {
    hide Next, SendsIt;
    if events == [] {
    } else {
      SendStep(s, events[0], id);
      SentFrom(Next(s, events[0]), events[1..], id);
    }
  }

  /** Over every run what an operation was sent upstream is counted, step by step; so the steps that send it are one at most. */
  lemma SendsCounted(events: seq<Event>, id: string)
    ensures Run(EMPTY, events).upstream[id] == TimesSent(EMPTY, events, id) <= 1
  {
    SentFrom(EMPTY, events, id);
    AtMostOnce(events, id);
  }
}
