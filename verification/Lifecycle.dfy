// The life of a staged operation: requests by agents and humans, and any number
// of scheduler and expiry passes running beside them (gateway/scheduler.py,
// gateway/expiry.py, gateway/staging.py, gateway/execution.py,
// api/routes/operations.py). A pass advances one SQL statement or upstream
// exchange at a time; a request is one step.
module Lifecycle {
  import opened Wrappers

  datatype Status = Pending | Approved | Executed | Failed | Rejected | Expired | Reverted

  /** bodyless: an APPEND whose message was empty or too large to store. */
  datatype Op = Op(status: Status, scheduledAt: Option<int>, expiresAt: int, bodyless: bool)

  /** How execute_operation ends; Preflight raises before it touches the row. */
  datatype Outcome = Completed | RelayFailed(contacted: bool) | RateLimited | Preflight

  datatype Phase =
    | Idle
    | Executing(id: string)
    | Settling(id: string, outcome: Outcome)
    | Recording(id: string, outcome: Outcome)

  datatype Worker = SchedulerPass(due: seq<string>, phase: Phase) | ExpiryPass(stale: seq<string>)

  /** audit counts (operation, event) rows; upstream counts relays and replays begun. */
  datatype State = State(
    ops: map<string, Op>, audit: multiset<(string, string)>, upstream: multiset<string>, workers: map<nat, Worker>)

  datatype Decision = NoRule | RuleReject | RuleApprove(outcome: Outcome) | RuleDelay(seconds: int) | RuleHold

  datatype Event =
    | Stage(id: string, now: int, bodyless: bool, decision: Decision)
    | Approve(id: string, outcome: Outcome)
    | Reject(id: string)
    | Undo(id: string, succeeds: bool)
    | SchedulerStart(w: nat, due: seq<string>, now: int)
    | Claim(w: nat)
    | Attempt(w: nat, outcome: Outcome)
    | Settle(w: nat)
    | Record(w: nat)
    | ExpiryStart(w: nat, stale: seq<string>, now: int)
    | ExpireOne(w: nat)

  // ----- the tables -----

  function SetStatus(s: State, id: string, status: Status): State
    requires id in s.ops
  {
    s.(ops := s.ops[id := s.ops[id].(status := status)])
  }

  function Log(s: State, id: string, event: string): State {
    s.(audit := s.audit + multiset{(id, event)})
  }

  /** An APPEND without a stored body returns before any connection: whatever upstream would answer, it completes. */
  function Met(bodyless: bool, o: Outcome): Outcome {
    if bodyless then Completed else o
  }

  predicate Contacts(bodyless: bool, o: Outcome) {
    !bodyless && (o.Completed? || (o.RelayFailed? && o.contacted))
  }

  function Contact(s: State, id: string, o: Outcome): State
    requires id in s.ops
  {
    if Contacts(s.ops[id].bodyless, o) then s.(upstream := s.upstream + multiset{id}) else s
  }

  function FinalStatus(o: Outcome): Status {
    if o.Completed? then Executed else Failed
  }

  function FinalEvent(o: Outcome): string {
    match o case Completed => "executed" case RateLimited => "send_rate_exceeded" case _ => "execution_failed"
  }

  /** execute_operation from start to end, without a check of the status. */
  function ExecuteNow(s: State, id: string, o: Outcome): State
    requires id in s.ops
  {
    var met := Met(s.ops[id].bodyless, o);
    if met.Preflight? then s else Log(SetStatus(Contact(s, id, met), id, FinalStatus(met)), id, FinalEvent(met))
  }

  predicate Distinct(ids: seq<string>) {
    forall i, j :: 0 <= i < j < |ids| ==> ids[i] != ids[j]
  }

  predicate Due(s: State, id: string, now: int) {
    id in s.ops && s.ops[id].status == Pending && s.ops[id].scheduledAt.Some? && s.ops[id].scheduledAt.value <= now
  }

  predicate Stale(s: State, id: string, now: int) {
    id in s.ops && s.ops[id].status == Pending && s.ops[id].expiresAt <= now
  }

  const BATCH_SIZE := 100
  const EXPIRY_SECONDS := 172800

  // ----- one step -----

  function Decided(s: State, id: string, now: int, d: Decision): State
    requires id in s.ops
  {
    match d
    case NoRule => s
    case RuleReject => Log(SetStatus(s, id, Rejected), id, "rejected")
    case RuleApprove(o) => ExecuteNow(Log(s, id, "approved"), id, o)
    case RuleDelay(seconds) =>
      var at := now + if seconds > 0 then seconds else 0;
      Log(s.(ops := s.ops[id := s.ops[id].(scheduledAt := Some(at))]), id, "scheduled")
    case RuleHold => Log(s, id, "held")
  }

  predicate PassIn(s: State, w: nat) {
    w in s.workers && s.workers[w].SchedulerPass?
  }

  predicate Enabled(s: State, e: Event) {
    match e
    case Stage(id, _, _, _) => id !in s.ops
    case Approve(id, _) => id in s.ops && s.ops[id].status == Pending
    case Reject(id) => id in s.ops && s.ops[id].status == Pending
    case Undo(id, _) => id in s.ops && s.ops[id].status == Executed
    case SchedulerStart(w, due, now) =>
      w !in s.workers && |due| <= BATCH_SIZE && Distinct(due) && forall i :: 0 <= i < |due| ==> Due(s, due[i], now)
    case Claim(w) => PassIn(s, w) && s.workers[w].phase.Idle? && s.workers[w].due != [] && s.workers[w].due[0] in s.ops
    case Attempt(w, _) => PassIn(s, w) && s.workers[w].phase.Executing? && s.workers[w].phase.id in s.ops
    case Settle(w) => PassIn(s, w) && s.workers[w].phase.Settling? && s.workers[w].phase.id in s.ops
    case Record(w) => PassIn(s, w) && s.workers[w].phase.Recording?
    case ExpiryStart(w, stale, now) =>
      w !in s.workers && |stale| <= BATCH_SIZE && Distinct(stale) && forall i :: 0 <= i < |stale| ==> Stale(s, stale[i], now)
    case ExpireOne(w) =>
      w in s.workers && s.workers[w].ExpiryPass? && s.workers[w].stale != [] && s.workers[w].stale[0] in s.ops
  }

  function WithPhase(s: State, w: nat, phase: Phase): State
    requires PassIn(s, w)
  {
    s.(workers := s.workers[w := s.workers[w].(phase := phase)])
  }

  function Apply(s: State, e: Event): State
    requires Enabled(s, e)
  {
    match e
    case Stage(id, now, bodyless, d) =>
      var staged := s.(ops := s.ops[id := Op(Pending, None, now + EXPIRY_SECONDS, bodyless)]);
      Decided(Log(staged, id, "staged"), id, now, d)
    case Approve(id, o) => ExecuteNow(s, id, o)
    case Reject(id) => Log(SetStatus(s, id, Rejected), id, "rejected")
    case Undo(id, succeeds) => if succeeds then Log(SetStatus(s, id, Reverted), id, "reverted") else s
    case SchedulerStart(w, due, _) => s.(workers := s.workers[w := SchedulerPass(due, Idle)])
    case Claim(w) =>
      var id, rest := s.workers[w].due[0], s.workers[w].due[1..];
      if s.ops[id].status == Pending
      then SetStatus(s.(workers := s.workers[w := SchedulerPass(rest, Executing(id))]), id, Approved)
      else s.(workers := s.workers[w := SchedulerPass(rest, Idle)])
    case Attempt(w, o) =>
      var id := s.workers[w].phase.id;
      var met := Met(s.ops[id].bodyless, o);
      if met.Preflight? then WithPhase(s, w, Idle) else WithPhase(Contact(s, id, met), w, Settling(id, met))
    case Settle(w) =>
      var p := s.workers[w].phase;
      WithPhase(SetStatus(s, p.id, FinalStatus(p.outcome)), w, Recording(p.id, p.outcome))
    case Record(w) =>
      var p := s.workers[w].phase;
      WithPhase(Log(s, p.id, FinalEvent(p.outcome)), w, Idle)
    case ExpiryStart(w, stale, _) => s.(workers := s.workers[w := ExpiryPass(stale)])
    case ExpireOne(w) =>
      var id, rest := s.workers[w].stale[0], s.workers[w].stale[1..];
      var moved := s.(workers := s.workers[w := ExpiryPass(rest)]);
      Log(if s.ops[id].status == Pending then SetStatus(moved, id, Expired) else moved, id, "expired")
  }

  /** A request on a row in the wrong state is refused and changes nothing. */
  function Next(s: State, e: Event): State {
    if Enabled(s, e) then Apply(s, e) else s
  }

  function Run(s: State, events: seq<Event>): State
    decreases |events|
  {
    if events == [] then s else Run(Next(s, events[0]), events[1..])
  }

  const EMPTY := State(map[], multiset{}, multiset{}, map[])

  // ----- the invariant -----

  type Workers = map<nat, Worker>

  function PhaseOf(workers: Workers, w: nat): Phase {
    if w in workers && workers[w].SchedulerPass? then workers[w].phase else Idle
  }

  /** Pass w has claimed the operation and is not done with it. */
  predicate Holds(workers: Workers, w: nat, id: string) {
    !PhaseOf(workers, w).Idle? && PhaseOf(workers, w).id == id
  }

  predicate Undecided(status: Status) {
    status == Pending || status == Rejected || status == Expired
  }

  predicate Succeeded(status: Status) {
    status == Executed || status == Reverted
  }

  /** What the tables say of one operation: executed rows, and relays or replays begun. */
  datatype View = View(known: bool, status: Status, bodyless: bool, rows: nat, contacts: nat)

  function ViewOf(s: State, id: string): View {
    View(id in s.ops, if id in s.ops then s.ops[id].status else Pending, id in s.ops && s.ops[id].bodyless,
         s.audit[(id, "executed")], s.upstream[id])
  }

  /** What the pass that holds an operation knows about it. */
  predicate PhaseFits(phase: Phase, v: View) {
    match phase
    case Idle => true
    case Executing(_) => v.status == Approved && v.contacts == 0
    case Settling(_, o) => v.status == Approved && v.contacts == (if Contacts(v.bodyless, o) then 1 else 0) && (v.bodyless ==> o.Completed?)
    case Recording(_, o) => if o.Completed? then Succeeded(v.status) else v.status == Failed
  }

  ghost predicate Held(workers: Workers, id: string) {
    exists w :: Holds(workers, w, id)
  }

  ghost predicate AboutToRecord(workers: Workers, id: string) {
    exists w :: PhaseOf(workers, w) == Recording(id, Completed)
  }

  ghost predicate HoldersFit(workers: Workers, v: View, id: string) {
    && (forall w, x :: Holds(workers, w, id) && Holds(workers, x, id) ==> w == x)
    && (forall w :: Holds(workers, w, id) ==> v.known && !Undecided(v.status) && PhaseFits(PhaseOf(workers, w), v))
  }

  /** Executed rows written, plus the one about to be written, say whether it was executed. */
  predicate CountsFit(v: View, held: bool, recording: bool) {
    && v.contacts <= 1
    && (!v.known || Undecided(v.status) || (v.status == Approved && !held) ==> v.contacts == 0)
    && (Succeeded(v.status) ==> v.contacts == if v.bodyless then 0 else 1)
    && (v.bodyless ==> v.contacts == 0)
    && v.rows + (if recording then 1 else 0) == if Succeeded(v.status) then 1 else 0
  }

  ghost predicate Fits(workers: Workers, v: View, id: string) {
    HoldersFit(workers, v, id) && CountsFit(v, Held(workers, id), AboutToRecord(workers, id))
  }

  ghost predicate Inv(s: State) {
    forall id :: Fits(s.workers, ViewOf(s, id), id)
  }

  // ----- the effect of one step on one operation -----

  function Ended(v: View, o: Outcome): View {
    var met := Met(v.bodyless, o);
    if met.Preflight? then v
    else View(v.known, FinalStatus(met), v.bodyless, v.rows + (if met.Completed? then 1 else 0),
              v.contacts + if Contacts(v.bodyless, met) then 1 else 0)
  }

  function RequestView(v: View, e: Event): View
    requires e.Stage? || e.Approve? || e.Reject? || e.Undo?
  {
    match e
    case Stage(_, _, b, RuleReject) => v.(known := true, bodyless := b, status := Rejected)
    case Stage(_, _, b, RuleApprove(o)) => Ended(v.(known := true, bodyless := b, status := Pending), o)
    case Stage(_, _, b, _) => v.(known := true, bodyless := b, status := Pending)
    case Approve(_, o) => Ended(v, o)
    case Reject(_) => v.(status := Rejected)
    case Undo(_, succeeds) => if succeeds then v.(status := Reverted) else v
  }

  lemma LogView(s: State, id: string, event: string)
    ensures Log(s, id, event).workers == s.workers
    ensures ViewOf(Log(s, id, event), id) ==
            if event == "executed" then ViewOf(s, id).(rows := ViewOf(s, id).rows + 1) else ViewOf(s, id)
    ensures forall x :: x != id ==> ViewOf(Log(s, id, event), x) == ViewOf(s, x)
  {
  }

  lemma ExecuteNowView(s: State, id: string, o: Outcome)
    requires id in s.ops
    ensures ExecuteNow(s, id, o).workers == s.workers && ViewOf(ExecuteNow(s, id, o), id) == Ended(ViewOf(s, id), o)
    ensures forall x :: x != id ==> ViewOf(ExecuteNow(s, id, o), x) == ViewOf(s, x)
  {
  }

  lemma StageView(s: State, id: string, now: int, bodyless: bool, d: Decision)
    requires id !in s.ops
    ensures var t := Apply(s, Stage(id, now, bodyless, d));
            && t.workers == s.workers && ViewOf(t, id) == RequestView(ViewOf(s, id), Stage(id, now, bodyless, d))
            && forall x :: x != id ==> ViewOf(t, x) == ViewOf(s, x)
  {
    hide ExecuteNow, Log;
    var inserted := s.(ops := s.ops[id := Op(Pending, None, now + EXPIRY_SECONDS, bodyless)]);
    var staged := Log(inserted, id, "staged");
    LogView(inserted, id, "staged");
    assert ViewOf(staged, id) == ViewOf(s, id).(known := true, bodyless := bodyless, status := Pending);
    assert forall x :: x != id ==> ViewOf(staged, x) == ViewOf(s, x);
    DecidedView(staged, id, now, d);
  }

  lemma DecidedView(s: State, id: string, now: int, d: Decision)
    requires id in s.ops && s.ops[id].status == Pending
    ensures var t := Decided(s, id, now, d);
            && t.workers == s.workers && ViewOf(t, id) == RequestView(ViewOf(s, id), Stage(id, now, s.ops[id].bodyless, d))
            && forall x :: x != id ==> ViewOf(t, x) == ViewOf(s, x)
  {
    hide ExecuteNow, Log;
    match d {
      case NoRule =>
      case RuleReject => LogView(SetStatus(s, id, Rejected), id, "rejected");
      case RuleApprove(o) =>
        LogView(s, id, "approved");
        assert ViewOf(Log(s, id, "approved"), id).known;
        ExecuteNowView(Log(s, id, "approved"), id, o);
      case RuleDelay(seconds) =>
        var at := now + if seconds > 0 then seconds else 0;
        LogView(s.(ops := s.ops[id := s.ops[id].(scheduledAt := Some(at))]), id, "scheduled");
      case RuleHold => LogView(s, id, "held");
    }
  }

  lemma RequestEffect(s: State, e: Event)
    requires Enabled(s, e) && (e.Stage? || e.Approve? || e.Reject? || e.Undo?)
    ensures var t := Apply(s, e);
            && t.workers == s.workers && ViewOf(t, e.id) == RequestView(ViewOf(s, e.id), e)
            && forall x :: x != e.id ==> ViewOf(t, x) == ViewOf(s, x)
  {
    hide ExecuteNow;
    if e.Approve? {
      ExecuteNowView(s, e.id, e.outcome);
    } else if e.Stage? {
      StageView(s, e.id, e.now, e.bodyless, e.decision);
    }
  }

  lemma RequestFits(workers: Workers, v: View, e: Event)
    requires (e.Stage? && !v.known && v.status == Pending && !v.bodyless) || ((e.Approve? || e.Reject?) && v.known && v.status == Pending)
             || (e.Undo? && v.known && v.status == Executed)
    requires Fits(workers, v, e.id)
    ensures Fits(workers, RequestView(v, e), e.id)
  {
  }

  lemma RequestKeepsInv(s: State, e: Event)
    requires Inv(s) && Enabled(s, e) && (e.Stage? || e.Approve? || e.Reject? || e.Undo?)
    ensures Inv(Apply(s, e))
  {
    hide Fits, Apply, RequestView;
    RequestEffect(s, e);
    RequestFits(s.workers, ViewOf(s, e.id), e) by {
      assert Fits(s.workers, ViewOf(s, e.id), e.id);
    }
    forall x ensures Fits(Apply(s, e).workers, ViewOf(Apply(s, e), x), x) {
      assert Fits(s.workers, ViewOf(s, x), x);
    }
  }

  /** The operation a pass works on in this step. */
  function Subject(s: State, e: Event): string
    requires Enabled(s, e) && (e.Claim? || e.Attempt? || e.Settle? || e.Record? || e.ExpireOne?)
  {
    match e
    case Claim(w) => s.workers[w].due[0]
    case ExpireOne(w) => s.workers[w].stale[0]
    case Attempt(w, _) => s.workers[w].phase.id
    case Settle(w) => s.workers[w].phase.id
    case Record(w) => s.workers[w].phase.id
  }

  function PassView(v: View, phase: Phase, e: Event): View {
    match e
    case Claim(_) => if v.status == Pending then v.(status := Approved) else v
    case Attempt(_, o) => if Contacts(v.bodyless, Met(v.bodyless, o)) then v.(contacts := v.contacts + 1) else v
    case Settle(_) => if phase.Settling? then v.(status := FinalStatus(phase.outcome)) else v
    case Record(_) => if phase.Recording? && phase.outcome.Completed? then v.(rows := v.rows + 1) else v
    case ExpireOne(_) => if v.status == Pending then v.(status := Expired) else v
    case _ => v
  }

  function PassPhase(v: View, id: string, phase: Phase, e: Event): Phase {
    match e
    case Claim(_) => if v.status == Pending then Executing(id) else Idle
    case Attempt(_, o) => if Met(v.bodyless, o).Preflight? then Idle else Settling(id, Met(v.bodyless, o))
    case Settle(_) => if phase.Settling? then Recording(id, phase.outcome) else phase
    case _ => Idle
  }

  predicate Advances(e: Event) {
    e.Claim? || e.Attempt? || e.Settle? || e.Record? || e.ExpireOne?
  }

  lemma ListViews(s: State, e: Event)
    requires Enabled(s, e) && (e.Claim? || e.ExpireOne?)
    ensures var t, id := Apply(s, e), Subject(s, e);
            && ViewOf(t, id) == PassView(ViewOf(s, id), PhaseOf(s.workers, e.w), e)
            && forall x :: x != id ==> ViewOf(t, x) == ViewOf(s, x)
  {
    hide Distinct, Due, Stale, Log, PhaseOf;
    if e.ExpireOne? {
      var id := Subject(s, e);
      var moved := s.(workers := s.workers[e.w := ExpiryPass(s.workers[e.w].stale[1..])]);
      LogView(if s.ops[id].status == Pending then SetStatus(moved, id, Expired) else moved, id, "expired");
    }
  }

  lemma ExecutionViews(s: State, e: Event)
    requires Enabled(s, e) && (e.Attempt? || e.Settle? || e.Record?)
    ensures var t, id := Apply(s, e), Subject(s, e);
            && ViewOf(t, id) == PassView(ViewOf(s, id), PhaseOf(s.workers, e.w), e)
            && forall x :: x != id ==> ViewOf(t, x) == ViewOf(s, x)
  {
    hide Distinct, Due, Stale, Log;
    if e.Record? {
      var p := s.workers[e.w].phase;
      LogView(s, p.id, FinalEvent(p.outcome));
    }
  }

  lemma PassViews(s: State, e: Event)
    requires Enabled(s, e) && Advances(e)
    ensures var t, id := Apply(s, e), Subject(s, e);
            && ViewOf(t, id) == PassView(ViewOf(s, id), PhaseOf(s.workers, e.w), e)
            && forall x :: x != id ==> ViewOf(t, x) == ViewOf(s, x)
  {
    hide Apply, ViewOf, PassView, PhaseOf, Enabled;
    if e.Claim? || e.ExpireOne? {
      ListViews(s, e);
    } else {
      ExecutionViews(s, e);
    }
  }

  lemma PassPhases(s: State, e: Event)
    requires Enabled(s, e) && Advances(e)
    ensures var t, id := Apply(s, e), Subject(s, e);
            && PhaseOf(t.workers, e.w) == PassPhase(ViewOf(s, id), id, PhaseOf(s.workers, e.w), e)
            && forall x :: x != e.w ==> PhaseOf(t.workers, x) == PhaseOf(s.workers, x)
  {
    hide Distinct, Due, Stale;
  }

  lemma PassEffect(s: State, e: Event)
    requires Enabled(s, e) && Advances(e)
    ensures var t, id := Apply(s, e), Subject(s, e);
            var v, phase := ViewOf(s, id), PhaseOf(s.workers, e.w);
            && ViewOf(t, id) == PassView(v, phase, e) && PhaseOf(t.workers, e.w) == PassPhase(v, id, phase, e)
            && (forall x :: x != id ==> ViewOf(t, x) == ViewOf(s, x))
            && (forall x :: x != e.w ==> PhaseOf(t.workers, x) == PhaseOf(s.workers, x))
  {
    hide Apply, ViewOf, PassView, PassPhase, PhaseOf, Enabled;
    PassViews(s, e);
    PassPhases(s, e);
  }

  /** Only pass w moved, from an operation it held or to one it may take. */
  lemma PassFits(before: Workers, after: Workers, v: View, e: Event, id: string)
    requires Advances(e) && Fits(before, v, id)
    requires forall x :: x != e.w ==> PhaseOf(after, x) == PhaseOf(before, x)
    requires PhaseOf(after, e.w) == PassPhase(v, id, PhaseOf(before, e.w), e)
    requires match e
             case Attempt(w, _) => PhaseOf(before, w) == Executing(id)
             case Settle(w) => PhaseOf(before, w).Settling? && PhaseOf(before, w).id == id
             case Record(w) => PhaseOf(before, w).Recording? && PhaseOf(before, w).id == id
             case _ => PhaseOf(before, e.w) == Idle && v.known
    ensures Fits(after, PassView(v, PhaseOf(before, e.w), e), id)
  {
    assert !PhaseOf(before, e.w).Idle? ==> Holds(before, e.w, id);
    assert !PhaseOf(after, e.w).Idle? ==> Holds(after, e.w, id);
    assert forall x :: x != e.w ==> (Holds(after, x, id) <==> Holds(before, x, id));
    assert forall x :: PhaseOf(before, x) == Recording(id, Completed) ==> Holds(before, x, id);
    assert forall x :: PhaseOf(after, x) == Recording(id, Completed) ==> Holds(after, x, id);
  }

  lemma OtherFits(before: Workers, after: Workers, v: View, w: nat, id: string)
    requires Fits(before, v, id) && !Holds(before, w, id) && !Holds(after, w, id)
    requires forall x :: x != w ==> PhaseOf(after, x) == PhaseOf(before, x)
    ensures Fits(after, v, id)
  {
    assert forall x :: Holds(after, x, id) <==> Holds(before, x, id);
    assert forall x :: PhaseOf(before, x) == Recording(id, Completed) ==> Holds(before, x, id);
    assert forall x :: PhaseOf(after, x) == Recording(id, Completed) ==> Holds(after, x, id);
    assert AboutToRecord(after, id) <==> AboutToRecord(before, id);
  }

  lemma PassKeepsInv(s: State, e: Event)
    requires Inv(s) && Enabled(s, e) && Advances(e)
    ensures Inv(Apply(s, e))
  {
    hide Fits, Apply, PassView, ViewOf;
    PassEffect(s, e);
    var t, id := Apply(s, e), Subject(s, e);
    assert ViewOf(s, id).known by { SubjectKnown(s, e); }
    PassFits(s.workers, t.workers, ViewOf(s, id), e, id) by {
      assert Fits(s.workers, ViewOf(s, id), id);
    }
    forall x ensures Fits(t.workers, ViewOf(t, x), x) {
      if x != id {
        assert Fits(s.workers, ViewOf(s, x), x);
        OtherFits(s.workers, t.workers, ViewOf(s, x), e.w, x);
      }
    }
  }

  lemma SubjectKnown(s: State, e: Event)
    requires Inv(s) && Enabled(s, e) && Advances(e)
    ensures ViewOf(s, Subject(s, e)).known
  {
    hide CountsFit;
    var id := Subject(s, e);
    assert Fits(s.workers, ViewOf(s, id), id);
    if e.Attempt? || e.Settle? || e.Record? {
      assert Holds(s.workers, e.w, id);
    }
  }

  lemma StartKeepsInv(s: State, e: Event)
    requires Inv(s) && Enabled(s, e) && (e.SchedulerStart? || e.ExpiryStart?)
    ensures Inv(Apply(s, e))
  {
    hide Fits;
    var t := Apply(s, e);
    forall x ensures Fits(t.workers, ViewOf(t, x), x) {
      assert Fits(s.workers, ViewOf(s, x), x);
      OtherFits(s.workers, t.workers, ViewOf(s, x), e.w, x);
    }
  }

  lemma StepKeepsInv(s: State, e: Event)
    requires Inv(s)
    ensures Inv(Next(s, e))
  {
    hide Inv, Apply, Enabled;
    if Enabled(s, e) {
      if Advances(e) {
        PassKeepsInv(s, e);
      } else if e.SchedulerStart? || e.ExpiryStart? {
        StartKeepsInv(s, e);
      } else {
        RequestKeepsInv(s, e);
      }
    }
  }

  lemma {:induction false} RunKeepsInv(s: State, events: seq<Event>)
    requires Inv(s)
    ensures Inv(Run(s, events))
    decreases |events|
  {
    hide Inv, Next;
    if events == [] {
    } else {
      StepKeepsInv(s, events[0]);
      RunKeepsInv(Next(s, events[0]), events[1..]);
    }
  }

  lemma EmptyInv()
    ensures Inv(EMPTY)
  {
  }

  // ----- what holds over every run -----

  /**
   * In every run, with any passes interleaved at any statement: the relay or replay of an
   * operation is begun at most once, never for one rejected or expired, and, for one that is
   * executed, exactly unless it is an APPEND without a stored body, for which it never is.
   */
  lemma AtMostOnce(events: seq<Event>, id: string)
    ensures var t := Run(EMPTY, events);
            && t.upstream[id] <= 1
            && (id in t.ops ==>
                  && (Undecided(t.ops[id].status) || t.ops[id].bodyless ==> t.upstream[id] == 0)
                  && (Succeeded(t.ops[id].status) ==> (t.upstream[id] == 1 <==> !t.ops[id].bodyless)))
  {
    hide Run, HoldersFit;
    EmptyInv();
    RunKeepsInv(EMPTY, events);
    assert Fits(Run(EMPTY, events).workers, ViewOf(Run(EMPTY, events), id), id);
  }

  /** The exception is real: such an APPEND is marked and logged as executed, and nothing was sent. */
  lemma ExecutedWithoutContact(id: string, now: int, o: Outcome)
    ensures var t := Run(EMPTY, [Stage(id, now, true, NoRule), Approve(id, o)]);
            id in t.ops && t.ops[id].status == Executed && t.audit[(id, "executed")] == 1 && t.upstream[id] == 0
  {
    hide Next, Run;
    var e1, e2 := Stage(id, now, true, NoRule), Approve(id, o);
    var s1 := Next(EMPTY, e1);
    assert [e1, e2][1..] == [e2] && [e2][1..] == [];
    TwoSteps(EMPTY, e1, e2);
    BodylessEnds(id, now, o);
  }

  lemma TwoSteps(s: State, e1: Event, e2: Event)
    ensures Run(s, [e1, e2]) == Next(Next(s, e1), e2)
  {
    hide Next;
    assert [e1, e2][1..] == [e2] && [e2][1..] == [];
    assert Run(Next(s, e1), [e2]) == Run(Next(Next(s, e1), e2), []);
  }

  lemma BodylessEnds(id: string, now: int, o: Outcome)
    ensures var t := Next(Next(EMPTY, Stage(id, now, true, NoRule)), Approve(id, o));
            id in t.ops && t.ops[id].status == Executed && t.audit[(id, "executed")] == 1 && t.upstream[id] == 0
  {
  }

  /** Once no pass holds it, the executed rows of an operation say exactly whether it was executed. */
  lemma ExecutedRowsExact(events: seq<Event>, id: string)
    requires var t := Run(EMPTY, events); id in t.ops && !Held(t.workers, id)
    ensures var t := Run(EMPTY, events);
            t.audit[(id, "executed")] == if Succeeded(t.ops[id].status) then 1 else 0
  {
    hide Run, HoldersFit;
    EmptyInv();
    RunKeepsInv(EMPTY, events);
    var t := Run(EMPTY, events);
    assert Fits(t.workers, ViewOf(t, id), id);
    assert forall w :: PhaseOf(t.workers, w) == Recording(id, Completed) ==> Holds(t.workers, w, id);
  }

  /** The only ways a status changes. */
  predicate Moves(a: Status, b: Status) {
    || a == b
    || (a == Pending && b != Reverted)
    || (a == Approved && (b == Executed || b == Failed))
    || (a == Executed && b == Reverted)
  }

  lemma StatusMoves(s: State, e: Event, id: string)
    requires Inv(s) && id in s.ops
    ensures id in Next(s, e).ops && Moves(s.ops[id].status, Next(s, e).ops[id].status)
  {
    hide Inv, Apply, PassPhase;
    var t := Next(s, e);
    if Enabled(s, e) {
      if Advances(e) {
        PassEffect(s, e);
        if e.Settle? && id == Subject(s, e) {
          HolderApproved(s, e.w, id);
        }
        assert ViewOf(t, id).known;
      } else if !e.SchedulerStart? && !e.ExpiryStart? {
        RequestEffect(s, e);
        assert ViewOf(t, id).known;
      } else {
        StartView(s, e, id);
      }
    }
  }

  lemma StartView(s: State, e: Event, id: string)
    requires Enabled(s, e) && (e.SchedulerStart? || e.ExpiryStart?)
    ensures Apply(s, e).ops == s.ops
  {
  }

  lemma HolderApproved(s: State, w: nat, id: string)
    requires Inv(s) && PhaseOf(s.workers, w).Settling? && PhaseOf(s.workers, w).id == id && id in s.ops
    ensures s.ops[id].status == Approved
  {
    hide CountsFit;
    assert Fits(s.workers, ViewOf(s, id), id);
    assert Holds(s.workers, w, id);
  }

  predicate Terminal(status: Status) {
    status == Rejected || status == Expired || status == Failed || status == Reverted
  }

  /** A decision is final: nothing later changes it, and a rejected or expired operation is never relayed. */
  lemma {:induction false} TerminalForever(s: State, events: seq<Event>, id: string)
    requires Inv(s) && id in s.ops && Terminal(s.ops[id].status)
    ensures id in Run(s, events).ops && Run(s, events).ops[id].status == s.ops[id].status
    ensures Undecided(s.ops[id].status) ==> Run(s, events).upstream[id] == 0
    decreases |events|
  {
    hide Inv, Next;
    if events == [] {
      NoContact(s, id);
    } else {
      StatusMoves(s, events[0], id);
      StepKeepsInv(s, events[0]);
      TerminalForever(Next(s, events[0]), events[1..], id);
    }
  }

  lemma NoContact(s: State, id: string)
    requires Inv(s) && id in s.ops
    ensures Undecided(s.ops[id].status) ==> s.upstream[id] == 0
  {
    hide HoldersFit;
    assert Fits(s.workers, ViewOf(s, id), id);
  }

  /**
   * A scheduled operation whose execution fails before it starts stays approved for ever:
   * no approval, rejection, expiry or later pass ever takes it up again.
   */
  lemma {:induction false} PreflightFailureStrands(s: State, events: seq<Event>, id: string)
    requires id in s.ops && s.ops[id].status == Approved && !Held(s.workers, id)
    ensures var t := Run(s, events);
            id in t.ops && t.ops[id].status == Approved && t.upstream[id] == s.upstream[id] && !Held(t.workers, id)
    decreases |events|
  {
    hide Next, Held;
    if events == [] {
    } else {
      StrandedStep(s, events[0], id);
      PreflightFailureStrands(Next(s, events[0]), events[1..], id);
    }
  }

  lemma StrandedStep(s: State, e: Event, id: string)
    requires id in s.ops && s.ops[id].status == Approved && !Held(s.workers, id)
    ensures var t := Next(s, e);
            id in t.ops && t.ops[id].status == Approved && t.upstream[id] == s.upstream[id] && !Held(t.workers, id)
  {
    if Enabled(s, e) {
      if Advances(e) {
        StrandedPass(s, e, id);
      } else if e.SchedulerStart? || e.ExpiryStart? {
        hide Distinct, Due, Stale;
        forall w ensures !Holds(Apply(s, e).workers, w, id) {
          assert !Holds(s.workers, w, id);
        }
      } else {
        assert e.id != id;
        RequestEffect(s, e);
        hide Apply;
        assert ViewOf(Apply(s, e), id) == ViewOf(s, id);
      }
    }
  }

  lemma StrandedPass(s: State, e: Event, id: string)
    requires id in s.ops && s.ops[id].status == Approved && !Held(s.workers, id) && Enabled(s, e) && Advances(e)
    ensures var t := Apply(s, e);
            id in t.ops && t.ops[id].status == Approved && t.upstream[id] == s.upstream[id] && !Held(t.workers, id)
  {
    hide Apply, Distinct, Due, Stale;
    var t := Apply(s, e);
    PassEffect(s, e);
    assert !Holds(s.workers, e.w, id);
    assert ViewOf(t, id) == ViewOf(s, id);
    forall w ensures !Holds(t.workers, w, id) {
      assert !Holds(s.workers, w, id);
    }
  }

  /** A claimed operation's execution fails before it starts. */
  predicate FailsToStart(s: State, e: Event, id: string) {
    Enabled(s, e) && e.Attempt? && Subject(s, e) == id && Met(s.ops[id].bodyless, e.outcome).Preflight?
  }

  predicate FailedToStart(s: State, events: seq<Event>, id: string)
    decreases |events|
  {
    events != [] && (FailsToStart(s, events[0], id) || FailedToStart(Next(s, events[0]), events[1..], id))
  }

  /** Approved, and no pass is at work on it. */
  ghost predicate Stranded(s: State, id: string) {
    id in s.ops && s.ops[id].status == Approved && !Held(s.workers, id)
  }

  /**
   * An operation is left approved with no pass at work on it exactly when a pass claimed it
   * and its execution failed before it started: nothing else strands one, and nothing else
   * takes it up again.
   */
  lemma StrandedIff(events: seq<Event>, id: string)
    ensures Stranded(Run(EMPTY, events), id) <==> FailedToStart(EMPTY, events, id)
  {
    hide Run, Inv;
    EmptyInv();
    StrandedFrom(EMPTY, events, id);
  }

  lemma {:induction false} StrandedFrom(s: State, events: seq<Event>, id: string)
    requires Inv(s)
    ensures Stranded(Run(s, events), id) <==> Stranded(s, id) || FailedToStart(s, events, id)
    decreases |events|
  {
    hide Inv, Next, Stranded, FailsToStart;
    if events == [] {
    } else {
      StepKeepsInv(s, events[0]);
      StrandsIff(s, events[0], id);
      StrandedFrom(Next(s, events[0]), events[1..], id);
    }
  }

  lemma StrandsIff(s: State, e: Event, id: string)
    requires Inv(s)
    ensures Stranded(Next(s, e), id) <==> Stranded(s, id) || FailsToStart(s, e, id)
  {
    hide Inv, Next, Held;
    if Stranded(s, id) {
      StrandedStep(s, e, id);
    } else if FailsToStart(s, e, id) {
      StartFailureStrands(s, e, id);
    } else {
      StaysUnstranded(s, e, id);
    }
  }

  lemma StartFailureStrands(s: State, e: Event, id: string)
    requires Inv(s) && FailsToStart(s, e, id)
    ensures Stranded(Next(s, e), id)
  {
    hide Inv, Apply, CountsFit;
    var t := Next(s, e);
    assert Fits(s.workers, ViewOf(s, id), id) by { InvAt(s, id); }
    PassEffect(s, e);
    assert Holds(s.workers, e.w, id);
    assert ViewOf(t, id).known && ViewOf(t, id).status == Approved;
    forall w ensures !Holds(t.workers, w, id) {
      assert Holds(s.workers, w, id) ==> w == e.w;
    }
  }

  lemma InvAt(s: State, id: string)
    requires Inv(s)
    ensures Fits(s.workers, ViewOf(s, id), id)
  {
  }

  lemma StaysUnstranded(s: State, e: Event, id: string)
    requires Inv(s) && !Stranded(s, id) && !FailsToStart(s, e, id)
    ensures !Stranded(Next(s, e), id)
  {
    hide Inv, Apply, Held;
    if Enabled(s, e) {
      if Advances(e) {
        PassLeavesNone(s, e, id);
      } else if e.SchedulerStart? || e.ExpiryStart? {
        StartView(s, e, id);
        StartHolds(s, e, id);
      } else {
        RequestEffect(s, e);
        assert ViewOf(s, id).known || ViewOf(s, id).status == Pending;
        assert ViewOf(Apply(s, e), id).status == Approved ==> ViewOf(s, id).status == Approved && ViewOf(s, id).known;
      }
    }
  }

  lemma StartHolds(s: State, e: Event, id: string)
    requires Enabled(s, e) && (e.SchedulerStart? || e.ExpiryStart?)
    ensures Held(Apply(s, e).workers, id) <==> Held(s.workers, id)
  {
    hide Distinct, Due, Stale;
    assert forall w :: Holds(Apply(s, e).workers, w, id) <==> Holds(s.workers, w, id);
  }

  lemma PassLeavesNone(s: State, e: Event, id: string)
    requires Inv(s) && Enabled(s, e) && Advances(e) && !Stranded(s, id) && !FailsToStart(s, e, id)
    ensures !Stranded(Apply(s, e), id)
  {
    hide Inv, Apply, CountsFit;
    var t := Apply(s, e);
    PassEffect(s, e);
    if ViewOf(t, id).known && ViewOf(t, id).status == Approved {
      if id == Subject(s, e) {
        assert Fits(s.workers, ViewOf(s, id), id) by { InvAt(s, id); }
        if (e.Claim? || e.ExpireOne?) && ViewOf(s, id).status == Approved {
          assert ViewOf(s, id).known by { SubjectKnown(s, e); }
          var w :| Holds(s.workers, w, id);
          assert Holds(t.workers, w, id);
        } else {
          assert Holds(t.workers, e.w, id);
        }
      } else {
        assert ViewOf(s, id) == ViewOf(t, id);
        var w :| Holds(s.workers, w, id);
        assert Holds(t.workers, w, id);
      }
    }
  }

  /** Requests must be serialised: two approvals that both saw pending execute twice. */
  lemma OverlappingApprovalsExecuteTwice(s: State, id: string)
    requires id in s.ops && s.ops[id].status == Pending && !s.ops[id].bodyless && Inv(s)
    ensures var t := ExecuteNow(ExecuteNow(s, id, Completed), id, Completed);
            t.upstream[id] == 2 && t.audit[(id, "executed")] == 2 && t.ops[id].status == Executed
  {
    hide ExecuteNow, Held;
    assert Fits(s.workers, ViewOf(s, id), id);
    assert forall w :: PhaseOf(s.workers, w) == Recording(id, Completed) ==> Holds(s.workers, w, id);
    ExecuteNowView(s, id, Completed);
    var t := ExecuteNow(s, id, Completed);
    assert ViewOf(t, id).known;
    ExecuteNowView(t, id, Completed);
    assert ViewOf(ExecuteNow(t, id, Completed), id) == Ended(Ended(ViewOf(s, id), Completed), Completed);
  }
}
