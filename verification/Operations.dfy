// The loops that drive operations through their life: the batch routes
// (api/routes/operations.py), the scheduler pass (gateway/scheduler.py) and the
// expiry pass (gateway/expiry.py), each shown to be a run of the step relation.
module Operations {
  import opened Wrappers
  import opened Lifecycle

  lemma {:induction false} RunAppend(s: State, a: seq<Event>, b: seq<Event>)
    ensures Run(s, a + b) == Run(Run(s, a), b)
    decreases |a|
  {
    hide Next;
    if a == [] {
      assert a + b == b;
    } else {
      assert (a + b)[1..] == a[1..] + b;
      RunAppend(Next(s, a[0]), a[1..], b);
    }
  }

  lemma RunOne(s: State, a: seq<Event>, e: Event)
    ensures Run(s, a + [e]) == Next(Run(s, a), e)
  {
    RunAppend(s, a, [e]);
    assert [e][1..] == [];
    assert Run(Run(s, a), [e]) == Run(Next(Run(s, a), e), []);
  }

  // ----- what a batch of requests amounts to -----

  function Approvals(ids: seq<string>, outcomes: seq<Outcome>): (events: seq<Event>)
    requires |outcomes| == |ids|
    ensures |events| == |ids|
  {
    seq(|ids|, i requires 0 <= i < |ids| => Approve(ids[i], outcomes[i]))
  }

  function Rejections(ids: seq<string>): (events: seq<Event>)
    ensures |events| == |ids|
  {
    seq(|ids|, i requires 0 <= i < |ids| => Reject(ids[i]))
  }

  /** What the answer to a batch says of each id, in the order given. */
  datatype Verdict = Done | Failed | Skipped

  function StatusOf(s: State, id: string): Option<Status> {
    if id in s.ops then Some(s.ops[id].status) else None
  }

  datatype Batch = Batch(done: seq<string>, failed: seq<string>, skipped: seq<string>)

  predicate Covers(b: Batch, ids: seq<string>) {
    multiset(b.done) + multiset(b.failed) + multiset(b.skipped) == multiset(ids)
  }

  /** Every id is answered once; done ones were pending and now have the status, skipped ones were decided or unknown. */
  ghost predicate Answers(before: State, after: State, b: Batch, ids: seq<string>, status: Status) {
    && Covers(b, ids) && Distinct(b.done)
    && (forall i :: 0 <= i < |b.done| ==>
          StatusOf(before, b.done[i]) == Some(Pending) && StatusOf(after, b.done[i]) == Some(status))
    && (forall i :: 0 <= i < |b.failed| ==> StatusOf(before, b.failed[i]) == Some(Pending))
    && (forall i :: 0 <= i < |b.skipped| ==> StatusOf(after, b.skipped[i]) != Some(Pending))
  }

  function RequestedStatus(bodyless: bool, e: Event): Status
    requires e.Approve? || e.Reject?
  {
    if e.Reject? then Rejected
    else if Met(bodyless, e.outcome).Preflight? then Pending else FinalStatus(Met(bodyless, e.outcome))
  }

  /** Requests never make an operation pending again, nor change one that was decided. */
  lemma RequestStatus(s: State, e: Event, id: string)
    requires e.Approve? || e.Reject?
    ensures var t := Next(s, e);
            && (StatusOf(s, id) != Some(Pending) ==> StatusOf(t, id) == StatusOf(s, id))
            && (id != e.id ==> StatusOf(t, id) == StatusOf(s, id))
            && (StatusOf(s, e.id) == Some(Pending) ==>
                  StatusOf(t, e.id) == Some(RequestedStatus(s.ops[e.id].bodyless, e)))
  {
  }

  lemma {:induction false} AnswersGrow(before: State, mid: State, after: State, b: Batch, ids: seq<string>, status: Status)
    requires Answers(before, mid, b, ids, status) && status != Pending
    requires forall id :: StatusOf(mid, id) != Some(Pending) ==> StatusOf(after, id) == StatusOf(mid, id)
    ensures Answers(before, after, b, ids, status)
  {
  }

  lemma AnswerDone(before: State, after: State, b: Batch, ids: seq<string>, id: string, status: Status)
    requires Answers(before, after, b, ids, status) && id !in b.done
    requires StatusOf(before, id) == Some(Pending) && StatusOf(after, id) == Some(status)
    ensures Answers(before, after, Added(b, id, Done), ids + [id], status)
  {
    hide StatusOf;
  }

  lemma AnswerOther(before: State, after: State, b: Batch, ids: seq<string>, id: string, v: Verdict, status: Status)
    requires Answers(before, after, b, ids, status) && v != Done
    requires if v.Failed? then StatusOf(before, id) == Some(Pending) else StatusOf(after, id) != Some(Pending)
    ensures Answers(before, after, Added(b, id, v), ids + [id], status)
  {
    hide StatusOf, Distinct;
  }

  lemma AnswerOne(before: State, mid: State, after: State, b: Batch, ids: seq<string>, id: string, v: Verdict, status: Status)
    requires Answers(before, mid, b, ids, status) && status != Pending
    requires forall x :: StatusOf(mid, x) != Some(Pending) ==> StatusOf(after, x) == StatusOf(mid, x)
    requires match v
             case Done => StatusOf(mid, id) == Some(Pending) && StatusOf(after, id) == Some(status) && StatusOf(before, id) == Some(Pending)
             case Failed => StatusOf(before, id) == Some(Pending)
             case Skipped => StatusOf(after, id) != Some(Pending)
    ensures Answers(before, after, Added(b, id, v), ids + [id], status)
  {
    assert v.Done? ==> id !in b.done;
    AnswersGrow(before, mid, after, b, ids, status);
    hide Answers, StatusOf;
    if v.Done? {
      AnswerDone(before, after, b, ids, id, status);
    } else {
      AnswerOther(before, after, b, ids, id, v, status);
    }
  }

  function Added(b: Batch, id: string, v: Verdict): Batch {
    match v
    case Done => b.(done := b.done + [id])
    case Failed => b.(failed := b.failed + [id])
    case Skipped => b.(skipped := b.skipped + [id])
  }

  // ----- a pass among others -----

  /** What everyone else does before the k-th statement of a pass. */
  type Others = nat -> seq<Event>

  /** No step of pass w. */
  predicate Foreign(w: nat, events: seq<Event>) {
    forall i :: 0 <= i < |events| ==> !Advances(events[i]) || events[i].w != w
  }

  ghost predicate AllForeign(w: nat, others: Others) {
    forall k :: Foreign(w, others(k))
  }

  function ExecutionEvents(w: nat, o: Outcome, others: Others, k: nat): seq<Event> {
    others(k) + [Attempt(w, o)] + others(k + 1) + [Settle(w)] + others(k + 2) + [Record(w)]
  }

  /** One row of a scheduler pass; steps that its claim or its attempt made impossible change nothing. */
  function RowEvents(w: nat, o: Outcome, others: Others, k: nat): seq<Event> {
    others(k) + [Event.Claim(w)] + ExecutionEvents(w, o, others, k + 1)
  }

  /** The pass up to its i-th row. */
  function PassEvents(w: nat, due: seq<string>, outcomes: seq<Outcome>, now: int, others: Others, i: nat): seq<Event>
    requires i <= |outcomes|
  {
    if i == 0 then [SchedulerStart(w, due, now)]
    else PassEvents(w, due, outcomes, now, others, i - 1) + RowEvents(w, outcomes[i - 1], others, 4 * (i - 1))
  }

  function ExpiryEvents(w: nat, stale: seq<string>, now: int, others: Others, i: nat): seq<Event>
    requires i <= |stale|
  {
    if i == 0 then [ExpiryStart(w, stale, now)]
    else ExpiryEvents(w, stale, now, others, i - 1) + others(i - 1) + [ExpireOne(w)]
  }

  /** Pass w writes an executed row. */
  predicate Executes(s: State, e: Event, w: nat) {
    e == Record(w) && Enabled(s, e) && s.workers[w].phase.outcome.Completed?
  }

  function Executions(s: State, events: seq<Event>, w: nat): nat
    decreases |events|
  {
    if events == [] then 0 else (if Executes(s, events[0], w) then 1 else 0) + Executions(Next(s, events[0]), events[1..], w)
  }

  lemma {:induction false} ExecutionsAppend(s: State, a: seq<Event>, b: seq<Event>, w: nat)
    ensures Executions(s, a + b, w) == Executions(s, a, w) + Executions(Run(s, a), b, w)
    decreases |a|
  {
    hide Next, Executes;
    if a == [] {
      assert a + b == b;
    } else {
      assert (a + b)[1..] == a[1..] + b;
      ExecutionsAppend(Next(s, a[0]), a[1..], b, w);
    }
  }

  lemma {:induction false} ForeignExecutesNothing(s: State, events: seq<Event>, w: nat)
    requires Foreign(w, events)
    ensures Executions(s, events, w) == 0
    decreases |events|
  {
    hide Next, Enabled;
    if events == [] {
    } else {
      ForeignExecutesNothing(Next(s, events[0]), events[1..], w);
    }
  }

  lemma AfterMore(s: State, t: seq<Event>, more: seq<Event>, before: State, w: nat)
    requires before == Run(s, t)
    ensures Run(before, more) == Run(s, t + more)
    ensures Executions(s, t + more, w) == Executions(s, t, w) + Executions(before, more, w)
  {
    RunAppend(s, t, more);
    ExecutionsAppend(s, t, more, w);
  }

  lemma AfterOne(s: State, t: seq<Event>, e: Event, before: State, w: nat)
    requires before == Run(s, t)
    ensures Next(before, e) == Run(s, t + [e])
    ensures Executions(s, t + [e], w) == Executions(s, t, w) + if Executes(before, e, w) then 1 else 0
  {
    hide Next, Executes, Run;
    AfterMore(s, t, [e], before, w);
    StartRun(before, e);
    assert [e][1..] == [];
  }

  lemma AfterOthers(s: State, t: seq<Event>, events: seq<Event>, before: State, w: nat)
    requires before == Run(s, t) && Foreign(w, events)
    ensures Run(before, events) == Run(s, t + events) && Executions(s, t + events, w) == Executions(s, t, w)
  {
    AfterMore(s, t, events, before, w);
    ForeignExecutesNothing(before, events, w);
  }

  lemma FirstOthers(s: State, events: seq<Event>, w: nat)
    requires Foreign(w, events)
    ensures Executions(s, events, w) == 0
  {
    ForeignExecutesNothing(s, events, w);
  }

  /** Other steps leave a pass where it stands, and no row ever goes away. */
  lemma {:induction false} ForeignKeeps(s: State, events: seq<Event>, w: nat)
    requires w in s.workers && Foreign(w, events)
    ensures var t := Run(s, events); w in t.workers && t.workers[w] == s.workers[w] && s.ops.Keys <= t.ops.Keys
    decreases |events|
  {
    hide Next;
    if events == [] {
    } else {
      ForeignStep(s, events[0], w);
      ForeignKeeps(Next(s, events[0]), events[1..], w);
    }
  }

  lemma ForeignStep(s: State, e: Event, w: nat)
    requires w in s.workers && (!Advances(e) || e.w != w)
    ensures var t := Next(s, e); w in t.workers && t.workers[w] == s.workers[w] && s.ops.Keys <= t.ops.Keys
  {
    hide Distinct, Due, Stale, Log, ExecuteNow, Decided;
    if Enabled(s, e) {
      if e.Stage? || e.Approve? || e.Reject? || e.Undo? {
        RequestEffect(s, e);
        forall id | id in s.ops ensures id in Apply(s, e).ops {
          assert ViewOf(Apply(s, e), id).known;
        }
      } else {
        LogKeeps();
      }
    }
  }

  lemma LogKeeps()
    ensures forall s, id, event :: Log(s, id, event).workers == s.workers && Log(s, id, event).ops == s.ops
  {
  }

  /** With nothing in hand, the steps of an execution change nothing. */
  lemma IdleSkips(s: State, w: nat)
    requires PassIn(s, w) && s.workers[w].phase.Idle?
    ensures forall o :: Next(s, Attempt(w, o)) == s
    ensures Next(s, Settle(w)) == s && Next(s, Record(w)) == s && !Executes(s, Record(w), w)
  {
  }

  lemma Recorded(s: State, w: nat, id: string, o: Outcome)
    requires PassIn(s, w) && s.workers[w].phase == Recording(id, o)
    ensures Executes(s, Record(w), w) <==> o.Completed?
  {
  }

  lemma NothingElseExecutes(w: nat, o: Outcome)
    ensures forall s :: !Executes(s, Attempt(w, o), w) && !Executes(s, Settle(w), w) && !Executes(s, Event.Claim(w), w)
  {
  }

  lemma ExecutionEventsAre(w: nat, o: Outcome, others: Others, k: nat)
    ensures ExecutionEvents(w, o, others, k) ==
            others(k) + [Attempt(w, o)] + others(k + 1) + [Settle(w)] + others(k + 2) + [Record(w)]
  {
  }

  lemma StartExecutesNothing(s: State, w: nat, due: seq<string>, now: int)
    ensures Executions(s, [SchedulerStart(w, due, now)], w) == 0
  {
    hide Next;
    var es := [SchedulerStart(w, due, now)];
    assert es[1..] == [];
  }

  class OperationsDb {
    var state: State

    constructor ()
      ensures state == EMPTY
    {
      state := EMPTY;
    }

    /** execute_operation; false is an ExecutionError. */
    method ExecuteOperation(id: string, o: Outcome) returns (ok: bool)
      requires id in state.ops
      modifies this
      ensures state == ExecuteNow(old(state), id, o) && ok == Met(old(state).ops[id].bodyless, o).Completed?
    {
      var met := Met(state.ops[id].bodyless, o);
      if met.Preflight? {
        return false;
      }
      state := Contact(state, id, met);
      state := SetStatus(state, id, FinalStatus(met));
      state := Log(state, id, FinalEvent(met));
      ok := met.Completed?;
    }

    method ApproveOp(id: string, o: Outcome) returns (v: Verdict)
      modifies this
      ensures state == Next(old(state), Approve(id, o))
      ensures v == if StatusOf(old(state), id) != Some(Pending) then Skipped
                   else if Met(old(state).ops[id].bodyless, o).Completed? then Done else Verdict.Failed
    {
      if id !in state.ops || state.ops[id].status != Pending {
        return Skipped;
      }
      var ok := ExecuteOperation(id, o);
      v := if ok then Done else Verdict.Failed;
    }

    method RejectOp(id: string) returns (v: Verdict)
      modifies this
      ensures state == Next(old(state), Reject(id))
      ensures v == if StatusOf(old(state), id) != Some(Pending) then Skipped else Done
    {
      if id !in state.ops || state.ops[id].status != Pending {
        return Skipped;
      }
      state := SetStatus(state, id, Rejected);
      state := Log(state, id, "rejected");
      v := Done;
    }

    /** batch_approve: the single approvals, one after the other; a bad list is refused whole. */
    method BatchApprove(ids: seq<string>, outcomes: seq<Outcome>) returns (r: Result<Batch, string>)
      requires |outcomes| == |ids|
      modifies this
      ensures r.Err? <==> ids == [] || |ids| > 100
      ensures r.Err? ==> state == old(state)
      ensures r.Ok? ==> state == Run(old(state), Approvals(ids, outcomes))
      ensures r.Ok? ==> Answers(old(state), state, r.value, ids, Executed)
    {
      if ids == [] || |ids| > 100 {
        return Err("bad list");
      }
      ghost var events := Approvals(ids, outcomes);
      var b := Batch([], [], []);
      for i := 0 to |ids|
        invariant state == Run(old(state), events[..i])
        invariant Answers(old(state), state, b, ids[..i], Executed)
        invariant forall x :: StatusOf(state, x) == Some(Pending) ==> StatusOf(old(state), x) == Some(Pending)
      {
        hide Run, Next, Answers, ExecuteNow;
        ghost var mid := state;
        ghost var e := events[i];
        assert events[..i + 1] == events[..i] + [e] && ids[..i + 1] == ids[..i] + [ids[i]];
        RunOne(old(state), events[..i], e);
        var v := ApproveOp(ids[i], outcomes[i]);
        forall x ensures (StatusOf(mid, x) != Some(Pending) ==> StatusOf(state, x) == StatusOf(mid, x))
                      && (StatusOf(state, x) == Some(Pending) ==> StatusOf(mid, x) == Some(Pending)) {
          RequestStatus(mid, e, x);
        }
        RequestStatus(mid, e, ids[i]);
        AnswerOne(old(state), mid, state, b, ids[..i], ids[i], v, Executed);
        b := Added(b, ids[i], v);
      }
      assert events[..|ids|] == events && ids[..|ids|] == ids;
      r := Ok(b);
    }

    /** batch_reject. */
    method BatchReject(ids: seq<string>) returns (r: Result<Batch, string>)
      modifies this
      ensures r.Err? <==> ids == [] || |ids| > 100
      ensures r.Err? ==> state == old(state)
      ensures r.Ok? ==> state == Run(old(state), Rejections(ids))
      ensures r.Ok? ==> Answers(old(state), state, r.value, ids, Rejected) && r.value.failed == []
    {
      if ids == [] || |ids| > 100 {
        return Err("bad list");
      }
      ghost var events := Rejections(ids);
      var b := Batch([], [], []);
      for i := 0 to |ids|
        invariant state == Run(old(state), events[..i])
        invariant Answers(old(state), state, b, ids[..i], Rejected) && b.failed == []
        invariant forall x :: StatusOf(state, x) == Some(Pending) ==> StatusOf(old(state), x) == Some(Pending)
      {
        hide Run, Next, Answers;
        ghost var mid := state;
        ghost var e := events[i];
        assert events[..i + 1] == events[..i] + [e] && ids[..i + 1] == ids[..i] + [ids[i]];
        RunOne(old(state), events[..i], e);
        var v := RejectOp(ids[i]);
        forall x ensures (StatusOf(mid, x) != Some(Pending) ==> StatusOf(state, x) == StatusOf(mid, x))
                      && (StatusOf(state, x) == Some(Pending) ==> StatusOf(mid, x) == Some(Pending)) {
          RequestStatus(mid, e, x);
        }
        RequestStatus(mid, e, ids[i]);
        AnswerOne(old(state), mid, state, b, ids[..i], ids[i], v, Rejected);
        b := Added(b, ids[i], v);
      }
      assert events[..|ids|] == events && ids[..|ids|] == ids;
      r := Ok(b);
    }

    /** _claim: the conditional UPDATE, and its row count. */
    method Claim(w: nat) returns (claimed: bool)
      requires Enabled(state, Event.Claim(w))
      modifies this
      ensures state == Next(old(state), Event.Claim(w))
      ensures claimed == (old(state).ops[old(state).workers[w].due[0]].status == Pending)
      ensures w in state.workers && state.workers[w] == SchedulerPass(old(state).workers[w].due[1..],
                if claimed then Executing(old(state).workers[w].due[0]) else Idle)
      ensures state.ops.Keys == old(state).ops.Keys
    {
      var pass := state.workers[w];
      var id := pass.due[0];
      claimed := state.ops[id].status == Pending;
      if claimed {
        state := state.(workers := state.workers[w := SchedulerPass(pass.due[1..], Executing(id))]);
        state := SetStatus(state, id, Approved);
      } else {
        state := state.(workers := state.workers[w := SchedulerPass(pass.due[1..], Idle)]);
      }
    }

    /** What everyone else does meanwhile. */
    method Meanwhile(w: nat, events: seq<Event>)
      requires w in state.workers && Foreign(w, events)
      modifies this
      ensures state == Run(old(state), events)
      ensures w in state.workers && state.workers[w] == old(state).workers[w] && old(state).ops.Keys <= state.ops.Keys
    {
      ForeignKeeps(state, events, w);
      state := Run(state, events);
    }

    method AttemptUpstream(w: nat, id: string, o: Outcome)
      requires PassIn(state, w) && state.workers[w].phase == Executing(id) && id in state.ops
      modifies this
      ensures state == Next(old(state), Attempt(w, o)) && state.ops == old(state).ops
      ensures w in state.workers && state.workers[w] == SchedulerPass(old(state).workers[w].due,
                var met := Met(old(state).ops[id].bodyless, o); if met.Preflight? then Idle else Settling(id, met))
    {
      var met := Met(state.ops[id].bodyless, o);
      state := if met.Preflight? then WithPhase(state, w, Idle) else WithPhase(Contact(state, id, met), w, Settling(id, met));
    }

    method SettleStatus(w: nat, id: string, o: Outcome)
      requires PassIn(state, w) && state.workers[w].phase == Settling(id, o) && id in state.ops
      modifies this
      ensures state == Next(old(state), Settle(w)) && state.ops.Keys == old(state).ops.Keys
      ensures w in state.workers && state.workers[w] == SchedulerPass(old(state).workers[w].due, Recording(id, o))
    {
      state := WithPhase(SetStatus(state, id, FinalStatus(o)), w, Recording(id, o));
    }

    method RecordEvent(w: nat, id: string, o: Outcome)
      requires PassIn(state, w) && state.workers[w].phase == Recording(id, o)
      modifies this
      ensures state == Next(old(state), Record(w)) && state.ops == old(state).ops
      ensures w in state.workers && state.workers[w] == SchedulerPass(old(state).workers[w].due, Idle)
    {
      state := WithPhase(Log(state, id, FinalEvent(o)), w, Idle);
    }

    /** execute_operation for a claimed row, statement by statement; ok is false for an ExecutionError. */
    method ExecuteClaimed(w: nat, id: string, o: Outcome, others: Others, k: nat) returns (ok: bool)
      requires PassIn(state, w) && state.workers[w].phase == Executing(id) && id in state.ops && AllForeign(w, others)
      modifies this
      ensures state == Run(old(state), ExecutionEvents(w, o, others, k))
      ensures (if ok then 1 else 0) == Executions(old(state), ExecutionEvents(w, o, others, k), w)
      ensures w in state.workers && state.workers[w] == SchedulerPass(old(state).workers[w].due, Idle)
      ensures old(state).ops.Keys <= state.ops.Keys
    {
      hide Next, Run, Executions, Enabled, Foreign, Executes, ExecutionEvents;
      ghost var s, before := state, state;
      Meanwhile(w, others(k));
      FirstOthers(s, others(k), w);
      ghost var t := others(k);
      before := state;
      AttemptUpstream(w, id, o);
      AfterOne(s, t, Attempt(w, o), before, w);
      t := t + [Attempt(w, o)];
      before := state;
      Meanwhile(w, others(k + 1));
      AfterOthers(s, t, others(k + 1), before, w);
      t := t + others(k + 1);
      before := state;
      var met := state.workers[w].phase;
      if met.Settling? {
        SettleStatus(w, id, met.outcome);
      } else {
        IdleSkips(state, w);
      }
      AfterOne(s, t, Settle(w), before, w);
      t := t + [Settle(w)];
      before := state;
      Meanwhile(w, others(k + 2));
      AfterOthers(s, t, others(k + 2), before, w);
      t := t + others(k + 2);
      before := state;
      if met.Settling? {
        RecordEvent(w, id, met.outcome);
        Recorded(before, w, id, met.outcome);
      } else {
        IdleSkips(state, w);
      }
      AfterOne(s, t, Record(w), before, w);
      NothingElseExecutes(w, o);
      ok := met.Settling? && met.outcome.Completed?;
      assert t + [Record(w)] == ExecutionEvents(w, o, others, k) by { ExecutionEventsAre(w, o, others, k); }
    }

    /** Nothing to execute: the pass goes on, and so does everyone else. */
    method SkipExecution(w: nat, o: Outcome, others: Others, k: nat)
      requires PassIn(state, w) && state.workers[w].phase.Idle? && AllForeign(w, others)
      modifies this
      ensures state == Run(old(state), ExecutionEvents(w, o, others, k))
      ensures Executions(old(state), ExecutionEvents(w, o, others, k), w) == 0
      ensures w in state.workers && state.workers[w] == old(state).workers[w] && old(state).ops.Keys <= state.ops.Keys
    {
      hide Next, Run, Executions, Enabled, Foreign, Executes, ExecutionEvents;
      ghost var s, before := state, state;
      Meanwhile(w, others(k));
      FirstOthers(s, others(k), w);
      ghost var t := others(k);
      before := state;
      IdleSkips(state, w);
      AfterOne(s, t, Attempt(w, o), before, w);
      t := t + [Attempt(w, o)];
      Meanwhile(w, others(k + 1));
      AfterOthers(s, t, others(k + 1), before, w);
      t := t + others(k + 1);
      before := state;
      IdleSkips(state, w);
      AfterOne(s, t, Settle(w), before, w);
      t := t + [Settle(w)];
      Meanwhile(w, others(k + 2));
      AfterOthers(s, t, others(k + 2), before, w);
      t := t + others(k + 2);
      before := state;
      IdleSkips(state, w);
      AfterOne(s, t, Record(w), before, w);
      NothingElseExecutes(w, o);
      assert t + [Record(w)] == ExecutionEvents(w, o, others, k) by { ExecutionEventsAre(w, o, others, k); }
    }

    /** One iteration of the scheduler loop: a row decided meanwhile is passed over. */
    method TakeDue(w: nat, o: Outcome, others: Others, k: nat) returns (ok: bool)
      requires PassIn(state, w) && state.workers[w].phase.Idle? && state.workers[w].due != [] && AllForeign(w, others)
      requires state.workers[w].due[0] in state.ops
      modifies this
      ensures state == Run(old(state), RowEvents(w, o, others, k))
      ensures (if ok then 1 else 0) == Executions(old(state), RowEvents(w, o, others, k), w)
      ensures w in state.workers && state.workers[w] == SchedulerPass(old(state).workers[w].due[1..], Idle)
      ensures old(state).ops.Keys <= state.ops.Keys
    {
      hide Next, Run, Executions, Enabled, Foreign, Executes, ExecutionEvents;
      ghost var s, t := state, others(k);
      Meanwhile(w, others(k));
      FirstOthers(s, t, w);
      ghost var before := state;
      CanClaim(state, w);
      var id := state.workers[w].due[0];
      var claimed := Claim(w);
      AfterOne(s, t, Event.Claim(w), before, w);
      NothingElseExecutes(w, o);
      t := t + [Event.Claim(w)];
      before := state;
      ok := false;
      if claimed {
        ok := ExecuteClaimed(w, id, o, others, k + 1);
      } else {
        SkipExecution(w, o, others, k + 1);
      }
      AfterMore(s, t, ExecutionEvents(w, o, others, k + 1), before, w);
    }

    /** execute_due_scheduled, with anything going on beside it: the count is the executed rows it wrote. */
    method ExecuteDueScheduled(w: nat, due: seq<string>, outcomes: seq<Outcome>, now: int, others: Others) returns (count: nat)
      requires Enabled(state, SchedulerStart(w, due, now)) && |outcomes| == |due| && AllForeign(w, others)
      modifies this
      ensures state == Run(old(state), PassEvents(w, due, outcomes, now, others, |due|))
      ensures count == Executions(old(state), PassEvents(w, due, outcomes, now, others, |due|), w)
      ensures w in state.workers && state.workers[w] == SchedulerPass([], Idle)
    {
      hide Run, Next, Enabled, RowEvents, Executions, Executes, Foreign;
      ghost var s := state;
      DueRows(s, w, due, now);
      StartPass(w, due, now);
      count := 0;
      StartRun(s, SchedulerStart(w, due, now));
      StartExecutesNothing(s, w, due, now);
      for i := 0 to |due|
        invariant state == Run(s, PassEvents(w, due, outcomes, now, others, i))
        invariant count == Executions(s, PassEvents(w, due, outcomes, now, others, i), w)
        invariant w in state.workers && state.workers[w] == SchedulerPass(due[i..], Idle)
        invariant s.ops.Keys <= state.ops.Keys
      {
        ghost var t := PassEvents(w, due, outcomes, now, others, i);
        assert due[i..][1..] == due[i + 1..];
        assert due[i] in s.ops.Keys;
        ghost var before := state;
        var ok := TakeDue(w, outcomes[i], others, 4 * i);
        AfterMore(s, t, RowEvents(w, outcomes[i], others, 4 * i), before, w);
        if ok {
          count := count + 1;
        }
      }
    }

    method StartPass(w: nat, due: seq<string>, now: int)
      requires Enabled(state, SchedulerStart(w, due, now))
      modifies this
      ensures state == Next(old(state), SchedulerStart(w, due, now)) && state.ops == old(state).ops
      ensures w in state.workers && state.workers[w] == SchedulerPass(due, Idle)
    {
      state := state.(workers := state.workers[w := SchedulerPass(due, Idle)]);
    }

    /** _expire_one's transaction: the conditional UPDATE and the audit row. */
    method ExpireHead(w: nat)
      requires w in state.workers && state.workers[w].ExpiryPass? && state.workers[w].stale != []
      requires state.workers[w].stale[0] in state.ops
      modifies this
      ensures state == Next(old(state), ExpireOne(w)) && state.ops.Keys == old(state).ops.Keys
      ensures w in state.workers && state.workers[w] == ExpiryPass(old(state).workers[w].stale[1..])
    {
      var id := state.workers[w].stale[0];
      state := state.(workers := state.workers[w := ExpiryPass(state.workers[w].stale[1..])]);
      if state.ops[id].status == Pending {
        state := SetStatus(state, id, Expired);
      }
      state := Log(state, id, "expired");
    }

    /** One iteration of the expiry loop, after whatever the others did meanwhile. */
    method TakeStale(w: nat, others: Others, k: nat)
      requires w in state.workers && state.workers[w].ExpiryPass? && state.workers[w].stale != []
      requires state.workers[w].stale[0] in state.ops && AllForeign(w, others)
      modifies this
      ensures state == Run(old(state), others(k) + [ExpireOne(w)]) && old(state).ops.Keys <= state.ops.Keys
      ensures w in state.workers && state.workers[w] == ExpiryPass(old(state).workers[w].stale[1..])
    {
      hide Run, Next, Foreign;
      ghost var s := state;
      Meanwhile(w, others(k));
      ghost var before := state;
      ExpireHead(w);
      AfterOne(s, others(k), ExpireOne(w), before, w);
    }

    /** expire_stale_operations, with anything going on beside it: the count is the rows it went through. */
    method ExpireStaleOperations(w: nat, stale: seq<string>, now: int, others: Others) returns (count: nat)
      requires Enabled(state, ExpiryStart(w, stale, now)) && AllForeign(w, others)
      modifies this
      ensures state == Run(old(state), ExpiryEvents(w, stale, now, others, |stale|)) && count == |stale|
      ensures w in state.workers && state.workers[w] == ExpiryPass([])
    {
      hide Run, Next, Foreign, AllForeign, Enabled, ExpiryEvents;
      ghost var s := state;
      StaleRows(s, w, stale, now);
      StartExpiry(w, stale, now);
      count := 0;
      StartRun(s, ExpiryStart(w, stale, now));
      ExpiryEventsStart(w, stale, now, others);
      for i := 0 to |stale|
        invariant state == Run(s, ExpiryEvents(w, stale, now, others, i)) && count == i
        invariant w in state.workers && state.workers[w] == ExpiryPass(stale[i..])
        invariant s.ops.Keys <= state.ops.Keys
      {
        assert stale[i..][1..] == stale[i + 1..];
        assert stale[i] in s.ops.Keys;
        ghost var before := state;
        TakeStale(w, others, i);
        AfterMore(s, ExpiryEvents(w, stale, now, others, i), others(i) + [ExpireOne(w)], before, w);
        ExpiryEventsNext(w, stale, now, others, i);
        count := count + 1;
      }
    }

    method StartExpiry(w: nat, stale: seq<string>, now: int)
      requires Enabled(state, ExpiryStart(w, stale, now))
      modifies this
      ensures state == Next(old(state), ExpiryStart(w, stale, now)) && state.ops == old(state).ops
      ensures w in state.workers && state.workers[w] == ExpiryPass(stale)
    {
      state := state.(workers := state.workers[w := ExpiryPass(stale)]);
    }
  }

  lemma StaleRows(s: State, w: nat, stale: seq<string>, now: int)
    requires Enabled(s, ExpiryStart(w, stale, now))
    ensures Distinct(stale)
    ensures forall i :: 0 <= i < |stale| ==> stale[i] in s.ops && s.ops[stale[i]].status == Pending
  {
    assert forall i :: 0 <= i < |stale| ==> Stale(s, stale[i], now);
  }

  lemma ExpiryEventsStart(w: nat, stale: seq<string>, now: int, others: Others)
    ensures ExpiryEvents(w, stale, now, others, 0) == [ExpiryStart(w, stale, now)]
  {
  }

  lemma ExpiryEventsNext(w: nat, stale: seq<string>, now: int, others: Others, i: nat)
    requires i < |stale|
    ensures ExpiryEvents(w, stale, now, others, i) + (others(i) + [ExpireOne(w)]) ==
            ExpiryEvents(w, stale, now, others, i + 1)
  {
  }

  lemma DueRows(s: State, w: nat, due: seq<string>, now: int)
    requires Enabled(s, SchedulerStart(w, due, now))
    ensures Distinct(due) && forall i :: 0 <= i < |due| ==> due[i] in s.ops && s.ops[due[i]].status == Pending
  {
    assert forall i :: 0 <= i < |due| ==> Due(s, due[i], now);
  }

  lemma CanClaim(s: State, w: nat)
    requires PassIn(s, w) && s.workers[w].phase.Idle? && s.workers[w].due != [] && s.workers[w].due[0] in s.ops
    ensures Enabled(s, Event.Claim(w))
  {
  }

  lemma StartRun(s: State, e: Event)
    ensures Run(s, [e]) == Next(s, e)
  {
    RunOne(s, [], e);
    assert [] + [e] == [e];
  }

  // ----- a pass alone -----

  const NoOthers: Others := (k: nat) => []

  /** Where a scheduler pass leaves an operation it claimed. */
  function PassStatus(op: Op, o: Outcome): Status {
    var met := Met(op.bodyless, o);
    if met.Preflight? then Approved else FinalStatus(met)
  }

  /** What a scheduler pass alone leaves: each due row by its own outcome, no other row touched. */
  ghost predicate PassOver(before: map<string, Op>, after: map<string, Op>, due: seq<string>, outcomes: seq<Outcome>)
    requires |outcomes| == |due|
  {
    && after.Keys == before.Keys
    && (forall i :: 0 <= i < |due| ==>
          due[i] in before && after[due[i]] == before[due[i]].(status := PassStatus(before[due[i]], outcomes[i])))
    && (forall id :: id in before && id !in due ==> after[id] == before[id])
  }

  lemma PassOverOne(before: map<string, Op>, mid: map<string, Op>, due: seq<string>, outcomes: seq<Outcome>, id: string, o: Outcome)
    requires |outcomes| == |due| && PassOver(before, mid, due, outcomes) && id in before && id !in due
    ensures id in mid && mid[id] == before[id]
    ensures PassOver(before, mid[id := mid[id].(status := PassStatus(mid[id], o))], due + [id], outcomes + [o])
  {
  }

  lemma RowAloneEvents(w: nat, o: Outcome, k: nat)
    ensures RowEvents(w, o, NoOthers, k) == [Event.Claim(w), Attempt(w, o), Settle(w), Record(w)]
  {
  }

  lemma RowAlone(s: State, w: nat, o: Outcome, k: nat, id: string)
    requires PassIn(s, w) && s.workers[w].phase.Idle? && s.workers[w].due != [] && s.workers[w].due[0] == id
    requires id in s.ops && s.ops[id].status == Pending
    ensures var t := Run(s, RowEvents(w, o, NoOthers, k));
            && t.ops == s.ops[id := s.ops[id].(status := PassStatus(s.ops[id], o))]
            && w in t.workers && t.workers[w] == SchedulerPass(s.workers[w].due[1..], Idle)
    ensures Executions(s, RowEvents(w, o, NoOthers, k), w) == if Met(s.ops[id].bodyless, o).Completed? then 1 else 0
  {
    hide Run, Executions, Next;
    RowAloneEvents(w, o, k);
    var es := [Event.Claim(w), Attempt(w, o), Settle(w), Record(w)];
    var s1 := Next(s, Event.Claim(w));
    var s2 := Next(s1, Attempt(w, o));
    var s3 := Next(s2, Settle(w));
    StartRun(s, Event.Claim(w));
    StartExecutions(s, Event.Claim(w), w);
    AfterOne(s, [Event.Claim(w)], Attempt(w, o), s1, w);
    assert [Event.Claim(w)] + [Attempt(w, o)] == [Event.Claim(w), Attempt(w, o)];
    AfterOne(s, [Event.Claim(w), Attempt(w, o)], Settle(w), s2, w);
    assert [Event.Claim(w), Attempt(w, o)] + [Settle(w)] == [Event.Claim(w), Attempt(w, o), Settle(w)];
    AfterOne(s, [Event.Claim(w), Attempt(w, o), Settle(w)], Record(w), s3, w);
    assert [Event.Claim(w), Attempt(w, o), Settle(w)] + [Record(w)] == es;
    ClaimAlone(s, w, id);
    AttemptAlone(s1, w, o, id);
    SettleAlone(s2, w, id);
    RecordAlone(s3, w);
    NothingElseExecutes(w, o);
  }

  lemma StartExecutions(s: State, e: Event, w: nat)
    ensures Executions(s, [e], w) == if Executes(s, e, w) then 1 else 0
  {
    hide Next, Executes;
    assert [e][1..] == [];
  }

  lemma ClaimAlone(s: State, w: nat, id: string)
    requires PassIn(s, w) && s.workers[w].phase.Idle? && s.workers[w].due != [] && s.workers[w].due[0] == id
    requires id in s.ops && s.ops[id].status == Pending
    ensures var t := Next(s, Event.Claim(w));
            && t.ops == s.ops[id := s.ops[id].(status := Approved)]
            && w in t.workers && t.workers[w] == SchedulerPass(s.workers[w].due[1..], Executing(id))
  {
  }

  lemma AttemptAlone(s: State, w: nat, o: Outcome, id: string)
    requires PassIn(s, w) && s.workers[w].phase == Executing(id) && id in s.ops
    ensures var t, met := Next(s, Attempt(w, o)), Met(s.ops[id].bodyless, o);
            && t.ops == s.ops
            && w in t.workers && t.workers[w] == SchedulerPass(s.workers[w].due, if met.Preflight? then Idle else Settling(id, met))
  {
  }

  lemma SettleAlone(s: State, w: nat, id: string)
    requires PassIn(s, w) && id in s.ops && (s.workers[w].phase.Settling? ==> s.workers[w].phase.id == id)
    requires s.workers[w].phase.Settling? || s.workers[w].phase.Idle?
    ensures var t, p := Next(s, Settle(w)), s.workers[w].phase;
            if p.Idle? then t == s
            else
              && t.ops == s.ops[id := s.ops[id].(status := FinalStatus(p.outcome))]
              && w in t.workers && t.workers[w] == SchedulerPass(s.workers[w].due, Recording(id, p.outcome))
  {
  }

  lemma RecordAlone(s: State, w: nat)
    requires PassIn(s, w) && (s.workers[w].phase.Recording? || s.workers[w].phase.Idle?)
    ensures var t := Next(s, Record(w));
            && t.ops == s.ops && w in t.workers && t.workers[w] == SchedulerPass(s.workers[w].due, Idle)
    ensures Executes(s, Record(w), w) <==> s.workers[w].phase.Recording? && s.workers[w].phase.outcome.Completed?
  {
  }

  /** How many of the due operations a pass alone executes. */
  function Completions(ops: map<string, Op>, due: seq<string>, outcomes: seq<Outcome>): nat
    requires |outcomes| == |due| && forall i :: 0 <= i < |due| ==> due[i] in ops
  {
    if due == [] then 0
    else
      var n := |due| - 1;
      Completions(ops, due[..n], outcomes[..n]) + if Met(ops[due[n]].bodyless, outcomes[n]).Completed? then 1 else 0
  }

  /** With no one else at work every due row is claimed and ends by its own outcome, and the count is those executed. */
  lemma PassAlone(s: State, w: nat, due: seq<string>, outcomes: seq<Outcome>, now: int)
    requires Enabled(s, SchedulerStart(w, due, now)) && |outcomes| == |due|
    ensures forall i :: 0 <= i < |due| ==> due[i] in s.ops
    ensures var events := PassEvents(w, due, outcomes, now, NoOthers, |due|);
            && PassOver(s.ops, Run(s, events).ops, due, outcomes)
            && Executions(s, events, w) == Completions(s.ops, due, outcomes)
  {
    hide Enabled, PassEvents, Run, PassOver, Completions, Executions;
    DueRows(s, w, due, now);
    PassAloneUpTo(s, w, due, outcomes, now, |due|);
    assert due[..|due|] == due && outcomes[..|due|] == outcomes;
  }

  lemma {:induction false} PassAloneUpTo(s: State, w: nat, due: seq<string>, outcomes: seq<Outcome>, now: int, i: nat)
    requires Enabled(s, SchedulerStart(w, due, now)) && |outcomes| == |due| && i <= |due|
    requires forall j :: 0 <= j < |due| ==> due[j] in s.ops && s.ops[due[j]].status == Pending
    requires Distinct(due)
    ensures var events := PassEvents(w, due, outcomes, now, NoOthers, i);
            var t := Run(s, events);
            && PassOver(s.ops, t.ops, due[..i], outcomes[..i])
            && w in t.workers && t.workers[w] == SchedulerPass(due[i..], Idle)
            && Executions(s, events, w) == Completions(s.ops, due[..i], outcomes[..i])
  {
    hide Enabled, RowEvents, Run, Executions, PassOver, Completions, Distinct, Met, PassStatus;
    if i == 0 {
      StartRun(s, SchedulerStart(w, due, now));
      StartExecutesNothing(s, w, due, now);
      StartedAlone(s, w, due, now);
      assert due[0..] == due && due[..0] == [] && outcomes[..0] == [];
      NothingPassed(s.ops);
    } else {
      PassAloneUpTo(s, w, due, outcomes, now, i - 1);
      var t := PassEvents(w, due, outcomes, now, NoOthers, i - 1);
      var mid := Run(s, t);
      var id, o := due[i - 1], outcomes[i - 1];
      assert id !in due[..i - 1] by { NotBefore(due, i - 1); }
      assert due[..i] == due[..i - 1] + [id] && outcomes[..i] == outcomes[..i - 1] + [o];
      PassOverOne(s.ops, mid.ops, due[..i - 1], outcomes[..i - 1], id, o);
      CompletionsGrow(s.ops, due[..i - 1], outcomes[..i - 1], id, o);
      RowAlone(mid, w, o, 4 * (i - 1), id);
      AfterMore(s, t, RowEvents(w, o, NoOthers, 4 * (i - 1)), mid, w);
      assert due[i - 1..][1..] == due[i..];
    }
  }

  lemma NotBefore(ids: seq<string>, i: nat)
    requires Distinct(ids) && i < |ids|
    ensures ids[i] !in ids[..i]
  {
  }

  lemma NothingPassed(ops: map<string, Op>)
    ensures PassOver(ops, ops, [], []) && Completions(ops, [], []) == 0
  {
  }

  lemma CompletionsGrow(ops: map<string, Op>, due: seq<string>, outcomes: seq<Outcome>, id: string, o: Outcome)
    requires |outcomes| == |due| && (forall i :: 0 <= i < |due| ==> due[i] in ops) && id in ops
    ensures Completions(ops, due + [id], outcomes + [o]) ==
            Completions(ops, due, outcomes) + if Met(ops[id].bodyless, o).Completed? then 1 else 0
  {
    assert (due + [id])[..|due|] == due && (outcomes + [o])[..|due|] == outcomes;
  }

  lemma StartedAlone(s: State, w: nat, due: seq<string>, now: int)
    requires Enabled(s, SchedulerStart(w, due, now))
    ensures var t := Next(s, SchedulerStart(w, due, now));
            t.ops == s.ops && w in t.workers && t.workers[w] == SchedulerPass(due, Idle)
  {
  }

  function AllExpired(ops: map<string, Op>, stale: seq<string>): map<string, Op> {
    map id | id in ops :: if id in stale then ops[id].(status := Expired) else ops[id]
  }

  /** An expiry pass alone expires exactly the stale rows. */
  lemma ExpiryAlone(s: State, w: nat, stale: seq<string>, now: int)
    requires Enabled(s, ExpiryStart(w, stale, now))
    ensures Run(s, ExpiryEvents(w, stale, now, NoOthers, |stale|)).ops == AllExpired(s.ops, stale)
  {
    hide Run, ExpiryEvents, AllExpired;
    StaleRows(s, w, stale, now);
    ExpiryAloneUpTo(s, w, stale, now, |stale|);
    assert stale[..|stale|] == stale;
  }

  lemma {:induction false} ExpiryAloneUpTo(s: State, w: nat, stale: seq<string>, now: int, i: nat)
    requires Enabled(s, ExpiryStart(w, stale, now)) && i <= |stale| && Distinct(stale)
    requires forall j :: 0 <= j < |stale| ==> stale[j] in s.ops && s.ops[stale[j]].status == Pending
    ensures var t := Run(s, ExpiryEvents(w, stale, now, NoOthers, i));
            t.ops == AllExpired(s.ops, stale[..i]) && w in t.workers && t.workers[w] == ExpiryPass(stale[i..])
  {
    hide Enabled, Run;
    if i == 0 {
      StartRun(s, ExpiryStart(w, stale, now));
      ExpiryStarted(s, w, stale, now);
      assert stale[0..] == stale && stale[..0] == [];
      assert AllExpired(s.ops, []) == s.ops;
    } else {
      ExpiryAloneUpTo(s, w, stale, now, i - 1);
      var t := ExpiryEvents(w, stale, now, NoOthers, i - 1);
      var mid, id := Run(s, t), stale[i - 1];
      assert t + NoOthers(i - 1) == t;
      RunOne(s, t, ExpireOne(w));
      assert id !in stale[..i - 1] && stale[..i] == stale[..i - 1] + [id] && stale[i - 1..][1..] == stale[i..];
      ExpiredAlone(mid, w, id);
      assert AllExpired(s.ops, stale[..i]) == mid.ops[id := mid.ops[id].(status := Expired)];
    }
  }

  lemma ExpiryStarted(s: State, w: nat, stale: seq<string>, now: int)
    requires Enabled(s, ExpiryStart(w, stale, now))
    ensures var t := Next(s, ExpiryStart(w, stale, now));
            t.ops == s.ops && w in t.workers && t.workers[w] == ExpiryPass(stale)
  {
  }

  lemma ExpiredAlone(s: State, w: nat, id: string)
    requires w in s.workers && s.workers[w].ExpiryPass? && s.workers[w].stale != [] && s.workers[w].stale[0] == id
    requires id in s.ops && s.ops[id].status == Pending
    ensures var t := Next(s, ExpireOne(w));
            && t.ops == s.ops[id := s.ops[id].(status := Expired)]
            && w in t.workers && t.workers[w] == ExpiryPass(s.workers[w].stale[1..])
  {
  }
}
