// What the audit log says of expiry (gateway/expiry.py): the expired row of an
// operation against what became of it, over every run of the step relation.
module ExpiryLog {
  import opened Wrappers
  import opened Lifecycle
  import Mirror

  /** _expire_one finds the row decided by some other step, and logs it as expired all the same. */
  predicate LosesExpiry(s: State, e: Event, id: string) {
    Enabled(s, e) && e.ExpireOne? && Subject(s, e) == id && s.ops[id].status != Pending
  }

  function LostExpiries(s: State, events: seq<Event>, id: string): nat
    decreases |events|
  {
    if events == [] then 0
    else (if LosesExpiry(s, events[0], id) then 1 else 0) + LostExpiries(Next(s, events[0]), events[1..], id)
  }

  function IfExpired(s: State, id: string): nat {
    if id in s.ops && s.ops[id].status == Expired then 1 else 0
  }

  /**
   * In every run the expired rows of an operation are one if it is expired, plus one for each
   * time an expiry pass reached it when it was no longer pending: a row is true exactly when
   * the operation was still pending at that step.
   */
  lemma ExpiredRowsExact(events: seq<Event>, id: string)
    ensures var t := Run(EMPTY, events);
            t.audit[(id, "expired")] == IfExpired(t, id) + LostExpiries(EMPTY, events, id)
  {
    hide Run, Inv;
    EmptyInv();
    ExpiredRowsFrom(EMPTY, events, id);
  }

  lemma {:induction false} ExpiredRowsFrom(s: State, events: seq<Event>, id: string)
    requires Inv(s)
    ensures var t := Run(s, events);
            t.audit[(id, "expired")] + IfExpired(s, id) == s.audit[(id, "expired")] + IfExpired(t, id) + LostExpiries(s, events, id)
    decreases |events|
  {
    hide Inv, Next, IfExpired, LosesExpiry;
    if events == [] {
    } else {
      StepKeepsInv(s, events[0]);
      ExpiredRowStep(s, events[0], id);
      ExpiredRowsFrom(Next(s, events[0]), events[1..], id);
    }
  }

  predicate Reaches(s: State, e: Event, id: string) {
    Enabled(s, e) && e.ExpireOne? && Subject(s, e) == id
  }

  lemma ExpiredRowStep(s: State, e: Event, id: string)
    requires Inv(s)
    ensures var t := Next(s, e);
            t.audit[(id, "expired")] + IfExpired(s, id) ==
            s.audit[(id, "expired")] + IfExpired(t, id) + if LosesExpiry(s, e, id) then 1 else 0
  {
    hide Inv, Next;
    ExpiredRowLogged(s, e, id);
    ExpiryMoves(s, e, id);
  }

  lemma LogExpired(s: State, id: string, event: string, x: string)
    ensures Log(s, id, event).audit[(x, "expired")] ==
            s.audit[(x, "expired")] + if id == x && event == "expired" then 1 else 0
  {
  }

  lemma OtherEvents()
    ensures forall o: Outcome :: FinalEvent(o) != "expired"
    ensures "staged" != "expired" && "rejected" != "expired" && "reverted" != "expired" && "approved" != "expired"
    ensures "scheduled" != "expired" && "held" != "expired"
  {
  }

  lemma ExecuteNowExpired(s: State, id: string, o: Outcome, x: string)
    requires id in s.ops
    ensures ExecuteNow(s, id, o).audit[(x, "expired")] == s.audit[(x, "expired")]
  {
    hide Log, FinalEvent;
    OtherEvents();
    var met := Met(s.ops[id].bodyless, o);
    if !met.Preflight? {
      LogExpired(SetStatus(Contact(s, id, met), id, FinalStatus(met)), id, FinalEvent(met), x);
    }
  }

  lemma DecidedExpired(s: State, id: string, now: int, d: Decision, x: string)
    requires id in s.ops
    ensures Decided(s, id, now, d).audit[(x, "expired")] == s.audit[(x, "expired")]
  {
    hide Log, ExecuteNow;
    OtherEvents();
    match d {
      case NoRule =>
      case RuleReject => LogExpired(SetStatus(s, id, Rejected), id, "rejected", x);
      case RuleApprove(o) =>
        LogView(s, id, "approved");
        assert ViewOf(Log(s, id, "approved"), id).known;
        ExecuteNowExpired(Log(s, id, "approved"), id, o, x);
        LogExpired(s, id, "approved", x);
      case RuleDelay(seconds) =>
        var at := now + if seconds > 0 then seconds else 0;
        LogExpired(s.(ops := s.ops[id := s.ops[id].(scheduledAt := Some(at))]), id, "scheduled", x);
      case RuleHold => LogExpired(s, id, "held", x);
    }
  }

  lemma RequestExpired(s: State, e: Event, x: string)
    requires Enabled(s, e) && (e.Stage? || e.Approve? || e.Reject? || e.Undo?)
    ensures Apply(s, e).audit[(x, "expired")] == s.audit[(x, "expired")]
  {
    hide Log, ExecuteNow, Decided;
    OtherEvents();
    match e {
      case Stage(id, now, bodyless, d) =>
        var inserted := s.(ops := s.ops[id := Op(Pending, None, now + EXPIRY_SECONDS, bodyless)]);
        LogExpired(inserted, id, "staged", x);
        LogView(inserted, id, "staged");
        assert ViewOf(Log(inserted, id, "staged"), id).known;
        DecidedExpired(Log(inserted, id, "staged"), id, now, d, x);
      case Approve(id, o) => ExecuteNowExpired(s, id, o, x);
      case Reject(id) => LogExpired(SetStatus(s, id, Rejected), id, "rejected", x);
      case Undo(id, succeeds) =>
        if succeeds {
          LogExpired(SetStatus(s, id, Reverted), id, "reverted", x);
        }
    }
  }

  lemma PassExpired(s: State, e: Event, x: string)
    requires Enabled(s, e) && Advances(e)
    ensures Apply(s, e).audit[(x, "expired")] == s.audit[(x, "expired")] + if Reaches(s, e, x) then 1 else 0
  {
    hide Log, Distinct, Due, Stale;
    OtherEvents();
    if e.Record? {
      var p := s.workers[e.w].phase;
      LogExpired(s, p.id, FinalEvent(p.outcome), x);
    } else if e.ExpireOne? {
      var id := s.workers[e.w].stale[0];
      var moved := s.(workers := s.workers[e.w := ExpiryPass(s.workers[e.w].stale[1..])]);
      LogExpired(if s.ops[id].status == Pending then SetStatus(moved, id, Expired) else moved, id, "expired", x);
    }
  }

  lemma ExpiredRowLogged(s: State, e: Event, id: string)
    ensures Next(s, e).audit[(id, "expired")] == s.audit[(id, "expired")] + if Reaches(s, e, id) then 1 else 0
  {
    hide Apply, Distinct, Due, Stale;
    if Enabled(s, e) {
      if Advances(e) {
        PassExpired(s, e, id);
      } else if e.SchedulerStart? || e.ExpiryStart? {
        StartLogsNothing(s, e);
      } else {
        RequestExpired(s, e, id);
      }
    }
  }

  lemma StartLogsNothing(s: State, e: Event)
    requires Enabled(s, e) && (e.SchedulerStart? || e.ExpiryStart?)
    ensures Apply(s, e).audit == s.audit
  {
  }

  /** Only an expiry pass that finds it pending expires an operation, and it stays expired. */
  lemma ExpiryMoves(s: State, e: Event, id: string)
    requires Inv(s)
    ensures IfExpired(Next(s, e), id) == if Reaches(s, e, id) && s.ops[id].status == Pending then 1 else IfExpired(s, id)
  {
    hide Inv, Apply;
    var t := Next(s, e);
    if Enabled(s, e) {
      if Advances(e) {
        PassEffect(s, e);
        assert IfExpired(t, id) == if ViewOf(t, id).known && ViewOf(t, id).status == Expired then 1 else 0;
        if id == Subject(s, e) {
          assert ViewOf(s, id).known by { SubjectKnown(s, e); }
          if e.Settle? {
            HolderApproved(s, e.w, id);
          }
        }
      } else if e.SchedulerStart? || e.ExpiryStart? {
        StartView(s, e, id);
      } else {
        RequestEffect(s, e);
        assert IfExpired(t, id) == if ViewOf(t, id).known && ViewOf(t, id).status == Expired then 1 else 0;
      }
    }
  }

  predicate Lists(s: State, w: nat, id: string) {
    w in s.workers && s.workers[w].ExpiryPass? && id in s.workers[w].stale
  }

  /** Some step decides the operation while an expiry pass still has it on its list. */
  ghost predicate Interferes(s: State, e: Event, id: string) {
    && id in s.ops && s.ops[id].status == Pending
    && !(id in Next(s, e).ops && Next(s, e).ops[id].status == Pending)
    && exists w :: Lists(s, w, id) && e != ExpireOne(w)
  }

  ghost predicate Undisturbed(s: State, events: seq<Event>, id: string)
    decreases |events|
  {
    events == [] || (!Interferes(s, events[0], id) && Undisturbed(Next(s, events[0]), events[1..], id))
  }

  /** Every expiry pass finds each operation on its list once, and this one pending. */
  ghost predicate ListedPending(s: State, id: string) {
    forall w :: w in s.workers && s.workers[w].ExpiryPass? ==>
      Distinct(s.workers[w].stale) && (id in s.workers[w].stale ==> id in s.ops && s.ops[id].status == Pending)
  }

  /**
   * When no other step decides an operation between the selection of an expiry pass and its
   * update, the log says expired exactly once of an operation that expired, and never of
   * another.
   */
  lemma ExpiredRowsTrue(events: seq<Event>, id: string)
    requires Undisturbed(EMPTY, events, id)
    ensures Run(EMPTY, events).audit[(id, "expired")] == IfExpired(Run(EMPTY, events), id)
  {
    hide Run, Inv, Undisturbed;
    ExpiredRowsExact(events, id);
    EmptyInv();
    UndisturbedLosesNothing(EMPTY, events, id);
  }

  lemma {:induction false} UndisturbedLosesNothing(s: State, events: seq<Event>, id: string)
    requires Inv(s) && ListedPending(s, id) && Undisturbed(s, events, id)
    ensures LostExpiries(s, events, id) == 0
    decreases |events|
  {
    hide Inv, Next, ListedPending, Interferes, LosesExpiry;
    if events == [] {
    } else {
      StepKeepsInv(s, events[0]);
      ListedStaysPending(s, events[0], id);
      UndisturbedLosesNothing(Next(s, events[0]), events[1..], id);
    }
  }

  lemma ListedStaysPending(s: State, e: Event, id: string)
    requires Inv(s) && ListedPending(s, id) && !Interferes(s, e, id)
    ensures ListedPending(Next(s, e), id) && !LosesExpiry(s, e, id)
  {
    hide Inv, Next, Apply, Enabled, ListedPending;
    assert Next(s, e) == if Enabled(s, e) then Apply(s, e) else s by { NextMeans(s, e); }
    if Enabled(s, e) {
      var t := Apply(s, e);
      forall w | w in t.workers && t.workers[w].ExpiryPass?
        ensures Distinct(t.workers[w].stale) && (id in t.workers[w].stale ==> id in t.ops && t.ops[id].status == Pending)
      {
        ListAfter(s, e, w, id);
        if Lists(t, w, id) && Lists(s, w, id) {
          assert id in s.ops && s.ops[id].status == Pending by { ListedIs(s, w, id); }
          assert !Interferes(s, e, id) && e != ExpireOne(w) ==> id in t.ops && t.ops[id].status == Pending;
          if e == ExpireOne(w) && Subject(s, e) != id {
            OtherExpired(s, e, id);
          }
        }
      }
      assert ListedPending(t, id) by { AllListed(t, id); }
      if Reaches(s, e, id) {
        assert Lists(s, e.w, id) by { ReachedIsListed(s, e, id); }
        ListedIs(s, e.w, id);
      }
    }
  }

  lemma NextMeans(s: State, e: Event)
    ensures Next(s, e) == if Enabled(s, e) then Apply(s, e) else s
  {
    hide Enabled, Apply;
  }

  lemma AllListed(s: State, id: string)
    requires forall w :: w in s.workers && s.workers[w].ExpiryPass? ==>
               Distinct(s.workers[w].stale) && (id in s.workers[w].stale ==> id in s.ops && s.ops[id].status == Pending)
    ensures ListedPending(s, id)
  {
  }

  lemma ListedIs(s: State, w: nat, id: string)
    requires ListedPending(s, id) && Lists(s, w, id)
    ensures id in s.ops && s.ops[id].status == Pending
  {
  }

  lemma ReachedIsListed(s: State, e: Event, id: string)
    requires Reaches(s, e, id)
    ensures Lists(s, e.w, id)
  {
  }

  lemma OtherExpired(s: State, e: Event, id: string)
    requires Enabled(s, e) && e.ExpireOne? && Subject(s, e) != id && id in s.ops
    ensures id in Apply(s, e).ops && Apply(s, e).ops[id].status == s.ops[id].status
  {
    hide Apply;
    PassEffect(s, e);
    assert ViewOf(Apply(s, e), id) == ViewOf(s, id);
  }

  /** A list loses its head or stays; a new one is distinct and all of it pending. */
  lemma ListAfter(s: State, e: Event, w: nat, id: string)
    requires ListedPending(s, id) && Enabled(s, e) && w in Apply(s, e).workers && Apply(s, e).workers[w].ExpiryPass?
    ensures var t := Apply(s, e);
            && Distinct(t.workers[w].stale)
            && (Lists(t, w, id) ==>
                  || (Lists(s, w, id) && (e == ExpireOne(w) ==> Subject(s, e) != id))
                  || (id in t.ops && t.ops[id].status == Pending))
  {
    hide Due;
    var t := Apply(s, e);
    if e.ExpireOne? && e.w == w {
      ExpireKeepsList(s, w, id);
    } else if e.ExpiryStart? && e.w == w {
      StartedList(s, e, id);
    } else {
      OtherList(s, e, w);
    }
  }

  lemma ExpireKeepsList(s: State, w: nat, id: string)
    requires Enabled(s, ExpireOne(w)) && Distinct(s.workers[w].stale)
    ensures w in Apply(s, ExpireOne(w)).workers && Apply(s, ExpireOne(w)).workers[w] == ExpiryPass(s.workers[w].stale[1..])
    ensures Distinct(s.workers[w].stale[1..])
    ensures id in s.workers[w].stale[1..] ==> id in s.workers[w].stale && s.workers[w].stale[0] != id
  {
  }

  lemma StartedList(s: State, e: Event, id: string)
    requires Enabled(s, e) && e.ExpiryStart?
    ensures Apply(s, e).ops == s.ops && Distinct(e.stale) && (id in e.stale ==> id in s.ops && s.ops[id].status == Pending)
    ensures e.w in Apply(s, e).workers && Apply(s, e).workers[e.w] == ExpiryPass(e.stale)
  {
    if id in e.stale {
      var i :| 0 <= i < |e.stale| && e.stale[i] == id;
      assert Stale(s, e.stale[i], e.now);
    }
  }

  lemma OtherList(s: State, e: Event, w: nat)
    requires Enabled(s, e) && w in Apply(s, e).workers && Apply(s, e).workers[w].ExpiryPass?
    requires !(e.ExpireOne? && e.w == w) && !(e.ExpiryStart? && e.w == w)
    ensures w in s.workers && s.workers[w] == Apply(s, e).workers[w]
  {
    hide Distinct, Due, Stale, Log, ExecuteNow, Decided;
    if e.Stage? || e.Approve? || e.Reject? || e.Undo? {
      RequestEffect(s, e);
    } else {
      LogKeepsWorkers();
    }
  }

  lemma LogKeepsWorkers()
    ensures forall s, id, event :: Log(s, id, event).workers == s.workers
  {
  }

  /** So the log may say expired of an executed operation. */
  lemma ExecutedYetLoggedExpired(s: State, id: string, w: nat, now: int)
    requires Stale(s, id, now) && w !in s.workers
    ensures var t := Run(s, [ExpiryStart(w, [id], now), Approve(id, Completed), ExpireOne(w)]);
            id in t.ops && t.ops[id].status == Executed && t.audit[(id, "expired")] == s.audit[(id, "expired")] + 1
  {
    var e1, e2, e3 := ExpiryStart(w, [id], now), Approve(id, Completed), ExpireOne(w);
    var s1 := Next(s, e1);
    var s2 := Next(s1, e2);
    ApprovedWhileExpiring(s, id, w, now);
    ExpiredRowLogged(s2, e3, id);
    assert Next(s2, e3).ops == s2.ops;
    hide Next, Enabled;
    assert [e3][1..] == [] && [e2, e3][1..] == [e3] && [e1, e2, e3][1..] == [e2, e3];
    assert Run(s2, [e3]) == Run(Next(s2, e3), []) == Next(s2, e3);
    assert Run(s1, [e2, e3]) == Next(s2, e3);
  }

  lemma ApprovedWhileExpiring(s: State, id: string, w: nat, now: int)
    requires Stale(s, id, now) && w !in s.workers
    ensures var t := Next(Next(s, ExpiryStart(w, [id], now)), Approve(id, Completed));
            && Enabled(t, ExpireOne(w)) && t.workers[w] == ExpiryPass([id]) && t.ops[id].status == Executed
            && t.audit[(id, "expired")] == s.audit[(id, "expired")]
  {
  }

  // ----- what the mirror is left with -----

  type Snapshots = map<string, Option<Mirror.Snapshot>>

  /** _expire_one whole: the mirror is restored first, whatever the conditional UPDATE then finds. */
  function ExpiredWithMirror(s: State, mirror: Mirror.Table, snapshots: Snapshots, w: nat): (State, Mirror.Table)
    requires Enabled(s, ExpireOne(w))
  {
    var id := Subject(s, ExpireOne(w));
    (Next(s, ExpireOne(w)), Mirror.Reject(mirror, if id in snapshots then snapshots[id] else None))
  }

  /** The mirror as it should look for an operation staged on before with the outcome after. */
  predicate MirrorFits(status: Status, mirror: Mirror.Table, before: Mirror.Table, after: Mirror.Table) {
    Mirror.Visible(mirror) == Mirror.Visible(if Undecided(status) && status != Pending then before else after)
  }

  /**
   * An expiry pass takes the staged change back out of the mirror before it knows whether the
   * operation is still pending. So the mirror fits the outcome exactly when the operation was
   * still pending (or had been expired or rejected already), or its change shows nowhere: of
   * an operation approved or executed in between, the agent is shown the mailbox as if it had
   * not been.
   */
  lemma ExpiryRevertFitsIff(s: State, w: nat, op: Mirror.Op, before: Mirror.Table, snapshots: Snapshots)
    requires Enabled(s, ExpireOne(w)) && !Mirror.Phantom(before, op)
    requires var id := Subject(s, ExpireOne(w)); id in snapshots && snapshots[id] == Mirror.Stage(before, op).1
    ensures var (after, id) := (Mirror.Stage(before, op).0, Subject(s, ExpireOne(w)));
            var (t, mirror) := ExpiredWithMirror(s, after, snapshots, w);
            && id in t.ops && Mirror.Visible(mirror) == Mirror.Visible(before)
            && (MirrorFits(t.ops[id].status, mirror, before, after) <==>
                Undecided(s.ops[id].status) || Mirror.Visible(after) == Mirror.Visible(before))
  {
    hide Mirror.Stage, Mirror.Reject, Mirror.Visible, Mirror.Phantom;
    Mirror.RejectInvertsStageIff(before, op);
    ExpireOneStatus(s, w);
  }

  lemma ExpireOneStatus(s: State, w: nat)
    requires Enabled(s, ExpireOne(w))
    ensures var t, id := Next(s, ExpireOne(w)), Subject(s, ExpireOne(w));
            id in t.ops && t.ops[id].status == if s.ops[id].status == Pending then Expired else s.ops[id].status
  {
  }
}
