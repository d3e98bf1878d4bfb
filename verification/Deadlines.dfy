// When an operation is taken up without a human: after the delay a rule gave it
// (gateway/staging.py, gateway/scheduler.py), and when it expires (gateway/expiry.py).
// Times are integers, in seconds.
module Deadlines {
  import opened Wrappers
  import opened Lifecycle

  /** 48 hours. */
  const LIFETIME := 172800

  /** From when a pass may take the operation: staged at now, under a rule that delays it; None is never. */
  function From(now: int, d: Decision): Option<int> {
    match d
    case RuleDelay(seconds) => Some(if seconds <= 0 then now else now + seconds)
    case _ => None
  }

  /** A scheduler pass that lists the operation, started no earlier than that. */
  predicate StartsInTime(e: Event, id: string, from: Option<int>) {
    e.SchedulerStart? && id in e.due && from.Some? && e.now >= from.value
  }

  predicate ExpiresInTime(e: Event, id: string, staged: int) {
    e.ExpiryStart? && id in e.stale && e.now >= staged + LIFETIME
  }

  ghost predicate SomeApproval(events: seq<Event>, id: string) {
    exists i :: 0 <= i < |events| && events[i].Approve? && events[i].id == id
  }

  ghost predicate SomeStart(events: seq<Event>, id: string, from: Option<int>) {
    exists i :: 0 <= i < |events| && StartsInTime(events[i], id, from)
  }

  ghost predicate SomeExpiry(events: seq<Event>, id: string, staged: int) {
    exists i :: 0 <= i < |events| && ExpiresInTime(events[i], id, staged)
  }

  // ----- what a run knows of one operation -----

  /** The pass lists the operation or works on it. */
  predicate Scheduled(workers: Workers, w: nat, id: string) {
    w in workers && workers[w].SchedulerPass? && (id in workers[w].due || Holds(workers, w, id))
  }

  predicate Expiring(workers: Workers, w: nat, id: string) {
    w in workers && workers[w].ExpiryPass? && id in workers[w].stale
  }

  /** Its deadlines stand in the table, and whoever took it up had the right to. */
  ghost predicate Timely(s: State, id: string, staged: int, from: Option<int>, approved: bool, started: bool, expired: bool) {
    && id in s.ops && s.ops[id].scheduledAt == from && s.ops[id].expiresAt == staged + LIFETIME
    && (!started ==> forall w :: !Scheduled(s.workers, w, id))
    && (!expired ==> forall w :: !Expiring(s.workers, w, id))
    && (s.ops[id].status in {Approved, Executed, Failed, Reverted} ==> approved || started)
    && (s.ops[id].status == Expired ==> expired)
  }

  /** Nobody lists an operation that is not there. */
  ghost predicate Unlisted(s: State, id: string) {
    id !in s.ops && forall w :: !Scheduled(s.workers, w, id) && !Expiring(s.workers, w, id)
  }

  lemma LogKeepsTables()
    ensures forall s, id, event :: Log(s, id, event).workers == s.workers && Log(s, id, event).ops == s.ops
  {
  }

  lemma ExecuteKeepsDeadlines(s: State, x: string, o: Outcome, id: string)
    requires x in s.ops
    ensures var t := ExecuteNow(s, x, o);
            && t.workers == s.workers && t.ops.Keys == s.ops.Keys && (x != id && id in s.ops ==> t.ops[id] == s.ops[id])
            && (id in s.ops ==> t.ops[id].scheduledAt == s.ops[id].scheduledAt && t.ops[id].expiresAt == s.ops[id].expiresAt)
  {
    hide Log;
    LogKeepsTables();
  }

  lemma RequestKeepsDeadlines(s: State, e: Event, id: string)
    requires e.Stage? || e.Approve? || e.Reject? || e.Undo?
    requires !(e.Stage? && e.id == id)
    ensures var t := Next(s, e);
            && t.workers == s.workers && (id in t.ops <==> id in s.ops)
            && (id in s.ops ==> t.ops[id].scheduledAt == s.ops[id].scheduledAt && t.ops[id].expiresAt == s.ops[id].expiresAt)
            && (id in s.ops && e.id != id ==> t.ops[id] == s.ops[id])
  {
    hide Log, ExecuteNow;
    LogKeepsTables();
    if Enabled(s, e) {
      if e.Approve? {
        ExecuteKeepsDeadlines(s, e.id, e.outcome, id);
      } else if e.Stage? && e.decision.RuleApprove? {
        var staged := Log(s.(ops := s.ops[e.id := Op(Pending, None, e.now + EXPIRY_SECONDS, e.bodyless)]), e.id, "staged");
        ExecuteKeepsDeadlines(Log(staged, e.id, "approved"), e.id, e.decision.outcome, id);
      }
    }
  }

  lemma PassKeepsDeadlines(s: State, e: Event, id: string)
    requires !(e.Stage? || e.Approve? || e.Reject? || e.Undo?)
    ensures var t := Next(s, e);
            && (id in t.ops <==> id in s.ops)
            && (id in s.ops ==> t.ops[id].scheduledAt == s.ops[id].scheduledAt && t.ops[id].expiresAt == s.ops[id].expiresAt)
  {
    hide Log, Distinct, Due, Stale;
    LogKeepsTables();
  }

  lemma StepKeepsDeadlines(s: State, e: Event, id: string)
    requires !(e.Stage? && e.id == id)
    ensures var t := Next(s, e);
            && (id in t.ops <==> id in s.ops)
            && (id in s.ops ==> t.ops[id].scheduledAt == s.ops[id].scheduledAt && t.ops[id].expiresAt == s.ops[id].expiresAt)
  {
    hide Next;
    if e.Stage? || e.Approve? || e.Reject? || e.Undo? {
      RequestKeepsDeadlines(s, e, id);
    } else {
      PassKeepsDeadlines(s, e, id);
    }
  }

  lemma StartLists(s: State, e: Event, id: string, w: nat)
    requires e.SchedulerStart? || e.ExpiryStart?
    ensures var t := Next(s, e).workers;
            && (Scheduled(t, w, id) ==> Scheduled(s.workers, w, id) || (Enabled(s, e) && e.SchedulerStart? && id in e.due))
            && (Expiring(t, w, id) ==> Expiring(s.workers, w, id) || (Enabled(s, e) && e.ExpiryStart? && id in e.stale))
  {
    hide Distinct, Due, Stale;
  }

  lemma ClaimLists(s: State, e: Event, id: string, w: nat)
    requires e.Claim? || e.ExpireOne?
    ensures var t := Next(s, e).workers;
            (Scheduled(t, w, id) ==> Scheduled(s.workers, w, id)) && (Expiring(t, w, id) ==> Expiring(s.workers, w, id))
  {
    hide Log, Distinct, Due, Stale;
    LogKeepsTables();
  }

  lemma ExecutionLists(s: State, e: Event, id: string, w: nat)
    requires e.Attempt? || e.Settle? || e.Record?
    ensures var t := Next(s, e).workers;
            (Scheduled(t, w, id) ==> Scheduled(s.workers, w, id)) && (Expiring(t, w, id) ==> Expiring(s.workers, w, id))
  {
    hide Log, Distinct, Due, Stale;
    LogKeepsTables();
  }

  /** A pass comes to list an operation only by starting with it. */
  lemma StepLists(s: State, e: Event, id: string, w: nat)
    requires !(e.Stage? && e.id == id)
    ensures var t := Next(s, e).workers;
            && (Scheduled(t, w, id) ==> Scheduled(s.workers, w, id) || (Enabled(s, e) && e.SchedulerStart? && id in e.due))
            && (Expiring(t, w, id) ==> Expiring(s.workers, w, id) || (Enabled(s, e) && e.ExpiryStart? && id in e.stale))
  {
    hide Next, Enabled, Scheduled, Expiring;
    match e {
      case SchedulerStart(_, _, _) => StartLists(s, e, id, w);
      case ExpiryStart(_, _, _) => StartLists(s, e, id, w);
      case Claim(_) => ClaimLists(s, e, id, w);
      case ExpireOne(_) => ClaimLists(s, e, id, w);
      case Attempt(_, _) => ExecutionLists(s, e, id, w);
      case Settle(_) => ExecutionLists(s, e, id, w);
      case Record(_) => ExecutionLists(s, e, id, w);
      case _ => RequestKeepsDeadlines(s, e, id);
    }
  }

  predicate TakenUp(status: Status) {
    status == Approved || status == Executed || status == Failed || status == Reverted
  }

  /** An operation is taken up by a human or by a pass that lists it, and expires by one that lists it. */
  lemma StepTakesUp(s: State, e: Event, id: string)
    requires id in s.ops && !(e.Stage? && e.id == id)
    ensures var t := Next(s, e);
            && id in t.ops
            && (TakenUp(t.ops[id].status) && !TakenUp(s.ops[id].status) ==>
                  (e.Approve? && e.id == id) || exists w :: Scheduled(s.workers, w, id))
            && (t.ops[id].status == Expired && s.ops[id].status != Expired ==> exists w :: Expiring(s.workers, w, id))
  {
    hide Log, Distinct, Due, Stale, ExecuteNow;
    StepKeepsDeadlines(s, e, id);
    LogKeepsTables();
    if e.Stage? || e.Approve? || e.Reject? || e.Undo? {
      RequestTakesUp(s, e, id);
    } else if (e.Claim? || e.Settle?) && Enabled(s, e) {
      assert Next(s, e).ops[id] != s.ops[id] ==> Scheduled(s.workers, e.w, id);
    } else if e.ExpireOne? && Enabled(s, e) {
      assert Next(s, e).ops[id] != s.ops[id] ==> Expiring(s.workers, e.w, id);
    }
  }

  lemma RequestTakesUp(s: State, e: Event, id: string)
    requires id in s.ops && (e.Stage? || e.Approve? || e.Reject? || e.Undo?) && !(e.Stage? && e.id == id)
    ensures var t := Next(s, e);
            && id in t.ops
            && (TakenUp(t.ops[id].status) && !TakenUp(s.ops[id].status) ==> e.Approve? && e.id == id)
            && (t.ops[id].status == Expired ==> s.ops[id].status == Expired)
  {
    hide Log, Next;
    LogKeepsTables();
    RequestKeepsDeadlines(s, e, id);
    if e.id == id {
      OwnRequest(s, e);
    }
  }

  lemma OwnRequest(s: State, e: Event)
    requires (e.Approve? || e.Reject? || e.Undo?) && e.id in s.ops
    ensures var t := Next(s, e);
            && e.id in t.ops
            && (TakenUp(t.ops[e.id].status) && !TakenUp(s.ops[e.id].status) ==> e.Approve?)
            && (t.ops[e.id].status == Expired ==> s.ops[e.id].status == Expired)
  {
    hide Log;
    LogKeepsTables();
  }

  lemma UnlistedStep(s: State, e: Event, id: string)
    requires Unlisted(s, id) && !(e.Stage? && e.id == id)
    ensures Unlisted(Next(s, e), id)
  {
    hide Next, Scheduled, Expiring;
    StepKeepsDeadlines(s, e, id);
    forall w ensures !Scheduled(Next(s, e).workers, w, id) && !Expiring(Next(s, e).workers, w, id) {
      StepLists(s, e, id, w);
      if Enabled(s, e) && e.SchedulerStart? && id in e.due {
        StartListed(s, e, id);
      }
      if Enabled(s, e) && e.ExpiryStart? && id in e.stale {
        StartListed(s, e, id);
      }
    }
  }

  /** A pass starts only with operations that are there, pending and past their time. */
  lemma StartListed(s: State, e: Event, id: string)
    requires Enabled(s, e)
    ensures e.SchedulerStart? && id in e.due ==>
              id in s.ops && s.ops[id].status == Pending && s.ops[id].scheduledAt.Some? && e.now >= s.ops[id].scheduledAt.value
    ensures e.ExpiryStart? && id in e.stale ==> id in s.ops && s.ops[id].status == Pending && e.now >= s.ops[id].expiresAt
  {
    hide Distinct;
    if e.SchedulerStart? && id in e.due {
      var i :| 0 <= i < |e.due| && e.due[i] == id;
      assert Due(s, e.due[i], e.now);
    }
    if e.ExpiryStart? && id in e.stale {
      var i :| 0 <= i < |e.stale| && e.stale[i] == id;
      assert Stale(s, e.stale[i], e.now);
    }
  }

  lemma StagedTimely(s: State, id: string, now: int, bodyless: bool, d: Decision)
    requires Unlisted(s, id)
    ensures Timely(Next(s, Stage(id, now, bodyless, d)), id, now, From(now, d), d.RuleApprove?, false, false)
  {
    hide Next, Scheduled, Expiring;
    StagedRow(s, id, now, bodyless, d);
  }

  lemma StagedRow(s: State, id: string, now: int, bodyless: bool, d: Decision)
    requires id !in s.ops
    ensures var t := Next(s, Stage(id, now, bodyless, d));
            && t.workers == s.workers && id in t.ops
            && t.ops[id].scheduledAt == From(now, d) && t.ops[id].expiresAt == now + LIFETIME
            && t.ops[id].status != Expired && (TakenUp(t.ops[id].status) ==> d.RuleApprove?)
  {
    hide Log, Decided, Due, Stale, Distinct;
    LogKeepsTables();
    DecidedRow(Log(s.(ops := s.ops[id := Op(Pending, None, now + EXPIRY_SECONDS, bodyless)]), id, "staged"), id, now, d);
  }

  lemma DecidedRow(s: State, id: string, now: int, d: Decision)
    requires id in s.ops && s.ops[id].status == Pending && s.ops[id].scheduledAt == None
    ensures var t := Decided(s, id, now, d);
            && t.workers == s.workers && id in t.ops
            && t.ops[id].scheduledAt == From(now, d) && t.ops[id].expiresAt == s.ops[id].expiresAt
            && t.ops[id].status != Expired && (TakenUp(t.ops[id].status) ==> d.RuleApprove?)
  {
    hide Log, ExecuteNow;
    LogKeepsTables();
    if d.RuleApprove? {
      var approved := Log(s, id, "approved");
      ExecuteKeepsDeadlines(approved, id, d.outcome, id);
      NotExpired(approved, id, d.outcome);
    }
  }

  lemma NotExpired(s: State, id: string, o: Outcome)
    requires id in s.ops && s.ops[id].status == Pending
    ensures var t := ExecuteNow(s, id, o); id in t.ops && t.ops[id].status != Expired
  {
  }

  lemma TimelyStep(s: State, e: Event, id: string, staged: int, from: Option<int>, approved: bool, started: bool, expired: bool)
    requires Timely(s, id, staged, from, approved, started, expired)
    ensures Timely(Next(s, e), id, staged, from, approved || (e.Approve? && e.id == id), started || StartsInTime(e, id, from),
                   expired || ExpiresInTime(e, id, staged))
  {
    hide Next, Scheduled, Expiring, Enabled;
    if e.Stage? && e.id == id {
      StagedBefore(s, e);
    } else {
      StepKeepsDeadlines(s, e, id);
      StepTakesUp(s, e, id);
      forall w ensures Scheduled(Next(s, e).workers, w, id) ==> started || StartsInTime(e, id, from)
      {
        StepLists(s, e, id, w);
        if Enabled(s, e) {
          StartListed(s, e, id);
        }
      }
      forall w ensures Expiring(Next(s, e).workers, w, id) ==> expired || ExpiresInTime(e, id, staged)
      {
        StepLists(s, e, id, w);
        if Enabled(s, e) {
          StartListed(s, e, id);
        }
      }
    }
  }

  /** An id is staged once. */
  lemma StagedBefore(s: State, e: Event)
    requires e.Stage? && e.id in s.ops
    ensures Next(s, e) == s
  {
  }

  lemma {:induction false} UnlistedRun(s: State, events: seq<Event>, id: string)
    requires Unlisted(s, id) && id !in Run(s, events).ops
    ensures Unlisted(Run(s, events), id)
    decreases |events|
  {
    hide Unlisted, Next;
    if events == [] {
    } else {
      if events[0].Stage? && events[0].id == id {
        assert id in Next(s, events[0]).ops by { Inserted(s, events[0]); }
        NeverGone(Next(s, events[0]), events[1..], id);
      } else {
        UnlistedStep(s, events[0], id);
      }
      UnlistedRun(Next(s, events[0]), events[1..], id);
    }
  }

  lemma Inserted(s: State, e: Event)
    requires e.Stage?
    ensures e.id in Next(s, e).ops
  {
    hide Log, ExecuteNow;
    LogKeepsTables();
    if Enabled(s, e) && e.decision.RuleApprove? {
      var staged := Log(s.(ops := s.ops[e.id := Op(Pending, None, e.now + EXPIRY_SECONDS, e.bodyless)]), e.id, "staged");
      ExecuteKeepsDeadlines(Log(staged, e.id, "approved"), e.id, e.decision.outcome, e.id);
    }
  }

  lemma {:induction false} NeverGone(s: State, events: seq<Event>, id: string)
    requires id in s.ops
    ensures id in Run(s, events).ops
    decreases |events|
  {
    hide Next;
    if events == [] {
    } else {
      if events[0].Stage? && events[0].id == id {
        StagedBefore(s, events[0]);
      } else {
        StepKeepsDeadlines(s, events[0], id);
      }
      NeverGone(Next(s, events[0]), events[1..], id);
    }
  }

  lemma {:induction false} TimelyRun(s: State, events: seq<Event>, id: string, staged: int, from: Option<int>, approved: bool,
                                     started: bool, expired: bool)
    requires Timely(s, id, staged, from, approved, started, expired)
    ensures Timely(Run(s, events), id, staged, from, approved || SomeApproval(events, id), started || SomeStart(events, id, from),
                   expired || SomeExpiry(events, id, staged))
    decreases |events|
  {
    hide Timely, Next, StartsInTime, ExpiresInTime;
    if events == [] {
    } else {
      var e, rest := events[0], events[1..];
      TimelyStep(s, e, id, staged, from, approved, started, expired);
      TimelyRun(Next(s, e), rest, id, staged, from, approved || (e.Approve? && e.id == id), started || StartsInTime(e, id, from),
                expired || ExpiresInTime(e, id, staged));
      SomeSplit(events, id, staged, from);
    }
  }

  lemma SomeSplit(events: seq<Event>, id: string, staged: int, from: Option<int>)
    requires events != []
    ensures SomeApproval(events, id) <==> (events[0].Approve? && events[0].id == id) || SomeApproval(events[1..], id)
    ensures SomeStart(events, id, from) <==> StartsInTime(events[0], id, from) || SomeStart(events[1..], id, from)
    ensures SomeExpiry(events, id, staged) <==> ExpiresInTime(events[0], id, staged) || SomeExpiry(events[1..], id, staged)
  {
    hide StartsInTime, ExpiresInTime;
    assert forall i :: 0 <= i < |events[1..]| ==> events[1..][i] == events[i + 1];
    assert forall i :: 0 < i < |events| ==> events[i] == events[1..][i - 1];
  }

  // ----- the promises -----

  /**
   * In every run after an operation was staged at a time, under any decision of the rules: if it
   * was taken up at all, a rule approved it at once, a human approved it, or a scheduler pass that
   * lists it started at or after the end of the delay the rule gave it; and if it expired, an
   * expiry pass that lists it started 48 hours or more after it was staged.
   */
  lemma NeverBeforeItsTime(before: seq<Event>, id: string, now: int, bodyless: bool, d: Decision, after: seq<Event>)
    requires id !in Run(EMPTY, before).ops
    ensures var t := Run(Next(Run(EMPTY, before), Stage(id, now, bodyless, d)), after);
            && id in t.ops
            && (t.ops[id].status in {Approved, Executed, Failed, Reverted} ==>
                  d.RuleApprove? || SomeApproval(after, id) || SomeStart(after, id, From(now, d)))
            && (t.ops[id].status == Expired ==> SomeExpiry(after, id, now))
  {
    hide Next;
    var s := Run(EMPTY, before);
    UnlistedRun(EMPTY, before, id);
    StagedTimely(s, id, now, bodyless, d);
    TimelyRun(Next(s, Stage(id, now, bodyless, d)), after, id, now, From(now, d), d.RuleApprove?, false, false);
  }

  /**
   * After any such run, an operation that is still pending is executed by a scheduler pass started
   * on it exactly when its rule delayed it and the delay is over, and expired by an expiry pass
   * started on it exactly when 48 hours have passed.
   */
  lemma TakenWhenTimeIsUp(before: seq<Event>, id: string, now: int, bodyless: bool, d: Decision, after: seq<Event>, w: nat, later: int)
    requires id !in Run(EMPTY, before).ops
    requires var s := Run(Next(Run(EMPTY, before), Stage(id, now, bodyless, d)), after);
             w !in s.workers && id in s.ops && s.ops[id].status !in {Executed, Expired}
    ensures var s := Run(Next(Run(EMPTY, before), Stage(id, now, bodyless, d)), after);
            var pass := Run(s, [SchedulerStart(w, [id], later), Claim(w), Attempt(w, Completed), Settle(w)]);
            var expiry := Run(s, [ExpiryStart(w, [id], later), ExpireOne(w)]);
            && id in pass.ops && id in expiry.ops
            && (pass.ops[id].status == Executed <==>
                  s.ops[id].status == Pending && From(now, d).Some? && later >= From(now, d).value)
            && (expiry.ops[id].status == Expired <==> s.ops[id].status == Pending && later >= now + LIFETIME)
  {
    hide Next, Run;
    var s := Run(Next(Run(EMPTY, before), Stage(id, now, bodyless, d)), after);
    assert Timely(s, id, now, From(now, d), d.RuleApprove? || SomeApproval(after, id), SomeStart(after, id, From(now, d)),
                  SomeExpiry(after, id, now)) by {
      UnlistedRun(EMPTY, before, id) by { assert Unlisted(EMPTY, id); }
      StagedTimely(Run(EMPTY, before), id, now, bodyless, d);
      TimelyRun(Next(Run(EMPTY, before), Stage(id, now, bodyless, d)), after, id, now, From(now, d), d.RuleApprove?, false, false);
    }
    PassTakes(s, id, w, later);
    ExpiryTakes(s, id, w, later);
  }

  lemma FourSteps(s: State, e1: Event, e2: Event, e3: Event, e4: Event)
    ensures Run(s, [e1, e2, e3, e4]) == Next(Next(Next(Next(s, e1), e2), e3), e4)
  {
    hide Next;
    assert [e1, e2, e3, e4][1..] == [e2, e3, e4] && [e2, e3, e4][1..] == [e3, e4];
    TwoSteps(Next(Next(s, e1), e2), e3, e4);
    assert Run(Next(s, e1), [e2, e3, e4]) == Run(Next(Next(s, e1), e2), [e3, e4]);
  }

  lemma StartsOn(s: State, id: string, w: nat, now: int)
    requires w !in s.workers && id in s.ops
    ensures Enabled(s, SchedulerStart(w, [id], now)) <==>
            s.ops[id].status == Pending && s.ops[id].scheduledAt.Some? && now >= s.ops[id].scheduledAt.value
    ensures Enabled(s, ExpiryStart(w, [id], now)) <==> s.ops[id].status == Pending && now >= s.ops[id].expiresAt
  {
    assert [id][0] == id;
  }

  /** What a pass with nothing in hand and nothing listed cannot do. */
  lemma NoPass(s: State, w: nat)
    requires w !in s.workers
    ensures Next(s, Claim(w)) == s && Next(s, Settle(w)) == s && Next(s, ExpireOne(w)) == s
    ensures forall o :: Next(s, Attempt(w, o)) == s
  {
  }

  lemma PassTakes(s: State, id: string, w: nat, now: int)
    requires w !in s.workers && id in s.ops && s.ops[id].status != Executed
    ensures var t := Run(s, [SchedulerStart(w, [id], now), Claim(w), Attempt(w, Completed), Settle(w)]);
            && id in t.ops
            && (t.ops[id].status == Executed <==>
                  s.ops[id].status == Pending && s.ops[id].scheduledAt.Some? && now >= s.ops[id].scheduledAt.value)
  {
    FourSteps(s, SchedulerStart(w, [id], now), Claim(w), Attempt(w, Completed), Settle(w));
    StartsOn(s, id, w, now);
    hide Run, Due, Distinct;
    var e := SchedulerStart(w, [id], now);
    if Enabled(s, e) {
      var s1 := Next(s, e);
      assert s1.workers[w] == SchedulerPass([id], Idle) && s1.ops == s.ops;
      hide Enabled;
      ClaimedThenDone(s1, id, w);
    } else {
      assert Next(s, e) == s;
      hide Enabled, Next;
      NoPass(s, w);
    }
  }

  lemma Claimed(s: State, id: string, w: nat)
    requires w in s.workers && s.workers[w] == SchedulerPass([id], Idle) && id in s.ops && s.ops[id].status == Pending
    ensures var t := Next(s, Claim(w)); id in t.ops && w in t.workers && t.workers[w] == SchedulerPass([], Executing(id))
  {
    assert [id][1..] == [];
  }

  lemma Replayed(s: State, id: string, w: nat)
    requires w in s.workers && s.workers[w] == SchedulerPass([], Executing(id)) && id in s.ops
    ensures var t := Next(s, Attempt(w, Completed));
            id in t.ops && w in t.workers && t.workers[w] == SchedulerPass([], Settling(id, Completed))
  {
  }

  lemma Settled(s: State, id: string, w: nat)
    requires w in s.workers && s.workers[w] == SchedulerPass([], Settling(id, Completed)) && id in s.ops
    ensures var t := Next(s, Settle(w)); id in t.ops && t.ops[id].status == Executed
  {
  }

  lemma ClaimedThenDone(s: State, id: string, w: nat)
    requires w in s.workers && s.workers[w] == SchedulerPass([id], Idle) && id in s.ops && s.ops[id].status == Pending
    ensures var t := Next(Next(Next(s, Claim(w)), Attempt(w, Completed)), Settle(w)); id in t.ops && t.ops[id].status == Executed
  {
    hide Next;
    Claimed(s, id, w);
    Replayed(Next(s, Claim(w)), id, w);
    Settled(Next(Next(s, Claim(w)), Attempt(w, Completed)), id, w);
  }

  lemma ExpiryTakes(s: State, id: string, w: nat, now: int)
    requires w !in s.workers && id in s.ops && s.ops[id].status != Expired
    ensures var t := Run(s, [ExpiryStart(w, [id], now), ExpireOne(w)]);
            && id in t.ops && (t.ops[id].status == Expired <==> s.ops[id].status == Pending && now >= s.ops[id].expiresAt)
  {
    hide Run, Stale, Distinct, Log;
    TwoSteps(s, ExpiryStart(w, [id], now), ExpireOne(w));
    StartsOn(s, id, w, now);
    LogKeepsTables();
  }

  predicate AllDifferent(ids: seq<string>) {
    forall i, j :: 0 <= i < j < |ids| ==> ids[i] != ids[j]
  }

  predicate TimeHasCome(s: State, id: string, now: int) {
    id in s.ops && s.ops[id].status == Pending && s.ops[id].scheduledAt.Some? && now >= s.ops[id].scheduledAt.value
  }

  predicate LifeIsOver(s: State, id: string, now: int) {
    id in s.ops && s.ops[id].status == Pending && now >= s.ops[id].expiresAt
  }

  /** What a pass may start with: up to a hundred different pending operations whose time has come, and nothing else. */
  lemma PassesStartIff(s: State, w: nat, ids: seq<string>, now: int)
    requires w !in s.workers
    ensures Next(s, SchedulerStart(w, ids, now)) != s <==>
            |ids| <= 100 && AllDifferent(ids) && forall i :: 0 <= i < |ids| ==> TimeHasCome(s, ids[i], now)
    ensures Next(s, ExpiryStart(w, ids, now)) != s <==>
            |ids| <= 100 && AllDifferent(ids) && forall i :: 0 <= i < |ids| ==> LifeIsOver(s, ids[i], now)
  {
    var e, f := SchedulerStart(w, ids, now), ExpiryStart(w, ids, now);
    assert Enabled(s, e) ==> w in Next(s, e).workers;
    assert Enabled(s, f) ==> w in Next(s, f).workers;
    assert Enabled(s, e) ==> forall i :: 0 <= i < |ids| ==> Due(s, ids[i], now);
    assert Enabled(s, f) ==> forall i :: 0 <= i < |ids| ==> Stale(s, ids[i], now);
  }
}
