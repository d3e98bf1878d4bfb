// One operation with approvals taken statement by statement: approve_op reads
// the status, relays, and only then writes (api/routes/operations.py:493-501,
// gateway/execution.py); a scheduler pass claims first (gateway/scheduler.py);
// expiry and rejection decide a pending row (gateway/expiry.py). What an
// approval that overlaps another step can do, and that nothing else can.
module Overlap {
  import opened Lifecycle

  /** Someone at work on the operation: about to contact upstream, or waiting to write the outcome. */
  datatype Stage = Taken | Contacted

  datatype Row = Row(status: Status, runners: map<nat, Stage>, contacts: nat)

  datatype Act =
    | Check(w: nat)
    | Take(w: nat)
    | Begin(w: nat, starts: bool)
    | Finish(w: nat, ok: bool)
    | Expire
    | Refuse

  const FRESH := Row(Pending, map[], 0)

  predicate Possible(r: Row, e: Act) {
    match e
    case Check(w) => r.status == Pending && w !in r.runners
    case Take(w) => r.status == Pending && w !in r.runners
    case Begin(w, _) => w in r.runners && r.runners[w] == Taken
    case Finish(w, _) => w in r.runners && r.runners[w] == Contacted
    case Expire => r.status == Pending
    case Refuse => r.status == Pending
  }

  /** A check leaves the row pending; the claim does not; the outcome is written without a look. */
  function Done(r: Row, e: Act): Row
    requires Possible(r, e)
  {
    match e
    case Check(w) => r.(runners := r.runners[w := Taken])
    case Take(w) => r.(status := Approved, runners := r.runners[w := Taken])
    case Begin(w, starts) =>
      if starts then r.(runners := r.runners[w := Contacted], contacts := r.contacts + 1) else r.(runners := r.runners - {w})
    case Finish(w, ok) => r.(status := if ok then Executed else Failed, runners := r.runners - {w})
    case Expire => r.(status := Expired)
    case Refuse => r.(status := Rejected)
  }

  function After(r: Row, e: Act): Row {
    if Possible(r, e) then Done(r, e) else r
  }

  function AfterAll(r: Row, acts: seq<Act>): Row
    decreases |acts|
  {
    if acts == [] then r else AfterAll(After(r, acts[0]), acts[1..])
  }

  // ----- overlaps -----

  predicate Takes(e: Act) {
    e.Check? || e.Take?
  }

  predicate Decides(e: Act) {
    e.Expire? || e.Refuse?
  }

  /** The operation is taken up while someone is still at work on it. */
  predicate TakenTwice(r: Row, e: Act) {
    Possible(r, e) && Takes(e) && r.runners != map[]
  }

  /** It is expired or rejected while someone is still at work on it. */
  predicate DecidedMeanwhile(r: Row, e: Act) {
    Possible(r, e) && Decides(e) && r.runners != map[]
  }

  predicate SomeTakenTwice(r: Row, acts: seq<Act>)
    decreases |acts|
  {
    acts != [] && (TakenTwice(r, acts[0]) || SomeTakenTwice(After(r, acts[0]), acts[1..]))
  }

  predicate SomeDecidedMeanwhile(r: Row, acts: seq<Act>)
    decreases |acts|
  {
    acts != [] && (DecidedMeanwhile(r, acts[0]) || SomeDecidedMeanwhile(After(r, acts[0]), acts[1..]))
  }

  // ----- without overlap -----

  /** One runner at most; who has contacted upstream is still at work or has written the outcome. */
  ghost predicate Orderly(r: Row) {
    && (forall v, w :: v in r.runners && w in r.runners ==> v == w)
    && (r.runners == map[] ==> r.contacts <= 1)
    && (forall w :: w in r.runners ==> r.contacts == if r.runners[w] == Taken then 0 else 1)
    && (r.status == Pending && r.runners == map[] ==> r.contacts == 0)
    && (r.status == Executed || r.status == Failed ==> r.contacts == 1 && r.runners == map[])
  }

  /** Decided against, and untouched. */
  ghost predicate Dropped(r: Row) {
    (r.status == Expired || r.status == Rejected) && r.runners == map[] && r.contacts == 0
  }

  ghost predicate Sound(r: Row) {
    Orderly(r) && (r.status == Expired || r.status == Rejected ==> Dropped(r))
  }

  lemma SoundStep(r: Row, e: Act)
    requires Sound(r) && !TakenTwice(r, e) && !DecidedMeanwhile(r, e)
    ensures Sound(After(r, e))
  {
    if Possible(r, e) && (e.Finish? || (e.Begin? && !e.starts)) {
      assert (r.runners - {e.w}) == map[];
    }
  }

  lemma {:induction false} SoundRun(r: Row, acts: seq<Act>)
    requires Sound(r) && !SomeTakenTwice(r, acts) && !SomeDecidedMeanwhile(r, acts)
    ensures Sound(AfterAll(r, acts))
    decreases |acts|
  {
    hide Sound, After, TakenTwice, DecidedMeanwhile;
    if acts == [] {
    } else {
      SoundStep(r, acts[0]);
      SoundRun(After(r, acts[0]), acts[1..]);
    }
  }

  /** An operation no one overlaps is contacted once at most, and never when expired or rejected. */
  lemma NoOverlapIsSafe(acts: seq<Act>)
    requires !SomeTakenTwice(FRESH, acts) && !SomeDecidedMeanwhile(FRESH, acts)
    ensures var r := AfterAll(FRESH, acts);
            && r.contacts <= 1
            && (r.status == Expired || r.status == Rejected ==> r.contacts == 0)
            && (r.status == Executed ==> r.contacts == 1)
  {
    SoundRun(FRESH, acts);
    var r := AfterAll(FRESH, acts);
    if r.runners != map[] {
      var w :| w in r.runners;
      assert r.contacts == if r.runners[w] == Taken then 0 else 1;
    }
  }

  // ----- the exact condition for a second relay -----

  function Waiting(r: Row): set<nat> {
    set w | w in r.runners && r.runners[w] == Taken
  }

  /** Relays begun, and those that nothing keeps from beginning. */
  function Bound(r: Row): nat {
    r.contacts + |Waiting(r)|
  }

  /** Whoever is at work waits, or is one of those who have contacted. */
  ghost predicate Counted(r: Row) {
    (exists w :: w in r.runners && r.runners[w] == Contacted) ==> r.contacts >= 1
  }

  lemma WaitingAfter(r: Row, e: Act)
    requires Possible(r, e)
    ensures Takes(e) ==> e.w !in Waiting(r) && Waiting(Done(r, e)) == Waiting(r) + {e.w}
    ensures e.Begin? ==> e.w in Waiting(r) && Waiting(Done(r, e)) == Waiting(r) - {e.w}
    ensures !Takes(e) && !e.Begin? ==> Waiting(Done(r, e)) == Waiting(r)
  {
  }

  lemma CountedStep(r: Row, e: Act)
    requires Counted(r)
    ensures Counted(After(r, e))
  {
  }

  lemma SomeoneCounts(r: Row)
    requires Counted(r) && r.runners != map[]
    ensures Bound(r) >= 1
  {
    var w :| w in r.runners;
    if r.runners[w] == Taken {
      assert Waiting(r) == (Waiting(r) - {w}) + {w};
    }
  }

  lemma BoundStep(r: Row, e: Act)
    requires Counted(r)
    ensures Counted(After(r, e))
    ensures !Takes(e) ==> Bound(After(r, e)) <= Bound(r)
    ensures Takes(e) && Possible(r, e) ==> Bound(After(r, e)) == Bound(r) + 1
    ensures r.runners != map[] ==> Bound(r) >= 1
  {
    hide Waiting, Counted;
    CountedStep(r, e);
    if r.runners != map[] {
      SomeoneCounts(r);
    }
    if Possible(r, e) {
      WaitingAfter(r, e);
    }
  }

  /** What can still be contacted by those already at work, without anyone else taking it up. */
  predicate OnlyBegins(acts: seq<Act>) {
    forall i :: 0 <= i < |acts| ==> acts[i].Begin?
  }

  lemma {:induction false} BeginsBounded(r: Row, acts: seq<Act>)
    requires Counted(r) && OnlyBegins(acts)
    ensures AfterAll(r, acts).contacts <= Bound(r)
    decreases |acts|
  {
    hide After, Counted;
    if acts == [] {
    } else {
      BoundStep(r, acts[0]);
      BeginsBounded(After(r, acts[0]), acts[1..]);
    }
  }

  lemma {:induction false} BeginsReach(r: Row) returns (acts: seq<Act>)
    requires Counted(r)
    ensures OnlyBegins(acts) && AfterAll(r, acts).contacts == Bound(r)
    decreases |Waiting(r)|
  {
    hide Counted;
    if Waiting(r) == {} {
      acts := [];
    } else {
      var w :| w in Waiting(r);
      var e := Begin(w, true);
      var t := After(r, e);
      assert Waiting(t) == Waiting(r) - {w};
      BoundStep(r, e);
      var more := BeginsReach(t);
      acts := [e] + more;
      assert acts[1..] == more;
    }
  }

  /** Those at work can bring the relays to two exactly when so many have begun or wait. */
  lemma TwiceIff(r: Row)
    requires Counted(r)
    ensures (exists acts :: OnlyBegins(acts) && AfterAll(r, acts).contacts >= 2) <==> Bound(r) >= 2
  {
    hide Counted, AfterAll;
    if Bound(r) >= 2 {
      var acts := BeginsReach(r);
      assert AfterAll(r, acts).contacts >= 2;
    }
    forall acts | OnlyBegins(acts) && AfterAll(r, acts).contacts >= 2 ensures Bound(r) >= 2 {
      BeginsBounded(r, acts);
    }
  }

  /** Somewhere along the run those at work can bring the relays to two. */
  ghost predicate CanRelayTwice(r: Row, acts: seq<Act>)
    decreases |acts|
  {
    (exists more :: OnlyBegins(more) && AfterAll(r, more).contacts >= 2) ||
    (acts != [] && CanRelayTwice(After(r, acts[0]), acts[1..]))
  }

  /**
   * Along a run of one operation, two relays come within reach exactly when some step takes
   * it up, by a check or by a claim, while another is still at work on it.
   */
  lemma RelayedTwiceIff(acts: seq<Act>)
    ensures CanRelayTwice(FRESH, acts) <==> SomeTakenTwice(FRESH, acts)
    ensures AfterAll(FRESH, acts).contacts >= 2 ==> SomeTakenTwice(FRESH, acts)
  {
    hide CanRelayTwice, SomeTakenTwice, AfterAll;
    assert Waiting(FRESH) == {};
    TwiceFrom(FRESH, acts);
    ContactsFrom(FRESH, acts);
  }

  /** Bounded by one unless taken up twice: what an unoverlapped row keeps. */
  ghost predicate Single(r: Row) {
    Counted(r) && Bound(r) <= 1 && (r.status == Pending && r.runners == map[] ==> r.contacts == 0)
    && (r.contacts >= 1 && r.runners == map[] ==> r.status != Pending)
  }

  lemma SingleStep(r: Row, e: Act)
    requires Single(r)
    ensures TakenTwice(r, e) <==> Bound(After(r, e)) >= 2
    ensures !TakenTwice(r, e) ==> Single(After(r, e))
  {
    BoundStep(r, e);
    if Possible(r, e) && Takes(e) && r.runners == map[] {
      assert Waiting(r) == {};
    }
    if Possible(r, e) && e.Finish? {
      assert After(r, e).status != Pending;
    }
    if Possible(r, e) && e.Begin? {
      assert e.w in Waiting(r);
      assert Waiting(After(r, e)) == Waiting(r) - {e.w};
      if !e.starts {
        assert r.contacts == 0 by { OneWaits(r, e.w); }
      } else {
        assert e.w in After(r, e).runners;
      }
    }
  }

  lemma OneWaits(r: Row, w: nat)
    requires Bound(r) <= 1 && w in Waiting(r)
    ensures r.contacts == 0
  {
    assert Waiting(r) == (Waiting(r) - {w}) + {w};
  }

  lemma {:induction false} TwiceFrom(r: Row, acts: seq<Act>)
    requires Single(r)
    ensures CanRelayTwice(r, acts) <==> SomeTakenTwice(r, acts)
    decreases |acts|
  {
    hide Single, After, TakenTwice, AfterAll, OnlyBegins;
    assert Counted(r) && Bound(r) <= 1 by { SingleMeans(r); }
    TwiceIff(r);
    if acts == [] {
    } else {
      SingleStep(r, acts[0]);
      var t := After(r, acts[0]);
      if TakenTwice(r, acts[0]) {
        assert Counted(t) by { SingleMeans(r); BoundStep(r, acts[0]); }
        TwiceIff(t);
        assert CanRelayTwice(t, acts[1..]);
      } else {
        TwiceFrom(t, acts[1..]);
      }
    }
  }

  lemma SingleMeans(r: Row)
    requires Single(r)
    ensures Counted(r) && Bound(r) <= 1
  {
  }

  lemma {:induction false} ContactsFrom(r: Row, acts: seq<Act>)
    requires Single(r)
    ensures AfterAll(r, acts).contacts >= 2 ==> SomeTakenTwice(r, acts)
    decreases |acts|
  {
    hide Single, After, TakenTwice;
    SingleMeans(r);
    if acts == [] {
    } else {
      SingleStep(r, acts[0]);
      if !TakenTwice(r, acts[0]) {
        ContactsFrom(After(r, acts[0]), acts[1..]);
      }
    }
  }

  /** Expired or rejected in the middle of an approval, and executed all the same. */
  lemma DecidedThenExecuted(w: nat, decision: Act)
    requires Decides(decision)
    ensures AfterAll(FRESH, [Check(w), decision]).status in {Expired, Rejected}
    ensures var r := AfterAll(FRESH, [Check(w), decision, Begin(w, true), Finish(w, true)]); r.status == Executed && r.contacts == 1
  {
    var a, b, c, e := Check(w), decision, Begin(w, true), Finish(w, true);
    assert [a, b][1..] == [b] && [b][1..] == [];
    assert [a, b, c, e][1..] == [b, c, e] && [b, c, e][1..] == [c, e] && [c, e][1..] == [e] && [e][1..] == [];
    var r1 := After(FRESH, a);
    var r2 := After(r1, b);
    var r3 := After(r2, c);
    assert AfterAll(FRESH, [a, b]) == AfterAll(r1, [b]) == AfterAll(r2, []);
    assert AfterAll(FRESH, [a, b, c, e]) == AfterAll(r1, [b, c, e]) == AfterAll(r2, [c, e]) == AfterAll(r3, [e]);
    assert AfterAll(r3, [e]) == AfterAll(After(r3, e), []);
  }
}
