// The outbound send limiter (gateway/send_rate_limiter.py) and the way
// gateway/execution.py grows the audit log it counts. Three ceilings: per agent
// and window, per account and window, per account and day.
module SendRate {
  import opened Wrappers

  const DAY_SECONDS := 86400

  /** The audit columns the counters read; recipientCount is json_extract(detail, '$.recipient_count'). */
  datatype LogRow = LogRow(
    timestamp: int, event: string, opType: string, agentId: Option<string>, recipientCount: Option<nat>)

  /** agent_credentials: id -> user_id. */
  type Owners = map<string, int>

  datatype Scope = AgentScope(agent: Option<string>) | AccountScope(user: int)

  datatype Config = Config(maxPerWindow: int, windowSeconds: int, accountPerWindow: int, accountPerDay: int)

  predicate InScope(owners: Owners, scope: Scope, row: LogRow) {
    && row.event == "executed" && row.opType == "smtp_send"
    && match scope
       case AgentScope(agent) => row.agentId == agent
       case AccountScope(user) => row.agentId.Some? && row.agentId.value in owners && owners[row.agentId.value] == user
  }

  /** Rows without a recorded recipient count weigh 1. */
  function Weight(row: LogRow): nat {
    match row.recipientCount case Some(n) => n case None => 1
  }

  /** The two SUM queries: rows of the scope stamped at or after since. */
  function RecentSends(owners: Owners, log: seq<LogRow>, scope: Scope, since: int): nat {
    if log == [] then 0
    else
      var last := log[|log| - 1];
      RecentSends(owners, log[..|log| - 1], scope, since) +
      if InScope(owners, scope, last) && last.timestamp >= since then Weight(last) else 0
  }

  datatype Refusal = Refusal(scope: string, used: int, requested: nat, cap: int, windowSeconds: int)

  /** One ceiling; a count that fails refuses the send. */
  function Check(name: string, cap: int, window: int, used: Option<nat>, requested: nat): Option<Refusal> {
    if cap <= 0 then None
    else match used
      case None => Some(Refusal(name, -1, requested, cap, window))
      case Some(n) => if n + requested > cap then Some(Refusal(name, n, requested, cap, window)) else None
  }

  function Counted(faults: set<string>, name: string, n: nat): Option<nat> {
    if name in faults then None else Some(n)
  }

  function Owner(owners: Owners, agent: Option<string>): Option<int> {
    if agent.Some? && agent.value in owners then Some(owners[agent.value]) else None
  }

  /** enforce_send_rate; faults names the ceilings whose count query raises. */
  function EnforceSendRate(cfg: Config, owners: Owners, log: seq<LogRow>, faults: set<string>,
                           agent: Option<string>, recipientCount: nat, now: int): (r: Option<Refusal>)
  {
    var requested := if recipientCount >= 1 then recipientCount else 1;
    var used := RecentSends(owners, log, AgentScope(agent), now - cfg.windowSeconds);
    var first := Check("agent", cfg.maxPerWindow, cfg.windowSeconds, Counted(faults, "agent", used), requested);
    if first.Some? then first
    else if cfg.accountPerWindow <= 0 && cfg.accountPerDay <= 0 then None
    else match Owner(owners, agent)
      case None => None
      case Some(user) =>
        var hourly := RecentSends(owners, log, AccountScope(user), now - cfg.windowSeconds);
        var second := Check("account", cfg.accountPerWindow, cfg.windowSeconds, Counted(faults, "account", hourly), requested);
        if second.Some? then second
        else
          var daily := RecentSends(owners, log, AccountScope(user), now - DAY_SECONDS);
          Check("account-daily", cfg.accountPerDay, DAY_SECONDS, Counted(faults, "account-daily", daily), requested)
  }

  // ----- ceilings -----

  datatype Ceiling = AgentWindow | AccountWindow | AccountDay

  function Cap(cfg: Config, c: Ceiling): int {
    match c case AgentWindow => cfg.maxPerWindow case AccountWindow => cfg.accountPerWindow case AccountDay => cfg.accountPerDay
  }

  function Window(cfg: Config, c: Ceiling): int {
    match c case AccountDay => DAY_SECONDS case _ => cfg.windowSeconds
  }

  /** The ceilings that apply to the sends of a scope. */
  predicate Governs(c: Ceiling, scope: Scope) {
    c.AgentWindow? == scope.AgentScope?
  }

  /** An admitted send leaves room under every enabled ceiling of every scope it counts for. */
  lemma AdmittedFits(cfg: Config, owners: Owners, log: seq<LogRow>, faults: set<string>, agent: Option<string>,
                     recipients: nat, now: int, row: LogRow, scope: Scope, c: Ceiling)
    requires recipients >= 1 && EnforceSendRate(cfg, owners, log, faults, agent, recipients, now) == None
    requires row.agentId == agent && Weight(row) == recipients && InScope(owners, scope, row)
    requires Governs(c, scope) && Cap(cfg, c) > 0
    ensures RecentSends(owners, log, scope, now - Window(cfg, c)) + Weight(row) <= Cap(cfg, c)
  {
    hide RecentSends;
  }

  // ----- serialised runs -----

  /** One pass through execute_operation for an SMTP send, or any other audit row. */
  datatype Event =
    | Send(agent: Option<string>, recipients: nat, checkedAt: int, stampedAt: int, faults: set<string>, relayed: bool)
    | Other(row: LogRow)

  function EndOf(e: Event): int {
    match e case Send(_, _, _, stampedAt, _, _) => stampedAt case Other(row) => row.timestamp
  }

  function StartOf(e: Event): int {
    match e case Send(_, _, checkedAt, _, _, _) => checkedAt case Other(row) => row.timestamp
  }

  /** Without recipients nothing is checked; a refused or failed send leaves a row of another kind. */
  function Step(cfg: Config, owners: Owners, log: seq<LogRow>, e: Event): seq<LogRow> {
    match e
    case Other(row) => log + [row]
    case Send(agent, recipients, checkedAt, stampedAt, faults, relayed) =>
      if recipients == 0 then log
      else if EnforceSendRate(cfg, owners, log, faults, agent, recipients, checkedAt).Some? then
        log + [LogRow(stampedAt, "send_rate_exceeded", "smtp_send", agent, None)]
      else if relayed then log + [LogRow(stampedAt, "executed", "smtp_send", agent, Some(recipients))]
      else log + [LogRow(stampedAt, "execution_failed", "smtp_send", agent, None)]
  }

  function Run(cfg: Config, owners: Owners, log: seq<LogRow>, events: seq<Event>): seq<LogRow>
    decreases |events|
  {
    if events == [] then log else Run(cfg, owners, Step(cfg, owners, log, events[0]), events[1..])
  }

  /** Only execute_operation writes executed smtp_send rows. */
  predicate NotASend(row: LogRow) {
    !(row.event == "executed" && row.opType == "smtp_send")
  }

  predicate ClockFrom(now: int, events: seq<Event>)
    decreases |events|
  {
    events == [] ||
    (now <= StartOf(events[0]) <= EndOf(events[0]) && ClockFrom(EndOf(events[0]), events[1..]) &&
     (events[0].Other? ==> NotASend(events[0].row)))
  }

  // ----- what a run keeps -----

  predicate StampsAscend(log: seq<LogRow>, now: int) {
    && (forall i :: 0 <= i < |log| ==> log[i].timestamp <= now)
    && (forall i, j :: 0 <= i < j < |log| ==> log[i].timestamp <= log[j].timestamp)
  }

  /** Each row of the scope fitted, together with the rows before it in its own window. */
  predicate Fitted(owners: Owners, log: seq<LogRow>, scope: Scope, window: int, cap: int) {
    log == [] ||
    (var front, last := log[..|log| - 1], log[|log| - 1];
     Fitted(owners, front, scope, window, cap) &&
     (InScope(owners, scope, last) ==>
        RecentSends(owners, front, scope, last.timestamp - window) + Weight(last) <= cap))
  }

  lemma {:induction false} LaterSinceCountsLess(owners: Owners, log: seq<LogRow>, scope: Scope, a: int, b: int)
    requires a <= b
    ensures RecentSends(owners, log, scope, b) <= RecentSends(owners, log, scope, a)
  {
    if log == [] {
    } else {
      LaterSinceCountsLess(owners, log[..|log| - 1], scope, a, b);
    }
  }

  lemma StepAppends(cfg: Config, owners: Owners, log: seq<LogRow>, e: Event)
    ensures var log' := Step(cfg, owners, log, e);
            log' == log || (exists row :: log' == log + [row])
    ensures var log' := Step(cfg, owners, log, e);
            log' != log ==> |log'| == |log| + 1 && log'[..|log|] == log && log'[|log|].timestamp == EndOf(e)
  {
    hide EnforceSendRate;
    var log' := Step(cfg, owners, log, e);
    if log' != log {
      assert log' == log + [log'[|log|]];
    }
  }

  lemma StepKeepsStamps(cfg: Config, owners: Owners, log: seq<LogRow>, e: Event, now: int)
    requires StampsAscend(log, now) && now <= EndOf(e)
    ensures StampsAscend(Step(cfg, owners, log, e), EndOf(e))
  {
    hide Step;
    StepAppends(cfg, owners, log, e);
    var log' := Step(cfg, owners, log, e);
    if log' != log {
      assert forall i :: 0 <= i < |log| ==> log'[i] == log'[..|log|][i];
    }
  }

  /** A row that counts for a limiter scope was admitted, so it fitted when it was checked. */
  lemma StepRowFits(cfg: Config, owners: Owners, log: seq<LogRow>, e: Event, scope: Scope, c: Ceiling)
    requires Governs(c, scope) && Cap(cfg, c) > 0 && StartOf(e) <= EndOf(e) && (e.Other? ==> NotASend(e.row))
    requires Step(cfg, owners, log, e) != log
    ensures var log' := Step(cfg, owners, log, e);
            |log'| == |log| + 1 && (InScope(owners, scope, log'[|log|]) ==>
              RecentSends(owners, log, scope, EndOf(e) - Window(cfg, c)) + Weight(log'[|log|]) <= Cap(cfg, c))
  {
    hide RecentSends, EnforceSendRate;
    var row := Step(cfg, owners, log, e)[|log|];
    if InScope(owners, scope, row) {
      AdmittedFits(cfg, owners, log, e.faults, e.agent, e.recipients, e.checkedAt, row, scope, c);
      LaterSinceCountsLess(owners, log, scope, e.checkedAt - Window(cfg, c), EndOf(e) - Window(cfg, c));
    }
  }

  lemma StepKeepsFitted(cfg: Config, owners: Owners, log: seq<LogRow>, e: Event, scope: Scope, c: Ceiling)
    requires Governs(c, scope) && Cap(cfg, c) > 0 && StartOf(e) <= EndOf(e) && (e.Other? ==> NotASend(e.row))
    requires Fitted(owners, log, scope, Window(cfg, c), Cap(cfg, c))
    ensures Fitted(owners, Step(cfg, owners, log, e), scope, Window(cfg, c), Cap(cfg, c))
  {
    hide Step, RecentSends;
    StepAppends(cfg, owners, log, e);
    if Step(cfg, owners, log, e) != log {
      StepRowFits(cfg, owners, log, e, scope, c);
    }
  }

  lemma {:induction false} RunKeepsFitted(cfg: Config, owners: Owners, log: seq<LogRow>, events: seq<Event>,
                                          scope: Scope, c: Ceiling, now: int) returns (end: int)
    requires Governs(c, scope) && Cap(cfg, c) > 0 && ClockFrom(now, events)
    requires StampsAscend(log, now) && Fitted(owners, log, scope, Window(cfg, c), Cap(cfg, c))
    ensures var log' := Run(cfg, owners, log, events);
            StampsAscend(log', end) && Fitted(owners, log', scope, Window(cfg, c), Cap(cfg, c))
    decreases |events|
  {
    hide Fitted, StampsAscend, Step;
    if events == [] {
      end := now;
    } else {
      StepKeepsStamps(cfg, owners, log, events[0], now);
      StepKeepsFitted(cfg, owners, log, events[0], scope, c);
      end := RunKeepsFitted(cfg, owners, Step(cfg, owners, log, events[0]), events[1..], scope, c, EndOf(events[0]));
    }
  }

  /** Recipients recorded for a scope in the closed window [lo, hi]. */
  function RecordedIn(owners: Owners, log: seq<LogRow>, scope: Scope, lo: int, hi: int): nat {
    if log == [] then 0
    else
      var last := log[|log| - 1];
      RecordedIn(owners, log[..|log| - 1], scope, lo, hi) +
      if InScope(owners, scope, last) && lo <= last.timestamp <= hi then Weight(last) else 0
  }

  lemma {:induction false} RecordedUpToNow(owners: Owners, log: seq<LogRow>, scope: Scope, lo: int, hi: int)
    requires forall i :: 0 <= i < |log| ==> log[i].timestamp <= hi
    ensures RecordedIn(owners, log, scope, lo, hi) == RecentSends(owners, log, scope, lo)
  {
    if log == [] {
    } else {
      RecordedUpToNow(owners, log[..|log| - 1], scope, lo, hi);
    }
  }

  lemma {:induction false} FittedBoundsWindow(owners: Owners, log: seq<LogRow>, scope: Scope, window: int, cap: int, t: int)
    requires cap > 0 && Fitted(owners, log, scope, window, cap)
    requires forall i, j :: 0 <= i < j < |log| ==> log[i].timestamp <= log[j].timestamp
    ensures RecordedIn(owners, log, scope, t - window, t) <= cap
  {
    if log == [] {
    } else {
      var front, last := log[..|log| - 1], log[|log| - 1];
      FittedBoundsWindow(owners, front, scope, window, cap, t);
      if InScope(owners, scope, last) && last.timestamp <= t {
        RecordedUpToNow(owners, front, scope, t - window, t);
        LaterSinceCountsLess(owners, front, scope, last.timestamp - window, t - window);
      }
    }
  }

  /**
   * Over every serialised run, in every closed window ending at any time, the recipients
   * recorded as executed stay within each enabled ceiling, for every agent and account.
   */
  lemma EveryWindowBound(cfg: Config, owners: Owners, log: seq<LogRow>, events: seq<Event>, scope: Scope, c: Ceiling,
                         now: int, t: int)
    requires Governs(c, scope) && Cap(cfg, c) > 0 && ClockFrom(now, events)
    requires StampsAscend(log, now) && Fitted(owners, log, scope, Window(cfg, c), Cap(cfg, c))
    ensures RecordedIn(owners, Run(cfg, owners, log, events), scope, t - Window(cfg, c), t) <= Cap(cfg, c)
  {
    hide Fitted, Run;
    var _ := RunKeepsFitted(cfg, owners, log, events, scope, c, now);
    FittedBoundsWindow(owners, Run(cfg, owners, log, events), scope, Window(cfg, c), Cap(cfg, c), t);
  }

  /**
   * Serialisation is needed: two sends checked before either is stamped both pass, and
   * together record twice the cap at one instant.
   */
  lemma OverlappingSendsExceed(cap: nat, t: int)
    requires cap >= 1
    ensures var cfg := Config(cap, 3600, 0, 0);
            var row := LogRow(t, "executed", "smtp_send", Some("a"), Some(cap));
            && EnforceSendRate(cfg, map[], [], {}, Some("a"), cap, t) == None
            && RecordedIn(map[], [row, row], AgentScope(Some("a")), t - 3600, t) == 2 * cap > cap
  {
    var cfg := Config(cap, 3600, 0, 0);
    var row := LogRow(t, "executed", "smtp_send", Some("a"), Some(cap));
    assert RecentSends(map[], [], AgentScope(Some("a")), t - 3600) == 0;
    assert EnforceSendRate(cfg, map[], [], {}, Some("a"), cap, t) == None;
    assert [row, row][..1] == [row] && [row][..0] == [];
    assert RecordedIn(map[], [row], AgentScope(Some("a")), t - 3600, t) == cap;
  }

  // ----- who is refused -----

  /** Recipients of the executed sends of these agents, stamped from lo to hi; a send without a count is one. */
  function SentBy(log: seq<LogRow>, agents: set<Option<string>>, lo: int, hi: int): nat {
    if log == [] then 0
    else
      var last := log[|log| - 1];
      SentBy(log[..|log| - 1], agents, lo, hi) +
      if last.event == "executed" && last.opType == "smtp_send" && last.agentId in agents && lo <= last.timestamp <= hi
      then (if last.recipientCount.Some? then last.recipientCount.value else 1) else 0
  }

  /** The agents that share a ceiling with this one: itself, or all of its account. */
  function Sharing(owners: Owners, agent: Option<string>, c: Ceiling): set<Option<string>> {
    if c.AgentWindow? then {agent}
    else set a | a in owners && agent.Some? && agent.value in owners && owners[a] == owners[agent.value] :: Some(a)
  }

  /** The ceiling is set, applies, and cannot be counted or has no room for the recipients. */
  predicate Exceeds(cfg: Config, owners: Owners, log: seq<LogRow>, faults: set<string>, agent: Option<string>, recipients: nat,
                    now: int, c: Ceiling)
  {
    var (name, cap, window) := match c
      case AgentWindow => ("agent", cfg.maxPerWindow, cfg.windowSeconds)
      case AccountWindow => ("account", cfg.accountPerWindow, cfg.windowSeconds)
      case AccountDay => ("account-daily", cfg.accountPerDay, 86400);
    && cap > 0 && (c.AgentWindow? || (agent.Some? && agent.value in owners))
    && (name in faults
        || SentBy(log, Sharing(owners, agent, c), now - window, now) + (if recipients == 0 then 1 else recipients) > cap)
  }

  lemma {:induction false} SentByAgent(owners: Owners, log: seq<LogRow>, agent: Option<string>, lo: int, hi: int)
    ensures SentBy(log, {agent}, lo, hi) == RecordedIn(owners, log, AgentScope(agent), lo, hi)
  {
    if log == [] {
    } else {
      SentByAgent(owners, log[..|log| - 1], agent, lo, hi);
    }
  }

  lemma {:induction false} SentByAccount(owners: Owners, log: seq<LogRow>, agent: Option<string>, c: Ceiling, lo: int, hi: int)
    requires !c.AgentWindow? && agent.Some? && agent.value in owners
    ensures SentBy(log, Sharing(owners, agent, c), lo, hi) == RecordedIn(owners, log, AccountScope(owners[agent.value]), lo, hi)
  {
    if log == [] {
    } else {
      SentByAccount(owners, log[..|log| - 1], agent, c, lo, hi);
      var last := log[|log| - 1];
      assert last.agentId in Sharing(owners, agent, c) <==>
             last.agentId.Some? && last.agentId.value in owners && owners[last.agentId.value] == owners[agent.value];
    }
  }

  /**
   * A send is refused exactly when some enabled ceiling that applies to it cannot be counted, or the
   * recipients its agents sent to in that ceiling's own window up to now leave no room for these.
   */
  lemma RefusedIff(cfg: Config, owners: Owners, log: seq<LogRow>, faults: set<string>, agent: Option<string>, recipients: nat, now: int)
    requires forall i :: 0 <= i < |log| ==> log[i].timestamp <= now
    ensures EnforceSendRate(cfg, owners, log, faults, agent, recipients, now).Some? <==>
            exists c :: Exceeds(cfg, owners, log, faults, agent, recipients, now, c)
  {
    hide SentBy, RecordedIn, RecentSends, Sharing;
    var hour, day := now - cfg.windowSeconds, now - DAY_SECONDS;
    AloneInWindow(owners, agent);
    SentByAgent(owners, log, agent, hour, now);
    RecordedUpToNow(owners, log, AgentScope(agent), hour, now);
    if agent.Some? && agent.value in owners {
      var account := AccountScope(owners[agent.value]);
      SentByAccount(owners, log, agent, AccountWindow, hour, now);
      SentByAccount(owners, log, agent, AccountDay, day, now);
      RecordedUpToNow(owners, log, account, hour, now);
      RecordedUpToNow(owners, log, account, day, now);
    }
    CeilingIs(cfg, owners, log, faults, agent, recipients, now);
  }

  lemma CeilingIs(cfg: Config, owners: Owners, log: seq<LogRow>, faults: set<string>, agent: Option<string>, recipients: nat, now: int)
    ensures (exists c :: Exceeds(cfg, owners, log, faults, agent, recipients, now, c)) <==>
            Exceeds(cfg, owners, log, faults, agent, recipients, now, AgentWindow) ||
            Exceeds(cfg, owners, log, faults, agent, recipients, now, AccountWindow) ||
            Exceeds(cfg, owners, log, faults, agent, recipients, now, AccountDay)
  {
    hide Exceeds;
    forall c | Exceeds(cfg, owners, log, faults, agent, recipients, now, c)
      ensures c == AgentWindow || c == AccountWindow || c == AccountDay
    {
    }
  }

  /** The bound of every window, for the recipients these agents really sent to. */
  lemma EveryWindowSent(cfg: Config, owners: Owners, log: seq<LogRow>, events: seq<Event>, agent: Option<string>, c: Ceiling, now: int, t: int)
    requires Cap(cfg, c) > 0 && ClockFrom(now, events) && (!c.AgentWindow? ==> agent.Some? && agent.value in owners)
    requires var scope := if c.AgentWindow? then AgentScope(agent) else AccountScope(owners[agent.value]);
             StampsAscend(log, now) && Fitted(owners, log, scope, Window(cfg, c), Cap(cfg, c))
    ensures SentBy(Run(cfg, owners, log, events), Sharing(owners, agent, c), t - Window(cfg, c), t) <= Cap(cfg, c)
  {
    hide Run, Fitted, StampsAscend, RecordedIn, SentBy, Sharing;
    var end := Run(cfg, owners, log, events);
    if c.AgentWindow? {
      assert Sharing(owners, agent, c) == {agent} by { AloneInWindow(owners, agent); }
      SentByAgent(owners, end, agent, t - Window(cfg, c), t);
      EveryWindowBound(cfg, owners, log, events, AgentScope(agent), c, now, t);
    } else {
      SentByAccount(owners, end, agent, c, t - Window(cfg, c), t);
      EveryWindowBound(cfg, owners, log, events, AccountScope(owners[agent.value]), c, now, t);
    }
  }

  lemma AloneInWindow(owners: Owners, agent: Option<string>)
    ensures Sharing(owners, agent, AgentWindow) == {agent}
  {
  }

  // ----- every send counts -----

  /** Recipients of all executed sends of the agent in the log. */
  function Recorded(log: seq<LogRow>, agent: Option<string>): nat {
    if log == [] then 0
    else
      var last := log[|log| - 1];
      Recorded(log[..|log| - 1], agent) +
      if last.event == "executed" && last.opType == "smtp_send" && last.agentId == agent
      then (if last.recipientCount.Some? then last.recipientCount.value else 1) else 0
  }

  /** Recipients of the agent's sends in the run that were let through and relayed. */
  function Relayed(cfg: Config, owners: Owners, log: seq<LogRow>, events: seq<Event>, agent: Option<string>): nat
    decreases |events|
  {
    if events == [] then 0
    else
      (match events[0]
       case Send(sender, recipients, checkedAt, _, faults, relayed) =>
         if sender == agent && relayed && EnforceSendRate(cfg, owners, log, faults, sender, recipients, checkedAt) == None then recipients else 0
       case Other(_) => 0)
      + Relayed(cfg, owners, Step(cfg, owners, log, events[0]), events[1..], agent)
  }

  lemma RecordedOne(log: seq<LogRow>, row: LogRow, agent: Option<string>)
    ensures Recorded(log + [row], agent) == Recorded(log, agent) +
            if row.event == "executed" && row.opType == "smtp_send" && row.agentId == agent
            then (if row.recipientCount.Some? then row.recipientCount.value else 1) else 0
  {
    assert (log + [row])[..|log|] == log;
  }

  lemma StepRecords(cfg: Config, owners: Owners, log: seq<LogRow>, e: Event, agent: Option<string>)
    requires e.Other? ==> NotASend(e.row)
    ensures Recorded(Step(cfg, owners, log, e), agent) == Recorded(log, agent) +
            if e.Send? && e.agent == agent && e.relayed
               && EnforceSendRate(cfg, owners, log, e.faults, e.agent, e.recipients, e.checkedAt) == None
            then e.recipients else 0
  {
    hide Recorded, EnforceSendRate;
    var after := Step(cfg, owners, log, e);
    if after != log {
      RecordedOne(log, after[|log|], agent);
    }
  }

  /** Over every run the log records, for each agent, exactly the recipients its admitted and relayed sends went to. */
  lemma {:induction false} EverySendCounts(cfg: Config, owners: Owners, log: seq<LogRow>, events: seq<Event>, agent: Option<string>)
    requires forall i :: 0 <= i < |events| && events[i].Other? ==> NotASend(events[i].row)
    ensures Recorded(Run(cfg, owners, log, events), agent) == Recorded(log, agent) + Relayed(cfg, owners, log, events, agent)
    decreases |events|
  {
    hide Step, Recorded, EnforceSendRate;
    if events == [] {
    } else {
      StepRecords(cfg, owners, log, events[0], agent);
      EverySendCounts(cfg, owners, Step(cfg, owners, log, events[0]), events[1..], agent);
    }
  }
}
