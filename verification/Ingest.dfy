/** The ingest worker's retry state machine and dead-letter replay: one worker, each
    event processed atomically, the handler's outcome arbitrary. */
module Ingest {
  import opened Options

  type EventId = string

  datatype Status = Queued | Processing | Processed | Rejected | DeadLettered

  /** What the handler did: three answers, or a throw. */
  datatype Outcome = Success | RetryableFailure | NonRetryableFailure | Throws

  datatype Event = Event(status: Status, attempts: nat, nextAttemptAt: Option<real>)

  datatype Config = Config(maxRetryAttempts: nat, initialRetryDelayMs: real, maxRetryDelayMs: real,
                           retryBackoffMultiplier: real)

  /** A handler run, kept as history. */
  datatype HandlerRun = HandlerRun(event: EventId, outcome: Outcome)

  /** The collections. Events are unique by id; a document without an id is the one
      under the empty id. A dead letter remembers the attempts it was buried with. */
  datatype Store = Store(events: map<EventId, Event>, deadLetters: map<EventId, nat>,
                         records: set<EventId>, runs: seq<HandlerRun>)

  /** Missing or zero settings fall back to defaults; a given setting is kept. */
  function Resolve(c: Config): (r: Config)
    ensures r.maxRetryAttempts > 0
    ensures c.maxRetryAttempts > 0 ==> r.maxRetryAttempts == c.maxRetryAttempts
    ensures c.initialRetryDelayMs != 0.0 ==> r.initialRetryDelayMs == c.initialRetryDelayMs
    ensures c.maxRetryDelayMs != 0.0 ==> r.maxRetryDelayMs == c.maxRetryDelayMs
    ensures c.retryBackoffMultiplier != 0.0 ==> r.retryBackoffMultiplier == c.retryBackoffMultiplier
    ensures c == Config(0, 0.0, 0.0, 0.0) ==> r == Config(5, 1000.0, 60000.0, 2.0)
    ensures r.initialRetryDelayMs != 0.0 && r.maxRetryDelayMs != 0.0 && r.retryBackoffMultiplier != 0.0
  {
    Config(if c.maxRetryAttempts == 0 then 5 else c.maxRetryAttempts,
           if c.initialRetryDelayMs == 0.0 then 1000.0 else c.initialRetryDelayMs,
           if c.maxRetryDelayMs == 0.0 then 60000.0 else c.maxRetryDelayMs,
           if c.retryBackoffMultiplier == 0.0 then 2.0 else c.retryBackoffMultiplier)
  }

  // ------------------------------------------------------------------ retry delays

  function Power(base: real, n: nat): real { if n == 0 then 1.0 else base * Power(base, n - 1) }

  /** The first delay, then each the multiplier times the one before. */
  function Uncapped(cfg: Config, attempts: nat): real
    requires attempts > 0
  {
    if attempts == 1 then cfg.initialRetryDelayMs else cfg.retryBackoffMultiplier * Uncapped(cfg, attempts - 1)
  }

  function Delay(cfg: Config, attempts: nat): real
    requires attempts > 0
  {
    if Uncapped(cfg, attempts) < cfg.maxRetryDelayMs then Uncapped(cfg, attempts) else cfg.maxRetryDelayMs
  }

  /** The power formula computes the recurrence. */
  lemma {:induction false} PowerIsUncapped(cfg: Config, attempts: nat)
    requires attempts > 0
    ensures cfg.initialRetryDelayMs * Power(cfg.retryBackoffMultiplier, attempts - 1) == Uncapped(cfg, attempts)
  {
    if attempts > 1 {
      var (x, m, p) := (cfg.initialRetryDelayMs, cfg.retryBackoffMultiplier, Power(cfg.retryBackoffMultiplier, attempts - 2));
      PowerIsUncapped(cfg, attempts - 1);
      assert x * (m * p) == m * (x * p);
    }
  }

  lemma {:induction false} UncappedGrows(cfg: Config, a: nat, b: nat)
    requires 0 < a <= b && cfg.retryBackoffMultiplier >= 1.0 && cfg.initialRetryDelayMs >= 0.0
    ensures 0.0 <= Uncapped(cfg, a) <= Uncapped(cfg, b)
    decreases b
  {
    if a < b {
      UncappedGrows(cfg, a, b - 1);
      assert (cfg.retryBackoffMultiplier - 1.0) * Uncapped(cfg, b - 1) >= 0.0;
    } else if a > 1 {
      UncappedGrows(cfg, a - 1, b - 1);
      assert cfg.retryBackoffMultiplier * Uncapped(cfg, a - 1) >= 0.0;
    }
  }

  /** Delays never shrink from one attempt to a later one and never exceed the cap. */
  lemma DelaysGrow(cfg: Config, a: nat, b: nat)
    requires 0 < a <= b && cfg.retryBackoffMultiplier >= 1.0 && cfg.initialRetryDelayMs >= 0.0
    ensures Delay(cfg, a) <= Delay(cfg, b) <= cfg.maxRetryDelayMs
  {
    UncappedGrows(cfg, a, b);
  }

  /** The first delay is the initial one and the second the multiplier times it, each cut off
      at the cap. */
  lemma FirstDelays(cfg: Config)
    ensures Delay(cfg, 1) == if cfg.initialRetryDelayMs < cfg.maxRetryDelayMs then cfg.initialRetryDelayMs else cfg.maxRetryDelayMs
    ensures var second := cfg.retryBackoffMultiplier * cfg.initialRetryDelayMs;
            Delay(cfg, 2) == if second < cfg.maxRetryDelayMs then second else cfg.maxRetryDelayMs
  {
  }

  // ------------------------------------------------------------------- one claim

  predicate Live(s: Store, id: EventId) {
    id in s.events && (s.events[id].status == Queued || s.events[id].status == Processing)
  }

  predicate Done(s: Store, id: EventId) {
    id in s.events && (s.events[id].status == Processed || s.events[id].status == DeadLettered)
  }

  function SetStatus(s: Store, id: EventId, status: Status): Store
    requires id in s.events
  {
    s.(events := s.events[id := s.events[id].(status := status)])
  }

  /** Inserting a dead letter fails without an event id and when one exists already. */
  predicate Buriable(s: Store, id: EventId) { id != "" && id !in s.deadLetters }

  function Bury(s: Store, id: EventId): Store
    requires id in s.events
  {
    SetStatus(s.(deadLetters := s.deadLetters[id := s.events[id].attempts]), id, DeadLettered)
  }

  /** A retryable failure: requeue, or dead-letter when attempts are used up. When the
      dead letter cannot be inserted the throw leaves the event in processing. */
  function Retry(cfg: Config, s: Store, id: EventId, now: real): Store
    requires id in s.events && s.events[id].attempts > 0
  {
    if s.events[id].attempts < cfg.maxRetryAttempts then
      s.(events := s.events[id := Event(Queued, s.events[id].attempts, Some(now + Delay(cfg, s.events[id].attempts)))])
    else if Buriable(s, id) then Bury(s, id)
    else s
  }

  /** Everything one call of the worker does for one event. */
  function Process(cfg: Config, s: Store, id: EventId, outcome: Outcome, now: real): Store {
    if !Live(s, id) then s
    else
      var e := s.events[id];
      var claimed := s.(events := s.events[id := Event(Processing, e.attempts + 1, e.nextAttemptAt)]);
      if id == "" then Retry(cfg, claimed, id, now)
      else if id in s.records then SetStatus(claimed, id, Processed)
      else
        var ran := claimed.(runs := s.runs + [HandlerRun(id, outcome)]);
        match outcome
        case Success => SetStatus(ran, id, Processed).(records := s.records + {id})
        case NonRetryableFailure => if Buriable(ran, id) then Bury(ran, id) else Retry(cfg, ran, id, now)
        case RetryableFailure | Throws => Retry(cfg, ran, id, now)
  }

  /** Replay of one dead letter: skipped once processed, else requeued from scratch. */
  function ReplayOne(s: Store, id: EventId, now: real): Store {
    if id in s.records then s
    else s.(events := s.events[id := Event(Queued, 0, if id in s.events then Some(now) else None)])
  }

  function ReplayAll(s: Store, ids: seq<EventId>, now: real): Store {
    if ids == [] then s else ReplayOne(ReplayAll(s, ids[..|ids| - 1], now), ids[|ids| - 1], now)
  }

  // ------------------------------------------------------------- worker and replay

  class Database {
    var events: map<EventId, Event>
    var deadLetters: map<EventId, nat>
    var records: set<EventId>
    var runs: seq<HandlerRun>

    constructor ()
      ensures View() == EMPTY
    {
      events, deadLetters, records, runs := map[], map[], {}, [];
    }

    function View(): Store
      reads this
    {
      Store(events, deadLetters, records, runs)
    }
  }

  const EMPTY := Store(map[], map[], {}, [])

  class IngestWorker {
    const db: Database
    const config: Config

    constructor (db: Database, config: Config)
      ensures this.db == db && this.config == Resolve(config)
    {
      this.db := db;
      this.config := Resolve(config);
    }

    method CalculateNextAttempt(attempts: nat, now: real) returns (at: real)
      requires attempts > 0
      ensures at == now + Delay(config, attempts) <= now + config.maxRetryDelayMs
    {
      PowerIsUncapped(config, attempts);
      var delay := config.initialRetryDelayMs * Power(config.retryBackoffMultiplier, attempts - 1);
      at := now + if delay < config.maxRetryDelayMs then delay else config.maxRetryDelayMs;
    }

    /** Returns false when inserting the dead letter throws. */
    method MoveToDLQ(id: EventId) returns (moved: bool)
      requires id in db.events
      modifies db
      ensures moved == Buriable(old(db.View()), id)
      ensures db.View() == if moved then Bury(old(db.View()), id) else old(db.View())
    {
      if id == "" || id in db.deadLetters {
        return false;
      }
      db.deadLetters := db.deadLetters[id := db.events[id].attempts];
      db.events := db.events[id := db.events[id].(status := DeadLettered)];
      return true;
    }

    method HandleRetryable(id: EventId, now: real) returns (threw: bool)
      requires id in db.events && db.events[id].attempts > 0
      modifies db
      ensures db.View() == Retry(config, old(db.View()), id, now)
      ensures threw ==> db.View() == old(db.View())
    {
      var attempts := db.events[id].attempts;
      if attempts >= config.maxRetryAttempts {
        var moved := MoveToDLQ(id);
        return !moved;
      }
      var at := CalculateNextAttempt(attempts, now);
      db.events := db.events[id := Event(Queued, attempts, Some(at))];
      return false;
    }

    method ProcessEvent(id: EventId, outcome: Outcome, now: real)
      modifies db
      ensures db.View() == Process(config, old(db.View()), id, outcome, now)
    {
      if id !in db.events || !(db.events[id].status == Queued || db.events[id].status == Processing) {
        return;
      }
      var e := db.events[id];
      db.events := db.events[id := Event(Processing, e.attempts + 1, e.nextAttemptAt)];
      var threw := false;
      if id == "" {
        var moved := MoveToDLQ(id);
        threw := !moved;
      } else if id in db.records {
        db.events := db.events[id := db.events[id].(status := Processed)];
      } else {
        db.runs := db.runs + [HandlerRun(id, outcome)];
        match outcome {
          case Success =>
            db.events := db.events[id := db.events[id].(status := Processed)];
            db.records := db.records + {id};
          case RetryableFailure =>
            threw := HandleRetryable(id, now);
          case NonRetryableFailure =>
            var moved := MoveToDLQ(id);
            threw := !moved;
          case Throws =>
            threw := true;
        }
      }
      if threw {
        var again := HandleRetryable(id, now);
      }
    }
  }

  datatype ReplayResult = ReplayResult(totalReplayed: nat, successful: nat, failed: nat, skipped: nat)

  class ReplayController {
    const db: Database

    constructor (db: Database)
      ensures this.db == db
    {
      this.db := db;
    }

    /** `ids` are the dead letters the query selected, oldest first. */
    method Replay(ids: seq<EventId>, now: real) returns (result: ReplayResult)
      requires forall k :: 0 <= k < |ids| ==> ids[k] in db.deadLetters
      modifies db
      ensures db.View() == ReplayAll(old(db.View()), ids, now)
      ensures result.totalReplayed + result.skipped == |ids|
      ensures result.successful == result.totalReplayed && result.failed == 0
      ensures result.skipped == |Recorded(ids, old(db.records))|
    {
      var successful, skipped := 0, 0;
      for i := 0 to |ids|
        invariant db.View() == ReplayAll(old(db.View()), ids[..i], now)
        invariant db.records == old(db.records)
        invariant successful + skipped == i && skipped == |Recorded(ids[..i], old(db.records))|
      {
        assert ids[..i + 1][..i] == ids[..i];
        if ids[i] in db.records {
          skipped := skipped + 1;
        } else {
          db.events := db.events[ids[i] := Event(Queued, 0, if ids[i] in db.events then Some(now) else None)];
          successful := successful + 1;
        }
      }
      assert ids[..|ids|] == ids;
      result := ReplayResult(successful, successful, 0, skipped);
    }
  }

  /** The selected ids that are already processed. */
  function Recorded(ids: seq<EventId>, records: set<EventId>): seq<EventId> {
    if ids == [] then []
    else Recorded(ids[..|ids| - 1], records) + if ids[|ids| - 1] in records then [ids[|ids| - 1]] else []
  }

  // ------------------------------------------------------------------------- runs

  datatype Action =
    | Enqueue(id: EventId)
    | Work(id: EventId, outcome: Outcome, now: real)
    | Replays(ids: seq<EventId>, now: real)

  /** A new event is refused without an id or when its id is taken; replay takes dead letters only. */
  function Step(cfg: Config, s: Store, a: Action): Store {
    match a
    case Enqueue(id) => if id == "" || id in s.events then s else s.(events := s.events[id := Event(Queued, 0, None)])
    case Work(id, outcome, now) => Process(cfg, s, id, outcome, now)
    case Replays(ids, now) =>
      if forall k :: 0 <= k < |ids| ==> ids[k] in s.deadLetters then ReplayAll(s, ids, now) else s
  }

  function Exec(cfg: Config, s: Store, acts: seq<Action>): Store {
    if acts == [] then s else Step(cfg, Exec(cfg, s, acts[..|acts| - 1]), acts[|acts| - 1])
  }

  /** How often the handler has run, and succeeded, on an event. */
  function Runs(runs: seq<HandlerRun>, id: EventId): nat {
    if runs == [] then 0 else Runs(runs[..|runs| - 1], id) + if runs[|runs| - 1].event == id then 1 else 0
  }

  function Successes(runs: seq<HandlerRun>, id: EventId): nat {
    if runs == [] then 0
    else Successes(runs[..|runs| - 1], id) + if runs[|runs| - 1] == HandlerRun(id, Success) then 1 else 0
  }

  /** An event is processed exactly when it has its idempotency record, and then the
      handler succeeded on it exactly once; otherwise never. */
  ghost predicate AtMostOnce(s: Store) {
    && (forall id :: id in s.records <==> id in s.events && s.events[id].status == Processed)
    && (forall id :: Successes(s.runs, id) == if id in s.records then 1 else 0)
  }

  lemma SuccessesAppend(runs: seq<HandlerRun>, run: HandlerRun, id: EventId)
    ensures Successes(runs + [run], id) == Successes(runs, id) + if run == HandlerRun(id, Success) then 1 else 0
    ensures Runs(runs + [run], id) == Runs(runs, id) + if run.event == id then 1 else 0
  {
    assert (runs + [run])[..|runs|] == runs;
  }

  /** A failure writes no record and runs no handler; it leaves the event unprocessed. */
  lemma RetryEffect(cfg: Config, s: Store, id: EventId, now: real)
    requires id in s.events && s.events[id].attempts > 0
    ensures var s' := Retry(cfg, s, id, now);
            && s'.records == s.records && s'.runs == s.runs && s'.events.Keys == s.events.Keys
            && (s'.events[id].status == Processed ==> s.events[id].status == Processed)
            && forall x :: x in s.events && x != id ==> s'.events[x] == s.events[x]
  {
  }

  /** What one call of the worker does to records, runs and statuses. */
  lemma ProcessEffect(cfg: Config, s: Store, id: EventId, outcome: Outcome, now: real)
    requires Live(s, id)
    ensures var s' := Process(cfg, s, id, outcome, now);
            && s'.events.Keys == s.events.Keys
            && (forall x :: x in s.events && x != id ==> s'.events[x] == s.events[x])
            && s'.records == s.records + (if id != "" && id !in s.records && outcome == Success then {id} else {})
            && s'.runs == s.runs + (if id == "" || id in s.records then [] else [HandlerRun(id, outcome)])
            && (s'.events[id].status == Processed <==> id != "" && (id in s.records || outcome == Success))
  {
    var e := s.events[id];
    var claimed := s.(events := s.events[id := Event(Processing, e.attempts + 1, e.nextAttemptAt)]);
    RetryEffect(cfg, claimed, id, now);
    RetryEffect(cfg, claimed.(runs := s.runs + [HandlerRun(id, outcome)]), id, now);
  }

  lemma ProcessKeeps(cfg: Config, s: Store, id: EventId, outcome: Outcome, now: real)
    requires AtMostOnce(s)
    ensures AtMostOnce(Process(cfg, s, id, outcome, now))
  {
    if Live(s, id) {
      ProcessEffect(cfg, s, id, outcome, now);
      var s' := Process(cfg, s, id, outcome, now);
      forall x ensures Successes(s'.runs, x) == if x in s'.records then 1 else 0 {
        SuccessesAppend(s.runs, HandlerRun(id, outcome), x);
        assert s.runs + [] == s.runs;
      }
    }
  }

  lemma {:induction false} ReplayKeeps(s: Store, ids: seq<EventId>, now: real)
    requires AtMostOnce(s)
    ensures AtMostOnce(ReplayAll(s, ids, now))
    ensures ReplayAll(s, ids, now).records == s.records && ReplayAll(s, ids, now).runs == s.runs
    ensures ReplayAll(s, ids, now).deadLetters == s.deadLetters
  {
    if ids != [] {
      ReplayKeeps(s, ids[..|ids| - 1], now);
    }
  }

  lemma StepKeeps(cfg: Config, s: Store, a: Action)
    requires AtMostOnce(s)
    ensures AtMostOnce(Step(cfg, s, a))
  {
    match a
    case Enqueue(_) =>
    case Work(id, outcome, now) => ProcessKeeps(cfg, s, id, outcome, now);
    case Replays(ids, now) => ReplayKeeps(s, ids, now);
  }

  /** Over every serial run of arrivals, worker steps and replays. */
  lemma {:induction false} AtMostOnceHolds(cfg: Config, acts: seq<Action>)
    ensures AtMostOnce(Exec(cfg, EMPTY, acts))
  {
    if acts != [] {
      AtMostOnceHolds(cfg, acts[..|acts| - 1]);
      StepKeeps(cfg, Exec(cfg, EMPTY, acts[..|acts| - 1]), acts[|acts| - 1]);
    }
  }

  lemma RecordedStep(cfg: Config, s: Store, a: Action, id: EventId)
    requires AtMostOnce(s) && id in s.records
    ensures var s' := Step(cfg, s, a);
            id in s'.records && Runs(s'.runs, id) == Runs(s.runs, id)
  {
    match a
    case Enqueue(_) =>
    case Work(other, outcome, now) =>
      if Live(s, other) {
        ProcessEffect(cfg, s, other, outcome, now);
        SuccessesAppend(s.runs, HandlerRun(other, outcome), id);
      }
    case Replays(ids, now) => ReplayKeeps(s, ids, now);
  }

  /** Once an event is recorded, neither the worker nor a replay makes the handler run on
      it again, with any outcome. */
  lemma {:induction false} NeverRunAgain(cfg: Config, acts: seq<Action>, more: seq<Action>, id: EventId)
    requires id in Exec(cfg, EMPTY, acts).records
    ensures var s, s' := Exec(cfg, EMPTY, acts), Exec(cfg, EMPTY, acts + more);
            id in s'.records && Runs(s'.runs, id) == Runs(s.runs, id)
  {
    if more == [] {
      assert acts + more == acts;
    } else {
      var n := |more| - 1;
      NeverRunAgain(cfg, acts, more[..n], id);
      assert (acts + more)[..|acts + more| - 1] == acts + more[..n];
      AtMostOnceHolds(cfg, acts + more[..n]);
      RecordedStep(cfg, Exec(cfg, EMPTY, acts + more[..n]), more[n], id);
    }
  }

  // ---------------------------------------------------------------- what a claim does

  /** A claim that the worker can make finds the event queued or in processing; any other
      event is left alone. */
  lemma ClaimsExactly(cfg: Config, s: Store, id: EventId, outcome: Outcome, now: real)
    ensures !(id in s.events && (s.events[id].status == Queued || s.events[id].status == Processing)) ==>
              Process(cfg, s, id, outcome, now) == s
    ensures Process(cfg, s, id, outcome, now) == s ==>
              !(id in s.events && (s.events[id].status == Queued || s.events[id].status == Processing))
  {
    if Live(s, id) && id != "" {
      ProcessEffect(cfg, s, id, outcome, now);
      ClaimChanges(cfg, s, id, outcome, now);
    }
  }

  /** A claim of a live event uses up an attempt, whatever else it does. */
  lemma ClaimChanges(cfg: Config, s: Store, id: EventId, outcome: Outcome, now: real)
    requires Live(s, id)
    ensures id in Process(cfg, s, id, outcome, now).events
    ensures Process(cfg, s, id, outcome, now).events[id].attempts == s.events[id].attempts + 1
  {
  }

  /** A failure that may be retried, by an answer or by a throw, with attempts to spare: the
      event is queued again, with its next attempt after the delay for the attempts used, and
      no dead letter is written. */
  lemma RetryRequeues(cfg: Config, s: Store, id: EventId, outcome: Outcome, now: real)
    requires Live(s, id) && id != "" && id !in s.records && (outcome == RetryableFailure || outcome == Throws)
    requires s.events[id].attempts + 1 < cfg.maxRetryAttempts
    ensures var (s', n) := (Process(cfg, s, id, outcome, now), s.events[id].attempts + 1);
            && s'.events == s.events[id := Event(Queued, n, Some(now + Delay(cfg, n)))]
            && s'.deadLetters == s.deadLetters && s'.records == s.records
  {
  }

  /** Without attempts to spare the event is dead-lettered, with the attempts used, when its
      dead letter can be inserted, and otherwise left in processing. */
  lemma LastFailureBuries(cfg: Config, s: Store, id: EventId, outcome: Outcome, now: real)
    requires Live(s, id) && id != "" && id !in s.records && (outcome == RetryableFailure || outcome == Throws)
    requires s.events[id].attempts + 1 >= cfg.maxRetryAttempts
    ensures var (s', e, n) := (Process(cfg, s, id, outcome, now), s.events[id], s.events[id].attempts + 1);
            var status := if id in s.deadLetters then Processing else DeadLettered;
            && s'.events == s.events[id := Event(status, n, e.nextAttemptAt)] && s'.records == s.records
            && s'.deadLetters == if id in s.deadLetters then s.deadLetters else s.deadLetters[id := n]
  {
  }

  /** A failure that may not be retried dead-letters the event at once. When its dead letter
      exists already, the throw is treated as a failure that may be retried. */
  lemma FatalFailureBuries(cfg: Config, s: Store, id: EventId, now: real)
    requires Live(s, id) && id != "" && id !in s.records
    ensures var (s', e, n) := (Process(cfg, s, id, NonRetryableFailure, now), s.events[id], s.events[id].attempts + 1);
            if id !in s.deadLetters then
              s' == Store(s.events[id := Event(DeadLettered, n, e.nextAttemptAt)], s.deadLetters[id := n], s.records,
                          s.runs + [HandlerRun(id, NonRetryableFailure)])
            else
              s'.events == Process(cfg, s, id, Throws, now).events && s'.deadLetters == s.deadLetters
  {
  }

  /** A success processes and records the event. A recorded event is processed without the
      handler. */
  lemma SuccessProcesses(cfg: Config, s: Store, id: EventId, outcome: Outcome, now: real)
    requires Live(s, id) && id != "" && (id in s.records || outcome == Success)
    ensures var (e, n) := (s.events[id], s.events[id].attempts + 1);
            Process(cfg, s, id, outcome, now)
            == Store(s.events[id := Event(Processed, n, e.nextAttemptAt)], s.deadLetters, s.records + {id},
                     if id in s.records then s.runs else s.runs + [HandlerRun(id, outcome)])
  {
    assert id in s.records ==> s.records + {id} == s.records;
  }

  /** Over runs: the action that dead-letters an event in its first life is a claim, on which
      the handler failed for good, or failed on the last attempt. */
  lemma BuriedExactly(cfg: Config, s: Store, a: Action, id: EventId)
    requires id != "" && Live(s, id) && id !in s.records && id !in s.deadLetters
    ensures var s' := Step(cfg, s, a);
            && id in s'.events
            && (s'.events[id].status == DeadLettered <==>
                  && a.Work? && a.id == id
                  && (a.outcome == NonRetryableFailure
                      || (a.outcome != Success && s.events[id].attempts + 1 >= cfg.maxRetryAttempts)))
            && (id in s'.deadLetters <==> s'.events[id].status == DeadLettered)
  {
    match a
    case Enqueue(_) =>
    case Work(other, outcome, now) =>
      if other != id {
        OthersLeaveIt(cfg, s, a, id);
      } else if outcome == Success {
        SuccessProcesses(cfg, s, id, outcome, now);
      } else if outcome == NonRetryableFailure {
        FatalFailureBuries(cfg, s, id, now);
      } else if s.events[id].attempts + 1 < cfg.maxRetryAttempts {
        RetryRequeues(cfg, s, id, outcome, now);
      } else {
        LastFailureBuries(cfg, s, id, outcome, now);
      }
    case Replays(ids, now) =>
      if forall k :: 0 <= k < |ids| ==> ids[k] in s.deadLetters {
        assert id !in ids;
        ReplayOthers(s, ids, now, id);
      }
  }

  /** A replay queues each selected event that is not recorded, from scratch and, when it still
      exists, for now; it leaves every other event, and the dead letters, as they are. */
  lemma {:induction false} ReplaysExactly(s: Store, ids: seq<EventId>, now: real, id: EventId)
    ensures var s' := ReplayAll(s, ids, now);
            && s'.deadLetters == s.deadLetters && s'.records == s.records && s'.runs == s.runs
            && (if id in ids && id !in s.records then
                  && id in s'.events && s'.events[id].status == Queued && s'.events[id].attempts == 0
                  && (id in s.events ==> s'.events[id].nextAttemptAt == Some(now))
                else
                  && (id in s'.events <==> id in s.events)
                  && (id in s.events ==> s'.events[id] == s.events[id]))
  {
    if ids != [] {
      var n := |ids| - 1;
      ReplaysExactly(s, ids[..n], now, id);
      assert ids == ids[..n] + [ids[n]];
    }
  }

  // ------------------------------------------------------------------ termination

  /** An event that has not been replayed: still live with attempts to spare and no dead
      letter, or finished. */
  predicate FirstLife(cfg: Config, s: Store, id: EventId) {
    Done(s, id) || (Live(s, id) && s.events[id].attempts < cfg.maxRetryAttempts && id !in s.deadLetters)
  }

  /** A claim finishes the event or uses up one of its attempts. */
  lemma ClaimProgress(cfg: Config, s: Store, id: EventId, outcome: Outcome, now: real)
    requires FirstLife(cfg, s, id) && id != ""
    ensures var s' := Process(cfg, s, id, outcome, now);
            FirstLife(cfg, s', id) && (Done(s', id) || s'.events[id].attempts == s.events[id].attempts + 1)
  {
  }

  predicate Claims(a: Action, id: EventId) { a.Work? && a.id == id }

  predicate Revives(a: Action, id: EventId) { a.Replays? && id in a.ids }

  function ClaimCount(acts: seq<Action>, id: EventId): nat {
    if acts == [] then 0 else ClaimCount(acts[..|acts| - 1], id) + if Claims(acts[|acts| - 1], id) then 1 else 0
  }

  lemma {:induction false} ReplayOthers(s: Store, ids: seq<EventId>, now: real, id: EventId)
    requires id !in ids
    ensures id in ReplayAll(s, ids, now).events <==> id in s.events
    ensures id in s.events ==> ReplayAll(s, ids, now).events[id] == s.events[id]
    ensures ReplayAll(s, ids, now).deadLetters == s.deadLetters
  {
    if ids != [] {
      ReplayOthers(s, ids[..|ids| - 1], now, id);
    }
  }

  /** Nothing but a claim or a replay of the event itself touches it. */
  lemma OthersLeaveIt(cfg: Config, s: Store, a: Action, id: EventId)
    requires id in s.events && !Claims(a, id) && !Revives(a, id)
    ensures var s' := Step(cfg, s, a);
            id in s'.events && s'.events[id] == s.events[id] && (id in s'.deadLetters <==> id in s.deadLetters)
  {
    if a.Replays? { ReplayOthers(s, a.ids, a.now, id); }
  }

  /** Whatever the handler does and whatever else is processed in between, an event that is
      not replayed is processed or dead-lettered after at most `maxRetryAttempts` claims. */
  lemma {:induction false} Terminates(cfg: Config, s: Store, acts: seq<Action>, id: EventId)
    requires FirstLife(cfg, s, id) && id != ""
    requires forall k :: 0 <= k < |acts| ==> !Revives(acts[k], id)
    ensures var s' := Exec(cfg, s, acts);
            && FirstLife(cfg, s', id)
            && (Done(s', id) || s'.events[id].attempts >= s.events[id].attempts + ClaimCount(acts, id))
            && (s.events[id].attempts + ClaimCount(acts, id) >= cfg.maxRetryAttempts ==> Done(s', id))
  {
    if acts != [] {
      var n := |acts| - 1;
      var mid := Exec(cfg, s, acts[..n]);
      Terminates(cfg, s, acts[..n], id);
      if Claims(acts[n], id) {
        ClaimProgress(cfg, mid, id, acts[n].outcome, acts[n].now);
      } else {
        OthersLeaveIt(cfg, mid, acts[n], id);
      }
    }
  }

  /** Only events that have arrived have dead letters. */
  ghost predicate KnownLetters(s: Store) { s.deadLetters.Keys <= s.events.Keys }

  lemma {:induction false} ReplayKeepsEvents(s: Store, ids: seq<EventId>, now: real)
    ensures s.events.Keys <= ReplayAll(s, ids, now).events.Keys && ReplayAll(s, ids, now).deadLetters == s.deadLetters
  {
    if ids != [] {
      ReplayKeepsEvents(s, ids[..|ids| - 1], now);
    }
  }

  lemma KnownStep(cfg: Config, s: Store, a: Action)
    requires KnownLetters(s)
    ensures KnownLetters(Step(cfg, s, a))
  {
    if a.Replays? { ReplayKeepsEvents(s, a.ids, a.now); }
  }

  lemma {:induction false} KnownHolds(cfg: Config, acts: seq<Action>)
    ensures KnownLetters(Exec(cfg, EMPTY, acts))
  {
    if acts != [] {
      KnownHolds(cfg, acts[..|acts| - 1]);
      KnownStep(cfg, Exec(cfg, EMPTY, acts[..|acts| - 1]), acts[|acts| - 1]);
    }
  }

  lemma ExecOne(cfg: Config, s: Store, acts: seq<Action>, a: Action)
    ensures Exec(cfg, s, acts + [a]) == Step(cfg, Exec(cfg, s, acts), a)
  {
    assert (acts + [a])[..|acts|] == acts;
  }

  lemma {:induction false} ExecAppend(cfg: Config, s: Store, acts: seq<Action>, more: seq<Action>)
    ensures Exec(cfg, s, acts + more) == Exec(cfg, Exec(cfg, s, acts), more)
    decreases |more|
  {
    if more == [] {
      assert acts + more == acts;
    } else {
      var n := |more| - 1;
      ExecAppend(cfg, s, acts, more[..n]);
      assert acts + more == (acts + more[..n]) + [more[n]];
      ExecOne(cfg, s, acts + more[..n], more[n]);
    }
  }

  /** From the empty store on, whatever has happened before: an event that arrives under a
      new id, and is then claimed `maxRetryAttempts` times without being replayed, is
      processed or dead-lettered. */
  lemma ArrivalTerminates(cfg: Config, acts: seq<Action>, id: EventId, more: seq<Action>)
    requires id != "" && id !in Exec(cfg, EMPTY, acts).events
    requires forall k :: 0 <= k < |more| ==> !Revives(more[k], id)
    requires ClaimCount(more, id) >= cfg.maxRetryAttempts > 0
    ensures Done(Exec(cfg, EMPTY, acts + [Enqueue(id)] + more), id)
  {
    KnownHolds(cfg, acts);
    ExecOne(cfg, EMPTY, acts, Enqueue(id));
    ExecAppend(cfg, EMPTY, acts + [Enqueue(id)], more);
    Terminates(cfg, Exec(cfg, EMPTY, acts + [Enqueue(id)]), more, id);
  }

  /** The exact condition: when the last attempt fails, the event reaches the dead-letter
      queue if and only if its dead letter can be inserted. A replayed event whose first dead
      letter still exists stays in processing. */
  lemma LastAttempt(cfg: Config, s: Store, id: EventId, outcome: Outcome, now: real)
    requires Live(s, id) && id !in s.records && outcome != Success
    requires s.events[id].attempts + 1 >= cfg.maxRetryAttempts
    ensures var s' := Process(cfg, s, id, outcome, now);
            if Buriable(s, id) then s'.events[id].status == DeadLettered else s'.events[id].status == Processing
  {
  }

  // ------------------------------------------------------------- a second dead letter

  /** A replayed event whose first dead letter still exists, before it has succeeded. */
  predicate SecondLife(s: Store, id: EventId) { Live(s, id) && id !in s.records && id in s.deadLetters }

  /** Afterwards. */
  predicate Succeeded(s: Store, id: EventId) {
    id in s.records && id in s.events && s.events[id].status == Processed
  }

  predicate SucceedsAt(a: Action, id: EventId) { a.Work? && a.id == id && a.outcome == Success }

  lemma SecondLifeStep(cfg: Config, s: Store, a: Action, id: EventId)
    requires id != "" && (SecondLife(s, id) || Succeeded(s, id))
    ensures var s' := Step(cfg, s, a);
            if Succeeded(s, id) || SucceedsAt(a, id) then Succeeded(s', id) else SecondLife(s', id)
  {
    match a
    case Enqueue(_) =>
    case Work(other, outcome, now) =>
      if Live(s, other) { ProcessEffect(cfg, s, other, outcome, now); }
    case Replays(ids, now) => ReplayLife(s, ids, now, id);
  }

  lemma {:induction false} ReplayLife(s: Store, ids: seq<EventId>, now: real, id: EventId)
    requires SecondLife(s, id) || Succeeded(s, id)
    ensures var s' := ReplayAll(s, ids, now);
            if Succeeded(s, id) then Succeeded(s', id) else SecondLife(s', id)
  {
    if ids != [] {
      ReplayLife(s, ids[..|ids| - 1], now, id);
    }
  }

  /** The retry bound does not hold for such an event: whatever happens, and however often
      it is claimed, it is finished if and only if one of its claims has succeeded. */
  lemma {:induction false} SecondLifeEnds(cfg: Config, s: Store, acts: seq<Action>, id: EventId)
    requires id != "" && SecondLife(s, id)
    ensures var s' := Exec(cfg, s, acts);
            && (Done(s', id) <==> exists k :: 0 <= k < |acts| && SucceedsAt(acts[k], id))
            && (if Done(s', id) then Succeeded(s', id) else SecondLife(s', id))
  {
    if acts != [] {
      var n := |acts| - 1;
      SecondLifeEnds(cfg, s, acts[..n], id);
      SecondLifeStep(cfg, Exec(cfg, s, acts[..n]), acts[n], id);
      if exists k :: 0 <= k < n && SucceedsAt(acts[..n][k], id) {
        var k :| 0 <= k < n && SucceedsAt(acts[..n][k], id);
        assert SucceedsAt(acts[k], id);
      }
      if exists k :: 0 <= k < |acts| && SucceedsAt(acts[k], id) {
        var k :| 0 <= k < |acts| && SucceedsAt(acts[k], id);
        assert k < n ==> SucceedsAt(acts[..n][k], id);
      }
    }
  }

  /** An event comes into its second life by arriving, failing for good and being replayed. */
  lemma SecondLifeReached(cfg: Config, id: EventId)
    requires id != ""
    ensures SecondLife(Exec(cfg, EMPTY, [Enqueue(id), Work(id, NonRetryableFailure, 0.0), Replays([id], 0.0)]), id)
  {
    var a, b, c := Enqueue(id), Work(id, NonRetryableFailure, 0.0), Replays([id], 0.0);
    ExecOne(cfg, EMPTY, [], a);
    ExecOne(cfg, EMPTY, [] + [a], b);
    ExecOne(cfg, EMPTY, [] + [a] + [b], c);
    assert [] + [a] + [b] + [c] == [a, b, c];
    var s2 := Exec(cfg, EMPTY, [] + [a] + [b]);
    assert [id][..0] == [];
    assert ReplayAll(s2, [id], 0.0) == ReplayOne(s2, id, 0.0);
  }
}
