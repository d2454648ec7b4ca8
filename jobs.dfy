/**
 * The scheduler's registration table, the rows the two monitor tasks send to the
 * time-series store, and the retention rule for the operation log (app/jobs.go).
 * Sensor readings, the store's answers and the clock are inputs.
 */
module Jobs {
  import opened Wrappers
  import opened Process

  // ------------------------------------------------------------------ scheduler

  /** The three job bodies registered by initJob. */
  datatype Job = MonitorJob | BackupJob | RetentionJob

  /** A registration of the cron scheduler: its id, its cadence spec and its job. */
  datatype Registration = Registration(id: nat, spec: string, job: Job)

  const MonitorSpec := "@every 30s"
  const DailySpec := "@daily"

  /**
   * The cron scheduler (robfig/cron). How a cadence is parsed and when entries fire
   * belong to the library; `parseError` stands for its parser: None when a spec parses,
   * the error text otherwise.
   */
  class Scheduler {
    const host: Host
    const location: Option<string>
    const parseError: string -> Option<string>
    var entries: seq<Registration>
    var running: bool

    /** cron.New: an empty, stopped scheduler. */
    constructor (host: Host, location: Option<string>, parseError: string -> Option<string>)
      ensures this.host == host && this.location == location && this.parseError == parseError
      ensures entries == [] && !running && Valid()
    {
      this.host := host;
      this.location := location;
      this.parseError := parseError;
      entries := [];
      running := false;
    }

    /** ids are handed out from 1 upwards, one per successful registration. */
    ghost predicate Valid()
      reads this
    {
      Numbered(entries)
    }

    /**
     * Cron.AddFunc: a spec that parses is appended under the next id; one that does not
     * leaves the table unchanged and returns the parser's error with id 0.
     */
    method AddFunc(spec: string, job: Job) returns (id: nat, err: Option<string>)
      requires Valid()
      modifies this
      ensures Valid() && running == old(running)
      ensures err == parseError(spec)
      ensures err.None? ==> id == |old(entries)| + 1 && entries == old(entries) + [Registration(id, spec, job)]
      ensures err.Some? ==> id == 0 && entries == old(entries)
    {
      err := parseError(spec);
      if err.None? {
        id := |entries| + 1;
        entries := entries + [Registration(id, spec, job)];
      } else {
        id := 0;
      }
    }

    /** Cron.Start. */
    method Start()
      modifies this
      ensures running && entries == old(entries)
      ensures old(Valid()) ==> Valid()
    {
      running := true;
    }

    /** Cron.Stop: no further firings; the table is kept. */
    method Stop()
      modifies this, host
      ensures !running && entries == old(entries)
      ensures old(Valid()) ==> Valid()
      ensures host.trail == old(host.trail) + [SchedulerStopped]
      ensures host.local == old(host.local) && host.files == old(host.files)
      ensures host.loggerReleased == old(host.loggerReleased)
    {
      running := false;
      host.trail := host.trail + [SchedulerStopped];
    }
  }

  /** The registrations are numbered 1, 2, 3, ... in table order. */
  predicate Numbered(rs: seq<Registration>)
  {
    forall i :: 0 <= i < |rs| ==> rs[i].id == i + 1
  }

  /** The table initJob leaves behind: the registrations that parsed, in order, numbered from 1. */
  function InitRegistrations(parseError: string -> Option<string>): (rs: seq<Registration>)
    ensures Numbered(rs)
  {
    var specs := [(MonitorSpec, MonitorJob), (DailySpec, BackupJob), (DailySpec, RetentionJob)];
    RegisterNumbered([], specs, parseError);
    Register([], specs, parseError)
  }

  function Register(acc: seq<Registration>, specs: seq<(string, Job)>, parseError: string -> Option<string>)
    : (rs: seq<Registration>)
    decreases |specs|
  {
    if specs == [] then acc
    else if parseError(specs[0].0).None? then
      Register(acc + [Registration(|acc| + 1, specs[0].0, specs[0].1)], specs[1..], parseError)
    else Register(acc, specs[1..], parseError)
  }

  /** Registering more specs keeps the numbering: each accepted spec gets the next id. */
  lemma {:induction false} RegisterNumbered(acc: seq<Registration>, specs: seq<(string, Job)>,
                                              parseError: string -> Option<string>)
    requires Numbered(acc)
    ensures Numbered(Register(acc, specs, parseError))
    decreases |specs|
  {
    if specs != [] {
      var next := acc + [Registration(|acc| + 1, specs[0].0, specs[0].1)];
      assert Numbered(next) by {
        forall i | 0 <= i < |next| ensures next[i].id == i + 1 {
          if i < |acc| { assert next[i] == acc[i]; }
        }
      }
      RegisterNumbered(if parseError(specs[0].0).None? then next else acc, specs[1..], parseError);
    }
  }

  /**
   * With a parser that accepts both cadences, initJob registers exactly three jobs:
   * the monitors every 30 seconds, then the backup and the retention job daily.
   */
  lemma {:induction false} InitRegistersThree(parseError: string -> Option<string>)
    requires parseError(MonitorSpec).None? && parseError(DailySpec).None?
    ensures InitRegistrations(parseError) ==
      [Registration(1, MonitorSpec, MonitorJob), Registration(2, DailySpec, BackupJob),
       Registration(3, DailySpec, RetentionJob)]
  {
    var specs := [(MonitorSpec, MonitorJob), (DailySpec, BackupJob), (DailySpec, RetentionJob)];
    var r1 := [Registration(1, MonitorSpec, MonitorJob)];
    var r2 := r1 + [Registration(2, DailySpec, BackupJob)];
    var r3 := r2 + [Registration(3, DailySpec, RetentionJob)];
    var empty: seq<Registration> := [];
    assert empty + [Registration(|empty| + 1, specs[0].0, specs[0].1)] == r1;
    assert Register(empty, specs, parseError) == Register(r1, specs[1..], parseError);
    assert specs[1..][1..] == specs[2..] && specs[2..][1..] == specs[3..] && specs[3..] == [];
    assert Register(r1, specs[1..], parseError) == Register(r2, specs[2..], parseError);
    assert Register(r2, specs[2..], parseError) == Register(r3, specs[3..], parseError);
  }

  /** A rejected cadence adds nothing to the table: it lists only the specs that parse. */
  lemma {:induction false} RegisterKeepsParsed(acc: seq<Registration>, specs: seq<(string, Job)>,
                                                 parseError: string -> Option<string>)
    ensures forall r :: r in Register(acc, specs, parseError) ==>
      r in acc || (parseError(r.spec).None? && (r.spec, r.job) in specs)
    ensures |Register(acc, specs, parseError)| <= |acc| + |specs|
    decreases |specs|
  {
    if specs != [] {
      RegisterKeepsParsed(if parseError(specs[0].0).None? then
        acc + [Registration(|acc| + 1, specs[0].0, specs[0].1)] else acc, specs[1..], parseError);
      assert forall x :: x in specs[1..] ==> x in specs;
    }
  }

  // -------------------------------------------------------------- monitor rows

  /** A time-series row: metric name, value (float64, modelled as real) and Unix seconds. */
  datatype Row = Row(metric: string, value: real, timestamp: int)

  /**
   * The time-series store (tstorage behind zaplog.TSDB()). `calls` records every batch
   * handed to InsertRows; `rows` holds the batches it accepted.
   */
  class Sink {
    var calls: seq<seq<Row>>
    var rows: seq<Row>

    constructor ()
      ensures calls == [] && rows == []
    {
      calls := [];
      rows := [];
    }

    /** InsertRows; the store's answer (None, or its error text) is an input. */
    method InsertRows(batch: seq<Row>, outcome: Option<string>) returns (err: Option<string>)
      modifies this
      ensures calls == old(calls) + [batch]
      ensures rows == if outcome.None? then old(rows) + batch else old(rows)
      ensures err == outcome
    {
      calls := calls + [batch];
      if outcome.None? {
        rows := rows + batch;
      }
      err := outcome;
    }
  }

  /** What cpu.Percent(0, false) gives the system monitor: the first reading, else 0. */
  function CpuValue(percent: Option<seq<real>>): real
  {
    if percent.Some? && |percent.value| > 0 then percent.value[0] else 0.0
  }

  /** What mem.VirtualMemory() gives the system monitor: bytes used, else 0. */
  function MemValue(used: Option<nat>): real
  {
    if used.Some? then used.value as real else 0.0
  }

  /** Whole mebibytes of a resident set size: RSS / 1024 / 1024 in unsigned division. */
  function Mebibytes(rss: nat): (mib: nat)
    ensures mib * 1048576 <= rss < (mib + 1) * 1048576
  {
    rss / 1024 / 1024
  }

  /**
   * The batches SchedSystemMonitorTask hands to the store, in order: system CPU, then
   * system memory, both stamped with the one timestamp taken on entry.
   */
  function SystemMonitorBatches(now: int, percent: Option<seq<real>>, used: Option<nat>): seq<seq<Row>>
  {
    [[Row("system_cpuuse", CpuValue(percent), now)], [Row("system_memuse", MemValue(used), now)]]
  }

  /**
   * The batches SchedProcessMonitorTask hands to the store: none when the own process
   * cannot be found; otherwise its CPU (0 when the reading fails), then, when the memory
   * reading succeeds, its resident memory in whole mebibytes.
   */
  function ProcessMonitorBatches(now: int, found: bool, cpu: Option<real>, rss: Option<nat>): seq<seq<Row>>
  {
    if !found then []
    else
      [[Row("app_cpuuse", if cpu.Some? then cpu.value else 0.0, now)]]
      + (if rss.Some? then [[Row("app_memuse", Mebibytes(rss.value) as real, now)]] else [])
  }

  /** The rows of a list of batches. */
  function Flatten(bs: seq<seq<Row>>): seq<Row>
  {
    if bs == [] then [] else bs[0] + Flatten(bs[1..])
  }

  const SystemMetrics: set<string> := {"system_cpuuse", "system_memuse"}
  const ProcessMetrics: set<string> := {"app_cpuuse", "app_memuse"}

  /** The system monitor always sends two one-row batches with the same timestamp, CPU first. */
  lemma {:induction false} SystemMonitorShape(now: int, percent: Option<seq<real>>, used: Option<nat>)
    ensures var bs := SystemMonitorBatches(now, percent, used);
      |bs| == 2 && |bs[0]| == 1 && |bs[1]| == 1
      && bs[0][0].metric == "system_cpuuse" && bs[1][0].metric == "system_memuse"
      && bs[0][0].timestamp == now && bs[1][0].timestamp == now
      && (percent.None? || percent.value == [] ==> bs[0][0].value == 0.0)
      && (used.None? ==> bs[1][0].value == 0.0)
  {
  }

  /**
   * The process monitor: no row when the process lookup fails, exactly the CPU row when the
   * memory reading fails, the CPU row then the memory row otherwise.
   */
  lemma {:induction false} ProcessMonitorShape(now: int, found: bool, cpu: Option<real>, rss: Option<nat>)
    ensures var rows := Flatten(ProcessMonitorBatches(now, found, cpu, rss));
      && (!found ==> rows == [])
      && (found ==> |rows| >= 1 && rows[0].metric == "app_cpuuse" && rows[0].timestamp == now)
      && (found && cpu.None? ==> rows[0].value == 0.0)
      && (found && rss.None? ==> |rows| == 1)
      && (found && rss.Some? ==>
            |rows| == 2 && rows[1].metric == "app_memuse"
            && rows[1].value == (rss.value / 1048576) as real && rows[1].timestamp == now)
  {
    var bs := ProcessMonitorBatches(now, found, cpu, rss);
    if found {
      assert Flatten(bs) == bs[0] + Flatten(bs[1..]);
      if rss.Some? {
        assert Flatten(bs[1..]) == bs[1] + Flatten(bs[2..]);
        assert rss.value / 1024 / 1024 == rss.value / 1048576;
      }
    }
  }

  /** The rows of the batches the store accepted (answer None). */
  function Accepted(bs: seq<seq<Row>>, answers: seq<Option<string>>): seq<Row>
    requires |bs| == |answers|
  {
    if bs == [] then [] else (if answers[0].None? then bs[0] else []) + Accepted(bs[1..], answers[1..])
  }

  const InsertErrorPrefix := "add timeseries data error:"

  /** One error event per refused insert, in order. */
  function InsertErrors(answers: seq<Option<string>>): seq<Effect>
  {
    if answers == [] then []
    else
      var head := if answers[0].Some? then [Logged(Error, InsertErrorPrefix + answers[0].value)] else [];
      head + InsertErrors(answers[1..])
  }

  /** Hands one batch to the store and logs its error, if any. */
  method Insert(sink: Sink, host: Host, batch: seq<Row>, answer: Option<string>)
    modifies sink, host
    ensures sink.calls == old(sink.calls) + [batch]
    ensures sink.rows == old(sink.rows) + (if answer.None? then batch else [])
    ensures host.trail == old(host.trail) + (if answer.Some? then [Logged(Error, InsertErrorPrefix + answer.value)] else [])
    ensures host.local == old(host.local) && host.files == old(host.files)
    ensures host.loggerReleased == old(host.loggerReleased)
  {
    var err := sink.InsertRows(batch, answer);
    if err.Some? {
      host.Log(Error, InsertErrorPrefix + err.value);
    }
  }

  /**
   * SchedSystemMonitorTask: both inserts are always issued, the second whatever the store
   * answered to the first. `answers` are the store's answers to the two inserts.
   */
  method SystemMonitorTask(sink: Sink, host: Host, now: int, percent: Option<seq<real>>,
                           used: Option<nat>, answers: seq<Option<string>>)
    requires |answers| == 2
    modifies sink, host
    ensures var bs := SystemMonitorBatches(now, percent, used);
      && sink.calls == old(sink.calls) + bs
      && sink.rows == old(sink.rows) + Accepted(bs, answers)
      && host.trail == old(host.trail) + InsertErrors(answers)
    ensures host.local == old(host.local) && host.files == old(host.files)
    ensures host.loggerReleased == old(host.loggerReleased)
  {
    ghost var bs := SystemMonitorBatches(now, percent, used);
    var cpuuse := 0.0;
    if percent.Some? && |percent.value| > 0 {
      cpuuse := percent.value[0];
    }
    Insert(sink, host, [Row("system_cpuuse", cpuuse, now)], answers[0]);
    var memuse: nat := 0;
    if used.Some? {
      memuse := used.value;
    }
    Insert(sink, host, [Row("system_memuse", memuse as real, now)], answers[1]);
    TwoInserts(bs[0], bs[1], answers);
  }

  /** The effect of two inserts is the effect of the first followed by that of the second. */
  lemma {:induction false} TwoInserts(b0: seq<Row>, b1: seq<Row>, answers: seq<Option<string>>)
    requires |answers| == 2
    ensures Accepted([b0, b1], answers) ==
      (if answers[0].None? then b0 else []) + (if answers[1].None? then b1 else [])
    ensures InsertErrors(answers) ==
      (if answers[0].Some? then [Logged(Error, InsertErrorPrefix + answers[0].value)] else [])
      + (if answers[1].Some? then [Logged(Error, InsertErrorPrefix + answers[1].value)] else [])
  {
    var a1 := answers[1..];
    assert [b0, b1][1..] == [b1] && a1 == [answers[1]];
    assert Accepted([b1], a1) == (if answers[1].None? then b1 else []) + Accepted([], a1[1..]);
    assert InsertErrors(a1) == (if answers[1].Some? then [Logged(Error, InsertErrorPrefix + answers[1].value)] else [])
      + InsertErrors(a1[1..]);
    assert a1[1..] == [];
  }

  /** The same for a single insert. */
  lemma {:induction false} OneInsert(b0: seq<Row>, answers: seq<Option<string>>)
    requires |answers| == 1
    ensures Accepted([b0], answers) == if answers[0].None? then b0 else []
    ensures InsertErrors(answers) ==
      if answers[0].Some? then [Logged(Error, InsertErrorPrefix + answers[0].value)] else []
  {
    assert answers[1..] == [];
  }

  /**
   * SchedProcessMonitorTask: nothing when the own process is not found; the CPU insert
   * otherwise; the memory insert only when the memory reading succeeds. `answers` are the
   * store's answers to the inserts that are issued.
   */
  method ProcessMonitorTask(sink: Sink, host: Host, now: int, found: bool, cpu: Option<real>,
                            rss: Option<nat>, answers: seq<Option<string>>)
    requires |answers| == |ProcessMonitorBatches(now, found, cpu, rss)|
    modifies sink, host
    ensures var bs := ProcessMonitorBatches(now, found, cpu, rss);
      && sink.calls == old(sink.calls) + bs
      && sink.rows == old(sink.rows) + Accepted(bs, answers)
      && host.trail == old(host.trail) + InsertErrors(answers)
    ensures host.local == old(host.local) && host.files == old(host.files)
    ensures host.loggerReleased == old(host.loggerReleased)
  {
    if !found {
      return;
    }
    var cpuuse := 0.0;
    if cpu.Some? {
      cpuuse := cpu.value;
    }
    var cpuRow := Row("app_cpuuse", cpuuse, now);
    ProcessFound(sink, host, cpuRow, now, rss, answers);
  }

  /**
   * The part of SchedProcessMonitorTask after the process was found: the CPU insert, then
   * the memory insert when the memory reading succeeds.
   */
  method ProcessFound(sink: Sink, host: Host, cpuRow: Row, now: int, rss: Option<nat>,
                      answers: seq<Option<string>>)
    requires |answers| == if rss.Some? then 2 else 1
    modifies sink, host
    ensures var bs := [[cpuRow]] + (if rss.Some? then [[Row("app_memuse", Mebibytes(rss.value) as real, now)]] else []);
      && sink.calls == old(sink.calls) + bs
      && sink.rows == old(sink.rows) + Accepted(bs, answers)
      && host.trail == old(host.trail) + InsertErrors(answers)
    ensures host.local == old(host.local) && host.files == old(host.files)
    ensures host.loggerReleased == old(host.loggerReleased)
  {
    Insert(sink, host, [cpuRow], answers[0]);
    if rss.None? {
      OneInsert([cpuRow], answers);
      return;
    }
    var memuse := rss.value / 1024 / 1024;
    var memRow := Row("app_memuse", memuse as real, now);
    Insert(sink, host, [memRow], answers[1]);
    TwoInserts([cpuRow], [memRow], answers);
  }

  /**
   * One sampling round. Each monitor goroutine reads its own clock on entry (`sysNow` at
   * app/jobs.go:60, `procNow` at app/jobs.go:108) and its own sensors.
   */
  datatype Reading = Reading(sysNow: int, percent: Option<seq<real>>, used: Option<nat>,
                             procNow: int, found: bool, cpu: Option<real>, rss: Option<nat>)

  /** The rows the system monitor sends to the store over N rounds, in round order. */
  function SystemRows(rounds: seq<Reading>): seq<Row>
  {
    if rounds == [] then []
    else Flatten(SystemMonitorBatches(rounds[0].sysNow, rounds[0].percent, rounds[0].used)) + SystemRows(rounds[1..])
  }

  /** The rows the process monitor sends to the store over N rounds, in round order. */
  function ProcessRows(rounds: seq<Reading>): seq<Row>
  {
    if rounds == [] then []
    else
      var r := rounds[0];
      Flatten(ProcessMonitorBatches(r.procNow, r.found, r.cpu, r.rss)) + ProcessRows(rounds[1..])
  }

  /** The system monitor's clock does not go back from one round to a later one. */
  predicate SystemClockMonotone(rounds: seq<Reading>)
  {
    forall i, j :: 0 <= i < j < |rounds| ==> rounds[i].sysNow <= rounds[j].sysNow
  }

  /** The process monitor's clock does not go back from one round to a later one. */
  predicate ProcessClockMonotone(rounds: seq<Reading>)
  {
    forall i, j :: 0 <= i < j < |rounds| ==> rounds[i].procNow <= rounds[j].procNow
  }

  predicate InTimeOrder(rows: seq<Row>)
  {
    forall i, j :: 0 <= i < j < |rows| ==> rows[i].timestamp <= rows[j].timestamp
  }

  /** Every row is under one of the names. */
  predicate NamedIn(rows: seq<Row>, names: set<string>)
  {
    forall i :: 0 <= i < |rows| ==> rows[i].metric in names
  }

  /** Every row is stamped `t`. */
  predicate StampedAt(rows: seq<Row>, t: int)
  {
    forall i :: 0 <= i < |rows| ==> rows[i].timestamp == t
  }

  /** One system round: exactly two rows, under the system names, stamped with its clock. */
  lemma {:induction false} SystemRoundShape(r: Reading)
    ensures var rows := Flatten(SystemMonitorBatches(r.sysNow, r.percent, r.used));
      |rows| == 2 && NamedIn(rows, SystemMetrics) && StampedAt(rows, r.sysNow)
  {
    SystemMonitorShape(r.sysNow, r.percent, r.used);
    var sys := SystemMonitorBatches(r.sysNow, r.percent, r.used);
    assert Flatten(sys) == sys[0] + sys[1] by {
      assert Flatten(sys[1..]) == sys[1] + Flatten(sys[2..]);
    }
  }

  /** One process round: at most two rows, under the process names, stamped with its clock. */
  lemma {:induction false} ProcessRoundShape(r: Reading)
    ensures var rows := Flatten(ProcessMonitorBatches(r.procNow, r.found, r.cpu, r.rss));
      |rows| <= 2 && NamedIn(rows, ProcessMetrics) && StampedAt(rows, r.procNow)
  {
    ProcessMonitorShape(r.procNow, r.found, r.cpu, r.rss);
  }

  /** Rows under the names followed by rows under the names are all under the names. */
  lemma {:induction false} NamedInConcat(head: seq<Row>, rest: seq<Row>, names: set<string>)
    requires NamedIn(head, names) && NamedIn(rest, names)
    ensures NamedIn(head + rest, names)
  {
    var rows := head + rest;
    forall i | 0 <= i < |rows| ensures rows[i].metric in names {
      if i >= |head| { assert rows[i] == rest[i - |head|]; }
    }
  }

  /** Over N rounds the system monitor sends exactly 2N points, only under its own two names. */
  lemma {:induction false} SystemRoundsBound(rounds: seq<Reading>)
    ensures |SystemRows(rounds)| == 2 * |rounds|
    ensures NamedIn(SystemRows(rounds), SystemMetrics)
  {
    if rounds != [] {
      SystemRoundShape(rounds[0]);
      SystemRoundsBound(rounds[1..]);
      NamedInConcat(Flatten(SystemMonitorBatches(rounds[0].sysNow, rounds[0].percent, rounds[0].used)),
                    SystemRows(rounds[1..]), SystemMetrics);
    }
  }

  /** Over N rounds the process monitor sends at most 2N points, only under its own two names. */
  lemma {:induction false} ProcessRoundsBound(rounds: seq<Reading>)
    ensures |ProcessRows(rounds)| <= 2 * |rounds|
    ensures NamedIn(ProcessRows(rounds), ProcessMetrics)
  {
    if rounds != [] {
      ProcessRoundShape(rounds[0]);
      ProcessRoundsBound(rounds[1..]);
      NamedInConcat(Flatten(ProcessMonitorBatches(rounds[0].procNow, rounds[0].found, rounds[0].cpu, rounds[0].rss)),
                    ProcessRows(rounds[1..]), ProcessMetrics);
    }
  }

  /**
   * With its own clock not going back, the system monitor's points come in time order, none
   * before its first round.
   */
  lemma {:induction false} SystemRoundsOrdered(rounds: seq<Reading>)
    requires SystemClockMonotone(rounds)
    ensures InTimeOrder(SystemRows(rounds))
    ensures rounds != [] ==> forall i :: 0 <= i < |SystemRows(rounds)| ==> rounds[0].sysNow <= SystemRows(rounds)[i].timestamp
  {
    if rounds != [] {
      var r, tail := rounds[0], rounds[1..];
      SystemRoundShape(r);
      assert SystemClockMonotone(tail) by {
        forall i, j | 0 <= i < j < |tail| ensures tail[i].sysNow <= tail[j].sysNow {
          assert tail[i] == rounds[i + 1] && tail[j] == rounds[j + 1];
        }
      }
      SystemRoundsOrdered(tail);
      assert tail != [] ==> r.sysNow <= tail[0].sysNow by {
        if tail != [] { assert tail[0] == rounds[1]; }
      }
      OrderedAfter(Flatten(SystemMonitorBatches(r.sysNow, r.percent, r.used)), SystemRows(tail), r.sysNow);
    }
  }

  /**
   * With its own clock not going back, the process monitor's points come in time order, none
   * before its first round.
   */
  lemma {:induction false} ProcessRoundsOrdered(rounds: seq<Reading>)
    requires ProcessClockMonotone(rounds)
    ensures InTimeOrder(ProcessRows(rounds))
    ensures rounds != [] ==> forall i :: 0 <= i < |ProcessRows(rounds)| ==> rounds[0].procNow <= ProcessRows(rounds)[i].timestamp
  {
    if rounds != [] {
      var r, tail := rounds[0], rounds[1..];
      ProcessRoundShape(r);
      assert ProcessClockMonotone(tail) by {
        forall i, j | 0 <= i < j < |tail| ensures tail[i].procNow <= tail[j].procNow {
          assert tail[i] == rounds[i + 1] && tail[j] == rounds[j + 1];
        }
      }
      ProcessRoundsOrdered(tail);
      assert tail != [] ==> r.procNow <= tail[0].procNow by {
        if tail != [] { assert tail[0] == rounds[1]; }
      }
      OrderedAfter(Flatten(ProcessMonitorBatches(r.procNow, r.found, r.cpu, r.rss)), ProcessRows(tail), r.procNow);
    }
  }

  /** Rows stamped `t` followed by rows in time order, none before `t`, are in time order. */
  lemma {:induction false} OrderedAfter(head: seq<Row>, rest: seq<Row>, t: int)
    requires StampedAt(head, t)
    requires forall i :: 0 <= i < |rest| ==> t <= rest[i].timestamp
    requires InTimeOrder(rest)
    ensures InTimeOrder(head + rest)
    ensures forall i :: 0 <= i < |head + rest| ==> t <= (head + rest)[i].timestamp
  {
    var rows := head + rest;
    forall i | 0 <= i < |rows| ensures t <= rows[i].timestamp {
      if i >= |head| { assert rows[i] == rest[i - |head|]; }
    }
    forall i, j | 0 <= i < j < |rows| ensures rows[i].timestamp <= rows[j].timestamp {
      if j >= |head| {
        assert rows[j] == rest[j - |head|];
        if i >= |head| { assert rows[i] == rest[i - |head|]; }
      }
    }
  }

  // ------------------------------------------------------------------ retention

  /** A row of the operation log (models.SysOprLog); times are Unix nanoseconds. */
  datatype OprLog = OprLog(id: int, oprName: string, oprIp: string, optAction: string,
                           optDesc: string, optTime: int)

  /** time.Hour, in nanoseconds. */
  const Hour: int := 3600 * 1000000000

  /** now - 365 × 24 hours: older rows are deleted. */
  function RetentionCutoff(now: int): int
  {
    now - Hour * 24 * 365
  }

  /** DELETE FROM sys_opr_log WHERE opt_time < cutoff: the rows that remain, in table order. */
  function Prune(rows: seq<OprLog>, cutoff: int): (kept: seq<OprLog>)
    ensures forall r :: r in kept <==> r in rows && !(r.optTime < cutoff)
    ensures |kept| <= |rows|
  {
    if rows == [] then []
    else if rows[0].optTime < cutoff then Prune(rows[1..], cutoff)
    else [rows[0]] + Prune(rows[1..], cutoff)
  }

  /** The rows the retention job deletes and the rows it keeps make up the old table. */
  lemma {:induction false} PrunePartition(rows: seq<OprLog>, cutoff: int)
    ensures multiset(Prune(rows, cutoff)) + multiset(Dropped(rows, cutoff)) == multiset(rows)
  {
    if rows != [] {
      PrunePartition(rows[1..], cutoff);
      assert rows == [rows[0]] + rows[1..];
      assert multiset(rows) == multiset{rows[0]} + multiset(rows[1..]);
    }
  }

  /** The rows the retention job deletes: each is older than the cutoff. */
  function Dropped(rows: seq<OprLog>, cutoff: int): (gone: seq<OprLog>)
    ensures forall r :: r in gone ==> r in rows && r.optTime < cutoff
  {
    if rows == [] then []
    else if rows[0].optTime < cutoff then [rows[0]] + Dropped(rows[1..], cutoff)
    else Dropped(rows[1..], cutoff)
  }

  /** A second run with the same cutoff deletes nothing more. */
  lemma {:induction false} PruneIdempotent(rows: seq<OprLog>, cutoff: int)
    ensures Prune(Prune(rows, cutoff), cutoff) == Prune(rows, cutoff)
  {
    if rows != [] {
      PruneIdempotent(rows[1..], cutoff);
    }
  }

  /** A row stamped exactly at the cutoff is kept; one a nanosecond earlier is deleted. */
  lemma {:induction false} RetentionBoundary(now: int, r: OprLog)
    ensures r.optTime == RetentionCutoff(now) ==> Prune([r], RetentionCutoff(now)) == [r]
    ensures r.optTime == RetentionCutoff(now) - 1 ==> Prune([r], RetentionCutoff(now)) == []
  {
  }
}
