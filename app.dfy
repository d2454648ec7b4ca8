/**
 * The Application object (app/app.go, with the receiver methods of app/jobs.go): the
 * settings table behind it, the backup of the database, the startup decisions of Init,
 * the job table initJob registers and the shutdown order of Release.
 */
module App {
  import opened Wrappers
  import opened Strings
  import opened Process
  import Assets
  import BackupScript
  import Strconv
  import Jobs

  type DatabaseConfig = BackupScript.DatabaseConfig

  datatype SystemConfig = SystemConfig(location: string)

  /** The parts of config.AppConfig this core reads. */
  datatype AppConfig = AppConfig(system: SystemConfig, database: DatabaseConfig)

  /** A sys_config row is addressed by its (type, name) pair. */
  type SettingKey = (string, string)

  const ThemeKey: SettingKey := ("system", "SystemTheme")
  const VersionSettingKey: SettingKey := ("system", "LogSightVersion")
  const DefaultTheme := "light"
  const BackupScriptPath := "/tmp/databackup.sh"
  const Postgres := "postgres"

  // -------------------------------------------------------------- settings table

  /** SELECT value FROM sys_config WHERE type = ? and name = ?: "" when there is no row. */
  function Lookup(table: map<SettingKey, string>, key: SettingKey): (v: string)
    ensures key !in table ==> v == ""
    ensures key in table ==> v == table[key]
  {
    if key in table then table[key] else ""
  }

  /**
   * UPDATE sys_config SET value = ? WHERE type = ? and name = ?: changes the addressed row
   * when it exists, creates none and leaves every other row as it was.
   */
  function Update(table: map<SettingKey, string>, key: SettingKey, value: string)
    : (t: map<SettingKey, string>)
    ensures t.Keys == table.Keys
    ensures key in table ==> t[key] == value
    ensures forall k :: k in table && k != key ==> t[k] == table[k]
  {
    if key in table then table[key := value] else table
  }

  /** The value GetSystemTheme answers for a table. */
  function ThemeOf(table: map<SettingKey, string>): (theme: string)
    ensures theme != ""
    ensures Lookup(table, ThemeKey) != "" ==> theme == table[ThemeKey]
    ensures Lookup(table, ThemeKey) == "" ==> theme == DefaultTheme
  {
    var stored := Lookup(table, ThemeKey);
    if stored == "" then DefaultTheme else stored
  }

  /** The table after GetSystemTheme: an empty stored theme is replaced by the default. */
  function ThemeSettled(table: map<SettingKey, string>): map<SettingKey, string>
  {
    if Lookup(table, ThemeKey) == "" then Update(table, ThemeKey, DefaultTheme) else table
  }

  /**
   * Asking for the theme twice gives the same answer, and where the theme row exists the
   * table then holds what was answered; where it does not, the table is untouched.
   */
  lemma {:induction false} ThemeStable(table: map<SettingKey, string>)
    ensures ThemeOf(ThemeSettled(table)) == ThemeOf(table)
    ensures ThemeKey in table ==> ThemeSettled(table)[ThemeKey] == ThemeOf(table)
    ensures ThemeKey !in table ==> ThemeSettled(table) == table
    ensures ThemeSettled(ThemeSettled(table)) == ThemeSettled(table)
  {
  }

  /** The table after checkAppVersion with the given build version. */
  function VersionSynced(table: map<SettingKey, string>, buildVersion: string): map<SettingKey, string>
  {
    if buildVersion != Lookup(table, VersionSettingKey) then Update(table, VersionSettingKey, buildVersion)
    else table
  }

  /**
   * After the version check a stored version equals the build version, nothing else is
   * touched, no row is created, and a second check changes nothing.
   */
  lemma {:induction false} VersionSyncMeaning(table: map<SettingKey, string>, buildVersion: string)
    ensures var t := VersionSynced(table, buildVersion);
      && t.Keys == table.Keys
      && (VersionSettingKey in table ==> t[VersionSettingKey] == buildVersion)
      && (forall k :: k in table && k != VersionSettingKey ==> t[k] == table[k])
      && VersionSynced(t, buildVersion) == t
  {
  }

  /**
   * The gorm handle, reduced to the two tables this core touches. `updates` records the
   * UPDATE statements issued on sys_config, whether or not they matched a row.
   */
  class Database {
    var sysConfig: map<SettingKey, string>
    var updates: seq<(SettingKey, string)>
    var oprLog: seq<Jobs.OprLog>

    constructor (sysConfig: map<SettingKey, string>, oprLog: seq<Jobs.OprLog>)
      ensures this.sysConfig == sysConfig && this.oprLog == oprLog && updates == []
    {
      this.sysConfig := sysConfig;
      this.oprLog := oprLog;
      updates := [];
    }

    method Exec(key: SettingKey, value: string)
      modifies this
      ensures sysConfig == Update(old(sysConfig), key, value)
      ensures updates == old(updates) + [(key, value)] && oprLog == old(oprLog)
    {
      sysConfig := Update(sysConfig, key, value);
      updates := updates + [(key, value)];
    }

    /** DELETE FROM sys_opr_log WHERE opt_time < cutoff. */
    method DeleteOlderThan(cutoff: int)
      modifies this
      ensures oprLog == Jobs.Prune(old(oprLog), cutoff)
      ensures sysConfig == old(sysConfig) && updates == old(updates)
    {
      oprLog := Jobs.Prune(oprLog, cutoff);
    }
  }

  // ----------------------------------------------------------------- application

  class Application {
    const appConfig: AppConfig
    /** The embedded assets: buildinfo.txt and the pg_dump script template. */
    const buildInfo: string
    const pgdumpShell: string
    const host: Host
    var gormDB: Database?
    var sched: Jobs.Scheduler?

    /** NewApplication: only the configuration is set. */
    constructor (appConfig: AppConfig, buildInfo: string, pgdumpShell: string, host: Host)
      ensures this.appConfig == appConfig && this.buildInfo == buildInfo
      ensures this.pgdumpShell == pgdumpShell && this.host == host
      ensures gormDB == null && sched == null
    {
      this.appConfig := appConfig;
      this.buildInfo := buildInfo;
      this.pgdumpShell := pgdumpShell;
      this.host := host;
      gormDB := null;
      sched := null;
    }

    /** GetSettingsStringValue: the stored value of a setting, "" when there is none. */
    function GetSettingsStringValue(stype: string, name: string): (v: string)
      requires gormDB != null
      reads this, gormDB
      ensures (stype, name) in gormDB.sysConfig ==> v == gormDB.sysConfig[(stype, name)]
      ensures (stype, name) !in gormDB.sysConfig ==> v == ""
    {
      Lookup(gormDB.sysConfig, (stype, name))
    }

    /** GetSystemSettingsStringValue: a setting of type "system". */
    function GetSystemSettingsStringValue(name: string): (v: string)
      requires gormDB != null
      reads this, gormDB
      ensures ("system", name) in gormDB.sysConfig ==> v == gormDB.sysConfig[("system", name)]
      ensures ("system", name) !in gormDB.sysConfig ==> v == ""
    {
      GetSettingsStringValue("system", name)
    }

    /** SetSystemTheme: rewrites the theme row if it exists. */
    method SetSystemTheme(value: string)
      requires gormDB != null
      modifies gormDB
      ensures gormDB.sysConfig == Update(old(gormDB.sysConfig), ThemeKey, value)
      ensures gormDB.updates == old(gormDB.updates) + [(ThemeKey, value)]
      ensures gormDB.oprLog == old(gormDB.oprLog)
    {
      gormDB.Exec(ThemeKey, value);
    }

    /**
     * GetSystemTheme: the stored theme; an empty or missing one is answered with "light",
     * which is also written back.
     */
    method GetSystemTheme() returns (theme: string)
      requires gormDB != null
      modifies gormDB
      ensures theme == ThemeOf(old(gormDB.sysConfig)) && theme != ""
      ensures gormDB.sysConfig == ThemeSettled(old(gormDB.sysConfig))
      ensures gormDB.updates == old(gormDB.updates) +
        (if Lookup(old(gormDB.sysConfig), ThemeKey) == "" then [(ThemeKey, DefaultTheme)] else [])
      ensures gormDB.oprLog == old(gormDB.oprLog)
    {
      var value := Lookup(gormDB.sysConfig, ThemeKey);
      if value == "" {
        SetSystemTheme(DefaultTheme);
        return DefaultTheme;
      }
      return value;
    }

    /** checkAppVersion: the stored version is rewritten only when it differs from the build's. */
    method CheckAppVersion()
      requires gormDB != null
      modifies gormDB
      ensures var bv := Assets.BuildVersion(buildInfo);
        && gormDB.sysConfig == VersionSynced(old(gormDB.sysConfig), bv)
        && gormDB.updates == old(gormDB.updates) +
             (if bv != Lookup(old(gormDB.sysConfig), VersionSettingKey) then [(VersionSettingKey, bv)] else [])
      ensures gormDB.oprLog == old(gormDB.oprLog)
    {
      var cver := GetSettingsStringValue("system", "LogSightVersion");
      var buildVersion := Assets.BuildVersion(buildInfo);
      if buildVersion != cver {
        gormDB.Exec(VersionSettingKey, buildVersion);
      }
    }

    /**
     * BackupDatabase: renders the template, writes it to the script path, runs it with the
     * shell, logs what it printed and removes the script, whatever the shell answered.
     * `output` and `failure` are the shell's answer.
     */
    method BackupDatabase(output: string, failure: Option<string>) returns (err: Option<string>)
      modifies host
      ensures var script := BackupScript.RenderScript(pgdumpShell, appConfig.database);
        host.trail == old(host.trail) + [FileWritten(BackupScriptPath, script),
          ShellRun(BackupScriptPath, Some(script)), Logged(Info, output), FileRemoved(BackupScriptPath)]
      ensures host.files == old(host.files) - {BackupScriptPath}
      ensures BackupScriptPath !in host.files
      ensures err == failure
      ensures host.local == old(host.local) && host.loggerReleased == old(host.loggerReleased)
    {
      var db := appConfig.database;
      var scriptsh := pgdumpShell;
      scriptsh := ReplaceAll(scriptsh, "{dbhost}", db.host);
      scriptsh := ReplaceAll(scriptsh, "{dbport}", Strconv.FormatInt(db.port));
      scriptsh := ReplaceAll(scriptsh, "{dbuser}", db.user);
      scriptsh := ReplaceAll(scriptsh, "{dbpwd}", db.passwd);
      scriptsh := ReplaceAll(scriptsh, "{dbname}", db.name);
      RenderIsChain(pgdumpShell, db);
      host.WriteFile(BackupScriptPath, scriptsh);
      var rbs, e := host.Shell(BackupScriptPath, output, failure);
      host.Log(Info, rbs);
      host.Remove(BackupScriptPath);
      err := e;
    }

    /** The backup job: a failed backup is logged. */
    method BackupJob(output: string, failure: Option<string>)
      modifies host
      ensures var script := BackupScript.RenderScript(pgdumpShell, appConfig.database);
        host.trail == old(host.trail) + [FileWritten(BackupScriptPath, script),
          ShellRun(BackupScriptPath, Some(script)), Logged(Info, output), FileRemoved(BackupScriptPath)]
          + (if failure.Some? then [Logged(Error, "database backup err " + failure.value)] else [])
      ensures host.files == old(host.files) - {BackupScriptPath}
      ensures host.local == old(host.local) && host.loggerReleased == old(host.loggerReleased)
    {
      var err := BackupDatabase(output, failure);
      if err.Some? {
        host.Log(Error, "database backup err " + err.value);
      }
    }

    /**
     * The monitor job: both monitors sample once, each with its own clock reading, and write
     * to the time-series store. The source starts them as two goroutines; here they run one
     * after the other.
     */
    method MonitorJob(sink: Jobs.Sink, r: Jobs.Reading, systemAnswers: seq<Option<string>>,
                      processAnswers: seq<Option<string>>)
      requires |systemAnswers| == 2
      requires |processAnswers| == |Jobs.ProcessMonitorBatches(r.procNow, r.found, r.cpu, r.rss)|
      modifies sink, host
      ensures sink.calls == old(sink.calls) + Jobs.SystemMonitorBatches(r.sysNow, r.percent, r.used)
        + Jobs.ProcessMonitorBatches(r.procNow, r.found, r.cpu, r.rss)
      ensures sink.rows == old(sink.rows)
        + Jobs.Accepted(Jobs.SystemMonitorBatches(r.sysNow, r.percent, r.used), systemAnswers)
        + Jobs.Accepted(Jobs.ProcessMonitorBatches(r.procNow, r.found, r.cpu, r.rss), processAnswers)
      ensures host.trail == old(host.trail) + Jobs.InsertErrors(systemAnswers) + Jobs.InsertErrors(processAnswers)
      ensures host.local == old(host.local) && host.files == old(host.files)
      ensures host.loggerReleased == old(host.loggerReleased)
    {
      Jobs.SystemMonitorTask(sink, host, r.sysNow, r.percent, r.used, systemAnswers);
      Jobs.ProcessMonitorTask(sink, host, r.procNow, r.found, r.cpu, r.rss, processAnswers);
    }

    /** The retention job: operation-log rows older than 365 days before `now` are deleted. */
    method RetentionJob(now: int)
      requires gormDB != null
      modifies gormDB
      ensures gormDB.oprLog == Jobs.Prune(old(gormDB.oprLog), Jobs.RetentionCutoff(now))
      ensures gormDB.sysConfig == old(gormDB.sysConfig) && gormDB.updates == old(gormDB.updates)
    {
      gormDB.DeleteOlderThan(Jobs.RetentionCutoff(now));
    }

    /**
     * initJob: a new scheduler in the configured zone (none when the zone does not load),
     * the three registrations, a log line only for the error of the last of them, then start.
     */
    method InitJob(parseError: string -> Option<string>)
      modifies this, host
      ensures sched != null && fresh(sched) && sched.running && sched.host == host && sched.Valid()
      ensures sched.location == host.LoadLocation(appConfig.system.location)
      ensures sched.parseError == parseError
      ensures sched.entries == Jobs.InitRegistrations(parseError)
      ensures host.trail == old(host.trail) + LastErrorLog(parseError)
      ensures host.local == old(host.local) && host.files == old(host.files)
      ensures host.loggerReleased == old(host.loggerReleased)
      ensures gormDB == old(gormDB)
    {
      var loc := host.LoadLocation(appConfig.system.location);
      sched := new Jobs.Scheduler(host, loc, parseError);
      var id, err := sched.AddFunc(Jobs.MonitorSpec, Jobs.MonitorJob);
      ghost var e1 := sched.entries;
      id, err := sched.AddFunc(Jobs.DailySpec, Jobs.BackupJob);
      ghost var e2 := sched.entries;
      id, err := sched.AddFunc(Jobs.DailySpec, Jobs.RetentionJob);
      InitTable(parseError, e1, e2, sched.entries);
      if err.Some? {
        host.Log(Error, "init job error " + err.value);
      }
      sched.Start();
    }

    /**
     * Init: a zone that loads becomes time.Local, one that does not is logged and leaves
     * time.Local alone; then any database type other than postgres panics (the result is
     * the panic message) and postgres opens `pg` and registers the jobs. As in the source,
     * `cfg` decides the zone and the database type, while initJob reads the stored appConfig.
     */
    method Init(cfg: AppConfig, pg: Database, parseError: string -> Option<string>)
      returns (panicked: Option<string>)
      modifies this, host
      ensures cfg.system.location in host.zones ==> host.local == Some(cfg.system.location)
      ensures cfg.system.location !in host.zones ==> host.local == old(host.local)
      ensures var tz := if cfg.system.location in host.zones then [] else [Logged(Error, "timezone config error")];
        && (cfg.database.dbType != Postgres ==>
              panicked == Some("not support database type") && gormDB == old(gormDB)
              && sched == old(sched) && host.trail == old(host.trail) + tz)
        && (cfg.database.dbType == Postgres ==>
              panicked.None? && gormDB == pg && sched != null && sched.running
              && sched.entries == Jobs.InitRegistrations(parseError)
              && host.trail == old(host.trail) + tz + LastErrorLog(parseError))
      ensures host.files == old(host.files) && host.loggerReleased == old(host.loggerReleased)
    {
      var loc := host.LoadLocation(cfg.system.location);
      if loc.None? {
        host.Log(Error, "timezone config error");
      } else {
        host.SetLocal(loc.value);
      }
      if cfg.database.dbType != Postgres {
        return Some("not support database type");
      }
      gormDB := pg;
      InitJob(parseError);
      return None;
    }

    /** Release: the scheduler is stopped before the logger is released. */
    method Release()
      requires sched != null && sched.host == host
      modifies sched, host
      ensures !sched.running && sched.entries == old(sched.entries)
      ensures host.trail == old(host.trail) + [SchedulerStopped, LoggerReleased]
      ensures host.loggerReleased && host.files == old(host.files) && host.local == old(host.local)
    {
      sched.Stop();
      host.ReleaseLogger();
    }
  }

  /** The log line initJob writes: only the third registration's error is looked at. */
  function LastErrorLog(parseError: string -> Option<string>): seq<Effect>
  {
    var err := parseError(Jobs.DailySpec);
    if err.Some? then [Logged(Error, "init job error " + err.value)] else []
  }

  /**
   * Whatever the first two registrations answer, initJob's log depends on the third alone:
   * a monitor cadence that does not parse goes unreported.
   */
  lemma {:induction false} OnlyLastErrorLogged(p1: string -> Option<string>, p2: string -> Option<string>)
    requires p1(Jobs.DailySpec) == p2(Jobs.DailySpec)
    ensures LastErrorLog(p1) == LastErrorLog(p2)
  {
  }

  /** The rendering chain written out as BackupDatabase applies it. */
  lemma {:induction false} RenderIsChain(template: string, db: DatabaseConfig)
    ensures BackupScript.RenderScript(template, db) ==
      ReplaceAll(ReplaceAll(ReplaceAll(ReplaceAll(ReplaceAll(template, "{dbhost}", db.host),
        "{dbport}", Strconv.FormatInt(db.port)), "{dbuser}", db.user),
        "{dbpwd}", db.passwd), "{dbname}", db.name)
  {
    var bs := BackupScript.Bindings(db);
    var s1 := ReplaceAll(template, "{dbhost}", db.host);
    var s2 := ReplaceAll(s1, "{dbport}", Strconv.FormatInt(db.port));
    var s3 := ReplaceAll(s2, "{dbuser}", db.user);
    var s4 := ReplaceAll(s3, "{dbpwd}", db.passwd);
    var s5 := ReplaceAll(s4, "{dbname}", db.name);
    assert BackupScript.Chain(template, bs) == BackupScript.Chain(s1, bs[1..]);
    assert BackupScript.Chain(s1, bs[1..]) == BackupScript.Chain(s2, bs[2..]);
    assert BackupScript.Chain(s2, bs[2..]) == BackupScript.Chain(s3, bs[3..]);
    assert BackupScript.Chain(s3, bs[3..]) == BackupScript.Chain(s4, bs[4..]);
    assert BackupScript.Chain(s4, bs[4..]) == BackupScript.Chain(s5, bs[5..]);
  }

  /** The three AddFunc steps of initJob build the table InitRegistrations describes. */
  lemma {:induction false} InitTable(parseError: string -> Option<string>, e1: seq<Jobs.Registration>,
                  e2: seq<Jobs.Registration>, e3: seq<Jobs.Registration>)
    requires e1 == (if parseError(Jobs.MonitorSpec).None? then [Jobs.Registration(1, Jobs.MonitorSpec, Jobs.MonitorJob)] else [])
    requires e2 == (if parseError(Jobs.DailySpec).None? then e1 + [Jobs.Registration(|e1| + 1, Jobs.DailySpec, Jobs.BackupJob)] else e1)
    requires e3 == (if parseError(Jobs.DailySpec).None? then e2 + [Jobs.Registration(|e2| + 1, Jobs.DailySpec, Jobs.RetentionJob)] else e2)
    ensures e3 == Jobs.InitRegistrations(parseError)
  {
    var specs := [(Jobs.MonitorSpec, Jobs.MonitorJob), (Jobs.DailySpec, Jobs.BackupJob), (Jobs.DailySpec, Jobs.RetentionJob)];
    var empty: seq<Jobs.Registration> := [];
    assert specs[1..][1..] == specs[2..] && specs[2..][1..] == specs[3..] && specs[3..] == [];
    if parseError(Jobs.MonitorSpec).None? {
      assert empty + [Jobs.Registration(|empty| + 1, specs[0].0, specs[0].1)] == e1;
    }
    assert Jobs.Register(empty, specs, parseError) == Jobs.Register(e1, specs[1..], parseError);
    assert Jobs.Register(e1, specs[1..], parseError) == Jobs.Register(e2, specs[2..], parseError);
    assert Jobs.Register(e2, specs[2..], parseError) == Jobs.Register(e3, specs[3..], parseError);
  }
}
