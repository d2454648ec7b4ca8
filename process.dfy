/**
 * The process around the application: the global zap logger, time.Local, the host file
 * system and the shell. Everything they do is recorded, in order, in one trail of effects,
 * so that the order of writes, shell runs, removals and shutdown steps can be stated.
 */
module Process {
  import opened Wrappers

  datatype Level = Info | Error

  datatype Effect =
    | Logged(level: Level, msg: string)
    | FileWritten(path: string, content: string)
    | ShellRun(path: string, script: Option<string>)
    | FileRemoved(path: string)
    | SchedulerStopped
    | LoggerReleased

  class Host {
    /** The zone names time.LoadLocation accepts (the embedded tzdata, "", "UTC", "Local"). */
    const zones: set<string>
    /** time.Local; None is the zone the process started with. */
    var local: Option<string>
    var files: map<string, string>
    var trail: seq<Effect>
    var loggerReleased: bool

    constructor (zones: set<string>, files: map<string, string>)
      ensures this.zones == zones && this.files == files
      ensures local.None? && trail == [] && !loggerReleased
    {
      this.zones := zones;
      this.files := files;
      local := None;
      trail := [];
      loggerReleased := false;
    }

    /** time.LoadLocation: the zone, or None for a name it does not know. */
    function LoadLocation(name: string): (loc: Option<string>)
    {
      if name in zones then Some(name) else None
    }

    /** log.Info / log.Error. */
    method Log(level: Level, msg: string)
      modifies this
      ensures trail == old(trail) + [Logged(level, msg)]
      ensures local == old(local) && files == old(files) && loggerReleased == old(loggerReleased)
    {
      trail := trail + [Logged(level, msg)];
    }

    /** time.Local = loc. */
    method SetLocal(zone: string)
      modifies this
      ensures local == Some(zone)
      ensures trail == old(trail) && files == old(files) && loggerReleased == old(loggerReleased)
    {
      local := Some(zone);
    }

    /** os.WriteFile, creating or truncating the file. */
    method WriteFile(path: string, content: string)
      modifies this
      ensures files == old(files)[path := content]
      ensures trail == old(trail) + [FileWritten(path, content)]
      ensures local == old(local) && loggerReleased == old(loggerReleased)
    {
      files := files[path := content];
      trail := trail + [FileWritten(path, content)];
    }

    /** os.Remove: afterwards the path is absent. */
    method Remove(path: string)
      modifies this
      ensures files == old(files) - {path}
      ensures trail == old(trail) + [FileRemoved(path)]
      ensures local == old(local) && loggerReleased == old(loggerReleased)
    {
      files := files - {path};
      trail := trail + [FileRemoved(path)];
    }

    /**
     * exec.Command("/bin/sh", path).CombinedOutput(): runs the script stored at `path`.
     * What the script prints and whether it fails are the shell's answer, an input.
     */
    method Shell(path: string, output: string, failure: Option<string>)
      returns (out: string, err: Option<string>)
      modifies this
      ensures out == output && err == failure
      ensures trail == old(trail) + [ShellRun(path, if path in files then Some(files[path]) else None)]
      ensures local == old(local) && files == old(files) && loggerReleased == old(loggerReleased)
    {
      trail := trail + [ShellRun(path, if path in files then Some(files[path]) else None)];
      out, err := output, failure;
    }

    /** zaplog.Release: flushes and closes the log outputs. */
    method ReleaseLogger()
      modifies this
      ensures loggerReleased
      ensures trail == old(trail) + [LoggerReleased]
      ensures local == old(local) && files == old(files)
    {
      loggerReleased := true;
      trail := trail + [LoggerReleased];
    }
  }
}
