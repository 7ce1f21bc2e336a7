/** Child processes as the services see them through subprocess.Popen:
    only what poll() answers and whether kill() was sent. */
module Processes {
  import opened Base

  /** A child process as poll()/returncode shows it: no exit code while it
      runs. `killed` records that kill() was sent to it. */
  datatype Process = Process(exitCode: Option<int>, killed: bool)

  /** `subprocess is not None and subprocess.poll() is None`. */
  predicate Running(p: Option<Process>)
  {
    p.Some? && p.value.exitCode.None?
  }

  /** What kill() does to the recorded process: the exit status is left to
      the operating system and shows up at a later poll. */
  function Killed(p: Option<Process>): (q: Option<Process>)
    requires p.Some?
    ensures q.Some? && q.value.killed && q.value.exitCode == p.value.exitCode
  {
    Some(p.value.(killed := true))
  }
}
