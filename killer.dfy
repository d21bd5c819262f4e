/**
 * internal/process/killer.go: terminating a process, politely first. The
 * operating system is an oracle: what `os.FindProcess` and each `Signal`
 * answer is part of the input, and the polling loop that runs for two seconds
 * in steps of 100 ms is a finite sequence of probe outcomes, one per round
 * that starts before the deadline.
 */
module Killer {
  import opened Common

  /** The outcome of an attempt to stop a process. */
  datatype KillResult = KillResult(success: bool, message: string)

  /** The signals `KillProcess` sends (signal 0 probes are not listed). */
  datatype Signal = Term | Kill

  /** The error text Go reports for a signal sent to a process that has exited. */
  const AlreadyFinished := "os: process already finished"

  /** One liveness probe: the errors of `os.FindProcess` and of sending signal 0 (None for success). */
  datatype Probe = Probe(findErr: Option<string>, signalErr: Option<string>)

  /** What the operating system answers during one `KillProcess` call. */
  datatype Os = Os(
    findErr: Option<string>,   // os.FindProcess(pid)
    termErr: Option<string>,   // Signal(SIGTERM)
    killErr: Option<string>,   // Signal(SIGKILL), if it comes to that
    probes: seq<Probe>)        // the probes of the wait, in order

  /** `IsProcessRunning`: the process is found and accepts signal 0. */
  predicate IsProcessRunning(probe: Probe) {
    probe.findErr.None? && probe.signalErr.None?
  }

  /** Some probe of the wait sees the process gone. */
  predicate GoneDuring(probes: seq<Probe>) {
    exists i :: 0 <= i < |probes| && !IsProcessRunning(probes[i])
  }

  /**
   * `waitForTermination`: probe until the process is gone or the deadline
   * passes. `rounds` is the number of probes it took.
   */
  method WaitForTermination(probes: seq<Probe>) returns (terminated: bool, rounds: nat)
    ensures terminated <==> GoneDuring(probes)
    ensures rounds <= |probes|
    ensures forall j :: 0 <= j < rounds - 1 ==> IsProcessRunning(probes[j])
    ensures terminated ==> 0 < rounds && !IsProcessRunning(probes[rounds - 1])
    ensures !terminated ==> rounds == |probes|
  {
    var i := 0;
    while i < |probes|
      invariant 0 <= i <= |probes|
      invariant forall j :: 0 <= j < i ==> IsProcessRunning(probes[j])
    {
      var probe := probes[i];
      if probe.findErr.Some? {
        return true, i + 1;  // not found means it terminated
      }
      if probe.signalErr.Some? {
        return true, i + 1;  // signal 0 refused: it is gone
      }
      i := i + 1;
    }
    return false, i;
  }

  /**
   * What `KillProcess` decides, given the operating system's answers: the
   * result and the SIGTERM and SIGKILL signals sent, in order.
   *
   * The method keeps its own ensures, one per path of the Go function, so its
   * contract reads against that function branch by branch; this function is
   * the same decision as one value, for callers that run several kills and
   * for lemmas, which cannot call a method. The method is proved to agree
   * with both.
   */
  function KillOutcome(pid: int, os: Os): (out: (KillResult, seq<Signal>))
    ensures out.1 == [] || out.1 == [Term] || out.1 == [Term, Kill]
    ensures !out.0.success <==> pid <= 0 || os.findErr.Some? || (Kill in out.1 && os.killErr.Some?)
  {
    if pid <= 0 then (KillResult(false, "Invalid PID"), [])
    else if os.findErr.Some? then (KillResult(false, "Process not found: " + os.findErr.value), [])
    else if os.termErr == Some(AlreadyFinished) then (KillResult(true, "Process already terminated"), [Term])
    else if os.termErr.Some? then
      (if os.killErr.None? then KillResult(true, "Process killed (forced)")
       else KillResult(false, "Failed to kill process: " + os.killErr.value), [Term, Kill])
    else if GoneDuring(os.probes) then (KillResult(true, "Process terminated gracefully"), [Term])
    else
      (if os.killErr.None? then KillResult(true, "Process killed (forced after timeout)")
       else KillResult(false, "Failed to force kill process: " + os.killErr.value), [Term, Kill])
  }

  /**
   * `KillProcess`. `sent` lists the SIGTERM and SIGKILL signals it sends, in
   * order.
   */
  method KillProcess(pid: int, os: Os) returns (r: KillResult, sent: seq<Signal>)
    // invalid pid: nothing is looked up or sent
    ensures pid <= 0 ==> r == KillResult(false, "Invalid PID") && sent == []
    // the lookup fails
    ensures pid > 0 && os.findErr.Some? ==>
      r == KillResult(false, "Process not found: " + os.findErr.value) && sent == []
    // SIGTERM reports the process already gone
    ensures pid > 0 && os.findErr.None? && os.termErr == Some(AlreadyFinished) ==>
      r == KillResult(true, "Process already terminated") && sent == [Term]
    // SIGTERM fails otherwise: SIGKILL at once, without waiting
    ensures pid > 0 && os.findErr.None? && os.termErr.Some? && os.termErr != Some(AlreadyFinished) ==>
      && sent == [Term, Kill]
      && r == (if os.killErr.None? then KillResult(true, "Process killed (forced)")
               else KillResult(false, "Failed to kill process: " + os.killErr.value))
    // SIGTERM accepted and the process goes away in time
    ensures pid > 0 && os.findErr.None? && os.termErr.None? && GoneDuring(os.probes) ==>
      r == KillResult(true, "Process terminated gracefully") && sent == [Term]
    // SIGTERM accepted but the process outlives the wait
    ensures pid > 0 && os.findErr.None? && os.termErr.None? && !GoneDuring(os.probes) ==>
      && sent == [Term, Kill]
      && r == (if os.killErr.None? then KillResult(true, "Process killed (forced after timeout)")
               else KillResult(false, "Failed to force kill process: " + os.killErr.value))
    // the shape of every run: SIGTERM first, SIGKILL at most once and last
    ensures sent != [] ==> sent[0] == Term
    ensures forall i :: 0 <= i < |sent| && sent[i] == Kill ==> i == |sent| - 1
    // a failure is an invalid pid, a failed lookup or a refused SIGKILL
    ensures !r.success <==> pid <= 0 || os.findErr.Some? || (Kill in sent && os.killErr.Some?)
    // the whole decision, as a function the callers can name
    ensures (r, sent) == KillOutcome(pid, os)
  {
    if pid <= 0 {
      return KillResult(false, "Invalid PID"), [];
    }
    if os.findErr.Some? {
      return KillResult(false, "Process not found: " + os.findErr.value), [];
    }
    sent := [Term];
    if os.termErr.Some? {
      if os.termErr.value == AlreadyFinished {
        return KillResult(true, "Process already terminated"), sent;
      }
      sent := sent + [Kill];
      if os.killErr.Some? {
        return KillResult(false, "Failed to kill process: " + os.killErr.value), sent;
      }
      return KillResult(true, "Process killed (forced)"), sent;
    }
    var terminated, _ := WaitForTermination(os.probes);
    if !terminated {
      sent := sent + [Kill];
      if os.killErr.Some? {
        return KillResult(false, "Failed to force kill process: " + os.killErr.value), sent;
      }
      return KillResult(true, "Process killed (forced after timeout)"), sent;
    }
    return KillResult(true, "Process terminated gracefully"), sent;
  }
}
