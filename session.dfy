/** session.h: the per-connection record libwebsockets allocates (zeroed)
    for each WebSocket client. Only the fields the server logic reads and
    writes are modelled; the outgoing byte buffers belong to the transport. */
module Sessions {
  import opened Limits

  /** The process-monitor part of a session that read_process_stats
      updates: the cached pid and the CPU baseline. */
  datatype MonitorState = MonitorState(pid: nat, prevUtime: nat, prevStime: nat, prevMonoMs: nat)

  /** No pid cached and no baseline recorded. */
  const NO_MONITOR: MonitorState := MonitorState(0, 0, 0, 0)

  class Session {
    /** The connection was counted in the connected-client count. */
    var counted: bool
    /** The connection reserved a pending slot when it was admitted. The
        record of session.h has no such field; the corrected WSI_DESTROY
        guard needs it (a refused connection reserved nothing). */
    var pendingSlot: bool
    /** Name of the monitored process; at most 63 bytes. */
    var procName: string
    var procEnabled: bool
    var prevProcUtime: nat
    var prevProcStime: nat
    var prevProcSampleMonoMs: nat
    /** Cached pid of the monitored process; 0 means look it up. */
    var procPid: nat

    /** Monitoring is enabled exactly when a non-empty name is stored, and
        the name fits its 64-byte buffer. */
    ghost predicate Valid()
      reads this
    {
      |procName| < MAX_PROC_NAME_LENGTH && (procEnabled <==> procName != [])
    }

    function Monitor(): MonitorState
      reads this
    {
      MonitorState(procPid, prevProcUtime, prevProcStime, prevProcSampleMonoMs)
    }

    /** A freshly allocated session: all fields zero. */
    constructor ()
      ensures Valid()
      ensures !counted && !pendingSlot && procName == [] && !procEnabled && Monitor() == NO_MONITOR
    {
      counted := false;
      pendingSlot := false;
      procName := [];
      procEnabled := false;
      prevProcUtime := 0;
      prevProcStime := 0;
      prevProcSampleMonoMs := 0;
      procPid := 0;
    }
  }
}
