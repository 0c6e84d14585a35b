/** ws_server.c: connection accounting of the WebSocket server, the
    statistics-sampler timer it drives, and the handling of inbound
    commands. libwebsockets events become method calls; each connection's
    per-session record is a Sessions.Session. */
module WsServer {
  import opened Text
  import opened Limits
  import opened JsonValue
  import opened Sessions

  /** The two module-global connection counters. */
  datatype Counters = Counters(pending: nat, connected: nat)

  function Total(c: Counters): nat
  {
    c.pending + c.connected
  }

  /** `if (n > 0) n--;` */
  function SatDec(n: nat): (r: nat)
    ensures n > 0 ==> r + 1 == n
    ensures n == 0 ==> r == 0
  {
    if n > 0 then n - 1 else 0
  }

  /** FILTER_PROTOCOL_CONNECTION: a new connection is admitted, and reserves
      a pending slot, exactly when fewer than MAX_WS_CONNECTED_CLIENTS slots
      are taken. */
  function AfterFilter(c: Counters): (r: Option<Counters>)
    ensures r.None? <==> Total(c) >= MAX_WS_CONNECTED_CLIENTS
    ensures r.Some? ==> r.value.connected == c.connected && Total(r.value) == Total(c) + 1
  {
    if c.connected + c.pending >= MAX_WS_CONNECTED_CLIENTS then None
    else Some(c.(pending := c.pending + 1))
  }

  /** ESTABLISHED: one pending slot becomes a connected one. */
  function AfterEstablished(c: Counters): Counters
  {
    Counters(SatDec(c.pending), c.connected + 1)
  }

  /** CLOSED: a counted session gives back its connected slot. */
  function AfterClosed(c: Counters, counted: bool): Counters
  {
    if counted then c.(connected := SatDec(c.connected)) else c
  }

  /** WSI_DESTROY: a session that never became counted gives back its
      pending slot. */
  function AfterDestroy(c: Counters, counted: bool): Counters
  {
    if counted then c else c.(pending := SatDec(c.pending))
  }

  /** Every way an admitted connection can end gives back exactly the one
      slot it reserved, without any decrement saturating: rejected during
      the handshake (destroy), or established, closed and destroyed. No
      intermediate state holds more slots than admission allowed. */
  lemma {:induction false} EveryLifecycleReleasesOneSlot(c: Counters)
    requires Total(c) < MAX_WS_CONNECTED_CLIENTS
    ensures AfterFilter(c).Some?
    ensures AfterDestroy(AfterFilter(c).value, false) == c
    ensures Total(AfterEstablished(AfterFilter(c).value)) == Total(c) + 1
    ensures Total(AfterClosed(AfterEstablished(AfterFilter(c).value), true)) == Total(c)
    ensures AfterDestroy(AfterClosed(AfterEstablished(AfterFilter(c).value), true), true) == c
  {
    var a := AfterFilter(c).value;
    assert a.pending == c.pending + 1;
  }

  /** As written, WSI_DESTROY of a connection the filter refused takes the
      uncounted branch too and frees a pending slot that belongs to another
      handshake. From nine connected clients and one handshake in progress:
      a refused connection is destroyed, a new one is admitted in the freed
      slot, and both handshakes complete, leaving eleven clients connected
      against a limit of ten. */
  lemma RejectedDestroyOverfills()
    ensures AfterFilter(Counters(1, 9)).None?
    ensures AfterDestroy(Counters(1, 9), false) == Counters(0, 9)
    ensures AfterFilter(Counters(0, 9)) == Some(Counters(1, 9))
    ensures AfterEstablished(AfterEstablished(Counters(1, 9))) == Counters(0, 11)
    ensures Total(Counters(0, 11)) > MAX_WS_CONNECTED_CLIENTS
  {
  }

  /** An established session that is destroyed without CLOSED keeps its
      connected slot: the accounting relies on libwebsockets delivering
      CLOSED for every established connection. */
  lemma EstablishedNeedsClose(c: Counters)
    requires Total(c) < MAX_WS_CONNECTED_CLIENTS
    ensures Total(AfterDestroy(AfterEstablished(AfterFilter(c).value), true)) == Total(c) + 1
  {
  }

  /** The timer id after start_stats_timer: a new GLib source only when no
      timer is held and an application state is attached. */
  function TimerAfterStart(id: nat, hasApp: bool, newId: nat): (r: nat)
    requires newId > 0
    ensures r != 0 <==> id != 0 || hasApp
    ensures id != 0 ==> r == id
  {
    if id == 0 && hasApp then newId else id
  }

  /** Starting twice is starting once, and stopping (id 0) twice is
      stopping once. */
  lemma TimerStartIdempotent(id: nat, hasApp: bool, newId: nat, newId2: nat)
    requires newId > 0 && newId2 > 0
    ensures TimerAfterStart(TimerAfterStart(id, hasApp, newId), hasApp, newId2) == TimerAfterStart(id, hasApp, newId)
  {
  }

  /** What an inbound message asks for. */
  datatype Command =
    | Ignore
    | ListProcesses
    | StorageInfo
    | StopMonitor
    | StartMonitor(name: string)

  /** The RECEIVE branch's decision for a message of `len` bytes that parsed
      to `doc` (None: not valid JSON). Messages that are empty or of 128
      bytes or more, invalid JSON and non-objects are ignored; then
      "list_processes": true wins over "storage": true, which wins over
      "monitor"; a "monitor" that is missing or not a string is ignored. */
  function ParseCommand(len: nat, doc: Option<Json>): Command
  {
    if len == 0 || len >= MAX_RECEIVE_LENGTH then Ignore
    else if doc.None? || !doc.value.JObject? then Ignore
    else
      var members := doc.value.members;
      if IsTrue(Get(members, "list_processes")) then ListProcesses
      else if IsTrue(Get(members, "storage")) then StorageInfo
      else
        match Get(members, "monitor")
        case Some(JString(name)) => if name == [] then StopMonitor else StartMonitor(name)
        case _ => Ignore
  }

  /** A message is acted on only when it is 1 to 127 bytes long and parses
      to a JSON object holding one of the recognised keys. */
  lemma {:induction false} ParseCommandIgnores(len: nat, doc: Option<Json>)
    ensures ParseCommand(len, doc) != Ignore ==>
              0 < len < MAX_RECEIVE_LENGTH && doc.Some? && doc.value.JObject? &&
              (Get(doc.value.members, "list_processes").Some? ||
               Get(doc.value.members, "storage").Some? ||
               Get(doc.value.members, "monitor").Some?)
  {
  }

  /** The recognised keys, in order of precedence: each command is chosen
      exactly when its key holds the right value and no earlier key does. */
  lemma ParseCommandPrecedence(len: nat, members: seq<Member>)
    requires 0 < len < MAX_RECEIVE_LENGTH
    ensures ParseCommand(len, Some(JObject(members))) == ListProcesses <==>
              Get(members, "list_processes") == Some(JBool(true))
    ensures ParseCommand(len, Some(JObject(members))) == StorageInfo <==>
              Get(members, "list_processes") != Some(JBool(true)) && Get(members, "storage") == Some(JBool(true))
    ensures ParseCommand(len, Some(JObject(members))) == StopMonitor <==>
              Get(members, "list_processes") != Some(JBool(true)) && Get(members, "storage") != Some(JBool(true)) &&
              Get(members, "monitor") == Some(JString(""))
    ensures (exists name :: ParseCommand(len, Some(JObject(members))) == StartMonitor(name)) <==>
              Get(members, "list_processes") != Some(JBool(true)) && Get(members, "storage") != Some(JBool(true)) &&
              Get(members, "monitor").Some? && Get(members, "monitor").value.JString? &&
              Get(members, "monitor").value.s != []
  {
    var cmd := ParseCommand(len, Some(JObject(members)));
    if Get(members, "list_processes") != Some(JBool(true)) && Get(members, "storage") != Some(JBool(true)) {
      var m := Get(members, "monitor");
      if m.Some? && m.value.JString? && m.value.s != [] {
        assert cmd == StartMonitor(m.value.s);
      }
    }
  }

  /** A later duplicate key overrides an earlier one: the parsed document
      keeps the last value. */
  lemma LastDuplicateWins(len: nat)
    requires 0 < len < MAX_RECEIVE_LENGTH
    ensures ParseCommand(len, Some(JObject([Member("monitor", JString("init")), Member("monitor", JString(""))]))) == StopMonitor
  {
    var members := [Member("monitor", JString("init")), Member("monitor", JString(""))];
    GetIsLastOccurrence(members, "list_processes");
    GetIsLastOccurrence(members, "storage");
  }

  /** The session's response to an inbound message: "monitor": "" stops
      monitoring and clears the name, pid and CPU baseline; a non-empty name
      is stored cut to 63 bytes, enables monitoring and clears the pid and
      baseline; every other message leaves the session as it was. The
      one-shot list and storage responses are built by JsonOut. */
  method Receive(s: Session, len: nat, doc: Option<Json>) returns (cmd: Command)
    requires s.Valid()
    modifies s
    ensures s.Valid()
    ensures cmd == ParseCommand(len, doc)
    ensures s.counted == old(s.counted) && s.pendingSlot == old(s.pendingSlot)
    ensures cmd == StopMonitor ==> !s.procEnabled && s.procName == [] && s.Monitor() == NO_MONITOR
    ensures cmd.StartMonitor? ==>
              s.procEnabled && s.procName == Truncate(cmd.name, MAX_PROC_NAME_LENGTH - 1) && s.Monitor() == NO_MONITOR
    ensures cmd != StopMonitor && !cmd.StartMonitor? ==>
              s.procEnabled == old(s.procEnabled) && s.procName == old(s.procName) && s.Monitor() == old(s.Monitor())
  {
    cmd := ParseCommand(len, doc);
    match cmd {
      case StopMonitor =>
        s.procEnabled := false;
        s.procName := [];
        s.prevProcUtime, s.prevProcStime, s.prevProcSampleMonoMs := 0, 0, 0;
        s.procPid := 0;
      case StartMonitor(name) =>
        s.procName := Truncate(name, MAX_PROC_NAME_LENGTH - 1);
        s.procEnabled := true;
        s.prevProcUtime, s.prevProcStime, s.prevProcSampleMonoMs := 0, 0, 0;
        s.procPid := 0;
      case _ =>
    }
  }

  /** The server's module state: the two counters, the sampler timer and
      the application state it samples into. The ghost sets record which
      session holds which kind of slot. */
  class Server {
    var pending: nat
    var connected: nat
    /** GLib source id of the sampler timer; 0 when none is running. */
    var statsTimerId: nat
    /** An application state is attached (ws.app != NULL). */
    var hasApp: bool
    /** The id the next g_timeout_add returns; GLib ids are positive. */
    var nextSourceId: nat

    /** Admitted by FILTER, not yet established or destroyed. */
    ghost var admitted: set<Session>
    /** Established and not yet closed. */
    ghost var established: set<Session>
    /** Closed after being established, not yet destroyed. */
    ghost var closed: set<Session>
    /** Refused by FILTER, not yet destroyed. */
    ghost var rejected: set<Session>

    function Counts(): Counters
      reads this
    {
      Counters(pending, connected)
    }

    /** Each counter counts the sessions holding that kind of slot, so no
        saturating decrement ever saturates and the total stays within the
        limit; the sampler runs exactly while a client is connected (when
        there is an application state to sample into). */
    ghost predicate Valid()
      reads this, admitted, established, closed, rejected
    {
      admitted !! established && admitted !! closed && established !! closed &&
      rejected !! admitted && rejected !! established && rejected !! closed &&
      pending == |admitted| && connected == |established| &&
      (forall s :: s in admitted ==> !s.counted && s.pendingSlot) &&
      (forall s :: s in rejected ==> !s.counted && !s.pendingSlot) &&
      (forall s :: s in established ==> s.counted) &&
      (forall s :: s in closed ==> s.counted) &&
      pending + connected <= MAX_WS_CONNECTED_CLIENTS &&
      (statsTimerId != 0 <==> hasApp && connected > 0) &&
      nextSourceId > 0
    }

    /** ws_server_start: no connections and no sampler yet. */
    constructor (hasApp: bool)
      ensures Valid()
      ensures Counts() == Counters(0, 0) && statsTimerId == 0 && this.hasApp == hasApp
      ensures admitted == {} && established == {} && closed == {} && rejected == {}
    {
      pending, connected := 0, 0;
      statsTimerId := 0;
      this.hasApp := hasApp;
      nextSourceId := 1;
      admitted, established, closed, rejected := {}, {}, {}, {};
    }

    /** start_stats_timer */
    method StartStatsTimer()
      requires nextSourceId > 0
      modifies this
      ensures statsTimerId == TimerAfterStart(old(statsTimerId), hasApp, old(nextSourceId))
      ensures nextSourceId > 0
      ensures pending == old(pending) && connected == old(connected) && hasApp == old(hasApp)
      ensures admitted == old(admitted) && established == old(established) && closed == old(closed)
      ensures rejected == old(rejected)
    {
      if statsTimerId == 0 && hasApp {
        statsTimerId := nextSourceId;
        nextSourceId := nextSourceId + 1;
      }
    }

    /** stop_stats_timer */
    method StopStatsTimer()
      modifies this
      ensures statsTimerId == 0
      ensures nextSourceId == old(nextSourceId)
      ensures pending == old(pending) && connected == old(connected) && hasApp == old(hasApp)
      ensures admitted == old(admitted) && established == old(established) && closed == old(closed)
      ensures rejected == old(rejected)
    {
      if statsTimerId != 0 {
        statsTimerId := 0;
      }
    }

    /** LWS_CALLBACK_FILTER_PROTOCOL_CONNECTION for a new connection: a
        refused one is remembered until it is destroyed, an admitted one
        holds a pending slot. */
    method Filter(s: Session) returns (rc: int)
      requires Valid()
      requires s !in admitted && s !in established && s !in closed && s !in rejected
      requires !s.counted && !s.pendingSlot
      modifies this, s
      ensures Valid()
      ensures rc == -1 <==> Total(old(Counts())) >= MAX_WS_CONNECTED_CLIENTS
      ensures rc == -1 ==> Counts() == old(Counts()) && admitted == old(admitted) &&
                           rejected == old(rejected) + {s} && !s.pendingSlot
      ensures rc == 0 ==> Some(Counts()) == AfterFilter(old(Counts())) && admitted == old(admitted) + {s} &&
                          rejected == old(rejected) && s.pendingSlot
      ensures rc == -1 || rc == 0
      ensures established == old(established) && closed == old(closed)
      ensures statsTimerId == old(statsTimerId) && !s.counted
    {
      if connected + pending >= MAX_WS_CONNECTED_CLIENTS {
        rejected := rejected + {s};
        return -1;
      }
      pending := pending + 1;
      s.pendingSlot := true;
      admitted := admitted + {s};
      return 0;
    }

    /** LWS_CALLBACK_ESTABLISHED: the session's pending slot becomes a
        connected one; the first connected client starts the sampler. */
    method Established(s: Session)
      requires Valid()
      requires s in admitted
      modifies this, s
      ensures Valid()
      ensures Counts() == AfterEstablished(old(Counts()))
      ensures pending == old(pending) - 1 && connected == old(connected) + 1
      ensures s.counted
      ensures admitted == old(admitted) - {s} && established == old(established) + {s} && closed == old(closed)
      ensures rejected == old(rejected)
      ensures statsTimerId == if connected == 1 then TimerAfterStart(old(statsTimerId), hasApp, old(nextSourceId))
                              else old(statsTimerId)
      ensures s.procName == old(s.procName) && s.procEnabled == old(s.procEnabled) && s.Monitor() == old(s.Monitor())
    {
      if pending > 0 {
        pending := pending - 1;
      }
      connected := connected + 1;
      s.counted := true;
      admitted := admitted - {s};
      established := established + {s};
      if connected == 1 {
        StartStatsTimer();
      }
    }

    /** LWS_CALLBACK_CLOSED: a counted session gives back its connected
        slot; the last one to leave stops the sampler. */
    method Closed(s: Session)
      requires Valid()
      requires s in admitted || s in established
      modifies this
      ensures Valid()
      ensures Counts() == AfterClosed(old(Counts()), s.counted)
      ensures old(s in established) ==>
                connected == old(connected) - 1 &&
                established == old(established) - {s} && closed == old(closed) + {s} &&
                statsTimerId == (if connected == 0 then 0 else old(statsTimerId))
      ensures old(s in admitted) ==>
                Counts() == old(Counts()) && established == old(established) && closed == old(closed) &&
                statsTimerId == old(statsTimerId)
      ensures admitted == old(admitted) && rejected == old(rejected)
    {
      if s.counted {
        if connected > 0 {
          connected := connected - 1;
        }
        established := established - {s};
        closed := closed + {s};
        if connected == 0 {
          StopStatsTimer();
        }
      }
    }

    /** LWS_CALLBACK_WSI_DESTROY, with the guard corrected: a session that
        never became counted gives back its pending slot only when it holds
        one, so a refused connection gives back nothing; a closed one has
        nothing left to give. */
    method Destroy(s: Session)
      requires Valid()
      requires s in admitted || s in closed || s in rejected
      modifies this
      ensures Valid()
      ensures old(s in admitted) ==>
                Counts() == AfterDestroy(old(Counts()), false) && pending == old(pending) - 1 &&
                admitted == old(admitted) - {s} && closed == old(closed) && rejected == old(rejected)
      ensures old(s in closed) ==>
                Counts() == AfterDestroy(old(Counts()), true) &&
                admitted == old(admitted) && closed == old(closed) - {s} && rejected == old(rejected)
      ensures old(s in rejected) ==>
                Counts() == old(Counts()) &&
                admitted == old(admitted) && closed == old(closed) && rejected == old(rejected) - {s}
      ensures connected == old(connected) && established == old(established) && statsTimerId == old(statsTimerId)
    {
      if !s.counted && s.pendingSlot {
        if pending > 0 {
          pending := pending - 1;
        }
      }
      admitted := admitted - {s};
      closed := closed - {s};
      rejected := rejected - {s};
    }
  }
}
