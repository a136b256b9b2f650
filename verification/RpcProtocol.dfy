/** The RPC protocol as a transition system: client threads, the poll thread's upcalls,
    the server's dispatch threads, server restarts, and a network that loses, duplicates
    and reorders.  Each action is one lock-protected region of the program. */
module RpcProtocol {
  import opened Basics
  import opened RpcTypes
  import opened Wire
  import AckWindow
  import RW = ReplyWindow

  // ---- client (`rpcc`) ----

  datatype Caller = Caller(done: bool, intret: int, un: Bytes)

  /** `calls` holds the callers still inside `call1`'s loop. */
  datatype Client = Client(
    nonce: nat, srvNonce: nat, bindDone: bool, xid: nat, calls: map<nat, Caller>,
    window: seq<nat>, dupReq: Option<Request>, xidRepDone: int)

  function InitClient(nonce: nat): Client {
    Client(nonce, 0, false, 1, map[], [0], None, -1)
  }

  predicate MayCall(c: Client, proc: nat) {
    if proc == BIND then !c.bindDone else c.bindDone
  }

  function NewRequest(c: Client, proc: nat, args: Bytes): Request
    requires |c.window| > 0
  {
    Request(Header(c.xid, proc, c.nonce, c.srvNonce, c.window[0]), args)
  }

  function BeginCall(c: Client): Client {
    c.(xid := c.xid + 1, calls := c.calls[c.xid := Caller(false, 0, [])])
  }

  function GotPdu(c: Client, m: Reply): Client
    requires |c.window| > 0
  {
    var c' := c.(window := AckWindow.Update(c.window, m.xid));
    if m.xid in c.calls && !c.calls[m.xid].done
    then c'.(calls := c.calls[m.xid := Caller(true, m.ret, m.body)])
    else c'
  }

  function EndCall(c: Client, x: nat): Client
    requires |c.window| > 0
  {
    c.(calls := c.calls - {x}, window := AckWindow.Update(c.window, x))
  }

  /** What `call1` returns for a caller in this state. */
  function Result(ca: Caller): int {
    if ca.done then ca.intret else TIMEOUT_FAILURE
  }

  /** What bind does with the bytes of a successful answer: the server's nonce. */
  function EndBind(c: Client, un: Bytes): Client
    requires |un| == 4
  {
    c.(bindDone := true, srvNonce := Unpack32(un))
  }

  /** Lossy testing: remember one finished request, to be sent again on purpose. */
  function SaveDuplicate(c: Client, r: Request): Client {
    c.(dupReq := if c.dupReq.None? then Some(r) else c.dupReq,
       xidRepDone := if r.h.xidRep > c.xidRepDone then r.h.xidRep else c.xidRepDone)
  }

  predicate DuplicateDue(c: Client) {
    c.dupReq.Some? && c.xidRepDone > c.dupReq.value.h.xid
  }

  // ---- server (`rpcs`) ----

  datatype Phase = Admitted | Executed(reply: Reply) | Stored(reply: Reply)

  /** A dispatch thread that was told NEW and has not yet sent its reply. */
  datatype Job = Job(req: Request, phase: Phase)

  datatype Server = Server(nonce: nat, windows: map<nat, seq<RW.Entry>>, jobs: map<nat, Job>)

  /** An unknown client gets an empty window before its request is checked. */
  function WindowOf(sv: Server, clt: nat): seq<RW.Entry> {
    if clt in sv.windows then sv.windows[clt] else []
  }

  predicate WrongIncarnation(sv: Server, h: Header) {
    h.srvNonce != 0 && h.srvNonce != sv.nonce
  }

  function StatusOf(sv: Server, h: Header): RW.Status {
    RW.Classify(WindowOf(sv, h.cltNonce), h.xid)
  }

  function CheckRequest(sv: Server, h: Header): Server {
    sv.(windows := sv.windows[h.cltNonce := RW.Check(WindowOf(sv, h.cltNonce), h.xid, h.xidRep)])
  }

  function AddReply(sv: Server, h: Header, reply: Reply): Server {
    sv.(windows := sv.windows[h.cltNonce := RW.Store(WindowOf(sv, h.cltNonce), h.xid, reply)])
  }

  function SetPhase(sv: Server, j: nat, p: Phase): Server
    requires j in sv.jobs
  {
    sv.(jobs := sv.jobs[j := Job(sv.jobs[j].req, p)])
  }

  // ---- the whole system ----

  datatype CallId = CallId(clt: nat, xid: nat)
  datatype Envelope = Envelope(clt: nat, reply: Reply)

  /** One NEW verdict: which incarnation gave it, to which request. */
  datatype Admission = Admission(inc: nat, req: Request)

  /** The network is the set of messages ever sent: not receiving one, or receiving one
      again or late, is losing, duplicating and reordering.  `issued`, `returned`, `log`
      and `execs` record history; `saved` and `bound` say which threads have run past the
      end of `call1`. */
  datatype System = System(
    clients: map<nat, Client>, server: Server, past: set<nat>,
    requests: set<Request>, replies: set<Envelope>,
    issued: map<CallId, Request>, returned: map<CallId, Caller>,
    saved: set<CallId>, bound: set<CallId>,
    log: seq<Admission>, execs: map<nat, Reply>)

  ghost predicate Init(s: System) {
    && (forall n :: n in s.clients ==> n != 0 && s.clients[n] == InitClient(n))
    && 0 < s.server.nonce < WORD
    && s == System(s.clients, Server(s.server.nonce, map[], map[]), {}, {}, {}, map[], map[], {}, {}, [], map[])
  }

  datatype Action =
    | Call(n: nat, proc: nat, args: Bytes)        // call1: first locked region
    | Transmit(n: nat, x: nat)                    // call1: (re)send on the current channel
    | TransmitDuplicate(n: nat)                   // call1: send the saved lossy-test request
    | Deliver(n: nat, m: Reply)                   // rpcc::got_pdu
    | Return(n: nat, x: nat)                      // call1: leave the loop, done or timed out
    | SaveDup(n: nat, x: nat)                     // call1: lossy-test region
    | BindDone(n: nat, x: nat)                    // bind: after call returned 0
    | Dispatch(r: Request)                        // rpcs::dispatch up to the switch
    | Execute(j: nat, ret: int, body: Bytes)      // rpcs::dispatch: f->fn
    | Record(j: nat)                              // rpcs::add_reply
    | Send(j: nat)                                // rpcs::dispatch: c->send
    | Restart(nonce: nat)                         // a new rpcs object replaces the old one

  ghost predicate CanCall(s: System, n: nat, proc: nat) {
    n in s.clients && |s.clients[n].window| > 0 && MayCall(s.clients[n], proc)
  }

  ghost function CallStep(s: System, n: nat, proc: nat, args: Bytes): System
    requires CanCall(s, n, proc)
  {
    var c := s.clients[n];
    s.(clients := s.clients[n := BeginCall(c)],
       issued := s.issued[CallId(n, c.xid) := NewRequest(c, proc, args)])
  }

  ghost predicate CanTransmit(s: System, n: nat, x: nat) {
    n in s.clients && x in s.clients[n].calls && CallId(n, x) in s.issued
  }

  ghost function TransmitStep(s: System, n: nat, x: nat): System
    requires CanTransmit(s, n, x)
  {
    s.(requests := s.requests + {s.issued[CallId(n, x)]})
  }

  ghost predicate CanTransmitDuplicate(s: System, n: nat) {
    n in s.clients && DuplicateDue(s.clients[n])
  }

  ghost function TransmitDuplicateStep(s: System, n: nat): System
    requires CanTransmitDuplicate(s, n)
  {
    var c := s.clients[n];
    s.(requests := s.requests + {c.dupReq.value}, clients := s.clients[n := c.(dupReq := None)])
  }

  ghost predicate CanDeliver(s: System, n: nat, m: Reply) {
    n in s.clients && |s.clients[n].window| > 0 && Envelope(n, m) in s.replies
  }

  ghost function DeliverStep(s: System, n: nat, m: Reply): System
    requires CanDeliver(s, n, m)
  {
    s.(clients := s.clients[n := GotPdu(s.clients[n], m)])
  }

  ghost predicate CanReturn(s: System, n: nat, x: nat) {
    n in s.clients && |s.clients[n].window| > 0 && x in s.clients[n].calls
  }

  ghost function ReturnStep(s: System, n: nat, x: nat): System
    requires CanReturn(s, n, x)
  {
    s.(clients := s.clients[n := EndCall(s.clients[n], x)],
       returned := s.returned[CallId(n, x) := s.clients[n].calls[x]])
  }

  ghost predicate CanSaveDup(s: System, n: nat, x: nat) {
    && n in s.clients && CallId(n, x) in s.returned && s.returned[CallId(n, x)].done
    && CallId(n, x) in s.issued && CallId(n, x) !in s.saved
  }

  ghost function SaveDupStep(s: System, n: nat, x: nat): System
    requires CanSaveDup(s, n, x)
  {
    s.(clients := s.clients[n := SaveDuplicate(s.clients[n], s.issued[CallId(n, x)])],
       saved := s.saved + {CallId(n, x)})
  }

  ghost predicate CanBindDone(s: System, n: nat, x: nat) {
    && n in s.clients && CallId(n, x) in s.returned && Result(s.returned[CallId(n, x)]) == 0
    && CallId(n, x) in s.issued && s.issued[CallId(n, x)].h.proc == BIND
    && |s.returned[CallId(n, x)].un| == 4 && CallId(n, x) !in s.bound
  }

  ghost function BindDoneStep(s: System, n: nat, x: nat): System
    requires CanBindDone(s, n, x)
  {
    s.(clients := s.clients[n := EndBind(s.clients[n], s.returned[CallId(n, x)].un)],
       bound := s.bound + {CallId(n, x)})
  }

  ghost function AddAnswer(s: System, n: nat, m: Reply): System {
    s.(replies := s.replies + {Envelope(n, m)})
  }

  /** The server knows the request: its window is checked and, if NEW, a job starts. */
  ghost function AdmitStep(s: System, r: Request): System {
    s.(server := CheckRequest(s.server, r.h).(jobs := s.server.jobs[|s.log| := Job(r, Admitted)]),
       log := s.log + [Admission(s.server.nonce, r)])
  }

  ghost function DispatchStep(s: System, r: Request): System {
    var h := r.h;
    if WrongIncarnation(s.server, h) then
      AddAnswer(s, h.cltNonce, Reply(h.xid, OLDSRV_FAILURE, []))
    else
      match StatusOf(s.server, h)
      case New => AdmitStep(s, r)
      case InProgress => s.(server := CheckRequest(s.server, h))
      case Done(reply) => AddAnswer(s.(server := CheckRequest(s.server, h)), h.cltNonce, reply)
      case Forgotten =>
        AddAnswer(s.(server := CheckRequest(s.server, h)), h.cltNonce, Reply(h.xid, ATMOSTONCE_FAILURE, []))
  }

  /** Handlers return non-negative codes; the bind handler returns this server's nonce. */
  ghost predicate CanExecute(s: System, j: nat, ret: int, body: Bytes) {
    && j in s.server.jobs && s.server.jobs[j].phase.Admitted? && ret >= 0 && s.server.nonce < WORD
    && (s.server.jobs[j].req.h.proc == BIND ==> ret == 0 && body == Pack32(s.server.nonce))
  }

  ghost function ExecuteStep(s: System, j: nat, ret: int, body: Bytes): System
    requires CanExecute(s, j, ret, body)
  {
    var reply := Reply(s.server.jobs[j].req.h.xid, ret, body);
    s.(server := SetPhase(s.server, j, Executed(reply)), execs := s.execs[j := reply])
  }

  ghost predicate CanRecord(s: System, j: nat) {
    j in s.server.jobs && s.server.jobs[j].phase.Executed?
  }

  ghost function RecordStep(s: System, j: nat): System
    requires CanRecord(s, j)
  {
    var job := s.server.jobs[j];
    s.(server := SetPhase(AddReply(s.server, job.req.h, job.phase.reply), j, Stored(job.phase.reply)))
  }

  ghost predicate CanSend(s: System, j: nat) {
    j in s.server.jobs && s.server.jobs[j].phase.Stored?
  }

  ghost function SendStep(s: System, j: nat): System
    requires CanSend(s, j)
  {
    var job := s.server.jobs[j];
    AddAnswer(s.(server := s.server.(jobs := s.server.jobs - {j})), job.req.h.cltNonce, job.phase.reply)
  }

  ghost predicate CanRestart(s: System, nonce: nat) {
    0 < nonce < WORD && nonce !in s.past && nonce != s.server.nonce
  }

  ghost function RestartStep(s: System, nonce: nat): System {
    s.(server := Server(nonce, map[], map[]), past := s.past + {s.server.nonce})
  }

  ghost predicate Enabled(s: System, a: Action) {
    match a
    case Call(n, proc, _) => CanCall(s, n, proc)
    case Transmit(n, x) => CanTransmit(s, n, x)
    case TransmitDuplicate(n) => CanTransmitDuplicate(s, n)
    case Deliver(n, m) => CanDeliver(s, n, m)
    case Return(n, x) => CanReturn(s, n, x)
    case SaveDup(n, x) => CanSaveDup(s, n, x)
    case BindDone(n, x) => CanBindDone(s, n, x)
    case Dispatch(r) => r in s.requests
    case Execute(j, ret, body) => CanExecute(s, j, ret, body)
    case Record(j) => CanRecord(s, j)
    case Send(j) => CanSend(s, j)
    case Restart(nonce) => CanRestart(s, nonce)
  }

  ghost function Apply(s: System, a: Action): System
    requires Enabled(s, a)
  {
    match a
    case Call(n, proc, args) => CallStep(s, n, proc, args)
    case Transmit(n, x) => TransmitStep(s, n, x)
    case TransmitDuplicate(n) => TransmitDuplicateStep(s, n)
    case Deliver(n, m) => DeliverStep(s, n, m)
    case Return(n, x) => ReturnStep(s, n, x)
    case SaveDup(n, x) => SaveDupStep(s, n, x)
    case BindDone(n, x) => BindDoneStep(s, n, x)
    case Dispatch(r) => DispatchStep(s, r)
    case Execute(j, ret, body) => ExecuteStep(s, j, ret, body)
    case Record(j) => RecordStep(s, j)
    case Send(j) => SendStep(s, j)
    case Restart(nonce) => RestartStep(s, nonce)
  }

  ghost predicate Next(s: System, a: Action, s': System) {
    Enabled(s, a) && s' == Apply(s, a)
  }

  /** A run: states, and the action taken between each two. */
  ghost predicate Run(ss: seq<System>, acts: seq<Action>) {
    && |ss| == |acts| + 1
    && Init(ss[0])
    && forall i :: 0 <= i < |acts| ==> Next(ss[i], acts[i], ss[i + 1])
  }
}
