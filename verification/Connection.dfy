/** One connection of src/gorm_client_event.cc as a step machine: the send queue, the
    request being written, the map of requests awaiting a response, and the responses
    handed back.  The server, the clock, the sizes of partial writes and the moments of
    disconnection are inputs. */
module Connection {

  import opened Basics

  /** A packed request.  `handshake` marks the message built by SendHandShakeMsg, which
      needs no callback. */
  datatype Request = Request(id: nat, needCb: bool, handshake: bool, data: seq<Octet>, tms: nat)

  datatype Result = TimedOut | Failed(code: int) | Answered(cmd: int, body: seq<Octet>)

  /** A request put on the response list, with what it was completed with. */
  datatype Completion = Completion(req: Request, result: Result)

  /** A decoded response frame. */
  datatype Response = Response(cmd: int, id: nat, err: int, body: seq<Octet>)

  datatype StartStatus = Starting | Started | VersionFailed

  /** `responses` is the list of the thread, which all its connections share.
      `pending` keeps the null entries that the map's operator[] inserts for unknown ids.
      `taken`, `finished` and `wire` are about the current connection only; `accepted`,
      `completed` and `lost` are the history of the whole run. */
  datatype State = State(
    up: bool,
    queue: seq<Request>,
    sending: Option<Request>,
    sendPos: nat,
    pending: map<nat, Option<Request>>,
    responses: seq<Completion>,
    status: StartStatus,
    taken: seq<Request>,
    finished: seq<Request>,
    wire: seq<Octet>,
    accepted: seq<Request>,
    completed: seq<Completion>,
    lost: seq<Request>)

  const TIMEOUT_MS: nat := 3000

  // ---------- operations ----------

  /** SendRequest: false when the queue is full. */
  function Send(s: State, r: Request, now: nat): (State, bool) {
    if |s.queue| == QUEUE_CAPACITY then (s, false) else
    var r' := r.(tms := now);
    (s.(queue := s.queue + [r'], accepted := s.accepted + [r']), true)
  }

  /** PutPre: at the front, or lost when the queue is full. */
  function PutPre(s: State, r: Request): State {
    if |s.queue| >= QUEUE_CAPACITY then s.(lost := s.lost + [r]) else s.(queue := [r] + s.queue)
  }

  /** The request enters the map before its first byte is written. */
  function Taking(s: State, r: Request): State {
    s.(sending := Some(r), sendPos := 0, taken := s.taken + [r],
       pending := if r.needCb then s.pending[r.id := Some(r)] else s.pending)
  }

  /** GetNextSendingRequest. */
  function GetNext(s: State): State {
    if s.sending.Some? || s.queue == [] then s else Taking(s.(queue := s.queue[1..]), s.queue[0])
  }

  /** One write call on the request being sent, if there is one, that accepts n bytes; n <= 0
      is an error, and so is having nothing left to write, for which write returns 0. */
  function WriteSome(s: State, n: int): State {
    if s.sending.None? || n <= 0 || s.sendPos >= |s.sending.value.data| then s else
    var r := s.sending.value;
    var len := if s.sendPos + n <= |r.data| then n else |r.data| - s.sendPos;
    var t := s.(sendPos := s.sendPos + len, wire := s.wire + r.data[s.sendPos..s.sendPos + len]);
    if t.sendPos == |r.data| then t.(sending := None, finished := t.finished + [r]) else t
  }

  function Write(s: State, n: int): State {
    WriteSome(GetNext(s), n)
  }

  /** PutResponseToList: lost when the list is full. */
  function Complete(s: State, r: Request, result: Result): State {
    if |s.responses| >= RESPONSE_CAPACITY then s.(lost := s.lost + [r]) else
    var c := Completion(r, result);
    s.(responses := s.responses + [c], completed := s.completed + [c])
  }

  /** OneRspFinishRead after decoding.  A miss leaves a null entry behind. */
  function Receive(s: State, f: Response): State {
    if f.id in s.pending && s.pending[f.id].Some? then
      var r := s.pending[f.id].value;
      var s1 := s.(pending := s.pending - {f.id});
      Complete(s1, r, if f.err != 0 then Failed(f.err) else Answered(f.cmd, f.body))
    else
      var s1 := s.(pending := s.pending[f.id := None]);
      if f.cmd == 2 then s1.(status := if f.err == 0 then Started else VersionFailed) else s1
  }

  /** now - requestTMS > 3000, in unsigned 64-bit arithmetic. */
  predicate Expired(tms: nat, now: nat) {
    (now - tms) % TWO64 > TIMEOUT_MS
  }

  /** NetLoopCheck at the map entry with key k. */
  function CheckEntry(s: State, k: nat, now: nat): State {
    if k !in s.pending then s
    else if s.pending[k].None? then s.(pending := s.pending - {k})
    else if Expired(s.pending[k].value.tms, now) then
      Complete(s.(pending := s.pending - {k}), s.pending[k].value, TimedOut)
    else s
  }

  /** NetLoopCheck: `order` is the order in which the map is walked. */
  function Check(s: State, order: seq<nat>, now: nat): State
    decreases |order|
  {
    if order == [] then s else Check(CheckEntry(s, order[0], now), order[1..], now)
  }

  /** A map is walked in some order that visits each key once. */
  ghost predicate WalksMap<T>(order: seq<nat>, m: map<nat, T>) {
    (forall k :: k in order <==> k in m) && (forall i, j :: 0 <= i < j < |order| ==> order[i] != order[j])
  }

  /** The non-null requests of the map in walking order, stamped with the current time. */
  function Stamped(m: map<nat, Option<Request>>, order: seq<nat>, now: nat): seq<Request>
    requires forall k :: k in order ==> k in m
  {
    if order == [] then []
    else (if m[order[0]].Some? then [m[order[0]].value.(tms := now)] else []) + Stamped(m, order[1..], now)
  }

  function InsertDescending(r: Request, v: seq<Request>): seq<Request> {
    if v == [] || r.id > v[0].id then [r] + v else [v[0]] + InsertDescending(r, v[1..])
  }

  /** The order clientMsgCompare gives. */
  function SortDescending(v: seq<Request>): seq<Request> {
    if v == [] then [] else InsertDescending(v[0], SortDescending(v[1..]))
  }

  function PutAllPre(s: State, v: seq<Request>): State
    decreases |v|
  {
    if v == [] then s else PutAllPre(PutPre(s, v[0]), v[1..])
  }

  /** Reconnect, up to the point where the socket calls succeed or fail. */
  function Reset(s: State): State {
    s.(sending := None, sendPos := 0, taken := [], finished := [], wire := [])
  }

  /** DoAfterReconnect.  An empty map means no resend and no handshake. */
  function Resend(s: State, order: seq<nat>, now: nat, handshake: Option<Request>): State
    requires WalksMap(order, s.pending)
  {
    if |s.pending| == 0 then s else
    var v := SortDescending(Stamped(s.pending, order, now));
    var s1 := PutAllPre(s.(pending := map[]), v);
    if handshake.None? then s1 else PreSend(s1, handshake.value, now)
  }

  /** PreSendRequest of a handshake; its result is ignored. */
  function PreSend(s: State, r: Request, now: nat): State {
    if |s.queue| >= QUEUE_CAPACITY then s else s.(queue := [r.(tms := now)] + s.queue)
  }

  // ---------- steps ----------

  datatype Event =
    | Submit(r: Request, now: nat)           // a business thread sends a request
    | CanWrite(n: int)                       // the socket accepts n bytes
    | Frame(f: Response)                     // a whole response frame has arrived
    | Tick(order: seq<nat>, now: nat)        // NetLoopCheck
    | Collect                                // the business thread takes a response
    | Others(c: Completion)                  // another connection of the thread puts a response
    | Disconnected                           // read error or end of stream
    | Reconnected(order: seq<nat>, now: nat, handshake: Option<Request>)  // None: packing it failed

  predicate IsHandshake(r: Request) {
    r.handshake && !r.needCb
  }

  ghost predicate Enabled(s: State, e: Event) {
    match e
    case Submit(r, _) => !r.handshake
    case CanWrite(_) => s.up
    case Frame(_) => s.up
    case Tick(order, _) => WalksMap(order, s.pending)
    case Collect => true
    case Others(_) => true
    case Disconnected => s.up
    case Reconnected(order, _, h) => !s.up && WalksMap(order, s.pending) && (h.Some? ==> IsHandshake(h.value))
  }

  function Next(s: State, e: Event): State
    requires Enabled(s, e)
  {
    match e
    case Submit(r, now) => Send(s, r, now).0
    case CanWrite(n) => Write(s, n)
    case Frame(f) => Receive(s, f)
    case Tick(order, now) => Check(s, order, now)
    case Collect => if s.responses == [] then s else s.(responses := s.responses[1..])
    case Others(c) => if |s.responses| >= RESPONSE_CAPACITY then s else s.(responses := s.responses + [c])
    case Disconnected => Reset(s).(up := false)
    case Reconnected(order, now, h) => Resend(Reset(s).(up := true), order, now, h)
  }

  /** After ConnectToServer: the handshake is the first thing to send. */
  predicate Init(s: State) {
    && s.up && s.sending.None? && s.sendPos == 0 && s.pending == map[]
    && |s.queue| == 1 && IsHandshake(s.queue[0])
    && s.responses == [] && s.completed == [] && s.lost == [] && s.accepted == []
    && s.taken == [] && s.finished == [] && s.wire == []
  }

  ghost predicate Runs(s: State, es: seq<Event>)
    decreases |es|
  {
    es == [] || (Enabled(s, es[0]) && Runs(Next(s, es[0]), es[1..]))
  }

  function End(s: State, es: seq<Event>): State
    requires Runs(s, es)
    decreases |es|
  {
    if es == [] then s else End(Next(s, es[0]), es[1..])
  }
}
