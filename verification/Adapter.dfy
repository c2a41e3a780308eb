/** The camera reactor on values: what each turn of the event loop does to the globals, given what the system calls did
    (src/main.c:127-143, 211-241, 292-738). The globals themselves are in module Reactor. */
module Adapter {
  import opened Options
  import opened Bytes

  const MAX_NUM_CAMERAS: nat := 8
  const MAX_PENDING_REQUESTS: nat := 64
  const MAX_EVENTS: nat := 4

  // A connection to the SCGI server, by identity.
  type Conn = nat

  // A picture, and the channel of the camera it came from.
  datatype Image = Image(channel: nat, bytes: seq<byte>)

  // What happened, in order. Asked: a connection is handed in. Refused, Sent, Filled: the reply to it, a 404, the last
  // image, or the next one.
  datatype Note =
    | Opened(camera: nat)
    | Stored(slot: nat, image: Image)
    | Asked(conn: Conn)
    | Refused(conn: Conn)
    | Sent(conn: Conn, slot: nat, image: Image)
    | Queued(conn: Conn, slot: nat)
    | Filled(conn: Conn, slot: nat, image: Image)

  // An assertion of the source that fails, or a write beyond a queue.
  datatype Fault = NoFault | NullCamera | ClosedSocket | QueueFull

  datatype World = World(
    channels: seq<nat>, open: seq<bool>, active: Option<nat>, next: nat, images: seq<Option<Image>>,
    pending: seq<seq<Conn>>,
    shutdown: bool, log: seq<Note>, fault: Fault)
  {
    // numCameras
    function N(): nat { |channels| }

    predicate Shaped() {
      && 1 <= N() < MAX_NUM_CAMERAS && |open| == N() && next < N() && (active.Some? ==> active.value < N())
      && |images| == |pending| == MAX_NUM_CAMERAS
    }
  }

  /* ---- Cameras. ---- */

  // Connected; failed with the socket closed again; failed with the socket open (request too long, or epoll_ctl).
  datatype Opening = Connected | NotOpened | Abandoned

  function NextCamera(n: nat, i: nat): nat { if i + 1 >= n then 0 else i + 1 }

  // openNextCameraConnection; a failure shuts the reactor down.
  function OpenNext(w: World, o: Opening): (w': World)
    requires w.Shaped()
    ensures w'.Shaped() && w'.channels == w.channels
  {
    w.(active := Some(w.next),
       next := NextCamera(w.N(), w.next),
       open := w.open[w.next := w.open[w.next] || !o.NotOpened?],
       shutdown := !o.Connected?,
       log := w.log + [Opened(w.next)])
  }

  // Whether rsva11001_connection_close succeeds on camera a, when the system call would give closes.
  predicate Closes(w: World, a: nat, closes: bool)
    requires w.Shaped() && a < w.N()
  {
    !w.open[a] || closes
  }

  // The reactor closes the active camera: if that fails, it shuts down.
  function Drop(w: World, closes: bool): (w': World)
    requires w.Shaped() && w.active.Some?
    ensures w'.Shaped() && w'.channels == w.channels
  {
    var a := w.active.value;
    if Closes(w, a, closes) then w.(open := w.open[a := false], active := None) else w.(shutdown := true)
  }

  // NotWritten: a failure before the image is stored. Otherwise, whether sg_server_process succeeds afterwards.
  datatype Writing = NotWritten | Written(served: bool)

  function Fills(q: seq<Conn>, slot: nat, image: Image): (f: seq<Note>)
    ensures |f| == |q|
  {
    if q == [] then [] else Fills(q[..|q| - 1], slot, image) + [Filled(q[|q| - 1], slot, image)]
  }

  // The part of writeImageFile after the file is written.
  function Store(w: World, image: Image): (w': World)
    requires w.Shaped()
    ensures w'.Shaped() && w'.channels == w.channels
  {
    var slot := w.next;
    w.(images := w.images[slot := Some(image)],
       pending := w.pending[slot := []],
       log := w.log + [Stored(slot, image)] + Fills(w.pending[slot], slot, image))
  }

  function WriteImage(w: World, image: Image, f: Writing): (w': World)
    requires w.Shaped()
    ensures w'.Shaped() && w'.channels == w.channels
  {
    if f.NotWritten? then w else Store(w, image)
  }

  // What rsva11001_connection_process and rsva11001_connection_getLatestImage came to. Received([]): no image yet.
  datatype Processing = Troubled | Received(bytes: seq<byte>, closes: bool, file: Writing)

  datatype Code = Fine | Error | Fatal

  // processActiveCamera: 0, -1 or -2.
  function ProcessCode(w: World, p: Processing): Code
    requires w.Shaped() && w.active.Some?
  {
    if p.Troubled? then Error
    else if p.bytes == [] then Fine
    else if !Closes(w, w.active.value, p.closes) then Fatal
    else if p.file == Written(true) then Fine
    else Error
  }

  function Process(w: World, p: Processing): (w': World)
    requires w.Shaped() && w.active.Some?
    ensures w'.Shaped() && w'.channels == w.channels && (w'.active.Some? || ProcessCode(w, p).Fine?)
  {
    var a := w.active.value;
    if p.Troubled? || p.bytes == [] || !Closes(w, a, p.closes) then w
    else
      var v := WriteImage(w.(open := w.open[a := false]), Image(w.channels[a], p.bytes), p.file);
      if p.file == Written(true) then v.(active := None) else v
  }

  datatype CameraTurn = HangUp(closes: bool) | Ready(p: Processing, closes: bool)

  // An event on the camera connection.
  function OnCamera(w: World, c: CameraTurn): (w': World)
    requires w.Shaped()
    ensures w'.Shaped() && w'.channels == w.channels
  {
    if w.active.None? then w.(fault := NullCamera)
    else if c.HangUp? then Drop(w, c.closes)
    else if !w.open[w.active.value] then w.(fault := ClosedSocket)
    else
      var code, v := ProcessCode(w, c.p), Process(w, c.p);
      if code.Fine? then v else if code.Error? then Drop(v, c.closes) else v.(shutdown := true)
  }

  /* ---- Requests. ---- */

  // A query parameter that should be a number: the search failed; not there or empty; what strtoul makes of it; not a
  // number.
  datatype Lookup = Unsearchable | Empty | Number(n: nat) | Garbage

  // The parts of a request that are looked at; waits is None when the search for the parameter failed.
  datatype Request = Request(
    get: bool, camera: bool, query: bool, source: Lookup, waits: Option<bool>, sends: bool)

  // The slot asked for, unless the request is refused.
  function Wanted(r: Request, n: nat): (s: Option<nat>)
    requires n >= 1
    ensures s.Some? ==> s.value < n
  {
    if !r.get || !r.camera || !r.query then None
    else if r.source.Unsearchable? || r.source.Garbage? then None
    else if r.source.Number? && (r.source.n > 0xFFFF_FFFF || r.source.n >= n) then None
    else if r.waits.None? then None
    else Some(if r.source.Empty? then 0 else r.source.n)
  }

  // handleNewRequest. It fails only when the last image cannot be sent.
  predicate Handles(w: World, r: Request)
    requires w.Shaped()
  {
    var s := Wanted(r, w.N());
    s.None? || r.waits.value || w.images[s.value].None? || r.sends
  }

  function Handle(w: World, conn: Conn, r: Request): (w': World)
    requires w.Shaped()
    ensures w'.Shaped() && w'.channels == w.channels
  {
    var s, asked := Wanted(r, w.N()), w.log + [Asked(conn)];
    if s.None? then w.(log := asked + [Refused(conn)])
    else if r.waits.value then
      if |w.pending[s.value]| >= MAX_PENDING_REQUESTS then w.(log := asked, fault := QueueFull)
      else w.(log := asked + [Queued(conn, s.value)], pending := w.pending[s.value := w.pending[s.value] + [conn]])
    else if w.images[s.value].None? then w.(log := asked + [Refused(conn)])
    else w.(log := asked + [Sent(conn, s.value, w.images[s.value].value)])
  }

  // The new connections, until one cannot be handled.
  function HandleAll(w: World, requests: seq<(Conn, Request)>): (w': World)
    requires w.Shaped()
    ensures w'.Shaped() && w'.channels == w.channels
    decreases |requests|
  {
    if requests == [] || !w.fault.NoFault? then w
    else
      var v := Handle(w, requests[0].0, requests[0].1);
      if Handles(w, requests[0].1) then HandleAll(v, requests[1..]) else v.(shutdown := true)
  }

  // An event on the SCGI server, with the results of sg_server_process before and after.
  datatype Serving = Serving(before: bool, requests: seq<(Conn, Request)>, after: bool)

  function OnServer(w: World, s: Serving): (w': World)
    requires w.Shaped()
    ensures w'.Shaped() && w'.channels == w.channels
  {
    if !s.before then w.(shutdown := true)
    else
      var v := HandleAll(w, s.requests);
      if s.after || !v.fault.NoFault? then v else v.(shutdown := true)
  }

  /* ---- The event loop. ---- */

  datatype Event = Camera(turn: CameraTurn) | Server(serving: Serving) | Signal | Unknown

  function On(w: World, e: Event): (w': World)
    requires w.Shaped()
    ensures w'.Shaped() && w'.channels == w.channels
  {
    match e
    case Camera(c) => OnCamera(w, c)
    case Server(s) => OnServer(w, s)
    case Signal => w.(shutdown := true)
    case Unknown => w.(shutdown := true)
  }

  // The events of one epoll_wait; shutdown is not looked at in between.
  function OnAll(w: World, es: seq<Event>): (w': World)
    requires w.Shaped()
    ensures w'.Shaped() && w'.channels == w.channels
  {
    if es == [] then w
    else
      var v := OnAll(w, es[..|es| - 1]);
      if v.fault.NoFault? then On(v, es[|es| - 1]) else v
  }

  // epoll_wait: interrupted by a signal, failed, or some events.
  datatype Wait = Interrupted | Failed | Got(events: seq<Event>)

  function OnWait(w: World, wait: Wait): (w': World)
    requires w.Shaped()
    ensures w'.Shaped() && w'.channels == w.channels
  {
    match wait
    case Interrupted => w
    case Failed => w.(shutdown := true)
    case Got(es) => OnAll(w, es)
  }

  // Whether the inner loop waits again.
  predicate WaitsAgain(w: World, wait: Wait) {
    wait.Got? && |wait.events| == MAX_EVENTS && w.active.Some? && w.fault.NoFault?
  }

  // The inner loop, for as long as epoll_wait returns.
  function Waits(w: World, waits: seq<Wait>): (w': World)
    requires w.Shaped()
    ensures w'.Shaped() && w'.channels == w.channels
    decreases |waits|
  {
    if waits == [] then w
    else
      var v := OnWait(w, waits[0]);
      if WaitsAgain(v, waits[0]) then Waits(v, waits[1..]) else v
  }

  // One turn of the outer loop: what opening the next camera comes to, if none is active, and what epoll_wait then
  // returns.
  datatype Turn = Turn(opening: Opening, waits: seq<Wait>)

  function Pass(w: World, t: Turn): (w': World)
    requires w.Shaped()
    ensures w'.Shaped() && w'.channels == w.channels
  {
    var v := if w.active.None? then OpenNext(w, t.opening) else w;
    if v.shutdown then v else Waits(v, t.waits)
  }

  function Run(w: World, turns: seq<Turn>): (w': World)
    requires w.Shaped()
    ensures w'.Shaped() && w'.channels == w.channels
    decreases |turns|
  {
    if turns == [] || w.shutdown || !w.fault.NoFault? then w else Run(Pass(w, turns[0]), turns[1..])
  }

  // epoll reports a descriptor once per wait, and at most MAX_EVENTS of them.
  predicate Polled(waits: seq<Wait>) {
    forall i | 0 <= i < |waits| && waits[i].Got? :: |waits[i].events| <= MAX_EVENTS && Cameras(waits[i].events) <= 1
  }

  function Cameras(es: seq<Event>): nat {
    if es == [] then 0 else Cameras(es[..|es| - 1]) + if es[|es| - 1].Camera? then 1 else 0
  }

  predicate AllPolled(turns: seq<Turn>) { forall i | 0 <= i < |turns| :: Polled(turns[i].waits) }

  // setupCameraConnections: camera i is configured for channel i + 1.
  function Start(n: nat): World {
    World(seq(n, i => i + 1), seq(n, _ => false), None, 0, seq(MAX_NUM_CAMERAS, _ => None),
          seq(MAX_NUM_CAMERAS, _ => []),
          false, [], NoFault)
  }
}
