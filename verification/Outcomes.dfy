/** What becomes of requests and of events on the camera connection, told from the log and the parts of the request or
    event alone; and that no camera ever stops the server (src/main.c:401-738). */
module Outcomes {
  import opened Options
  import opened Adapter
  import opened Accounts

  /* ---- Requests. ---- */

  // The camera asked for: number 0 when the source parameter is empty.
  function CameraAsked(r: Request): nat { if r.source.Number? then r.source.n else 0 }

  // A GET of the camera's path with a query string, whose source parameter is empty or the number of a camera.
  predicate Acceptable(r: Request, n: nat) {
    && r.get && r.camera && r.query && r.waits.Some?
    && (r.source.Empty? || (r.source.Number? && r.source.n < n))
  }

  // The note e is the reply to r: queued exactly if r is acceptable and waits; sent exactly if it is acceptable, does
  // not wait, and there is an image; refused in every other case.
  ghost predicate Replies(r: Request, n: nat, images: seq<Option<Image>>, conn: Conn, e: Note) {
    var k := CameraAsked(r);
    && (e.Queued? || e.Sent? || e.Refused?) && e.conn == conn
    && (e.Queued? <==> Acceptable(r, n) && r.waits == Some(true))
    && (e.Sent? <==> Acceptable(r, n) && r.waits == Some(false) && k < |images| && images[k].Some?)
    && (e.Queued? ==> e.slot == k)
    && (e.Sent? ==> e.slot == k && k < |images| && images[k] == Some(e.image))
  }

  // A request that does not meet a full queue is answered by one such note, and joins the queue of the camera it asks
  // for exactly if it is queued. It meets a full queue exactly if 64 connections wait there already.
  lemma RequestOutcome(w: World, conn: Conn, r: Request)
    requires w.Shaped() && w.fault.NoFault?
    ensures var v, k := Handle(w, conn, r), CameraAsked(r);
            && (v.fault.NoFault? <==> !(Acceptable(r, w.N()) && r.waits == Some(true)
                                        && |w.pending[k]| >= 64))
            && (v.fault.NoFault? ==>
                  && |v.log| == |w.log| + 2 && v.log[..|w.log|] == w.log && v.log[|w.log|] == Asked(conn)
                  && Replies(r, w.N(), w.images, conn, v.log[|w.log| + 1])
                  && v == w.(log := v.log, pending := v.pending)
                  && v.pending == if v.log[|w.log| + 1].Queued? then w.pending[k := w.pending[k] + [conn]]
                                  else w.pending)
    ensures Handles(w, r) <==>
            !(Acceptable(r, w.N()) && r.waits == Some(false) && w.images[CameraAsked(r)].Some? && !r.sends)
  {
  }

  /* ---- Events on the camera connection. ---- */

  // The connection is to be closed: it hung up, it made trouble, or it delivered an image.
  predicate ToClose(c: CameraTurn) { c.HangUp? || c.p.Troubled? || c.p.bytes != [] }

  // And the system call succeeds.
  predicate ClosingSucceeds(c: CameraTurn) { if c.Ready? && c.p.Received? then c.p.closes else c.closes }

  // The image that is stored: one was received, the connection was closed, and the file was written.
  function ImageStored(c: CameraTurn, channel: nat): Option<Image> {
    if c.Ready? && c.p.Received? && c.p.bytes != [] && c.p.closes && c.p.file.Written? then
      Some(Image(channel, c.p.bytes))
    else None
  }

  // The log m continues l with the image stored in the slot, and with the replies to q, in order.
  ghost predicate LogsImage(l: seq<Note>, m: seq<Note>, slot: nat, image: Image, q: seq<Conn>) {
    && |m| == |l| + 1 + |q| && m[..|l|] == l && m[|l|] == Stored(slot, image)
    && forall i | 0 <= i < |q| :: m[|l| + 1 + i] == Filled(q[i], slot, image)
  }

  lemma {:induction false} FillsAll(q: seq<Conn>, slot: nat, image: Image)
    ensures forall i | 0 <= i < |q| :: Fills(q, slot, image)[i] == Filled(q[i], slot, image)
  {
    if q != [] { FillsAll(q[..|q| - 1], slot, image); }
  }

  // The active camera is given up exactly when its connection is to be closed and can be; the reactor shuts down
  // exactly when it cannot; and the image that is stored goes to the slot after the camera, and to all who wait there.
  ghost predicate Leaves(w: World, c: CameraTurn, v: World)
    requires w.Shaped() && w.active.Some?
  {
    var a := w.active.value;
    var image, closed := ImageStored(c, w.channels[a]), ToClose(c) && ClosingSucceeds(c);
    && v.active == (if closed then None else w.active)
    && v.open == (if closed then w.open[a := false] else w.open)
    && (v.shutdown <==> w.shutdown || (ToClose(c) && !ClosingSucceeds(c)))
    && v.next == w.next && v.fault == w.fault
    && v.images == (if image.Some? then w.images[w.next := image] else w.images)
    && v.pending == (if image.Some? then w.pending[w.next := []] else w.pending)
    && (if image.Some? then LogsImage(w.log, v.log, w.next, image.value, w.pending[w.next]) else v.log == w.log)
  }

  lemma CameraOutcome(w: World, c: CameraTurn)
    requires w.Shaped() && w.active.Some? && w.open[w.active.value]
    ensures Leaves(w, c, OnCamera(w, c))
  {
    if c.Ready? && c.p.Received? && c.p.bytes != [] && c.p.closes && c.p.file.Written? {
      ImageOutcome(w, c);
    } else {
      hide Store;
      var open := w.open[w.active.value := false];
      assert open[w.active.value := false] == open;
    }
  }

  lemma ImageOutcome(w: World, c: CameraTurn)
    requires w.Shaped() && w.active.Some? && w.open[w.active.value]
    requires c.Ready? && c.p.Received? && c.p.bytes != [] && c.p.closes && c.p.file.Written?
    ensures Leaves(w, c, OnCamera(w, c))
  {
    var a := w.active.value;
    var closed, image := w.open[a := false], Image(w.channels[a], c.p.bytes);
    var u := Store(w.(open := closed), image);
    FillsAll(w.pending[w.next], w.next, image);
    hide Fills;
    assert LogsImage(w.log, u.log, w.next, image, w.pending[w.next]);
    hide Store, LogsImage;
    assert closed[a := false] == closed;
  }

  /* ---- Events on the server. ---- */

  // Who asked, in order.
  function AskedBy(log: seq<Note>): seq<Conn> {
    if log == [] then []
    else AskedBy(log[..|log| - 1]) + if log[|log| - 1].Asked? then [log[|log| - 1].conn] else []
  }

  function ConnsOf(requests: seq<(Conn, Request)>): seq<Conn> {
    if requests == [] then [] else [requests[0].0] + ConnsOf(requests[1..])
  }

  lemma AskedOnce(w: World, conn: Conn, r: Request)
    requires w.Shaped() && w.fault.NoFault? && Handle(w, conn, r).fault.NoFault?
    ensures var v := Handle(w, conn, r);
            && AskedBy(v.log) == AskedBy(w.log) + [conn] && v.shutdown == w.shutdown
            && v.active == w.active && v.open == w.open && v.images == w.images
    ensures !Handles(w, r) ==> !r.sends
  {
    RequestOutcome(w, conn, r);
    var v, one := Handle(w, conn, r), w.log + [Asked(conn)];
    hide Handle, Handles;
    assert v.log == one + [v.log[|w.log| + 1]];
    assert one[..|w.log|] == w.log && v.log[..|one|] == one;
  }

  lemma ConnsFirst(requests: seq<(Conn, Request)>, k: nat)
    requires k < |requests|
    ensures ConnsOf(requests[..k + 1]) == [requests[0].0] + ConnsOf(requests[1..][..k])
  {
    assert requests[..k + 1][1..] == requests[1..][..k];
  }

  // New connections are looked at in order: all of them, or up to the first whose image cannot be sent, which shuts
  // the reactor down. Nothing else does.
  lemma {:induction false} ServerOutcome(w: World, requests: seq<(Conn, Request)>) returns (k: nat)
    requires w.Shaped() && w.fault.NoFault? && HandleAll(w, requests).fault.NoFault?
    ensures var v := HandleAll(w, requests);
            && k <= |requests| && AskedBy(v.log) == AskedBy(w.log) + ConnsOf(requests[..k])
            && (k < |requests| ==> v.shutdown)
            && (v.shutdown != w.shutdown || k < |requests| ==> k > 0 && !requests[k - 1].1.sends)
            && v.active == w.active && v.open == w.open && v.images == w.images
    decreases |requests|
  {
    hide Handle, Handles, AskedBy;
    if requests == [] {
      k := 0;
      assert AskedBy(w.log) + [] == AskedBy(w.log);
    } else {
      var conn, r := requests[0].0, requests[0].1;
      var v, rest := Handle(w, conn, r), requests[1..];
      assert v.fault.NoFault?;
      AskedOnce(w, conn, r);
      var l := 0;
      if Handles(w, r) { l := ServerOutcome(v, rest); }
      ConnsFirst(requests, l);
      k := l + 1;
      hide ConnsOf;
      if Handles(w, r) {
        assert AskedBy(w.log) + [conn] + ConnsOf(rest[..l]) == AskedBy(w.log) + ([conn] + ConnsOf(rest[..l]));
      } else {
        assert rest[..0] == [];
        NoConns();
      }
    }
  }

  lemma NoConns()
    ensures ConnsOf([]) == []
  {
  }

  /* ---- No camera stops the server. ---- */

  // The system calls succeed, whatever the camera does and whatever is asked; and nobody asks the server to stop.
  predicate Smooth(e: Event) {
    match e
    case Camera(c) => ToClose(c) ==> ClosingSucceeds(c)
    case Server(s) => s.before && s.after && forall i | 0 <= i < |s.requests| :: s.requests[i].1.sends
    case Signal => false
    case Unknown => false
  }

  predicate SmoothAll(es: seq<Event>) { forall i | 0 <= i < |es| :: Smooth(es[i]) }

  predicate SmoothWaits(waits: seq<Wait>) {
    forall i | 0 <= i < |waits| :: !waits[i].Failed? && (waits[i].Got? ==> SmoothAll(waits[i].events))
  }

  predicate SmoothTurns(turns: seq<Turn>) {
    forall i | 0 <= i < |turns| :: turns[i].opening.Connected? && SmoothWaits(turns[i].waits)
  }

  lemma SmoothCamera(w: World, c: CameraTurn)
    requires w.Shaped() && (ToClose(c) ==> ClosingSucceeds(c))
    ensures OnCamera(w, c).shutdown == w.shutdown
  {
    hide Fills;
  }

  lemma {:induction false} SmoothRequests(w: World, requests: seq<(Conn, Request)>)
    requires w.Shaped() && forall i | 0 <= i < |requests| :: requests[i].1.sends
    ensures HandleAll(w, requests).shutdown == w.shutdown
    decreases |requests|
  {
    if requests != [] && w.fault.NoFault? {
      assert requests[0].1.sends;
      SmoothRequests(Handle(w, requests[0].0, requests[0].1), requests[1..]);
    }
  }

  lemma {:induction false} SmoothEvents(w: World, es: seq<Event>)
    requires w.Shaped() && SmoothAll(es)
    ensures OnAll(w, es).shutdown == w.shutdown
    decreases |es|
  {
    if es != [] {
      var n := |es| - 1;
      SmoothEvents(w, es[..n]);
      var v, e := OnAll(w, es[..n]), es[n];
      assert Smooth(e);
      hide OnCamera, HandleAll, OnAll;
      if e.Camera? { SmoothCamera(v, e.turn); } else if e.Server? { SmoothRequests(v, e.serving.requests); }
    }
  }

  lemma {:induction false} SmoothWaiting(w: World, waits: seq<Wait>)
    requires w.Shaped() && SmoothWaits(waits)
    ensures Waits(w, waits).shutdown == w.shutdown
    decreases |waits|
  {
    hide OnAll, SmoothAll;
    if waits != [] {
      if waits[0].Got? { SmoothEvents(w, waits[0].events); }
      SmoothWaiting(OnWait(w, waits[0]), waits[1..]);
    }
  }

  // Cameras that hang up, send nonsense or nothing, and images that cannot be written, never stop the server.
  lemma {:induction false} NeverStopped(w: World, turns: seq<Turn>)
    requires w.Shaped() && SmoothTurns(turns)
    ensures Run(w, turns).shutdown == w.shutdown
    decreases |turns|
  {
    if turns != [] && !w.shutdown && w.fault.NoFault? {
      assert turns[0].opening.Connected? && SmoothWaits(turns[0].waits);
      hide Waits, SmoothWaits;
      SmoothWaiting(if w.active.None? then OpenNext(w, turns[0].opening) else w, turns[0].waits);
      NeverStopped(Pass(w, turns[0]), turns[1..]);
    }
  }

  // And what does stop it, event by event.
  predicate Stops(w: World, e: Event)
    requires w.Shaped()
  {
    match e
    case Camera(c) => ToClose(c) && !ClosingSucceeds(c)
    case Server(s) => !s.before || !s.after || HandleAll(w, s.requests).shutdown
    case Signal => true
    case Unknown => true
  }

  lemma EventStops(w: World, e: Event)
    requires w.Shaped() && Accounts.Connected(w) && !w.shutdown && w.fault.NoFault? && On(w, e).fault.NoFault?
    ensures On(w, e).shutdown <==> Stops(w, e)
  {
    if e.Camera? {
      hide HandleAll;
      CameraOutcome(w, e.turn);
      hide OnCamera;
    } else {
      hide OnCamera, HandleAll;
    }
  }

  // The events of the waits, in order.
  function EventsOf(waits: seq<Wait>): seq<Event> {
    if waits == [] then [] else (if waits[0].Got? then waits[0].events else []) + EventsOf(waits[1..])
  }

  lemma {:induction false} EventsInOrder(w: World, es: seq<Event>, more: seq<Event>)
    requires w.Shaped()
    ensures OnAll(w, es + more) == OnAll(OnAll(w, es), more)
    decreases |more|
  {
    hide On;
    if more == [] {
      assert es + more == es;
    } else {
      var n := |more| - 1;
      EventsInOrder(w, es, more[..n]);
      assert (es + more)[..|es| + n] == es + more[..n];
    }
  }

  // Wait i brought four events and left an active camera.
  ghost predicate Full(w: World, waits: seq<Wait>, i: nat)
    requires w.Shaped() && i < |waits|
  {
    waits[i].Got? && |waits[i].events| == 4 && OnAll(w, EventsOf(waits[..i + 1])).active.Some?
  }

  // The waits of a turn end with the first one that failed, was interrupted, brought fewer than four events, or left
  // no active camera; up to there nothing but the events counts, in order, and a wait that failed stops the server.
  lemma {:induction false} WaitsOutcome(w: World, waits: seq<Wait>) returns (k: nat)
    requires w.Shaped() && Waits(w, waits).fault.NoFault?
    ensures k <= |waits| && (forall i | 0 <= i < k - 1 :: Full(w, waits, i))
    ensures k < |waits| ==> k > 0 && !Full(w, waits, k - 1)
    ensures var v, u := Waits(w, waits), OnAll(w, EventsOf(waits[..k]));
            v == u.(shutdown := u.shutdown || (k > 0 && waits[k - 1].Failed?))
    decreases |waits|
  {
    hide On, OnAll;
    NoEvents(w);
    if waits == [] {
      k := 0;
    } else {
      var v := OnWait(w, waits[0]);
      FirstEvents(w, waits, 0);
      NoEvents(v);
      assert waits[1..][..0] == [];
      if WaitsAgain(v, waits[0]) {
        assert Waits(w, waits) == Waits(v, waits[1..]) && Full(w, waits, 0);
        var l := WaitsOutcome(v, waits[1..]);
        k := l + 1;
        hide Waits, WaitsAgain;
        FirstEvents(w, waits, l);
        forall i | 0 < i < |waits|
          ensures Full(w, waits, i) == Full(v, waits[1..], i - 1)
        {
          FirstEvents(w, waits, i);
        }
        assert l > 0 ==> waits[1..][l - 1] == waits[l];
      } else {
        k := 1;
      }
    }
  }

  lemma NoEvents(w: World)
    requires w.Shaped()
    ensures EventsOf([]) == [] && OnAll(w, []) == w
  {
  }

  lemma FirstEvents(w: World, waits: seq<Wait>, i: nat)
    requires w.Shaped() && i < |waits|
    ensures waits[0].Got? ==> OnAll(w, EventsOf(waits[..i + 1]))
                              == OnAll(OnWait(w, waits[0]), EventsOf(waits[1..][..i]))
    ensures i == 0 && !waits[0].Got? ==> EventsOf(waits[..1]) == []
  {
    hide OnAll;
    assert waits[..i + 1][1..] == waits[1..][..i];
    if waits[0].Got? { EventsInOrder(w, waits[0].events, EventsOf(waits[1..][..i])); }
  }

  /* ---- A camera is opened in exactly the turns that begin without one. ---- */

  lemma HandleOpens(w: World, conn: Conn, r: Request)
    requires w.Shaped() && w.fault.NoFault?
    ensures OpensIn(Handle(w, conn, r).log) == OpensIn(w.log)
  {
    var v := Handle(w, conn, r);
    Reads(w.log, Asked(conn), 0);
    hide OpensIn;
    RequestOutcome(w, conn, r);
    if v.fault.NoFault? {
      var e := v.log[|w.log| + 1];
      assert v.log == w.log + [Asked(conn)] + [e];
      Reads(w.log + [Asked(conn)], e, 0);
    }
  }

  lemma {:induction false} RequestsOpen(w: World, requests: seq<(Conn, Request)>)
    requires w.Shaped()
    ensures OpensIn(HandleAll(w, requests).log) == OpensIn(w.log)
    decreases |requests|
  {
    hide Handle, OpensIn;
    if requests != [] && w.fault.NoFault? {
      HandleOpens(w, requests[0].0, requests[0].1);
      RequestsOpen(Handle(w, requests[0].0, requests[0].1), requests[1..]);
    }
  }

  lemma CameraLogs(w: World, c: CameraTurn)
    requires w.Shaped() && w.active.Some?
    ensures var image := Image(w.channels[w.active.value], if c.Ready? && c.p.Received? then c.p.bytes else []);
            OnCamera(w, c).log == w.log || OnCamera(w, c).log == Store(w, image).log
  {
    hide Fills;
  }

  lemma StoreOpens(w: World, image: Image)
    requires w.Shaped()
    ensures OpensIn(Store(w, image).log) == OpensIn(w.log)
  {
    hide OpensIn, Fills, QueuedOn, FilledOn, Since, LastImage, AskedIn, AnsweredIn;
    Reads(w.log, Stored(w.next, image), 0);
    FillsRead(w.log + [Stored(w.next, image)], w.pending[w.next], w.next, image, 0);
  }

  lemma CameraOpens(w: World, c: CameraTurn)
    requires w.Shaped()
    ensures OpensIn(OnCamera(w, c).log) == OpensIn(w.log)
  {
    hide OpensIn, Store;
    if w.active.Some? {
      CameraLogs(w, c);
      hide OnCamera;
      StoreOpens(w, Image(w.channels[w.active.value], if c.Ready? && c.p.Received? then c.p.bytes else []));
    }
  }

  lemma {:induction false} EventsOpen(w: World, es: seq<Event>)
    requires w.Shaped()
    ensures OpensIn(OnAll(w, es).log) == OpensIn(w.log)
    decreases |es|
  {
    hide OnCamera, HandleAll, OpensIn;
    if es != [] {
      var n := |es| - 1;
      EventsOpen(w, es[..n]);
      var v, e := OnAll(w, es[..n]), es[n];
      if e.Camera? { CameraOpens(v, e.turn); } else if e.Server? { RequestsOpen(v, e.serving.requests); }
    }
  }

  lemma {:induction false} WaitingOpens(w: World, waits: seq<Wait>)
    requires w.Shaped()
    ensures OpensIn(Waits(w, waits).log) == OpensIn(w.log)
    decreases |waits|
  {
    hide OnAll, OpensIn;
    if waits != [] {
      if waits[0].Got? { EventsOpen(w, waits[0].events); }
      WaitingOpens(OnWait(w, waits[0]), waits[1..]);
    }
  }

  lemma TurnOpens(w: World, t: Turn)
    requires w.Shaped()
    ensures OpensIn(Pass(w, t).log) == OpensIn(w.log) + if w.active.None? then [w.next] else []
  {
    Reads(w.log, Opened(w.next), 0);
    hide Waits, OpensIn, QueuedOn, FilledOn, Since, LastImage, AskedIn, AnsweredIn;
    WaitingOpens(if w.active.None? then OpenNext(w, t.opening) else w, t.waits);
    assert OpensIn(w.log) + [] == OpensIn(w.log);
  }

  // A camera that cannot be opened stops the server at once; one that can does not.
  lemma OpeningOutcome(w: World, t: Turn)
    requires w.Shaped() && w.active.None? && !w.shutdown
    ensures var v := OpenNext(w, t.opening);
            && v.active == Some(w.next) && (v.shutdown <==> !t.opening.Connected?)
            && (t.opening.Connected? ==> v.open[w.next])
            && (!t.opening.Connected? ==> Pass(w, t) == v)
  {
    hide Waits;
  }
}
