/** The globals of the camera server, and the functions that update them in place (src/main.c:35-61, 127-143, 211-241,
    292-738). */
module Reactor {
  import opened Options
  import opened Adapter
  import Accounts
  import Outcomes

  class Globals {
    const numCameras: nat
    const channels: array<nat>             // of conns, as configured
    const sockets: array<bool>             // of conns: whether sockfd != -1
    var activeCamera: Option<nat>
    var cameraIterator: nat
    const lastImage: array<Option<Image>>
    const pendingRequests: array<seq<Conn>>
    var shutdown: bool
    ghost var log: seq<Note>

    ghost predicate Valid()
      reads this, channels, sockets, lastImage, pendingRequests
    {
      && View().Shaped() && channels.Length == numCameras
    }

    ghost function View(): World
      reads this, channels, sockets, lastImage, pendingRequests
    {
      World(channels[..], sockets[..], activeCamera, cameraIterator, lastImage[..], pendingRequests[..], shutdown, log,
            NoFault)
    }

    // setupCameraConnections, of zeroed globals.
    constructor (n: nat)
      requires 1 <= n < MAX_NUM_CAMERAS
      ensures Valid() && View() == Start(n) && fresh(channels) && fresh(sockets) && fresh(lastImage)
      ensures fresh(pendingRequests)
    {
      numCameras, activeCamera, cameraIterator, shutdown, log := n, None, 0, false, [];
      var configured := new nat[n];
      var i := 0;
      while i < n
        invariant i <= n && forall k | 0 <= k < i :: configured[k] == k + 1
      {
        configured[i] := i + 1;
        i := i + 1;
      }
      channels := configured;
      sockets := new bool[n](_ => false);
      lastImage := new Option<Image>[MAX_NUM_CAMERAS](_ => None);
      pendingRequests := new seq<Conn>[MAX_NUM_CAMERAS](_ => []);
      new;
      ghost var w := Start(n);
      assert channels[..] == w.channels && sockets[..] == w.open;
      assert lastImage[..] == w.images && pendingRequests[..] == w.pending;
    }

    // openNextCameraConnection.
    method OpenNextCameraConnection(o: Opening) returns (ok: bool)
      requires Valid() && !shutdown && forall i | 0 <= i < sockets.Length :: !sockets[i]
      modifies this`activeCamera, this`cameraIterator, this`log, sockets
      ensures Valid() && ok == o.Connected?
      ensures View().(shutdown := !ok) == OpenNext(old(View()), o)
    {
      var camera := cameraIterator;
      activeCamera := Some(camera);
      cameraIterator := cameraIterator + 1;
      if cameraIterator >= numCameras { cameraIterator := 0; }
      log := log + [Opened(camera)];
      if !sockets[camera] { sockets[camera] := !o.NotOpened?; }
      return o.Connected?;
    }

    // rsva11001_connection_close, where the system call would give closes.
    method Close(camera: nat, closes: bool) returns (ok: bool)
      requires Valid() && camera < numCameras
      modifies sockets
      ensures Valid() && ok == old(Closes(View(), camera, closes))
      ensures View() == if ok then old(View().(open := View().open[camera := false])) else old(View())
    {
      if !sockets[camera] {
        assert View().open[camera := false] == View().open;
        return true;
      }
      if closes { sockets[camera] := false; }
      return closes;
    }

    // The reactor's reaction to an error on the camera connection.
    method DropCamera(closes: bool)
      requires Valid() && activeCamera.Some?
      modifies this`activeCamera, this`shutdown, sockets
      ensures Valid() && View() == Drop(old(View()), closes)
    {
      var ok := Close(activeCamera.value, closes);
      if ok { activeCamera := None; } else { shutdown := true; }
    }

    // writeImageFile.
    method WriteImageFile(image: Image, f: Writing) returns (ok: bool)
      requires Valid()
      modifies this`log, lastImage, pendingRequests
      ensures Valid() && ok == (f == Written(true)) && View() == WriteImage(old(View()), image, f)
    {
      if f.NotWritten? { return false; }
      var slot := cameraIterator;
      ghost var w, q := View(), pendingRequests[slot];
      lastImage[slot] := Some(image);
      log := log + [Stored(slot, image)];
      ghost var stored := log;
      var i := 0;
      while i < |pendingRequests[slot]|
        invariant i <= |q| && log == stored + Fills(q[..i], slot, image)
        invariant lastImage[..] == w.images[slot := Some(image)] && pendingRequests[..] == w.pending
      {
        var conn := pendingRequests[slot][i];
        assert lastImage[slot] == lastImage[..][slot];
        log := log + [Filled(conn, slot, lastImage[slot].value)];
        assert q[..i + 1][..i] == q[..i];
        i := i + 1;
      }
      assert q[..i] == q;
      pendingRequests[slot] := [];
      assert View() == Store(w, image);
      return f.served;
    }

    // processActiveCamera.
    method ProcessActiveCamera(p: Processing) returns (code: Code)
      requires Valid() && activeCamera.Some? && sockets[activeCamera.value]
      modifies this`activeCamera, this`log, sockets, lastImage, pendingRequests
      ensures Valid() && code == old(ProcessCode(View(), p)) && View() == Process(old(View()), p)
    {
      assert activeCamera.Some?; // assert(globals.activeCamera != NULL)
      var camera := activeCamera.value;
      assert sockets[camera]; // assert(this->sockfd != -1)
      if p.Troubled? { return Error; }
      if p.bytes != [] {
        var closed := Close(camera, p.closes);
        if !closed { return Fatal; }
        var written := WriteImageFile(Image(channels[camera], p.bytes), p.file);
        if !written { return Error; }
        activeCamera := None;
      }
      return Fine;
    }

    // The event CAMERA_ID.
    method OnCameraEvent(c: CameraTurn)
      requires Valid() && OnCamera(View(), c).fault.NoFault?
      modifies this`activeCamera, this`shutdown, this`log, sockets, lastImage, pendingRequests
      ensures Valid() && View() == OnCamera(old(View()), c)
      ensures old(activeCamera.Some? && sockets[activeCamera.value]) ==> Outcomes.Leaves(old(View()), c, View())
    {
      hide Process, ProcessCode, Drop, Outcomes.Leaves;
      if activeCamera.Some? && sockets[activeCamera.value] { Outcomes.CameraOutcome(View(), c); }
      if c.HangUp? {
        DropCamera(c.closes);
        return;
      }
      var code := ProcessActiveCamera(c.p);
      if code.Error? {
        DropCamera(c.closes);
      } else if code.Fatal? {
        shutdown := true;
      }
    }

    // handleNewRequest.
    method HandleNewRequest(conn: Conn, r: Request) returns (ok: bool)
      requires Valid() && Handle(View(), conn, r).fault.NoFault?
      modifies this`log, pendingRequests
      ensures Valid() && ok == old(Handles(View(), r)) && View() == Handle(old(View()), conn, r)
      ensures |log| == old(|log|) + 2 && log[..old(|log|)] == old(log) && log[old(|log|)] == Asked(conn)
      ensures Outcomes.Replies(r, numCameras, lastImage[..], conn, log[old(|log|) + 1])
      ensures ok <==> !(log[old(|log|) + 1].Sent? && !r.sends)
    {
      hide Outcomes.Replies;
      ghost var w := View();
      Outcomes.RequestOutcome(w, conn, r);
      log := log + [Asked(conn)];
      if !r.get || !r.camera || !r.query || r.source.Unsearchable? {
        log := log + [Refused(conn)];
        return true;
      }
      var src := 0;
      if !r.source.Empty? {
        if r.source.Garbage? || r.source.n > 0xFFFF_FFFF || r.source.n >= numCameras {
          log := log + [Refused(conn)];
          return true;
        }
        src := r.source.n;
      }
      assert src < numCameras; // assert(src < globals.numCameras)
      if r.waits.None? {
        log := log + [Refused(conn)];
        return true;
      }
      if r.waits.value {
        pendingRequests[src] := pendingRequests[src] + [conn];
        log := log + [Queued(conn, src)];
        assert View().pending == w.pending[src := w.pending[src] + [conn]];
      } else if lastImage[src].None? {
        log := log + [Refused(conn)];
      } else {
        log := log + [Sent(conn, src, lastImage[src].value)];
        return r.sends;
      }
      return true;
    }

    // The event SCGI_ID.
    method OnServerEvent(s: Serving)
      requires Valid() && OnServer(View(), s).fault.NoFault?
      modifies this`shutdown, this`log, pendingRequests
      ensures Valid() && View() == OnServer(old(View()), s)
    {
      hide Handle, Handles;
      if !s.before {
        shutdown := true;
        return;
      }
      ghost var all := HandleAll(View(), s.requests);
      assert all.fault.NoFault?;
      var i := 0;
      assert s.requests[0..] == s.requests;
      while i < |s.requests|
        invariant i <= |s.requests| && Valid() && HandleAll(View(), s.requests[i..]) == all
      {
        NoFaultYet(View(), s.requests[i..]);
        assert s.requests[i..][1..] == s.requests[i + 1..];
        var ok := HandleNewRequest(s.requests[i].0, s.requests[i].1);
        if !ok {
          shutdown := true;
          break;
        }
        i := i + 1;
      }
      assert View() == all;
      if !s.after { shutdown := true; }
    }

    // One event.
    method OnEvent(e: Event)
      requires Valid() && On(View(), e).fault.NoFault?
      modifies this`activeCamera, this`shutdown, this`log, sockets, lastImage, pendingRequests
      ensures Valid() && View() == On(old(View()), e)
    {
      hide OnCamera, OnServer;
      match e
      case Camera(c) => OnCameraEvent(c);
      case Server(s) => OnServerEvent(s);
      case Signal => shutdown := true;
      case Unknown => shutdown := true;
    }

    // The events of one epoll_wait.
    method OnEvents(es: seq<Event>)
      requires Valid() && OnAll(View(), es).fault.NoFault?
      modifies this`activeCamera, this`shutdown, this`log, sockets, lastImage, pendingRequests
      ensures Valid() && View() == OnAll(old(View()), es)
    {
      hide On;
      ghost var w := View();
      var i := 0;
      while i < |es|
        invariant i <= |es| && Valid() && View() == OnAll(w, es[..i])
      {
        NoFaultBefore(w, es, i + 1);
        assert es[..i + 1][..i] == es[..i];
        OnEvent(es[i]);
        i := i + 1;
      }
      assert es[..i] == es;
    }

    // The loop around epoll_wait.
    method Poll(waits: seq<Wait>)
      requires Valid() && Waits(View(), waits).fault.NoFault?
      modifies this`activeCamera, this`shutdown, this`log, sockets, lastImage, pendingRequests
      ensures Valid() && View() == Waits(old(View()), waits)
    {
      hide OnAll;
      ghost var all := Waits(View(), waits);
      var i, again := 0, true;
      assert waits[0..] == waits;
      while i < |waits| && again
        invariant i <= |waits| && Valid() && (if again then Waits(View(), waits[i..]) else View()) == all
      {
        NoFaultWait(View(), waits[i..]);
        assert waits[i..][1..] == waits[i + 1..];
        match waits[i] {
          case Interrupted => again := false;
          case Failed => shutdown, again := true, false;
          case Got(events) =>
            OnEvents(events);
            again := |events| == MAX_EVENTS && activeCamera.Some?;
        }
        i := i + 1;
      }
    }

    // reactor: what the system calls did in each turn is given.
    method React(turns: seq<Turn>)
      requires Valid() && Run(View(), turns).fault.NoFault?
      requires Accounts.Standing(View()) && AllPolled(turns)
      modifies this, sockets, lastImage, pendingRequests
      ensures Valid() && View() == Run(old(View()), turns) && Accounts.Standing(View())
    {
      hide Waits, OpenNext, Accounts.Kept;
      ghost var all := Run(View(), turns);
      var i := 0;
      assert turns[0..] == turns;
      while i < |turns| && !shutdown
        invariant i <= |turns| && Valid() && Run(View(), turns[i..]) == all && Accounts.Standing(View())
      {
        ghost var w := View();
        NoFaultTurn(w, turns[i..]);
        Accounts.StandingPass(w, turns[i]);
        assert turns[i..][1..] == turns[i + 1..];
        if activeCamera.None? {
          var ok := OpenNextCameraConnection(turns[i].opening);
          shutdown := !ok;
        }
        if !shutdown { Poll(turns[i].waits); }
        i := i + 1;
      }
    }
  }

  lemma {:induction false} NoFaultBefore(w: World, es: seq<Event>, i: nat)
    requires w.Shaped() && i <= |es| && OnAll(w, es).fault.NoFault?
    ensures OnAll(w, es[..i]).fault.NoFault?
    decreases |es|
  {
    hide On;
    var n := |es| - 1;
    if i == |es| {
      assert es[..i] == es;
    } else {
      NoFaultBefore(w, es[..n], i);
      assert es[..n][..i] == es[..i];
    }
  }

  lemma NoFaultWait(w: World, waits: seq<Wait>)
    requires w.Shaped() && waits != [] && Waits(w, waits).fault.NoFault?
    ensures OnWait(w, waits[0]).fault.NoFault?
  {
    hide OnAll;
  }

  lemma NoFaultTurn(w: World, turns: seq<Turn>)
    requires w.Shaped() && turns != [] && !w.shutdown && w.fault.NoFault? && Run(w, turns).fault.NoFault?
    ensures Pass(w, turns[0]).fault.NoFault?
  {
    hide Pass;
  }

  lemma NoFaultYet(w: World, requests: seq<(Conn, Request)>)
    requires w.Shaped() && w.fault.NoFault? && requests != [] && HandleAll(w, requests).fault.NoFault?
    ensures Handle(w, requests[0].0, requests[0].1).fault.NoFault?
  {
    hide Handle, Handles;
  }
}
