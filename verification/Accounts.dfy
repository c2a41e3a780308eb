/** What every run of the reactor keeps: one connection at a time, the cameras in turn, images in the slot of their
    channel, and every request answered once, in order (README.md:56-58; src/main.c:211-241, 358-389, 448-586,
    588-738). */
module Accounts {
  import opened Options
  import opened Adapter

  /* ---- Connections. ---- */

  // At most the active camera's connection is open, and the camera after it is next.
  ghost predicate Exclusive(w: World) {
    && w.Shaped()
    && (forall i | 0 <= i < w.N() :: w.open[i] ==> w.active == Some(i))
    && (w.active.Some? ==> w.next == NextCamera(w.N(), w.active.value))
    && (forall i | 0 <= i < w.N() :: w.channels[i] == i + 1)
  }

  // The active camera, if there is one, is connected: what the event loop asserts.
  ghost predicate Connected(w: World)
    requires w.Shaped()
  {
    w.active.Some? ==> w.open[w.active.value]
  }

  /* ---- Reading the log. ---- */

  function OpensIn(log: seq<Note>): seq<nat> {
    if log == [] then []
    else
      var e := log[|log| - 1];
      OpensIn(log[..|log| - 1]) + if e.Opened? then [e.camera] else []
  }

  function QueuedOn(log: seq<Note>, s: nat): seq<Conn> {
    if log == [] then []
    else
      var e := log[|log| - 1];
      QueuedOn(log[..|log| - 1], s) + if e.Queued? && e.slot == s then [e.conn] else []
  }

  function FilledOn(log: seq<Note>, s: nat): seq<Conn> {
    if log == [] then []
    else
      var e := log[|log| - 1];
      FilledOn(log[..|log| - 1], s) + if e.Filled? && e.slot == s then [e.conn] else []
  }

  // Who has queued on the slot since its last image.
  function Since(log: seq<Note>, s: nat): seq<Conn> {
    if log == [] then []
    else
      var e, before := log[|log| - 1], Since(log[..|log| - 1], s);
      if e.Stored? && e.slot == s then []
      else if e.Queued? && e.slot == s then before + [e.conn]
      else before
  }

  function LastImage(log: seq<Note>, s: nat): Option<Image> {
    if log == [] then None
    else
      var e := log[|log| - 1];
      if e.Stored? && e.slot == s then Some(e.image) else LastImage(log[..|log| - 1], s)
  }

  function AskedIn(log: seq<Note>): multiset<Conn> {
    if log == [] then multiset{}
    else
      var e := log[|log| - 1];
      AskedIn(log[..|log| - 1]) + if e.Asked? then multiset{e.conn} else multiset{}
  }

  function AnsweredIn(log: seq<Note>): multiset<Conn> {
    if log == [] then multiset{}
    else
      var e := log[|log| - 1];
      AnsweredIn(log[..|log| - 1]) + if e.Refused? || e.Sent? || e.Filled? then multiset{e.conn} else multiset{}
  }

  function Waiting(pending: seq<seq<Conn>>): multiset<Conn> {
    if pending == [] then multiset{} else Waiting(pending[..|pending| - 1]) + multiset(pending[|pending| - 1])
  }

  // The image in a reply is the last one stored in the slot before it.
  ghost predicate Truthful(log: seq<Note>) {
    forall k | 0 <= k < |log| && (log[k].Sent? || log[k].Filled?) ::
      LastImage(log[..k], log[k].slot) == Some(log[k].image)
  }

  /* ---- The invariants. ---- */

  // The cameras were opened in turn.
  ghost predicate InTurn(w: World) {
    var opens := OpensIn(w.log);
    w.Shaped() && |opens| % w.N() == w.next && forall k | 0 <= k < |opens| :: opens[k] == k % w.N()
  }

  // A slot holds images of one channel.
  ghost predicate Sorted(w: World) {
    w.Shaped() && forall s | 0 <= s < MAX_NUM_CAMERAS && w.images[s].Some? ::
      s < w.N() && w.images[s].value.channel % w.N() == s
  }

  // Slot by slot: first come, first served; who waits has waited since the last image; the last image stored is kept.
  ghost predicate Orderly(w: World) {
    w.Shaped() && forall s | 0 <= s < MAX_NUM_CAMERAS ::
      && QueuedOn(w.log, s) == FilledOn(w.log, s) + w.pending[s]
      && Since(w.log, s) == w.pending[s]
      && LastImage(w.log, s) == w.images[s]
  }

  // Every connection handed in has been answered once, or waits in one queue.
  ghost predicate Balanced(w: World) { AskedIn(w.log) == AnsweredIn(w.log) + Waiting(w.pending) }

  ghost predicate Kept(w: World) { InTurn(w) && Sorted(w) && Orderly(w) && Balanced(w) && Truthful(w.log) }

  // Steps that only open or close sockets, or shut down.
  ghost predicate SameBooks(w: World, v: World) {
    v.log == w.log && v.images == w.images && v.pending == w.pending && v.next == w.next && v.channels == w.channels
    && v.Shaped() == w.Shaped()
  }

  lemma KeptSame(w: World, v: World)
    requires Kept(w) && SameBooks(w, v)
    ensures Kept(v)
  {
    hide OpensIn, QueuedOn, FilledOn, Since, LastImage, AskedIn, AnsweredIn, Waiting;
  }

  /* ---- Opening. ---- */

  // One more note.
  lemma Reads(log: seq<Note>, e: Note, s: nat)
    ensures var more := log + [e];
            && more[..|log|] == log && more[|log|] == e
            && OpensIn(more) == OpensIn(log) + (if e.Opened? then [e.camera] else [])
            && QueuedOn(more, s) == QueuedOn(log, s) + (if e.Queued? && e.slot == s then [e.conn] else [])
            && FilledOn(more, s) == FilledOn(log, s) + (if e.Filled? && e.slot == s then [e.conn] else [])
            && Since(more, s) == (if e.Stored? && e.slot == s then []
                                  else if e.Queued? && e.slot == s then Since(log, s) + [e.conn]
                                  else Since(log, s))
            && LastImage(more, s) == (if e.Stored? && e.slot == s then Some(e.image) else LastImage(log, s))
            && AskedIn(more) == AskedIn(log) + (if e.Asked? then multiset{e.conn} else multiset{})
            && AnsweredIn(more) == AnsweredIn(log)
              + (if e.Refused? || e.Sent? || e.Filled? then multiset{e.conn} else multiset{})
  {
    assert (log + [e])[..|log|] == log;
  }

  lemma TruthfulSnoc(log: seq<Note>, e: Note)
    requires Truthful(log) && (e.Sent? || e.Filled? ==> LastImage(log, e.slot) == Some(e.image))
    ensures Truthful(log + [e])
  {
    hide LastImage;
    var more := log + [e];
    forall k | 0 <= k < |more| && (more[k].Sent? || more[k].Filled?)
      ensures LastImage(more[..k], more[k].slot) == Some(more[k].image)
    {
      if k < |log| {
        assert more[..k] == log[..k] && more[k] == log[k];
      } else {
        assert more[..k] == log && more[k] == e;
      }
    }
  }

  lemma KeptOpen(w: World, o: Opening)
    requires Kept(w)
    ensures Kept(OpenNext(w, o))
  {
    hide OpensIn, QueuedOn, FilledOn, Since, LastImage, AskedIn, AnsweredIn, Waiting;
    var e := Opened(w.next);
    forall s | 0 <= s < MAX_NUM_CAMERAS
      ensures QueuedOn(w.log + [e], s) == QueuedOn(w.log, s) && FilledOn(w.log + [e], s) == FilledOn(w.log, s)
      ensures Since(w.log + [e], s) == Since(w.log, s) && LastImage(w.log + [e], s) == LastImage(w.log, s)
    {
      Reads(w.log, e, s);
    }
    Reads(w.log, e, 0);
    TruthfulSnoc(w.log, e);
    hide Truthful;
    NextTurn(|OpensIn(w.log)|, w.N());
  }

  lemma NextTurn(k: nat, n: nat)
    requires n >= 1
    ensures NextCamera(n, k % n) == (k + 1) % n
  {
    if k % n + 1 == n {
      Quotient(k + 1, k / n + 1, 0, n);
    } else {
      Quotient(k + 1, k / n, k % n + 1, n);
    }
  }

  lemma Quotient(k: nat, q: nat, m: nat, n: nat)
    requires m < n && k == q * n + m
    ensures k % n == m && k / n == q
  {
    var d := k / n - q;
    assert d * n == k / n * n - q * n;
    if d >= 1 { Multiple(d, n); } else if d <= -1 { Multiple(-d, n); }
  }

  lemma Multiple(d: int, n: int)
    requires d >= 1 && n >= 0
    ensures d * n >= n
  {
    assert d * n == (d - 1) * n + n;
  }

  /* ---- Storing an image. ---- */

  lemma {:induction false} FillsRead(log: seq<Note>, q: seq<Conn>, slot: nat, image: Image, s: nat)
    ensures var more := log + Fills(q, slot, image);
            && OpensIn(more) == OpensIn(log) && QueuedOn(more, s) == QueuedOn(log, s)
            && FilledOn(more, s) == FilledOn(log, s) + (if s == slot then q else [])
            && Since(more, s) == Since(log, s) && LastImage(more, s) == LastImage(log, s)
            && AskedIn(more) == AskedIn(log) && AnsweredIn(more) == AnsweredIn(log) + multiset(q)
  {
    hide OpensIn, QueuedOn, FilledOn, Since, LastImage, AskedIn, AnsweredIn;
    if q == [] {
      assert log + [] == log;
    } else {
      var n := |q| - 1;
      FillsRead(log, q[..n], slot, image, s);
      var before, e := log + Fills(q[..n], slot, image), Filled(q[n], slot, image);
      assert log + Fills(q, slot, image) == before + [e];
      Reads(before, e, s);
      hide Fills;
      assert q == q[..n] + [q[n]];
    }
  }

  lemma {:induction false} FillsTruthful(log: seq<Note>, q: seq<Conn>, slot: nat, image: Image)
    requires Truthful(log) && LastImage(log, slot) == Some(image)
    ensures Truthful(log + Fills(q, slot, image))
  {
    hide LastImage, Truthful;
    if q == [] {
      assert log + [] == log;
    } else {
      var n := |q| - 1;
      FillsTruthful(log, q[..n], slot, image);
      FillsRead(log, q[..n], slot, image, slot);
      var before, e := log + Fills(q[..n], slot, image), Filled(q[n], slot, image);
      TruthfulSnoc(before, e);
      assert log + Fills(q, slot, image) == before + [e];
    }
  }

  lemma AddBoth(a: multiset<Conn>, x: multiset<Conn>, b: multiset<Conn>, y: multiset<Conn>, m: multiset<Conn>)
    requires a + x == b + y
    ensures a + m + x == b + m + y
  {
    assert a + m + x == a + x + m && b + m + y == b + y + m;
  }

  lemma {:induction false} WaitingUpdate(pending: seq<seq<Conn>>, s: nat, q: seq<Conn>)
    requires s < |pending|
    ensures Waiting(pending[s := q]) + multiset(pending[s]) == Waiting(pending) + multiset(q)
    decreases |pending|
  {
    var n, more := |pending| - 1, pending[s := q];
    if s == n {
      assert more[..n] == pending[..n];
    } else {
      WaitingUpdate(pending[..n], s, q);
      assert more[..n] == pending[..n][s := q] && pending[..n][s] == pending[s];
      AddBoth(Waiting(more[..n]), multiset(pending[s]), Waiting(pending[..n]), multiset(q), multiset(pending[n]));
    }
  }

  // One slot, when a new image is stored in some slot.
  ghost predicate SlotOrderly(log: seq<Note>, s: nat, q: seq<Conn>, image: Option<Image>) {
    QueuedOn(log, s) == FilledOn(log, s) + q && Since(log, s) == q && LastImage(log, s) == image
  }

  lemma StoreSlot(log: seq<Note>, slot: nat, image: Image, q: seq<Conn>, s: nat, waiting: seq<Conn>,
                  last: Option<Image>)
    requires SlotOrderly(log, s, waiting, last) && (s == slot ==> waiting == q)
    ensures var more := log + [Stored(slot, image)] + Fills(q, slot, image);
            SlotOrderly(more, s, if s == slot then [] else waiting, if s == slot then Some(image) else last)
  {
    hide OpensIn, QueuedOn, FilledOn, Since, LastImage, AskedIn, AnsweredIn, Fills;
    Reads(log, Stored(slot, image), s);
    FillsRead(log + [Stored(slot, image)], q, slot, image, s);
  }

  lemma Balance(asked: multiset<Conn>, answered: multiset<Conn>, w: multiset<Conn>, w': multiset<Conn>,
                q: multiset<Conn>)
    requires asked == answered + w && w' + q == w
    ensures asked == answered + q + w'
  {
  }

  lemma BalanceOne(asked: multiset<Conn>, answered: multiset<Conn>, w: multiset<Conn>, conn: Conn)
    requires asked == answered + w
    ensures asked + multiset{conn} == answered + multiset{conn} + w == answered + (w + multiset{conn})
  {
  }

  lemma OneMore(w: multiset<Conn>, w': multiset<Conn>, q: seq<Conn>, conn: Conn)
    requires w' + multiset(q) == w + multiset(q + [conn])
    ensures w' == w + multiset{conn}
  {
    var m := multiset(q);
    assert multiset(q + [conn]) == m + multiset{conn};
    forall c: Conn
      ensures w'[c] == (w + multiset{conn})[c]
    {
      assert (w' + m)[c] == (w + (m + multiset{conn}))[c];
    }
  }

  // A new image goes to everyone queued on its slot, once each, in order of arrival, and to nobody else.
  lemma KeptStore(w: World, image: Image)
    requires Kept(w) && image.channel % w.N() == w.next
    ensures Kept(Store(w, image))
  {
    hide OpensIn, QueuedOn, FilledOn, Since, LastImage, AskedIn, AnsweredIn, Waiting, Truthful, Fills;
    var v, slot := Store(w, image), w.next;
    var q, stored := w.pending[slot], w.log + [Stored(slot, image)];
    forall s | 0 <= s < MAX_NUM_CAMERAS
      ensures SlotOrderly(v.log, s, v.pending[s], v.images[s])
    {
      StoreSlot(w.log, slot, image, q, s, w.pending[s], w.images[s]);
    }
    Reads(w.log, Stored(slot, image), slot);
    TruthfulSnoc(w.log, Stored(slot, image));
    FillsRead(stored, q, slot, image, slot);
    FillsTruthful(stored, q, slot, image);
    WaitingUpdate(w.pending, slot, []);
    Balance(AskedIn(w.log), AnsweredIn(w.log), Waiting(w.pending), Waiting(v.pending), multiset(q));
  }

  /* ---- Requests. ---- */

  lemma HandleSlot(log: seq<Note>, conn: Conn, e: Note, s: nat, waiting: seq<Conn>, last: Option<Image>)
    requires SlotOrderly(log, s, waiting, last) && (e.Refused? || e.Sent? || e.Queued?)
    ensures SlotOrderly(log + [Asked(conn)] + [e], s, if e.Queued? && e.slot == s then waiting + [e.conn] else waiting,
                        last)
  {
    hide OpensIn, QueuedOn, FilledOn, Since, LastImage, AskedIn, AnsweredIn;
    Reads(log, Asked(conn), s);
    Reads(log + [Asked(conn)], e, s);
  }

  lemma KeptHandle(w: World, conn: Conn, r: Request)
    requires Kept(w) && Handle(w, conn, r).fault.NoFault?
    ensures Kept(Handle(w, conn, r))
  {
    hide OpensIn, QueuedOn, FilledOn, Since, LastImage, AskedIn, AnsweredIn, Waiting, Truthful;
    var v, asked := Handle(w, conn, r), w.log + [Asked(conn)];
    var e := v.log[|asked|];
    Answer(w, conn, r, e);
    forall s | 0 <= s < MAX_NUM_CAMERAS
      ensures SlotOrderly(v.log, s, v.pending[s], v.images[s])
    {
      HandleSlot(w.log, conn, e, s, w.pending[s], w.images[s]);
    }
    hide Handle;
    BalancedAnswer(w, v, conn, e);
    TruthfulAnswer(w, conn, e);
    Reads(w.log, Asked(conn), 0);
    Reads(asked, e, 0);
  }

  lemma BalancedAnswer(w: World, v: World, conn: Conn, e: Note)
    requires w.Shaped() && Balanced(w) && v.log == w.log + [Asked(conn)] + [e]
    requires (e.Refused? || e.Sent? || e.Queued?) && e.conn == conn
    requires if e.Queued? then e.slot < MAX_NUM_CAMERAS && v.pending == w.pending[e.slot := w.pending[e.slot] + [conn]]
             else v.pending == w.pending
    ensures Balanced(v)
  {
    hide OpensIn, QueuedOn, FilledOn, Since, LastImage, AskedIn, AnsweredIn, Waiting;
    Reads(w.log, Asked(conn), 0);
    Reads(w.log + [Asked(conn)], e, 0);
    if e.Queued? {
      WaitingUpdate(w.pending, e.slot, w.pending[e.slot] + [conn]);
      OneMore(Waiting(w.pending), Waiting(v.pending), w.pending[e.slot], conn);
    }
    BalanceOne(AskedIn(w.log), AnsweredIn(w.log), Waiting(w.pending), conn);
  }

  lemma TruthfulAnswer(w: World, conn: Conn, e: Note)
    requires Orderly(w) && Truthful(w.log) && (e.Refused? || e.Sent? || e.Queued?)
    requires e.Sent? ==> e.slot < MAX_NUM_CAMERAS && w.images[e.slot] == Some(e.image)
    ensures Truthful(w.log + [Asked(conn)] + [e])
  {
    hide Truthful, LastImage, QueuedOn, FilledOn, Since;
    TruthfulSnoc(w.log, Asked(conn));
    if e.Sent? { Reads(w.log, Asked(conn), e.slot); }
    TruthfulSnoc(w.log + [Asked(conn)], e);
  }

  // The one answer to a request, or its place in a queue.
  lemma Answer(w: World, conn: Conn, r: Request, e: Note)
    requires w.Shaped() && Handle(w, conn, r).fault.NoFault?
    requires |Handle(w, conn, r).log| == |w.log| + 2 ==> e == Handle(w, conn, r).log[|w.log| + 1]
    ensures var v := Handle(w, conn, r);
            && v.log == w.log + [Asked(conn)] + [e] && (e.Refused? || e.Sent? || e.Queued?) && e.conn == conn
            && v == w.(log := v.log, pending := v.pending)
            && (e.Sent? ==> e.slot < MAX_NUM_CAMERAS && w.images[e.slot] == Some(e.image))
            && (if e.Queued? then e.slot < MAX_NUM_CAMERAS
                && v.pending == w.pending[e.slot := w.pending[e.slot] + [conn]]
                else v.pending == w.pending)
  {
  }

  /* ---- Runs. ---- */

  ghost predicate SomeFull(w: World) { exists s | 0 <= s < |w.pending| :: |w.pending[s]| >= MAX_PENDING_REQUESTS }

  // Between events. The only fault there can be is a queue that was full.
  ghost predicate Looping(w: World) {
    Exclusive(w) && Connected(w) && (if w.fault.NoFault? then Kept(w) else w.fault.QueueFull? && SomeFull(w))
  }

  // Between turns. After a failure to connect the active camera may be closed.
  ghost predicate Standing(w: World) {
    Exclusive(w) && (w.shutdown || Connected(w))
    && (if w.fault.NoFault? then Kept(w) else w.fault.QueueFull? && SomeFull(w))
  }

  lemma StandingOpen(w: World, o: Opening)
    requires Standing(w) && w.fault.NoFault? && w.active.None?
    ensures Standing(OpenNext(w, o)) && OpenNext(w, o).fault.NoFault? && OpenNext(w, o).active.Some?
  {
    hide Kept;
    KeptOpen(w, o);
  }

  lemma LoopingDrop(w: World, closes: bool)
    requires Exclusive(w) && Kept(w) && w.active.Some? && w.fault.NoFault?
    ensures Looping(Drop(w, closes))
  {
    hide Kept;
    KeptSame(w, Drop(w, closes));
  }

  lemma LoopingProcess(w: World, p: Processing)
    requires Looping(w) && w.fault.NoFault? && w.active.Some?
    ensures var v := Process(w, p);
            Exclusive(v) && Kept(v) && v.fault.NoFault? && (!ProcessCode(w, p).Error? ==> Looping(v))
            && (ProcessCode(w, p).Error? ==> v.active.Some?)
  {
    hide Kept;
    var a := w.active.value;
    if !p.Troubled? && p.bytes != [] && Closes(w, a, p.closes) {
      var closed := w.(open := w.open[a := false]);
      KeptSame(w, closed);
      if p.file.Written? {
        var image := Image(w.channels[a], p.bytes);
        assert image.channel % w.N() == w.next by { Quotient(a + 1, if a + 1 == w.N() then 1 else 0, w.next, w.N()); }
        KeptStore(closed, image);
        KeptSame(Store(closed, image), Store(closed, image).(active := None));
      }
    }
  }

  lemma LoopingCamera(w: World, c: CameraTurn)
    requires Looping(w) && w.fault.NoFault? && w.active.Some?
    ensures Looping(OnCamera(w, c))
  {
    hide Kept, Process, ProcessCode, Drop;
    if c.HangUp? {
      LoopingDrop(w, c.closes);
    } else {
      var v := Process(w, c.p);
      LoopingProcess(w, c.p);
      KeptSame(v, v.(shutdown := true));
      if ProcessCode(w, c.p).Error? { LoopingDrop(v, c.closes); }
    }
  }

  lemma LoopingHandle(w: World, conn: Conn, r: Request)
    requires Looping(w) && w.fault.NoFault?
    ensures Looping(Handle(w, conn, r)) && Handle(w, conn, r).active == w.active
  {
    hide Kept;
    if Handle(w, conn, r).fault.NoFault? { KeptHandle(w, conn, r); }
  }

  lemma {:induction false} LoopingHandleAll(w: World, requests: seq<(Conn, Request)>)
    requires Looping(w)
    ensures Looping(HandleAll(w, requests)) && HandleAll(w, requests).active == w.active
    decreases |requests|
  {
    hide Kept, Handle;
    if requests != [] && w.fault.NoFault? {
      var v := Handle(w, requests[0].0, requests[0].1);
      LoopingHandle(w, requests[0].0, requests[0].1);
      LoopingHandleAll(v, requests[1..]);
      LoopingDown(v);
    }
  }

  lemma LoopingDown(w: World)
    requires Looping(w)
    ensures Looping(w.(shutdown := true))
  {
    hide Kept;
    if w.fault.NoFault? { KeptSame(w, w.(shutdown := true)); }
  }

  lemma LoopingOn(w: World, e: Event)
    requires Looping(w) && w.fault.NoFault? && (e.Camera? ==> w.active.Some?)
    ensures Looping(On(w, e)) && (!e.Camera? ==> On(w, e).active == w.active)
  {
    assert w.Shaped();
    hide Kept, OnCamera, HandleAll, Looping;
    LoopingDown(w);
    if e.Camera? {
      LoopingCamera(w, e.turn);
    } else if e.Server? {
      LoopingHandleAll(w, e.serving.requests);
      LoopingDown(HandleAll(w, e.serving.requests));
    }
  }

  lemma {:induction false} LoopingOnAll(w: World, es: seq<Event>)
    requires Looping(w) && w.active.Some? && Cameras(es) <= 1
    ensures Looping(OnAll(w, es)) && (Cameras(es) == 0 ==> OnAll(w, es).active == w.active)
    decreases |es|
  {
    assert w.Shaped();
    hide Looping, On;
    if es != [] {
      var n := |es| - 1;
      LoopingOnAll(w, es[..n]);
      var v := OnAll(w, es[..n]);
      if v.fault.NoFault? { LoopingOn(v, es[n]); }
    }
  }

  lemma {:induction false} LoopingWaits(w: World, waits: seq<Wait>)
    requires Looping(w) && w.active.Some? && Polled(waits)
    ensures Looping(Waits(w, waits))
    decreases |waits|
  {
    assert w.Shaped();
    hide Looping, OnAll;
    if waits != [] {
      LoopingDown(w);
      if waits[0].Got? { LoopingOnAll(w, waits[0].events); }
      var v := OnWait(w, waits[0]);
      if WaitsAgain(v, waits[0]) { LoopingWaits(v, waits[1..]); }
    }
  }

  lemma StandingPass(w: World, t: Turn)
    requires Standing(w) && w.fault.NoFault? && !w.shutdown && Polled(t.waits)
    ensures Standing(Pass(w, t))
  {
    assert w.Shaped();
    hide Kept, Waits, OpenNext, Exclusive;
    if w.active.None? { StandingOpen(w, t.opening); }
    var v := if w.active.None? then OpenNext(w, t.opening) else w;
    if !v.shutdown { LoopingWaits(v, t.waits); }
  }

  lemma {:induction false} StandingRun(w: World, turns: seq<Turn>)
    requires Standing(w) && AllPolled(turns)
    ensures Standing(Run(w, turns))
    decreases |turns|
  {
    assert w.Shaped();
    hide Pass, Standing;
    if turns != [] && !w.shutdown && w.fault.NoFault? {
      StandingPass(w, turns[0]);
      StandingRun(Pass(w, turns[0]), turns[1..]);
    }
  }

  lemma {:induction false} NobodyWaits(pending: seq<seq<Conn>>)
    requires forall s | 0 <= s < |pending| :: pending[s] == []
    ensures Waiting(pending) == multiset{}
  {
    if pending != [] { NobodyWaits(pending[..|pending| - 1]); }
  }

  lemma StandingStart(n: nat)
    requires 1 <= n < MAX_NUM_CAMERAS
    ensures Standing(Start(n))
  {
    NobodyWaits(Start(n).pending);
  }

  /* ---- The theorems. ---- */

  // No assertion of the reactor fails, whatever the system calls and requests do; a queue that holds 64 connections is
  // the only way to leave the bounds of the globals. At every turn at most one connection is open, and it is the active
  // camera's.
  lemma OneConnection(n: nat, turns: seq<Turn>, i: nat, j: nat)
    requires 1 <= n < MAX_NUM_CAMERAS && AllPolled(turns) && i < n && j < n
    ensures var w := Run(Start(n), turns);
            && w.Shaped() && w.N() == n && (w.fault.NoFault? || (w.fault.QueueFull? && SomeFull(w)))
            && (w.open[i] && w.open[j] ==> i == j && w.active == Some(i))
  {
    hide Run, Kept;
    StandingStart(n);
    StandingRun(Start(n), turns);
  }

  // After the opening that starts a turn, if there is one.
  function AfterOpening(w: World, o: Opening): (w': World)
    requires w.Shaped()
    ensures w'.Shaped() && w'.channels == w.channels
  {
    if w.active.None? then OpenNext(w, o) else w
  }

  // The inner loop waits again after each of these.
  predicate GoesOn(w: World, waits: seq<Wait>)
    requires w.Shaped()
    decreases |waits|
  {
    waits == [] || (WaitsAgain(OnWait(w, waits[0]), waits[0]) && GoesOn(OnWait(w, waits[0]), waits[1..]))
  }

  lemma {:induction false} WaitsOn(w: World, waits: seq<Wait>, wait: Wait)
    requires w.Shaped() && GoesOn(w, waits)
    ensures Waits(w, waits + [wait]) == OnWait(Waits(w, waits), wait)
    decreases |waits|
  {
    hide OnWait;
    if waits == [] {
      assert [] + [wait] == [wait] && [wait][1..] == [];
    } else {
      assert (waits + [wait])[0] == waits[0] && (waits + [wait])[1..] == waits[1..] + [wait];
      WaitsOn(OnWait(w, waits[0]), waits[1..], wait);
    }
  }

  lemma {:induction false} RunOn(w: World, turns: seq<Turn>, t: Turn)
    requires w.Shaped() && Run(w, turns).fault.NoFault? && !Run(w, turns).shutdown
    ensures Run(w, turns + [t]) == Pass(Run(w, turns), t)
    decreases |turns|
  {
    hide Pass;
    if turns == [] {
      assert [] + [t] == [t] && [t][1..] == [];
    } else {
      assert (turns + [t])[0] == turns[0] && (turns + [t])[1..] == turns[1..] + [t];
      RunOn(Pass(w, turns[0]), turns[1..], t);
    }
  }

  lemma {:induction false} FewerCameras(es: seq<Event>, k: nat)
    requires k <= |es|
    ensures Cameras(es[..k]) <= Cameras(es)
    decreases |es|
  {
    var n := |es| - 1;
    if k == |es| {
      assert es[..k] == es;
    } else {
      FewerCameras(es[..n], k);
      assert es[..n][..k] == es[..k];
    }
  }

  // The same between any two events of a turn: after the turns, the waits of the next one that went on, and k of the
  // events of the wait after them.
  lemma BetweenEvents(
    n: nat, turns: seq<Turn>, o: Opening, waits: seq<Wait>, es: seq<Event>, k: nat, i: nat, j: nat)
    requires 1 <= n < MAX_NUM_CAMERAS && AllPolled(turns) && Polled(waits + [Got(es)]) && k <= |es| && i < n && j < n
    requires var w := Run(Start(n), turns); w.fault.NoFault? && !w.shutdown
    requires var v := AfterOpening(Run(Start(n), turns), o); !v.shutdown && GoesOn(v, waits)
    ensures var u := OnAll(Waits(AfterOpening(Run(Start(n), turns), o), waits), es[..k]);
            && u.Shaped() && u.N() == n && (u.fault.NoFault? || (u.fault.QueueFull? && SomeFull(u)))
            && (u.open[i] && u.open[j] ==> i == j && u.active == Some(i))
  {
    hide Run, Waits, OnAll, OpenNext, Cameras;
    var some := waits + [Got(es[..k])];
    var t := Turn(o, some);
    FewerCameras(es, k);
    forall l | 0 <= l < |some| && some[l].Got?
      ensures |some[l].events| <= MAX_EVENTS && Cameras(some[l].events) <= 1
    {
      assert (waits + [Got(es)])[l].Got?;
    }
    RunOn(Start(n), turns, t);
    WaitsOn(AfterOpening(Run(Start(n), turns), o), waits, Got(es[..k]));
    OneConnection(n, turns + [t], i, j);
  }

  // The k-th camera opened is camera k modulo n, so any n openings in a row visit each camera exactly once.
  lemma Rotation(n: nat, turns: seq<Turn>, start: nat, c: nat)
    requires 1 <= n < MAX_NUM_CAMERAS && AllPolled(turns) && c < n && Run(Start(n), turns).fault.NoFault?
    requires start + n <= |OpensIn(Run(Start(n), turns).log)|
    ensures var opens := OpensIn(Run(Start(n), turns).log);
            var k := start + (c + n - start % n) % n;
            start <= k < start + n && opens[k] == c && forall l | start <= l < start + n && opens[l] == c :: l == k
  {
    hide Run, OpensIn;
    StandingStart(n);
    StandingRun(Start(n), turns);
    var opens := OpensIn(Run(Start(n), turns).log);
    var k := start + (c + n - start % n) % n;
    OnceAround(n, start, c);
    forall l | start <= l < start + n && opens[l] == c
      ensures l == k
    {
      Distinct(n, start, k, l);
    }
  }

  lemma OnceAround(n: nat, start: nat, c: nat)
    requires c < n
    ensures (start + (c + n - start % n) % n) % n == c
  {
    var q, m := start / n, start % n;
    if c >= m {
      Quotient(c + n - m, 1, c - m, n);
      Quotient(start + (c - m), q, c, n);
    } else {
      Quotient(c + n - m, 0, c + n - m, n);
      Quotient(start + (c + n - m), q + 1, c, n);
    }
  }

  lemma Distinct(n: nat, start: nat, k: nat, l: nat)
    requires n >= 1 && start <= k < start + n && start <= l < start + n && k % n == l % n
    ensures k == l
  {
    var d := k / n - l / n;
    assert k - l == d * n by { assert d * n == k / n * n - l / n * n; }
    if d >= 1 { Multiple(d, n); } else if d <= -1 { Multiple(-d, n); }
  }

  // Slot s only ever holds images of cameras whose channel is s modulo n, and it holds the last one stored.
  lemma SlotsByChannel(n: nat, turns: seq<Turn>, s: nat)
    requires 1 <= n < MAX_NUM_CAMERAS && AllPolled(turns) && s < MAX_NUM_CAMERAS && Run(Start(n), turns).fault.NoFault?
    ensures var w := Run(Start(n), turns);
            && w.images[s] == LastImage(w.log, s)
            && (w.images[s].Some? ==> s < n && w.images[s].value.channel % n == s)
  {
    hide Run, LastImage;
    StandingStart(n);
    StandingRun(Start(n), turns);
  }

  // Every connection handed in is answered exactly once or waits in exactly one queue. Queues are served in order of
  // arrival, whoever waits has waited since the last image of that slot, and every image sent is the last one stored in
  // the slot.
  lemma RequestsConserved(n: nat, turns: seq<Turn>, s: nat)
    requires 1 <= n < MAX_NUM_CAMERAS && AllPolled(turns) && s < MAX_NUM_CAMERAS && Run(Start(n), turns).fault.NoFault?
    ensures var w := Run(Start(n), turns);
            && AskedIn(w.log) == AnsweredIn(w.log) + Waiting(w.pending)
            && QueuedOn(w.log, s) == FilledOn(w.log, s) + w.pending[s]
            && w.pending[s] == Since(w.log, s)
            && Truthful(w.log)
  {
    hide Run, LastImage, QueuedOn, FilledOn, Since, AskedIn, AnsweredIn, Waiting, Truthful;
    StandingStart(n);
    StandingRun(Start(n), turns);
  }
}
