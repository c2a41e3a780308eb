/** When the queues of waiting connections are long enough: 64 places a slot, which the source does not check
    (src/main.c:48-52, 448-586). */
module Queues {
  import opened Options
  import opened Adapter
  import Accounts

  /* ---- How many requests ask to wait for slot s. ---- */

  function Asks(r: Request, n: nat, s: nat): nat {
    if n >= 1 && Wanted(r, n) == Some(s) && r.waits == Some(true) then 1 else 0
  }

  function AsksIn(requests: seq<(Conn, Request)>, n: nat, s: nat): nat {
    if requests == [] then 0 else Asks(requests[0].1, n, s) + AsksIn(requests[1..], n, s)
  }

  function AsksAt(e: Event, n: nat, s: nat): nat { if e.Server? then AsksIn(e.serving.requests, n, s) else 0 }

  function AsksDuring(es: seq<Event>, n: nat, s: nat): nat {
    if es == [] then 0 else AsksDuring(es[..|es| - 1], n, s) + AsksAt(es[|es| - 1], n, s)
  }

  function AsksWhile(waits: seq<Wait>, n: nat, s: nat): nat {
    if waits == [] then 0
    else (if waits[0].Got? then AsksDuring(waits[0].events, n, s) else 0) + AsksWhile(waits[1..], n, s)
  }

  function AsksThrough(turns: seq<Turn>, n: nat, s: nat): nat {
    if turns == [] then 0 else AsksWhile(turns[0].waits, n, s) + AsksThrough(turns[1..], n, s)
  }

  /* ---- No queue grows by more. ---- */

  // From w to v every queue grows by at most a, and none was overrun if they had that much room.
  ghost predicate Grows(w: World, v: World, a: nat -> nat)
    requires w.Shaped() && v.Shaped()
  {
    && v.channels == w.channels
    && (forall s | 0 <= s < MAX_NUM_CAMERAS :: |v.pending[s]| <= |w.pending[s]| + a(s))
    && (Roomy(w, a) ==> !v.fault.QueueFull?)
  }

  ghost predicate Roomy(w: World, a: nat -> nat)
    requires w.Shaped()
  {
    !w.fault.QueueFull? && forall s | 0 <= s < MAX_NUM_CAMERAS :: |w.pending[s]| + a(s) <= MAX_PENDING_REQUESTS
  }

  lemma Grow(w: World, v: World, u: World, a: nat -> nat, b: nat -> nat, c: nat -> nat)
    requires w.Shaped() && v.Shaped() && u.Shaped() && Grows(w, v, a) && Grows(v, u, b)
    requires forall s | 0 <= s < MAX_NUM_CAMERAS :: a(s) + b(s) <= c(s)
    ensures Grows(w, u, c)
  {
    if Roomy(w, c) {
      assert Roomy(w, a);
      assert Roomy(v, b);
    }
  }

  lemma GrowLess(w: World, v: World, a: nat -> nat, c: nat -> nat)
    requires w.Shaped() && v.Shaped() && Grows(w, v, a) && forall s | 0 <= s < MAX_NUM_CAMERAS :: a(s) <= c(s)
    ensures Grows(w, v, c)
  {
    if Roomy(w, c) { assert Roomy(w, a); }
  }

  lemma GrowNone(w: World)
    requires w.Shaped()
    ensures Grows(w, w, s => 0) && Grows(w, w.(shutdown := true), s => 0)
  {
  }

  lemma GrowHandle(w: World, conn: Conn, r: Request)
    requires w.Shaped()
    ensures Grows(w, Handle(w, conn, r), s => Asks(r, w.N(), s))
  {
    var s := Wanted(r, w.N());
    if Roomy(w, s => Asks(r, w.N(), s)) && s.Some? && r.waits == Some(true) {
      assert Asks(r, w.N(), s.value) == 1;
    }
  }

  lemma {:induction false} GrowHandleAll(w: World, requests: seq<(Conn, Request)>)
    requires w.Shaped()
    ensures Grows(w, HandleAll(w, requests), s => AsksIn(requests, w.N(), s))
    decreases |requests|
  {
    hide Handle, Handles, Asks, Grows;
    GrowNone(w);
    if requests == [] || !w.fault.NoFault? {
      GrowLess(w, w, s => 0, s => AsksIn(requests, w.N(), s));
    } else {
      var v := Handle(w, requests[0].0, requests[0].1);
      GrowHandle(w, requests[0].0, requests[0].1);
      if Handles(w, requests[0].1) {
        GrowHandleAll(v, requests[1..]);
        Grow(w, v, HandleAll(v, requests[1..]), s => Asks(requests[0].1, w.N(), s),
             s => AsksIn(requests[1..], w.N(), s),
             s => AsksIn(requests, w.N(), s));
      } else {
        GrowNone(v);
        Grow(w, v, v.(shutdown := true), s => Asks(requests[0].1, w.N(), s), s => 0,
             s => AsksIn(requests, w.N(), s));
      }
    }
  }

  lemma GrowCamera(w: World, c: CameraTurn)
    requires w.Shaped()
    ensures Grows(w, OnCamera(w, c), s => 0)
  {
    hide Fills, Closes;
  }

  lemma GrowOn(w: World, e: Event)
    requires w.Shaped()
    ensures Grows(w, On(w, e), s => AsksAt(e, w.N(), s))
  {
    hide Grows, HandleAll, OnCamera, AsksIn;
    GrowNone(w);
    match e
    case Camera(c) =>
      GrowCamera(w, c);
      GrowLess(w, On(w, e), s => 0, s => AsksAt(e, w.N(), s));
    case Server(s) => GrowServer(w, s);
    case Signal => GrowLess(w, On(w, e), s => 0, s => AsksAt(e, w.N(), s));
    case Unknown => GrowLess(w, On(w, e), s => 0, s => AsksAt(e, w.N(), s));
  }

  lemma GrowServer(w: World, s: Serving)
    requires w.Shaped()
    ensures Grows(w, OnServer(w, s), i => AsksAt(Server(s), w.N(), i))
  {
    hide Grows, HandleAll, AsksIn;
    var v := HandleAll(w, s.requests);
    GrowNone(w);
    GrowNone(v);
    GrowHandleAll(w, s.requests);
    if !s.before {
      GrowLess(w, OnServer(w, s), i => 0, i => AsksAt(Server(s), w.N(), i));
    } else {
      Grow(w, v, OnServer(w, s), i => AsksIn(s.requests, w.N(), i), i => 0, i => AsksAt(Server(s), w.N(), i));
    }
  }

  lemma {:induction false} GrowOnAll(w: World, es: seq<Event>)
    requires w.Shaped()
    ensures Grows(w, OnAll(w, es), s => AsksDuring(es, w.N(), s))
    decreases |es|
  {
    hide Grows, On, AsksAt;
    GrowNone(w);
    if es == [] {
      GrowLess(w, w, s => 0, s => AsksDuring(es, w.N(), s));
    } else {
      var before, e := es[..|es| - 1], es[|es| - 1];
      var v := OnAll(w, before);
      GrowOnAll(w, before);
      GrowOn(v, e);
      if v.fault.NoFault? {
        Grow(w, v, On(v, e), s => AsksDuring(before, w.N(), s), s => AsksAt(e, v.N(), s),
             s => AsksDuring(es, w.N(), s));
      } else {
        GrowLess(w, v, s => AsksDuring(before, w.N(), s), s => AsksDuring(es, w.N(), s));
      }
    }
  }

  function AsksOnce(wait: Wait, n: nat, s: nat): nat { if wait.Got? then AsksDuring(wait.events, n, s) else 0 }

  lemma GrowWait(w: World, wait: Wait)
    requires w.Shaped()
    ensures Grows(w, OnWait(w, wait), s => AsksOnce(wait, w.N(), s))
  {
    hide Grows, OnAll, AsksDuring;
    GrowNone(w);
    match wait
    case Got(es) =>
      GrowOnAll(w, es);
      GrowLess(w, OnAll(w, es), s => AsksDuring(es, w.N(), s), s => AsksOnce(wait, w.N(), s));
    case Interrupted => GrowLess(w, w, s => 0, s => AsksOnce(wait, w.N(), s));
    case Failed => GrowLess(w, OnWait(w, wait), s => 0, s => AsksOnce(wait, w.N(), s));
  }

  lemma {:induction false} GrowWaits(w: World, waits: seq<Wait>)
    requires w.Shaped()
    ensures Grows(w, Waits(w, waits), s => AsksWhile(waits, w.N(), s))
    decreases |waits|
  {
    hide Grows, OnWait, AsksDuring;
    GrowNone(w);
    if waits == [] {
      GrowLess(w, w, s => 0, s => AsksWhile(waits, w.N(), s));
    } else {
      var v := OnWait(w, waits[0]);
      GrowWait(w, waits[0]);
      if WaitsAgain(v, waits[0]) {
        GrowWaits(v, waits[1..]);
        Grow(w, v, Waits(v, waits[1..]), s => AsksOnce(waits[0], w.N(), s), s => AsksWhile(waits[1..], v.N(), s),
             s => AsksWhile(waits, w.N(), s));
      } else {
        GrowLess(w, v, s => AsksOnce(waits[0], w.N(), s), s => AsksWhile(waits, w.N(), s));
      }
    }
  }

  lemma GrowPass(w: World, t: Turn)
    requires w.Shaped()
    ensures Grows(w, Pass(w, t), s => AsksWhile(t.waits, w.N(), s))
  {
    hide Waits, AsksWhile;
    var v := if w.active.None? then OpenNext(w, t.opening) else w;
    assert Grows(w, v, s => 0);
    hide Grows, OpenNext;
    GrowWaits(v, t.waits);
    if v.shutdown {
      GrowLess(w, v, s => 0, s => AsksWhile(t.waits, w.N(), s));
    } else {
      Grow(w, v, Waits(v, t.waits), s => 0, s => AsksWhile(t.waits, v.N(), s), s => AsksWhile(t.waits, w.N(), s));
    }
  }

  lemma {:induction false} GrowRun(w: World, turns: seq<Turn>)
    requires w.Shaped()
    ensures Grows(w, Run(w, turns), s => AsksThrough(turns, w.N(), s))
    decreases |turns|
  {
    hide Grows, Pass, AsksWhile;
    GrowNone(w);
    if turns == [] || w.shutdown || !w.fault.NoFault? {
      GrowLess(w, w, s => 0, s => AsksThrough(turns, w.N(), s));
    } else {
      var v := Pass(w, turns[0]);
      GrowPass(w, turns[0]);
      GrowRun(v, turns[1..]);
      Grow(w, v, Run(v, turns[1..]), s => AsksWhile(turns[0].waits, w.N(), s), s => AsksThrough(turns[1..], v.N(), s),
           s => AsksThrough(turns, w.N(), s));
    }
  }

  /* ---- The theorems. ---- */

  // As long as no more than 64 requests ask to wait for any slot, nothing goes wrong.
  lemma NoneOverrun(n: nat, turns: seq<Turn>)
    requires 1 <= n < MAX_NUM_CAMERAS && AllPolled(turns)
    requires forall s | 0 <= s < MAX_NUM_CAMERAS :: AsksThrough(turns, n, s) <= MAX_PENDING_REQUESTS
    ensures Run(Start(n), turns).fault.NoFault?
  {
    hide Run, AsksThrough;
    GrowRun(Start(n), turns);
    Accounts.OneConnection(n, turns, 0, 0);
    assert Roomy(Start(n), s => AsksThrough(turns, Start(n).N(), s));
  }

  // A server event with more requests for a slot than its queue has places for.
  lemma {:induction false} Overruns(w: World, requests: seq<(Conn, Request)>, s: nat)
    requires w.Shaped() && w.fault.NoFault? && s < MAX_NUM_CAMERAS && |w.pending[s]| <= MAX_PENDING_REQUESTS
    requires forall i | 0 <= i < |requests| :: Asks(requests[i].1, w.N(), s) == 1
    requires |w.pending[s]| + |requests| > MAX_PENDING_REQUESTS
    ensures HandleAll(w, requests).fault.QueueFull?
    decreases |requests|
  {
    hide Wanted;
    assert Asks(requests[0].1, w.N(), s) == 1;
    var v := Handle(w, requests[0].0, requests[0].1);
    if v.fault.NoFault? { Overruns(v, requests[1..], s); }
  }

  // The 65th connection that waits for a slot overruns its queue.
  lemma SixtyFiveOverrun(n: nat, r: Request)
    requires 1 <= n < MAX_NUM_CAMERAS && Asks(r, n, 0) == 1
    ensures var t := Turn(Connected, [Got([Server(Serving(true, seq(65, i => (i, r)), true))])]);
            AllPolled([t]) && Run(Start(n), [t]).fault.QueueFull?
  {
    hide HandleAll, Asks;
    var requests: seq<(Conn, Request)> := seq(65, i => (i, r));
    var e := Server(Serving(true, requests, true));
    var w := OpenNext(Start(n), Connected);
    Overruns(w, requests, 0);
    assert [e][..0] == [];
    assert OnAll(w, [e]) == On(w, e);
    assert Cameras([e]) == 0;
    var t := Turn(Connected, [Got([e])]);
    assert [t][1..] == [];
  }
}
