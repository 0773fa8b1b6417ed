/** Where every accepted packet goes: per-client conservation and order, over whole runs. */
module Delivery {
  import opened Airtime
  import opened Threads
  import opened ThreadSafety
  import opened Backlog

  /** How a packet left its queue. */
  datatype Removal = Sent(pkt: Packet) | Dropped(pkt: Packet)

  // ----- what one step accepts, removes and hands back

  function AcceptedBy(cfg: Config, s: State, e: Event, id: int): seq<Packet> {
    if e.Push? && e.id == id && |QueueOf(s, id)| != cfg.capacity then [e.pkt] else []
  }

  function RemovedBy(s: State, e: Event, id: int): seq<Removal> {
    var q := QueueOf(s, id);
    if e.Pop? && e.t in s.consumers && s.consumers[e.t].id == id && q != [] then [Sent(q[0])]
    else if e == RouteClear(id) then seq(|q|, i requires 0 <= i < |q| => Dropped(q[i]))
    else []
  }

  /** The vector a Dequeue call returns to its caller. */
  function ReturnedBy(s: State, e: Event, id: int): seq<Packet> {
    if e.Unlock? && e.t in s.consumers && s.consumers[e.t].Returning? && s.consumers[e.t].id == id
    then s.consumers[e.t].sent else []
  }

  // ----- the same over a run

  ghost function Accepted(cfg: Config, r: Run, id: int): seq<Packet>
    requires Legal(cfg, r)
  {
    match r
    case Start(_) => []
    case Then(prev, e) => Accepted(cfg, prev, id) + AcceptedBy(cfg, End(cfg, prev), e, id)
  }

  ghost function Removed(cfg: Config, r: Run, id: int): seq<Removal>
    requires Legal(cfg, r)
  {
    match r
    case Start(_) => []
    case Then(prev, e) => Removed(cfg, prev, id) + RemovedBy(End(cfg, prev), e, id)
  }

  ghost function Returned(cfg: Config, r: Run, id: int): seq<Packet>
    requires Legal(cfg, r)
  {
    match r
    case Start(_) => []
    case Then(prev, e) => Returned(cfg, prev, id) + ReturnedBy(End(cfg, prev), e, id)
  }

  /** Taken from the queue by a call that has not returned yet. */
  function InFlight(s: State, id: int): seq<Packet> {
    if s.lock.ByConsumer? && s.lock.t in s.consumers && s.consumers[s.lock.t].id == id
    then SentSoFar(s.consumers[s.lock.t]) else []
  }

  function SentSoFar(pc: Pc): seq<Packet> {
    if pc.Holding? || pc.Discarding? then [] else pc.sent
  }

  // ----- projections of a removal history

  function Packets(rs: seq<Removal>): seq<Packet> {
    if rs == [] then [] else Packets(rs[..|rs| - 1]) + [rs[|rs| - 1].pkt]
  }

  function SentOnly(rs: seq<Removal>): seq<Packet> {
    if rs == [] then [] else
      SentOnly(rs[..|rs| - 1]) + (if rs[|rs| - 1].Sent? then [rs[|rs| - 1].pkt] else [])
  }

  lemma {:induction false} ProjectionsSplit(a: seq<Removal>, b: seq<Removal>)
    ensures Packets(a + b) == Packets(a) + Packets(b)
    ensures SentOnly(a + b) == SentOnly(a) + SentOnly(b)
  {
    if b == [] {
      assert a + b == a;
    } else {
      var m := |b| - 1;
      assert (a + b)[..|a + b| - 1] == a + b[..m];
      ProjectionsSplit(a, b[..m]);
    }
  }

  lemma {:induction false} AllDropped(q: seq<Packet>)
    ensures var rs := seq(|q|, i requires 0 <= i < |q| => Dropped(q[i]));
      Packets(rs) == q && SentOnly(rs) == []
  {
    var rs := seq(|q|, i requires 0 <= i < |q| => Dropped(q[i]));
    if q != [] {
      var m := |q| - 1;
      AllDropped(q[..m]);
      assert rs[..m] == seq(|q[..m]|, i requires 0 <= i < |q[..m]| => Dropped(q[..m][i]));
    }
  }

  // ----- one step

  lemma QueueStep(cfg: Config, s: State, e: Event, id: int)
    requires Enabled(s, e)
    ensures QueueOf(s, id) + AcceptedBy(cfg, s, e, id)
         == Packets(RemovedBy(s, e, id)) + QueueOf(Next(cfg, s, e), id)
  {
    if e == RouteClear(id) {
      AllDropped(QueueOf(s, id));
    }
  }

  lemma FlightPop(cfg: Config, s: State, e: Event, id: int)
    requires LockOk(s) && Enabled(s, e) && e.Pop?
    ensures InFlight(s, id) + SentOnly(RemovedBy(s, e, id)) == InFlight(Next(cfg, s, e), id)
  {
  }

  lemma FlightStep(cfg: Config, s: State, e: Event, id: int)
    requires LockOk(s) && Enabled(s, e)
    ensures InFlight(s, id) + SentOnly(RemovedBy(s, e, id))
         == ReturnedBy(s, e, id) + InFlight(Next(cfg, s, e), id)
  {
    if e.Pop? {
      FlightPop(cfg, s, e, id);
    } else if e == RouteClear(id) {
      AllDropped(QueueOf(s, id));
    }
  }

  // ----- whole runs

  lemma Telescope<T>(start: seq<T>, inn: seq<T>, out: seq<T>, mid: seq<T>, i: seq<T>, o: seq<T>, end: seq<T>)
    requires start + inn == out + mid
    requires mid + i == o + end
    ensures start + (inn + i) == (out + o) + end
  {
    assert start + (inn + i) == (start + inn) + i;
    assert (out + mid) + i == out + (mid + i);
    assert out + (o + end) == (out + o) + end;
  }

  lemma LockOkAlways(cfg: Config, r: Run)
    requires Legal(cfg, r) && Inv(cfg, First(r))
    ensures LockOk(End(cfg, r))
  {
    InvAlways(cfg, r);
  }

  /** First in, first out, nothing lost and nothing made up: what was queued and accepted is
      what was removed, in that order, followed by what is still queued. */
  lemma {:induction false} QueueConserved(cfg: Config, r: Run, id: int)
    requires Legal(cfg, r)
    ensures QueueOf(First(r), id) + Accepted(cfg, r, id)
         == Packets(Removed(cfg, r, id)) + QueueOf(End(cfg, r), id)
  {
    match r
    case Start(_) =>
    case Then(prev, e) =>
      QueueConserved(cfg, prev, id);
      var s := End(cfg, prev);
      QueueStep(cfg, s, e, id);
      ProjectionsSplit(Removed(cfg, prev, id), RemovedBy(s, e, id));
      Telescope(QueueOf(First(r), id), Accepted(cfg, prev, id), Packets(Removed(cfg, prev, id)), QueueOf(s, id),
                AcceptedBy(cfg, s, e, id), Packets(RemovedBy(s, e, id)), QueueOf(End(cfg, r), id));
  }

  /** Every packet sent from the queue is handed back by exactly one Dequeue call, in order. */
  lemma {:induction false} DeliveryConserved(cfg: Config, r: Run, id: int)
    requires Legal(cfg, r) && Inv(cfg, First(r))
    ensures InFlight(First(r), id) + SentOnly(Removed(cfg, r, id))
         == Returned(cfg, r, id) + InFlight(End(cfg, r), id)
  {
    match r
    case Start(_) =>
    case Then(prev, e) =>
      DeliveryConserved(cfg, prev, id);
      LockOkAlways(cfg, prev);
      var s := End(cfg, prev);
      FlightStep(cfg, s, e, id);
      ProjectionsSplit(Removed(cfg, prev, id), RemovedBy(s, e, id));
      Telescope(InFlight(First(r), id), SentOnly(Removed(cfg, prev, id)), Returned(cfg, prev, id), InFlight(s, id),
                SentOnly(RemovedBy(s, e, id)), ReturnedBy(s, e, id), InFlight(End(cfg, r), id));
  }

  lemma {:induction false} NothingDropped(cfg: Config, r: Run, id: int)
    requires Legal(cfg, r) && NeverClears(r, id)
    ensures Packets(Removed(cfg, r, id)) == SentOnly(Removed(cfg, r, id))
  {
    match r
    case Start(_) =>
    case Then(prev, e) =>
      NothingDropped(cfg, prev, id);
      ProjectionsSplit(Removed(cfg, prev, id), RemovedBy(End(cfg, prev), e, id));
  }

  lemma StartsEmpty(cfg: Config, r: Run, id: int)
    requires FromConstructor(cfg, r)
    ensures Inv(cfg, First(r)) && QueueOf(First(r), id) == [] && InFlight(First(r), id) == []
  {
  }

  lemma EmptyStart<T>(accepted: seq<T>, sent: seq<T>, returned: seq<T>, flight: seq<T>, queue: seq<T>)
    requires [] + accepted == sent + queue && [] + sent == returned + flight
    ensures accepted == returned + flight + queue
  {
    assert [] + accepted == accepted && [] + sent == sent;
  }

  /** From construction on, a client whose queue is never cleared gets exactly its accepted
      packets back, in order: those returned, those in flight, those still queued. */
  lemma AcceptedIsReturnedThenQueued(cfg: Config, r: Run, id: int)
    requires FromConstructor(cfg, r) && NeverClears(r, id)
    ensures Accepted(cfg, r, id)
         == Returned(cfg, r, id) + InFlight(End(cfg, r), id) + QueueOf(End(cfg, r), id)
  {
    StartsEmpty(cfg, r, id);
    QueueConserved(cfg, r, id);
    DeliveryConserved(cfg, r, id);
    NothingDropped(cfg, r, id);
    EmptyStart(Accepted(cfg, r, id), SentOnly(Removed(cfg, r, id)), Returned(cfg, r, id),
               InFlight(End(cfg, r), id), QueueOf(End(cfg, r), id));
  }
}
