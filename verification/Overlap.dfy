/** Why the fairness results ask that Dequeue calls do not overlap: two runs of two consumers in which
    one backlogged client gets ahead of another by any number of services. */
module Overlap {
  import opened ActiveIds
  import opened Airtime
  import opened Threads
  import opened ThreadSafety
  import opened Ledger
  import opened Fairness

  /** Room for one packet a client, and a round of two microseconds. */
  const SCENE := Config(1, 2)

  /** Two equal clients, each with the same packet of one microsecond queued and no deficit. */
  function Scene(pkt: Packet, list: seq<int>, producers: map<nat, int>, consumers: map<nat, Pc>): State {
    var st := Status(8.0, 1.0, 0.0);
    State(map[1 := [pkt], 2 := [pkt]], list, map[1 := st, 2 := st], Free, producers, consumers, Away)
  }

  lemma OneMicrosecond()
    ensures Duration(1, 8.0) == 1
  {
  }

  /** Consumers that wait for the lock, in the order in which they took their ids off the list. */
  function Waiters(r: Run): seq<nat> {
    match r
    case Start(_) => []
    case Then(prev, Remove(t)) => Waiters(prev) + [t]
    case Then(prev, Lock(t)) => Drop(Waiters(prev), t)
    case Then(prev, _) => Waiters(prev)
  }

  function Drop(ts: seq<nat>, t: nat): seq<nat> {
    if ts == [] then [] else if ts[0] == t then ts[1..] else [ts[0]] + Drop(ts[1..], t)
  }

  /** The lock goes to whoever has waited longest. */
  predicate InRemovalOrder(r: Run) {
    r.Then? ==> InRemovalOrder(r.prev) && (r.e.Lock? ==> Waiters(r.prev) != [] && Waiters(r.prev)[0] == r.e.t)
  }

  /** A run without route updates that never finds a queue of the two clients empty. */
  ghost predicate Busy(r: Run) {
    && Legal(SCENE, r) && NoRouteUpdate(r)
    && NeverSeenEmpty(SCENE, r, 1) && NeverSeenEmpty(SCENE, r, 2)
  }

  /** n goes on from r, with so many services for either client. */
  ghost predicate GoesOn(r: Run, n: Run, one: nat, two: nat) {
    && Busy(r) && Busy(n) && First(n) == First(r)
    && Services(SCENE, n, 1) == Services(SCENE, r, 1) + one
    && Services(SCENE, n, 2) == Services(SCENE, r, 2) + two
  }

  /** A step that serves nobody. */
  lemma Quietly(r: Run, e: Event) returns (n: Run)
    requires Busy(r) && Enabled(End(SCENE, r), e) && !e.Lock? && !e.RouteLock?
    requires !SeesEmpty(End(SCENE, r), e, 1) && !SeesEmpty(End(SCENE, r), e, 2)
    ensures n == Then(r, e) && GoesOn(r, n, 0, 0) && End(SCENE, n) == Next(SCENE, End(SCENE, r), e)
    ensures InRemovalOrder(r) ==> InRemovalOrder(n)
    ensures Waiters(n) == Waiters(r) + (if e.Remove? then [e.t] else [])
  {
    n := Then(r, e);
  }

  /** Consumer t takes the first id off the list and now waits for the lock. */
  lemma Take(r: Run, t: nat, pkt: Packet, list: seq<int>, producers: map<nat, int>, consumers: map<nat, Pc>)
      returns (n: Run)
    requires Busy(r) && End(SCENE, r) == Scene(pkt, list, producers, consumers)
    requires list != [] && t !in consumers
    ensures GoesOn(r, n, 0, 0) && Waiters(n) == Waiters(r) + [t] && (InRemovalOrder(r) ==> InRemovalOrder(n))
    ensures End(SCENE, n) == Scene(pkt, list[1..], producers, consumers[t := Holding(list[0])])
  {
    n := Quietly(r, Remove(t));
  }

  /** The producer's Append after a push. */
  lemma Settle(r: Run, pkt: Packet, list: seq<int>, id: int, consumers: map<nat, Pc>) returns (n: Run)
    requires Busy(r) && End(SCENE, r) == Scene(pkt, list, map[0 := id], consumers)
    ensures GoesOn(r, n, 0, 0) && Waiters(n) == Waiters(r) && (InRemovalOrder(r) ==> InRemovalOrder(n))
    ensures End(SCENE, n) == Scene(pkt, AppendId(list, id), map[], consumers)
  {
    n := Quietly(r, ProducerAppend(0));
    assert map[0 := id] - {0} == map[];
  }

  /** The state after the lock is taken and the quantum credited. */
  function Locked(pkt: Packet, list: seq<int>, t: nat, id: int, consumers: map<nat, Pc>): State {
    var s := Scene(pkt, list, map[], consumers);
    s.(lock := ByConsumer(t), stats := s.stats[id := Status(8.0, 1.0, 1.0)],
       consumers := consumers[t := Peeking(id, [])])
  }

  /** The state after one packet is sent. */
  function Sent(pkt: Packet, list: seq<int>, t: nat, id: int, consumers: map<nat, Pc>): State {
    var s := Scene(pkt, list, map[], consumers);
    s.(lock := ByConsumer(t), queues := s.queues[id := []], consumers := consumers[t := Peeking(id, [pkt])])
  }

  lemma LockCredits(pkt: Packet, list: seq<int>, t: nat, id: int, consumers: map<nat, Pc>)
    requires (id == 1 || id == 2) && t in consumers && consumers[t] == Holding(id)
    ensures Next(SCENE, Scene(pkt, list, map[], consumers), Lock(t)) == Locked(pkt, list, t, id, consumers)
  {
  }

  lemma CreditPays(pkt: Packet, list: seq<int>, t: nat, id: int, consumers: map<nat, Pc>)
    requires (id == 1 || id == 2) && t in consumers && |pkt| == 1
    ensures var s := Locked(pkt, list, t, id, consumers);
      Enabled(Next(SCENE, s, Peek(t)), Pop(t))
      && Next(SCENE, Next(SCENE, s, Peek(t)), Pop(t)) == Sent(pkt, list, t, id, consumers)
  {
    OneMicrosecond();
    assert [pkt][1..] == [] && [] + [pkt] == [pkt];
    var s, n := Scene(pkt, list, map[], consumers), Locked(pkt, list, t, id, consumers);
    assert Next(SCENE, Next(SCENE, n, Peek(t)), Pop(t)).stats == s.stats;
  }

  /** Taking the lock, and sending the packet that the quantum pays for. */
  lemma SendOne(r: Run, t: nat, id: int, pkt: Packet, list: seq<int>, consumers: map<nat, Pc>) returns (n: Run)
    requires Busy(r) && End(SCENE, r) == Scene(pkt, list, map[], consumers) && |pkt| == 1
    requires (id == 1 || id == 2) && t in consumers && consumers[t] == Holding(id)
    ensures GoesOn(r, n, if id == 1 then 1 else 0, if id == 2 then 1 else 0)
    ensures Waiters(n) == Drop(Waiters(r), t)
    ensures InRemovalOrder(r) && Waiters(r) != [] && Waiters(r)[0] == t ==> InRemovalOrder(n)
    ensures End(SCENE, n) == Sent(pkt, list, t, id, consumers)
  {
    LockCredits(pkt, list, t, id, consumers);
    CreditPays(pkt, list, t, id, consumers);
    var r1 := Then(r, Lock(t));
    assert GoesOn(r, r1, if id == 1 then 1 else 0, if id == 2 then 1 else 0);
    var r2 := Quietly(r1, Peek(t));
    n := Quietly(r2, Pop(t));
  }

  /** The state with a new packet that no longer can be paid for. */
  function Refilled(pkt: Packet, list: seq<int>, t: nat, id: int, consumers: map<nat, Pc>): State {
    Scene(pkt, list, map[0 := id], consumers[t := Peeking(id, [pkt])]).(lock := ByConsumer(t))
  }

  lemma PushRefills(pkt: Packet, list: seq<int>, t: nat, id: int, consumers: map<nat, Pc>)
    requires (id == 1 || id == 2) && |pkt| == 1
    ensures Next(SCENE, Sent(pkt, list, t, id, consumers), Push(0, id, pkt)) == Refilled(pkt, list, t, id, consumers)
  {
    assert [] + [pkt] == [pkt];
    assert map[1 := [pkt], 2 := [pkt]][id := []][id := [pkt]] == map[1 := [pkt], 2 := [pkt]];
  }

  lemma TooDearGoesBack(pkt: Packet, list: seq<int>, t: nat, id: int, consumers: map<nat, Pc>)
    requires (id == 1 || id == 2) && t in consumers && |pkt| == 1
    ensures var s := Next(SCENE, Refilled(pkt, list, t, id, consumers), Peek(t));
      Enabled(s, ConsumerAppend(t)) && Enabled(Next(SCENE, s, ConsumerAppend(t)), Unlock(t))
      && Next(SCENE, Next(SCENE, s, ConsumerAppend(t)), Unlock(t))
         == Scene(pkt, AppendId(list, id), map[0 := id], consumers - {t})
  {
    OneMicrosecond();
  }

  /** A new packet arrives in time, so the call finds one too dear and puts the client back. */
  lemma PutBack(r: Run, t: nat, id: int, pkt: Packet, list: seq<int>, consumers: map<nat, Pc>) returns (n: Run)
    requires Busy(r) && End(SCENE, r) == Sent(pkt, list, t, id, consumers) && |pkt| == 1
    requires (id == 1 || id == 2) && t in consumers
    ensures GoesOn(r, n, 0, 0) && Waiters(n) == Waiters(r) && (InRemovalOrder(r) ==> InRemovalOrder(n))
    ensures End(SCENE, n) == Scene(pkt, AppendId(list, id), map[0 := id], consumers - {t})
  {
    PushRefills(pkt, list, t, id, consumers);
    TooDearGoesBack(pkt, list, t, id, consumers);
    n := Quietly(r, Push(0, id, pkt));
    n := Quietly(n, Peek(t));
    n := Quietly(n, ConsumerAppend(t));
    n := Quietly(n, Unlock(t));
  }

  /** One service, from waiting for the lock to returning; the Append of the new packet is pending. */
  lemma Service(r: Run, t: nat, id: int, pkt: Packet, list: seq<int>, consumers: map<nat, Pc>) returns (n: Run)
    requires Busy(r) && End(SCENE, r) == Scene(pkt, list, map[], consumers) && |pkt| == 1
    requires (id == 1 || id == 2) && t in consumers && consumers[t] == Holding(id)
    ensures GoesOn(r, n, if id == 1 then 1 else 0, if id == 2 then 1 else 0)
    ensures Waiters(n) == Drop(Waiters(r), t)
    ensures InRemovalOrder(r) && Waiters(r) != [] && Waiters(r)[0] == t ==> InRemovalOrder(n)
    ensures End(SCENE, n) == Scene(pkt, AppendId(list, id), map[0 := id], consumers - {t})
  {
    n := SendOne(r, t, id, pkt, list, consumers);
    n := PutBack(n, t, id, pkt, list, consumers);
  }

  /** An Enqueue for a client whose queue is empty. */
  lemma Offer(r: Run, id: int, pkt: Packet) returns (n: Run)
    requires Legal(SCENE, r) && id in End(SCENE, r).queues && |pkt| == 1
    requires End(SCENE, r).queues[id] == [] && End(SCENE, r).producers == map[]
    ensures Legal(SCENE, n) && First(n) == First(r)
    ensures var s := End(SCENE, r);
      End(SCENE, n) == s.(queues := s.queues[id := [pkt]], list := AppendId(s.list, id))
  {
    assert [] + [pkt] == [pkt];
    n := Do(SCENE, r, Push(0, id, pkt));
    n := Do(SCENE, n, ProducerAppend(0));
    assert End(SCENE, n).producers == map[];
  }

  /** The scene before anything is queued. */
  function Unoffered(): State {
    var st := Status(8.0, 1.0, 0.0);
    State(map[1 := [], 2 := []], [], map[1 := st, 2 := st], Free, map[], map[], Away)
  }

  lemma InitialScene()
    ensures Initial(SCENE, 8.0, [1, 2]) == Unoffered()
  {
    var s := Initial(SCENE, 8.0, [1, 2]);
    assert s.queues == Unoffered().queues;
    assert s.stats == Unoffered().stats;
  }

  lemma OffersMakeTheScene(pkt: Packet)
    ensures Unoffered().queues[1 := [pkt]][2 := [pkt]] == Scene(pkt, [], map[], map[]).queues
    ensures AppendId(AppendId([], 1), 2) == [1, 2]
  {
  }

  /** A fresh scheduler, one packet pushed for either client. */
  lemma Opening(pkt: Packet) returns (past: Run)
    requires |pkt| == 1
    ensures FromConstructor(SCENE, past) && End(SCENE, past) == Scene(pkt, [1, 2], map[], map[])
  {
    InitialScene();
    OffersMakeTheScene(pkt);
    past := Start(Unoffered());
    past := Offer(past, 1, pkt);
    past := Offer(past, 2, pkt);
    assert First(past) == Initial(SCENE, 8.0, [1, 2]);
  }

  // ----- a consumer that stalls

  /** Consumer 0 has taken client 1 and stalls; consumer 1 goes on serving client 2. */
  lemma {:induction false} Rounds(r: Run, pkt: Packet, m: nat) returns (n: Run)
    requires Busy(r) && End(SCENE, r) == Scene(pkt, [2], map[], map[0 := Holding(1)]) && |pkt| == 1
    ensures GoesOn(r, n, 0, m)
    ensures End(SCENE, n) == Scene(pkt, [2], map[], map[0 := Holding(1)])
    decreases m
  {
    n := r;
    if m > 0 {
      var stalled, both := map[0 := Holding(1)], map[0 := Holding(1), 1 := Holding(2)];
      n := Take(n, 1, pkt, [2], map[], stalled);
      assert stalled[1 := Holding(2)] == both && both - {1} == stalled;
      n := Service(n, 1, 2, pkt, [], both);
      n := Settle(n, pkt, [2], 2, stalled);
      n := Rounds(n, pkt, m - 1);
    }
  }

  /** With overlapping calls no bound holds: while one consumer stalls between taking client 1 off the
      list and taking the lock, client 2 gets any number m of services and client 1 none. */
  lemma StalledConsumerStarves(pkt: Packet, m: nat) returns (past: Run, r: Run)
    requires |pkt| == 1
    ensures Continues(SCENE, past, r) && BothBacklogged(SCENE, r, 1, 2)
    ensures Services(SCENE, r, 1) == 0 && Services(SCENE, r, 2) == m
  {
    past := Opening(pkt);
    var start := Start(End(SCENE, past));
    r := Take(start, 0, pkt, [1, 2], map[], map[]);
    assert [1, 2][1..] == [2];
    r := Rounds(r, pkt, m);
  }

  // ----- a lock granted in order

  /** Both clients are in hand, a is next to get the lock, and an Append of client 2 is pending. */
  ghost predicate Crossed(r: Run, pkt: Packet, a: nat, b: nat) {
    && Busy(r) && InRemovalOrder(r) && Waiters(r) == [a, b] && a != b && |pkt| == 1
    && End(SCENE, r) == Scene(pkt, [], map[0 := 2], map[a := Holding(1), b := Holding(2)])
  }

  /** The pending Append lists client 2 once more while it is in hand; so both consumers come to hold it
      and it is served twice before client 1's next turn. */
  lemma CrossOnce(r: Run, pkt: Packet, a: nat, b: nat) returns (n: Run)
    requires Crossed(r, pkt, a, b)
    ensures GoesOn(r, n, 1, 2) && Crossed(n, pkt, b, a)
  {
    var one, two := Holding(1), Holding(2);
    var ab := map[a := one, b := two];
    n := Settle(r, pkt, [], 2, ab);
    n := Service(n, a, 1, pkt, [2], ab);
    assert ab - {a} == map[b := two];
    n := Settle(n, pkt, [2, 1], 1, map[b := two]);
    n := Take(n, a, pkt, [2, 1], map[], map[b := two]);
    assert [2, 1][1..] == [1];
    n := BothHoldTwo(n, pkt, a, b);
  }

  /** The second half of that cycle. */
  lemma BothHoldTwo(r: Run, pkt: Packet, a: nat, b: nat) returns (n: Run)
    requires Busy(r) && InRemovalOrder(r) && Waiters(r) == [b, a] && a != b && |pkt| == 1
    requires End(SCENE, r) == Scene(pkt, [1], map[], map[b := Holding(2)][a := Holding(2)])
    ensures GoesOn(r, n, 0, 2) && Crossed(n, pkt, b, a)
  {
    var one, two := Holding(1), Holding(2);
    n := Service(r, b, 2, pkt, [1], map[b := two][a := two]);
    assert map[b := two][a := two] - {b} == map[a := two];
    n := Settle(n, pkt, [1, 2], 2, map[a := two]);
    n := Take(n, b, pkt, [1, 2], map[], map[a := two]);
    assert [1, 2][1..] == [2];
    n := Service(n, a, 2, pkt, [2], map[a := two][b := one]);
    assert map[a := two][b := one] - {a} == map[b := one];
    n := Take(n, a, pkt, [2], map[0 := 2], map[b := one]);
    assert map[b := one][a := two] == map[b := one, a := two];
  }

  lemma {:induction false} CrossOften(r: Run, pkt: Packet, a: nat, b: nat, m: nat) returns (n: Run)
    requires Crossed(r, pkt, a, b)
    ensures GoesOn(r, n, m, 2 * m) && InRemovalOrder(n)
    decreases m
  {
    n := r;
    if m > 0 {
      n := CrossOnce(n, pkt, a, b);
      n := CrossOften(n, pkt, b, a, m - 1);
    }
  }

  /** Each client has been served once; the Append of client 2 is pending. */
  lemma OneTurnEach(r: Run, pkt: Packet) returns (n: Run)
    requires Busy(r) && InRemovalOrder(r) && Waiters(r) == [] && |pkt| == 1
    requires End(SCENE, r) == Scene(pkt, [1, 2], map[], map[])
    ensures GoesOn(r, n, 1, 1) && InRemovalOrder(n) && Waiters(n) == []
    ensures End(SCENE, n) == Scene(pkt, [1, 2], map[0 := 2], map[])
  {
    var none: map<nat, Pc> := map[];
    n := Turn(r, 1, pkt, [2]);
    n := Settle(n, pkt, [2, 1], 1, none);
    n := Turn(n, 2, pkt, [1]);
  }

  /** Consumer 0 alone serves the first client of the list. */
  lemma Turn(r: Run, id: int, pkt: Packet, list: seq<int>) returns (n: Run)
    requires Busy(r) && InRemovalOrder(r) && Waiters(r) == [] && |pkt| == 1 && (id == 1 || id == 2)
    requires End(SCENE, r) == Scene(pkt, [id] + list, map[], map[])
    ensures GoesOn(r, n, if id == 1 then 1 else 0, if id == 2 then 1 else 0) && InRemovalOrder(n) && Waiters(n) == []
    ensures End(SCENE, n) == Scene(pkt, AppendId(list, id), map[0 := id], map[])
  {
    var none: map<nat, Pc> := map[];
    var all := [id] + list;
    assert all[1..] == list;
    n := Take(r, 0, pkt, all, map[], none);
    n := Service(n, 0, id, pkt, list, none[0 := Holding(id)]);
    assert none[0 := Holding(id)] - {0} == none;
  }

  /** How the two consumers come to cross. */
  lemma FirstCrossing(r: Run, pkt: Packet) returns (n: Run)
    requires Busy(r) && InRemovalOrder(r) && Waiters(r) == [] && |pkt| == 1
    requires End(SCENE, r) == Scene(pkt, [1, 2], map[], map[])
    ensures GoesOn(r, n, 1, 1) && Crossed(n, pkt, 0, 1)
  {
    var none: map<nat, Pc> := map[];
    n := OneTurnEach(r, pkt);
    n := Take(n, 0, pkt, [1, 2], map[0 := 2], none);
    n := Take(n, 1, pkt, [2], map[0 := 2], none[0 := Holding(1)]);
    assert none[0 := Holding(1)][1 := Holding(2)] == map[0 := Holding(1), 1 := Holding(2)];
  }

  /** Nor does a lock that goes to whoever has waited longest: nobody stalls, and client 2 still gets
      ahead by any number m of services. */
  lemma LockOrderDoesNotHelp(pkt: Packet, m: nat) returns (past: Run, r: Run)
    requires |pkt| == 1
    ensures Continues(SCENE, past, r) && BothBacklogged(SCENE, r, 1, 2) && InRemovalOrder(r)
    ensures Services(SCENE, r, 2) - Services(SCENE, r, 1) == m
  {
    past := Opening(pkt);
    r := Start(End(SCENE, past));
    r := FirstCrossing(r, pkt);
    r := CrossOften(r, pkt, 0, 1, m);
  }
}
