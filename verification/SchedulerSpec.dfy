/** What one uninterrupted call does to the scheduler's data, as functions on values. */
module SchedulerSpec {
  import opened ActiveIds
  import opened Airtime

  datatype Sched = Sched(queues: map<int, seq<Packet>>, list: seq<int>, stats: map<int, Status>)

  /** Every client starts with an equal share of the round. */
  function InitialStatus(rate: Rate, interval: nat, clients: nat): Status {
    Status(rate, EqualShare(interval, clients), 0.0)
  }

  function Initial(rate: Rate, ids: seq<int>, interval: nat): Sched {
    Sched(map id | id in IdSet(ids) :: [], [], map id | id in IdSet(ids) :: InitialStatus(rate, interval, |ids|))
  }

  lemma InitialByEntry(s: Sched, rate: Rate, ids: seq<int>, interval: nat)
    requires s.queues.Keys == s.stats.Keys == IdSet(ids) && s.list == []
    requires forall id :: id in s.queues ==> s.queues[id] == []
    requires forall id :: id in s.stats ==> s.stats[id] == InitialStatus(rate, interval, |ids|)
    ensures s == Initial(rate, ids, interval)
  {
    var initial := Initial(rate, ids, interval);
    assert initial.queues.Keys == IdSet(ids);
    assert initial.stats.Keys == IdSet(ids);
    forall id | id in s.queues ensures s.queues[id] == initial.queues[id] {
      assert id in IdSet(ids);
    }
    forall id | id in s.stats ensures s.stats[id] == initial.stats[id] {
      assert id in IdSet(ids);
    }
    assert s.queues == initial.queues;
    assert s.stats == initial.stats;
  }

  /** What a constructor leaves behind, field by field. */
  lemma InitialExactly(rate: Rate, ids: seq<int>, interval: nat)
    ensures var s := Initial(rate, ids, interval);
      && (forall id :: id in s.queues <==> id in ids) && (forall id :: id in s.queues ==> s.queues[id] == [])
      && s.list == []
      && (forall id :: id in s.stats <==> id in ids)
      && forall id :: id in s.stats ==>
           && s.stats[id].throughput == rate && s.stats[id].counter == 0.0
           && s.stats[id].quantum == interval as real / |ids| as real
  {
  }

  // ----- the service loop

  datatype Service = Service(sent: seq<Packet>, rest: seq<Packet>, counter: real)

  /** Send head packets while the counter covers them; an emptied queue forfeits what is left. */
  function Serve(q: seq<Packet>, counter: real, rate: Rate): Service {
    if q == [] then Service([], [], 0.0)
    else if counter < Duration(|q[0]|, rate) as real then Service([], q, counter)
    else
      var s := Serve(q[1..], counter - Duration(|q[0]|, rate) as real, rate);
      Service([q[0]] + s.sent, s.rest, s.counter)
  }

  /** A service that has sent some packets already. */
  function After(sent: seq<Packet>, s: Service): Service {
    Service(sent + s.sent, s.rest, s.counter)
  }

  lemma ServeOneMore(sent: seq<Packet>, q: seq<Packet>, counter: real, rate: Rate)
    requires q != [] && Duration(|q[0]|, rate) as real <= counter
    ensures After(sent, Serve(q, counter, rate))
         == After(sent + [q[0]], Serve(q[1..], counter - Duration(|q[0]|, rate) as real, rate))
  {
  }

  /** The price of the first n packets. */
  function Cost(q: seq<Packet>, n: nat, rate: Rate): nat
    requires n <= |q|
  {
    if n == 0 then 0 else Cost(q, n - 1, rate) + Duration(|q[n - 1]|, rate)
  }

  lemma {:induction false} CostOfTail(q: seq<Packet>, n: nat, rate: Rate)
    requires q != [] && n < |q|
    ensures Cost(q, n + 1, rate) == Duration(|q[0]|, rate) + Cost(q[1..], n, rate)
  {
    if n > 0 {
      CostOfTail(q, n - 1, rate);
      assert q[n] == q[1..][n - 1];
    }
  }

  lemma {:induction false} ServeSplitsQueue(q: seq<Packet>, counter: real, rate: Rate)
    ensures var s := Serve(q, counter, rate); q == s.sent + s.rest
  {
    if q != [] && counter >= Duration(|q[0]|, rate) as real {
      ServeSplitsQueue(q[1..], counter - Duration(|q[0]|, rate) as real, rate);
      assert q == [q[0]] + q[1..];
    }
  }

  /** The loop sends exactly the longest affordable prefix: the counter covers what is sent and
      would not cover one packet more. */
  lemma {:induction false} ServeSendsLongestAffordablePrefix(q: seq<Packet>, counter: real, rate: Rate)
    requires counter >= 0.0
    ensures var s := Serve(q, counter, rate);
      && q == s.sent + s.rest
      && Cost(q, |s.sent|, rate) as real <= counter
      && (if s.rest == [] then s.counter == 0.0
          else s.counter == counter - Cost(q, |s.sent|, rate) as real
               && counter < Cost(q, |s.sent| + 1, rate) as real)
  {
    ServeSplitsQueue(q, counter, rate);
    if q != [] {
      var d := Duration(|q[0]|, rate);
      assert Cost(q, 1, rate) == Cost(q, 0, rate) + d;
      if counter >= d as real {
        var s := Serve(q[1..], counter - d as real, rate);
        ServeSendsLongestAffordablePrefix(q[1..], counter - d as real, rate);
        CostOfTail(q, |s.sent|, rate);
        if s.rest != [] {
          CostOfTail(q, |s.sent| + 1, rate);
        }
      }
    }
  }

  // ----- the three calls

  function Enqueue(s: Sched, capacity: nat, pkt: Packet, id: int): Sched
    requires id in s.queues
  {
    if |s.queues[id]| == capacity then s
    else s.(queues := s.queues[id := s.queues[id] + [pkt]], list := AppendId(s.list, id))
  }

  /** A call that finds no known client in the list empties it and goes on waiting. */
  datatype Outcome = Blocked(after: Sched) | Served(after: Sched, id: int, sent: seq<Packet>)

  predicate Closed(s: Sched) {
    && (forall id :: id in s.stats ==> id in s.queues)
    && (forall id :: id in s.list ==> id in s.queues)
  }

  function ServeClient(s: Sched, id: int): Outcome
    requires id in s.stats && id in s.queues
  {
    var st := s.stats[id];
    var service := Serve(s.queues[id], st.counter + st.quantum, st.throughput);
    Served(Sched(s.queues[id := service.rest],
                 if service.rest == [] then s.list else AppendId(s.list, id),
                 s.stats[id := st.(counter := service.counter)]),
           id, service.sent)
  }

  function Dequeue(s: Sched): Outcome
    requires Closed(s)
    decreases |s.list|
  {
    if s.list == [] then Blocked(s)
    else if s.list[0] in s.stats then ServeClient(s.(list := s.list[1..]), s.list[0])
    else Dequeue(s.(list := s.list[1..]))
  }

  /** Serving a client concerns nobody else. */
  lemma ServeClientFrame(s: Sched, id: int)
    requires id in s.stats && id in s.queues
    ensures var o := ServeClient(s, id);
      && o.Served? && o.id == id && o.after.stats.Keys == s.stats.Keys && o.after.queues.Keys == s.queues.Keys
      && (forall k :: k in s.queues && k != id ==> o.after.queues[k] == s.queues[k])
      && (forall k :: k in s.stats && k != id ==> o.after.stats[k] == s.stats[k])
  {
  }

  /** The client itself is sent the longest affordable prefix of its queue. */
  lemma ServeClientExactly(s: Sched, id: int)
    requires id in s.stats && id in s.queues && s.stats[id].counter + s.stats[id].quantum >= 0.0
    ensures var o := ServeClient(s, id);
      && o.Served? && id in o.after.stats && id in o.after.queues
      && s.queues[id] == o.sent + o.after.queues[id]
      && (var st, rest := s.stats[id], o.after.queues[id];
          var cost := Cost(s.queues[id], |o.sent|, st.throughput);
          var left := st.counter + st.quantum - cost as real;
          && left >= 0.0
          && o.after.stats[id].throughput == st.throughput && o.after.stats[id].quantum == st.quantum
          && (rest == [] ==> o.after.stats[id].counter == 0.0 && o.after.list == s.list)
          && (rest != [] ==>
                && left < Duration(|rest[0]|, st.throughput) as real
                && o.after.stats[id].counter == left
                && o.after.list == if id in s.list then s.list else s.list + [id]))
  {
    var st := s.stats[id];
    ServeSendsLongestAffordablePrefix(s.queues[id], st.counter + st.quantum, st.throughput);
  }

  /** Dequeue serves the first known client of the list, at p, and drops the ids in front of it. */
  lemma {:induction false} DequeueExactly(s: Sched, p: nat)
    requires Closed(s) && p <= |s.list| && forall k :: 0 <= k < p ==> s.list[k] !in s.stats
    ensures p == |s.list| ==> Dequeue(s) == Blocked(s.(list := []))
    ensures p < |s.list| && s.list[p] in s.stats ==>
      Dequeue(s) == ServeClient(s.(list := s.list[p + 1..]), s.list[p])
    decreases p
  {
    if p > 0 {
      var rest := s.(list := s.list[1..]);
      DequeueExactly(rest, p - 1);
      assert p < |s.list| ==> rest.list[p - 1] == s.list[p] && rest.list[p..] == s.list[p + 1..];
    } else if p == |s.list| {
      assert s.list == [];
    }
  }

  /** Queues once the clients of a route update are admitted and the others cleared. */
  function QueuesFor(queues: map<int, seq<Packet>>, rates: map<int, Rate>): map<int, seq<Packet>> {
    map id | id in queues.Keys + rates.Keys :: if id in rates && id in queues then queues[id] else []
  }

  ghost function ComputeQuantum(s: Sched, rates: map<int, Rate>, mode: FairnessMode, round: nat): Sched {
    var quanta := Quanta(mode, rates, round);
    Sched(QueuesFor(s.queues, rates), s.list, map id | id in rates :: Status(rates[id], quanta[id], 0.0))
  }

  /** What a route update changes and what it leaves, field by field. */
  lemma UpdateExactly(s: Sched, rates: map<int, Rate>, mode: FairnessMode, round: nat)
    ensures var n := ComputeQuantum(s, rates, mode, round);
      && n.list == s.list
      && n.queues.Keys == s.queues.Keys + rates.Keys
      && (forall id :: id in n.queues ==> n.queues[id] == if id in s.queues && id in rates then s.queues[id] else [])
      && n.stats.Keys == rates.Keys
      && forall id :: id in rates ==>
           && n.stats[id].throughput == rates[id] && n.stats[id].counter == 0.0
           && n.stats[id].quantum == Quanta(mode, rates, round)[id]
  {
  }

  lemma QueuesForByEntry(before: map<int, seq<Packet>>, after: map<int, seq<Packet>>, rates: map<int, Rate>)
    requires after.Keys == before.Keys + rates.Keys
    requires forall id :: id in after ==> after[id] == if id in rates && id in before then before[id] else []
    ensures after == QueuesFor(before, rates)
  {
    var expected := QueuesFor(before, rates);
    assert expected.Keys == after.Keys;
    assert forall id :: id in after ==> after[id] == expected[id];
  }

  // ----- quanta, client by client

  /** The weights of the clients listed. */
  function Listed(w: map<int, real>, ids: seq<int>): map<int, real> {
    map id | id in IdSet(ids) && id in w :: w[id]
  }

  lemma SumOneMore(w: map<int, real>, ids: seq<int>, i: nat)
    requires Distinct(ids) && IdSet(ids) == w.Keys && i < |ids|
    ensures ids[i] in w && Sum(Listed(w, ids[..i + 1])) == Sum(Listed(w, ids[..i])) + w[ids[i]]
  {
    ListedOneMore(w, ids, i);
    SumTake(Listed(w, ids[..i + 1]), ids[i]);
  }

  lemma ListedOneMore(w: map<int, real>, ids: seq<int>, i: nat)
    requires Distinct(ids) && IdSet(ids) == w.Keys && i < |ids|
    ensures ids[i] in Listed(w, ids[..i + 1])
    ensures Listed(w, ids[..i + 1]) - {ids[i]} == Listed(w, ids[..i])
  {
  }

  lemma SumAll(w: map<int, real>, ids: seq<int>)
    requires IdSet(ids) == w.Keys
    ensures Listed(w, ids[..|ids|]) == w
  {
  }

  /** The values added up from the first to the last. */
  ghost function Total(values: seq<real>): real {
    if values == [] then 0.0 else Total(values[..|values| - 1]) + values[|values| - 1]
  }

  lemma {:induction false} TotalIsSum(w: map<int, real>, ids: seq<int>, values: seq<real>, n: nat)
    requires Distinct(ids) && IdSet(ids) == w.Keys && |values| == |ids| && n <= |ids|
    requires forall i :: 0 <= i < |ids| ==> ids[i] in w && values[i] == w[ids[i]]
    ensures Total(values[..n]) == Sum(Listed(w, ids[..n]))
  {
    if n > 0 {
      TotalIsSum(w, ids, values, n - 1);
      SumOneMore(w, ids, n - 1);
      assert values[..n][..n - 1] == values[..n - 1];
    }
  }

  /** Statuses while quanta are being filled in: only the clients in done have theirs. */
  function Filled(rates: map<int, Rate>, quanta: map<int, real>, done: set<int>): map<int, Status>
    requires quanta.Keys == rates.Keys
  {
    map id | id in rates :: Status(rates[id], if id in done then quanta[id] else 0.0, 0.0)
  }

  /** Statuses of the clients admitted so far, all but those still to do. */
  function Admitted(rates: map<int, Rate>, todo: set<int>): map<int, Status> {
    map id | id in rates && id !in todo :: Status(rates[id], 0.0, 0.0)
  }

  lemma AdmitOneMore(rates: map<int, Rate>, todo: set<int>, id: int)
    requires id in rates && id in todo
    ensures Admitted(rates, todo - {id}) == Admitted(rates, todo)[id := Status(rates[id], 0.0, 0.0)]
  {
  }

  lemma FillAll(rates: map<int, Rate>, quanta: map<int, real>)
    requires quanta.Keys == rates.Keys
    ensures Filled(rates, quanta, rates.Keys) == map id | id in rates :: Status(rates[id], quanta[id], 0.0)
  {
  }

  lemma FillNone(rates: map<int, Rate>, quanta: map<int, real>, ids: seq<int>)
    requires quanta.Keys == rates.Keys
    ensures Filled(rates, quanta, IdSet(ids[..0])) == Admitted(rates, {})
  {
  }

  lemma FillOneMore(rates: map<int, Rate>, quanta: map<int, real>, ids: seq<int>, i: nat)
    requires quanta.Keys == rates.Keys == IdSet(ids) && i < |ids|
    ensures ids[i] in rates
    ensures var before := Filled(rates, quanta, IdSet(ids[..i]));
      Filled(rates, quanta, IdSet(ids[..i + 1])) == before[ids[i] := before[ids[i]].(quantum := quanta[ids[i]])]
  {
  }

  lemma EqualTimeQuanta(rates: map<int, Rate>, ids: seq<int>, round: nat)
    requires Distinct(ids) && IdSet(ids) == rates.Keys
    ensures forall id :: id in rates ==> Quanta(EqualTime, rates, round)[id] == EqualShare(round, |ids|)
  {
    CountDistinct(ids);
    assert |rates.Keys| == |rates|;
    forall id | id in rates ensures Quanta(EqualTime, rates, round)[id] == EqualShare(round, |ids|) {
      EqualTimeLaw(rates, round, id);
    }
  }
}
