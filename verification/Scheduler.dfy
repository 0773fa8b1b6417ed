/** The scheduler's classes, as one caller at a time uses them. */
module Scheduler {
  import opened ActiveIds
  import opened Airtime
  import Spec = SchedulerSpec

  datatype PushResult = Queued | Full | InvalidLength

  class PktQueue {
    const kMaxSize: nat
    var q: seq<Packet>

    predicate Valid()
      reads this
    {
      |q| <= kMaxSize && forall k :: 0 <= k < |q| ==> q[k] != []
    }

    constructor (maxSize: nat)
      ensures Valid() && q == [] && kMaxSize == maxSize
    {
      kMaxSize := maxSize;
      q := [];
    }

    /** An empty packet makes the program exit; the queue is left as it was. */
    method Enqueue(pkt: Packet) returns (r: PushResult)
      requires Valid() && |pkt| <= MAX_LEN
      modifies this
      ensures Valid()
      ensures r == if pkt == [] then InvalidLength else if old(|q|) == kMaxSize then Full else Queued
      ensures q == if r == Queued then old(q) + [pkt] else old(q)
    {
      if |pkt| <= 0 {
        return InvalidLength;
      }
      if |q| == kMaxSize {
        r := Full;
      } else {
        q := q + [pkt];
        r := Queued;
      }
    }

    /** Asserts that the queue is not empty. */
    method Dequeue() returns (pkt: Packet)
      requires Valid() && q != []
      modifies this
      ensures Valid() && [pkt] + q == old(q)
    {
      pkt := q[0];
      q := q[1..];
    }

    method PeekTopPktSize() returns (len: nat)
      requires Valid()
      ensures len == 0 <==> q == []
      ensures q != [] ==> len == |q[0]|
    {
      len := 0;
      if q != [] {
        len := |q[0]|;
      }
    }

    method Clear()
      modifies this
      ensures q == []
    {
      while q != []
      {
        q := q[1..];
      }
    }
  }

  class ActiveList {
    var ids: seq<int>
    var exist: set<int>

    ghost predicate Valid()
      reads this
    {
      Distinct(ids) && forall id :: id in exist <==> id in ids
    }

    constructor ()
      ensures Valid() && ids == []
    {
      ids := [];
      exist := {};
    }

    method Append(id: int)
      requires Valid()
      modifies this
      ensures Valid() && ids == AppendId(old(ids), id)
    {
      if id !in exist {
        ids := ids + [id];
        exist := exist + {id};
      }
    }

    /** Waits while the list is empty, so a lone caller must not call it then. */
    method Remove() returns (id: int)
      requires Valid() && ids != []
      modifies this
      ensures Valid() && [id] + ids == old(ids) && id !in ids
    {
      id := ids[0];
      ids := ids[1..];
      exist := exist - {id};
    }
  }

  class PktScheduler {
    var clientIds: seq<int>
    const pktQueueSize: nat
    var queues: map<int, PktQueue>
    var stats: map<int, Status>
    const activeList: ActiveList
    const roundInterval: nat
    var fairnessMode: FairnessMode

    ghost predicate Valid()
      reads this, activeList, queues.Values
    {
      && activeList.Valid()
      && (forall id :: id in queues ==> queues[id].Valid() && queues[id].kMaxSize == pktQueueSize)
      && (forall i, j :: i in queues && j in queues && i != j ==> queues[i] != queues[j])
      && (forall id :: id in stats ==> id in queues)
      && (forall id :: id in activeList.ids ==> id in queues)
    }

    /** The scheduler's data as a value. */
    ghost function Contents(): Spec.Sched
      reads this, activeList, queues.Values
    {
      Spec.Sched(map id | id in queues :: queues[id].q, activeList.ids, stats)
    }

    constructor (minThroughput: Rate, ids: seq<int>, queueSize: nat, interval: nat, mode: FairnessMode)
      ensures Valid() && fresh(activeList) && fresh(queues.Values)
      ensures pktQueueSize == queueSize && roundInterval == interval && fairnessMode == mode && clientIds == ids
      ensures Contents() == Spec.Initial(minThroughput, ids, interval)
      ensures queues.Keys == stats.Keys == IdSet(ids) && activeList.ids == []
      ensures forall id :: id in ids ==>
        && queues[id].q == [] && stats[id].throughput == minThroughput && stats[id].counter == 0.0
        && stats[id].quantum == interval as real / |ids| as real
    {
      clientIds := ids;
      pktQueueSize := queueSize;
      roundInterval := interval;
      fairnessMode := mode;
      activeList := new ActiveList();
      queues := map[];
      stats := map[];
      new;
      CreateClients(minThroughput);
      ConstructedByField(minThroughput);
    }

    lemma ConstructedByField(rate: Rate)
      requires Contents() == Spec.Initial(rate, clientIds, roundInterval)
      ensures queues.Keys == stats.Keys == IdSet(clientIds) && activeList.ids == []
      ensures forall id :: id in clientIds ==>
        && queues[id].q == [] && stats[id].throughput == rate && stats[id].counter == 0.0
        && stats[id].quantum == roundInterval as real / |clientIds| as real
    {
      Spec.InitialExactly(rate, clientIds, roundInterval);
      var s := Contents();
      assert s.queues.Keys == queues.Keys;
      assert forall id :: id in queues ==> s.queues[id] == queues[id].q;
    }

    method CreateClients(rate: Rate)
      requires Valid() && activeList.ids == [] && queues == map[] && stats == map[]
      modifies this`queues, this`stats
      ensures Valid() && fresh(queues.Values)
      ensures Contents() == Spec.Initial(rate, clientIds, roundInterval)
    {
      var status := Spec.InitialStatus(rate, roundInterval, |clientIds|);
      for i := 0 to |clientIds|
        invariant Valid() && fresh(queues.Values)
        invariant queues.Keys == stats.Keys == IdSet(clientIds[..i])
        invariant forall id :: id in queues ==> queues[id].q == [] && stats[id] == status
      {
        AddQueue(clientIds[i]);
        stats := stats[clientIds[i] := status];
        assert clientIds[..i + 1] == clientIds[..i] + [clientIds[i]];
        assert IdSet(clientIds[..i + 1]) == IdSet(clientIds[..i]) + {clientIds[i]};
      }
      assert clientIds[..|clientIds|] == clientIds;
      Spec.InitialByEntry(Contents(), rate, clientIds, roundInterval);
    }

    /** queues_[id] = new PktQueue(pkt_queue_size_) */
    method AddQueue(id: int)
      requires Valid()
      modifies this`queues
      ensures Valid() && id in queues && fresh(queues[id]) && queues[id].q == []
      ensures queues == old(queues)[id := queues[id]]
      ensures queues.Values <= old(queues.Values) + {queues[id]}
    {
      var q := new PktQueue(pktQueueSize);
      assert q !in queues.Values;
      queues := queues[id := q];
    }

    method Enqueue(pkt: Packet, id: int) returns (r: PushResult)
      requires Valid() && id in queues && |pkt| <= MAX_LEN
      modifies activeList, queues.Values
      ensures Valid()
      ensures r == if pkt == [] then InvalidLength else if old(|queues[id].q|) == pktQueueSize then Full else Queued
      ensures queues[id].q == if r == Queued then old(queues[id].q) + [pkt] else old(queues[id].q)
      ensures r != Queued || id in old(activeList.ids) ==> activeList.ids == old(activeList.ids)
      ensures r == Queued && id !in old(activeList.ids) ==> activeList.ids == old(activeList.ids) + [id]
      ensures forall k :: k in queues && k != id ==> queues[k].q == old(queues[k].q)
      ensures Contents() == if r == InvalidLength then old(Contents())
                            else Spec.Enqueue(old(Contents()), pktQueueSize, pkt, id)
    {
      r := queues[id].Enqueue(pkt);
      if r == Queued {
        activeList.Append(id);
      }
      OnlyQueueChanged(id);
    }

    /** Remove ids until one is known. A lone caller would wait for ever on an empty list, so
        that case ends the call here. */
    method TakeKnownClient() returns (found: bool, id: int)
      requires Valid()
      modifies activeList
      ensures Valid() && found ==> id in stats
      ensures Valid() && Spec.Closed(old(Contents()))
      ensures Spec.Dequeue(old(Contents())) ==
              if found then Spec.ServeClient(Contents(), id) else Spec.Blocked(Contents())
    {
      id := 0;
      while activeList.ids != []
        invariant Valid() && Spec.Dequeue(old(Contents())) == Spec.Dequeue(Contents())
        decreases |activeList.ids|
      {
        ghost var before := Contents();
        id := activeList.Remove();
        assert Contents() == before.(list := before.list[1..]);
        if id in stats {
          return true, id;
        }
      }
      return false, id;
    }

    /** The service loop: len is the last size peeked. */
    method SendAffordable(id: int) returns (pkts: seq<Packet>, len: nat)
      requires Valid() && id in stats
      modifies this`stats, queues[id]
      ensures Valid()
      ensures id in stats && stats == old(stats)[id := old(stats[id]).(counter := stats[id].counter)]
      ensures len == 0 <==> queues[id].q == []
      ensures Spec.Serve(old(queues[id].q), old(stats[id].counter), old(stats[id].throughput))
           == Spec.Service(pkts, queues[id].q, if len == 0 then 0.0 else stats[id].counter)
    {
      var queue, rate := queues[id], stats[id].throughput;
      ghost var all := Spec.Serve(queue.q, stats[id].counter, rate);
      pkts := [];
      len := queue.PeekTopPktSize();
      while len > 0
        invariant queue.Valid() && id in stats
        invariant stats == old(stats)[id := old(stats[id]).(counter := stats[id].counter)]
        invariant len == if queue.q == [] then 0 else |queue.q[0]|
        invariant all == Spec.After(pkts, Spec.Serve(queue.q, stats[id].counter, rate))
        decreases |queue.q|
      {
        var duration := Duration(len, rate) as real;
        if stats[id].counter < duration {
          break;
        }
        Spec.ServeOneMore(pkts, queue.q, stats[id].counter, rate);
        var pkt := queue.Dequeue();
        assert queue.q == ([pkt] + queue.q)[1..];
        pkts := pkts + [pkt];
        stats := stats[id := stats[id].(counter := stats[id].counter - duration)];
        len := queue.PeekTopPktSize();
      }
    }

    /** After the loop: an emptied queue forfeits the deficit, any other goes back on the list. */
    method Settle(id: int, len: nat)
      requires Valid() && id in stats && (len == 0 <==> queues[id].q == [])
      modifies this`stats, activeList
      ensures Valid()
      ensures stats == if len == 0 then old(stats)[id := old(stats[id]).(counter := 0.0)] else old(stats)
      ensures activeList.ids == if len == 0 then old(activeList.ids) else AppendId(old(activeList.ids), id)
    {
      if len == 0 {
        stats := stats[id := stats[id].(counter := 0.0)];
      } else {
        activeList.Append(id);
      }
    }

    /** Credit a client just taken off the list, serve it, and settle its deficit. */
    method ServeClient(id: int) returns (pkts: seq<Packet>)
      requires Valid() && id in stats
      modifies this`stats, activeList, queues.Values
      ensures Valid()
      ensures Spec.ServeClient(old(Contents()), id) == Spec.Served(Contents(), id, pkts)
    {
      ghost var st, q := stats[id], queues[id].q;
      stats := stats[id := stats[id].(counter := stats[id].counter + stats[id].quantum)];
      var len;
      pkts, len := SendAffordable(id);
      Settle(id, len);
      ghost var service := Spec.Serve(q, st.counter + st.quantum, st.throughput);
      assert stats == old(stats)[id := st.(counter := service.counter)];
      OnlyQueueChanged(id);
    }

    twostate lemma OnlyQueueChanged(id: int)
      requires old(Valid()) && queues == old(queues) && id in queues
      requires forall k :: k in queues && k != id ==> queues[k].q == old(queues[k].q)
      ensures Contents().queues == old(Contents()).queues[id := queues[id].q]
    {
      var before, after := old(Contents()).queues, Contents().queues;
      assert after.Keys == before.Keys && after[id] == queues[id].q;
      assert forall k :: k in after && k != id ==> after[k] == before[k];
    }

    method Dequeue() returns (blocked: bool, id: int, pkts: seq<Packet>)
      requires Valid()
      modifies this`stats, activeList, queues.Values
      ensures Valid() && Spec.Closed(old(Contents()))
      ensures Spec.Dequeue(old(Contents())) ==
              if blocked then Spec.Blocked(Contents()) else Spec.Served(Contents(), id, pkts)
    {
      var found;
      found, id := TakeKnownClient();
      if !found {
        return true, id, [];
      }
      pkts := ServeClient(id);
      blocked := false;
    }

    // ----- quanta

    /** clientIds lists exactly the clients of rates, whose quanta are not filled in yet. */
    ghost predicate Unfilled(rates: map<int, Rate>)
      reads this
    {
      && Distinct(clientIds) && IdSet(clientIds) == rates.Keys
      && stats == Spec.Admitted(rates, {})
    }

    method TotalThroughput(ghost rates: map<int, Rate>) returns (total: real)
      requires Unfilled(rates)
      ensures total == Sum(Weights(ProportionalThroughput, rates))
    {
      ghost var w := Weights(ProportionalThroughput, rates);
      total := 0.0;
      for i := 0 to |clientIds|
        invariant total == Sum(Spec.Listed(w, clientIds[..i]))
      {
        Spec.SumOneMore(w, clientIds, i);
        total := total + stats[clientIds[i]].throughput;
      }
      Spec.SumAll(w, clientIds);
    }

    method ComputeQuantumProportionalThroughput(ghost rates: map<int, Rate>)
      requires Unfilled(rates)
      modifies this`stats
      ensures stats == Spec.Filled(rates, Quanta(ProportionalThroughput, rates, roundInterval), rates.Keys)
    {
      ghost var quanta := Quanta(ProportionalThroughput, rates, roundInterval);
      var total := TotalThroughput(rates);
      SumPositive(Weights(ProportionalThroughput, rates));
      Spec.FillNone(rates, quanta, clientIds);
      for i := 0 to |clientIds|
        invariant stats == Spec.Filled(rates, quanta, IdSet(clientIds[..i]))
      {
        var id := clientIds[i];
        Spec.FillOneMore(rates, quanta, clientIds, i);
        var quantum := Share(stats[id].throughput, total, roundInterval as real);
        assert quantum == quanta[id];
        stats := stats[id := stats[id].(quantum := quantum)];
      }
      assert clientIds[..|clientIds|] == clientIds;
    }

    /** The reciprocals of the throughputs, and their sum. */
    method Proportions(ghost rates: map<int, Rate>) returns (proportion: array<real>, sum: real)
      requires Unfilled(rates)
      ensures fresh(proportion) && proportion.Length == |clientIds|
      ensures forall i :: 0 <= i < |clientIds| ==>
        clientIds[i] in rates && proportion[i] == Weights(EqualThroughput, rates)[clientIds[i]]
      ensures sum == Sum(Weights(EqualThroughput, rates))
    {
      ghost var w := Weights(EqualThroughput, rates);
      proportion := new real[|clientIds|];
      sum := 0.0;
      for i := 0 to |clientIds|
        invariant sum == Spec.Total(proportion[..i])
        invariant forall k :: 0 <= k < i ==> clientIds[k] in w && proportion[k] == w[clientIds[k]]
      {
        proportion[i] := Reciprocal(stats[clientIds[i]].throughput);
        sum := sum + proportion[i];
        assert proportion[..i + 1][..i] == proportion[..i];
      }
      Spec.TotalIsSum(w, clientIds, proportion[..], |clientIds|);
      Spec.SumAll(w, clientIds);
    }

    method ComputeQuantumEqualThroughput(ghost rates: map<int, Rate>)
      requires Unfilled(rates)
      modifies this`stats
      ensures stats == Spec.Filled(rates, Quanta(EqualThroughput, rates, roundInterval), rates.Keys)
    {
      ghost var quanta := Quanta(EqualThroughput, rates, roundInterval);
      var proportion, sum := Proportions(rates);
      SumPositive(Weights(EqualThroughput, rates));
      Spec.FillNone(rates, quanta, clientIds);
      ghost var all := proportion[..];
      for i := 0 to |clientIds|
        invariant stats == Spec.Filled(rates, quanta, IdSet(clientIds[..i]))
        invariant proportion[..] == all
      {
        var id := clientIds[i];
        assert proportion[i] == all[i] == Weights(EqualThroughput, rates)[id];
        Spec.FillOneMore(rates, quanta, clientIds, i);
        var quantum := Share(proportion[i], sum, roundInterval as real);
        assert quantum == quanta[id];
        stats := stats[id := stats[id].(quantum := quantum)];
      }
      assert clientIds[..|clientIds|] == clientIds;
    }

    method ComputeQuantumEqualTime(ghost rates: map<int, Rate>)
      requires Unfilled(rates)
      modifies this`stats
      ensures stats == Spec.Filled(rates, Quanta(EqualTime, rates, roundInterval), rates.Keys)
    {
      ghost var quanta := Quanta(EqualTime, rates, roundInterval);
      Spec.EqualTimeQuanta(rates, clientIds, roundInterval);
      Spec.FillNone(rates, quanta, clientIds);
      for i := 0 to |clientIds|
        invariant stats == Spec.Filled(rates, quanta, IdSet(clientIds[..i]))
      {
        var id := clientIds[i];
        Spec.FillOneMore(rates, quanta, clientIds, i);
        var quantum := EqualShare(roundInterval, |clientIds|);
        assert quantum == quanta[id];
        stats := stats[id := stats[id].(quantum := quantum)];
      }
      assert clientIds[..|clientIds|] == clientIds;
    }

    // ----- the update of a route computation

    static method Pick<T>(s: set<T>) returns (x: T)
      requires s != {}
      ensures x in s
    {
      x :| x in s;
    }

    /** The queues are the old ones and, for ids that are new, fresh empty ones. */
    twostate predicate QueuesExtended(ids: set<int>)
      reads this, queues.Values
    {
      && queues.Keys == old(queues.Keys) + ids
      && (forall id :: id in old(queues) ==> queues[id] == old(queues[id]))
      && (forall id :: id in queues && id !in old(queues) ==> fresh(queues[id]) && queues[id].q == [])
    }

    method AdmitClient(id: int, rate: Rate)
      requires Valid() && id !in clientIds && Distinct(clientIds)
      modifies this`clientIds, this`stats, this`queues
      ensures Valid() && Distinct(clientIds) && IdSet(clientIds) == IdSet(old(clientIds)) + {id}
      ensures stats == old(stats)[id := Status(rate, 0.0, 0.0)]
      ensures QueuesExtended({id})
    {
      clientIds := clientIds + [id];
      if id !in queues {
        AddQueue(id);
      }
      stats := stats[id := Status(rate, 0.0, 0.0)];
    }

    /** The clients of rates are listed and admitted, all but those in todo. */
    ghost predicate Listed(rates: map<int, Rate>, todo: set<int>)
      reads this
    {
      && todo <= rates.Keys
      && Distinct(clientIds) && IdSet(clientIds) == rates.Keys - todo
      && stats == Spec.Admitted(rates, todo)
    }

    method AdmitNext(rates: map<int, Rate>, id: int, ghost todo: set<int>)
      requires Valid() && id in todo && Listed(rates, todo)
      modifies this`clientIds, this`stats, this`queues
      ensures Valid() && Listed(rates, todo - {id}) && QueuesExtended({id})
    {
      Spec.AdmitOneMore(rates, todo, id);
      assert rates.Keys - (todo - {id}) == rates.Keys - todo + {id};
      AdmitClient(id, rates[id]);
    }

    /** List the clients of rates in some order, and give each new one a queue. */
    method AdmitClients(rates: map<int, Rate>)
      requires Valid()
      modifies this`clientIds, this`stats, this`queues
      ensures Valid() && Unfilled(rates) && QueuesExtended(rates.Keys)
    {
      stats, clientIds := map[], [];
      var todo := rates.Keys;
      ghost var admitted := {};
      while todo != {}
        invariant Valid() && Listed(rates, todo)
        invariant QueuesExtended(admitted) && admitted == rates.Keys - todo
        decreases todo
      {
        var id := Pick(todo);
        admitted := admitted + {id};
        AdmitNext(rates, id, todo);
        todo := todo - {id};
      }
    }

    /** Throw away what is queued for clients that rates does not mention. */
    method ClearOthers(rates: map<int, Rate>)
      requires Valid()
      modifies queues.Values
      ensures Valid()
      ensures forall id :: id in queues ==> queues[id].q == if id in rates then old(queues[id].q) else []
    {
      var todo := queues.Keys;
      while todo != {}
        invariant Valid() && todo <= queues.Keys
        invariant forall id :: id in queues ==>
          queues[id].q == if id in rates || id in todo then old(queues[id].q) else []
        decreases todo
      {
        var id := Pick(todo);
        todo := todo - {id};
        if id !in rates {
          queues[id].Clear();
        }
      }
    }

    method DivideRound(ghost rates: map<int, Rate>)
      requires Unfilled(rates)
      modifies this`stats
      ensures stats == Spec.Filled(rates, Quanta(fairnessMode, rates, roundInterval), rates.Keys)
    {
      match fairnessMode
      case EqualTime => ComputeQuantumEqualTime(rates);
      case ProportionalThroughput => ComputeQuantumProportionalThroughput(rates);
      case EqualThroughput => ComputeQuantumEqualThroughput(rates);
    }

    method TakeUpClients(rates: map<int, Rate>)
      requires Valid()
      modifies this`clientIds, this`stats, this`queues, queues.Values
      ensures Valid() && Unfilled(rates)
      ensures Contents().queues == Spec.QueuesFor(old(Contents()).queues, rates)
    {
      AdmitClients(rates);
      ClearOthers(rates);
      QueuesTakenUp(rates);
    }

    twostate lemma QueuesTakenUp(rates: map<int, Rate>)
      requires queues.Keys == old(queues.Keys) + rates.Keys
      requires forall id :: id in queues ==>
        queues[id].q == if id in rates && id in old(queues) then old(queues[id].q) else []
      ensures Contents().queues == Spec.QueuesFor(old(Contents()).queues, rates)
    {
      Spec.QueuesForByEntry(old(Contents()).queues, Contents().queues, rates);
    }

    /** What ComputeQuantum does while it holds the lock. */
    method UpdateLocked(rates: map<int, Rate>)
      requires Valid()
      modifies this`clientIds, this`stats, this`queues, queues.Values
      ensures Valid() && Distinct(clientIds) && IdSet(clientIds) == rates.Keys
      ensures Contents() == Spec.ComputeQuantum(old(Contents()), rates, fairnessMode, roundInterval)
    {
      TakeUpClients(rates);
      ghost var queued := Contents().queues;
      DivideRound(rates);
      Spec.FillAll(rates, Quanta(fairnessMode, rates, roundInterval));
      assert Contents().queues == queued;
    }

    method ComputeQuantum(rates: map<int, Rate>)
      requires Valid()
      modifies this`clientIds, this`stats, this`queues, queues.Values
      ensures Valid() && Distinct(clientIds) && IdSet(clientIds) == rates.Keys
      ensures Contents() == Spec.ComputeQuantum(old(Contents()), rates, fairnessMode, roundInterval)
      ensures activeList.ids == old(activeList.ids) && queues.Keys == old(queues.Keys) + rates.Keys
      ensures forall id :: id in queues ==>
        queues[id].q == if id in old(queues) && id in rates then old(queues[id].q) else []
      ensures stats.Keys == rates.Keys && forall id :: id in rates ==>
        && stats[id].throughput == rates[id] && stats[id].counter == 0.0
        && stats[id].quantum == Quanta(fairnessMode, rates, roundInterval)[id]
    {
      UpdateLocked(rates);
      UpdatedByField(rates);
    }

    twostate lemma UpdatedByField(rates: map<int, Rate>)
      requires Contents() == Spec.ComputeQuantum(old(Contents()), rates, fairnessMode, roundInterval)
      ensures activeList.ids == old(activeList.ids) && queues.Keys == old(queues.Keys) + rates.Keys
      ensures forall id :: id in queues ==>
        queues[id].q == if id in old(queues) && id in rates then old(queues[id].q) else []
      ensures stats.Keys == rates.Keys && forall id :: id in rates ==>
        && stats[id].throughput == rates[id] && stats[id].counter == 0.0
        && stats[id].quantum == Quanta(fairnessMode, rates, roundInterval)[id]
    {
      Spec.UpdateExactly(old(Contents()), rates, fairnessMode, roundInterval);
      var before, after := old(Contents()), Contents();
      assert before.queues.Keys == old(queues.Keys) && after.queues.Keys == queues.Keys;
      assert forall id :: id in old(queues) ==> before.queues[id] == old(queues[id].q);
      assert forall id :: id in queues ==> after.queues[id] == queues[id].q;
    }
  }
}
