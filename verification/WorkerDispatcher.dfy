/**
  The worker's dispatcher as an object: dictionaries changed in place by the
  message handlers, each handler proved equal to its step function.
*/
module WorkerDispatcher {
  import opened WireProtocol

  /** The call whose tombstone goes first; 0 is never a call. */
  ghost function Oldest(order: seq<nat>): nat {
    if order == [] then 0 else order[0]
  }

  /** Burying a call touches no other tombstone but the oldest, and that one only when there are more than 64. */
  lemma OthersStayBuried(t: Tombstones, call: nat, cancelled: bool)
    ensures var u := Bury(t, call, cancelled);
            && (forall c :: c in t.marked && c != call && c != Oldest(t.order) ==> c in u.marked && u.marked[c] == t.marked[c])
            && (|t.marked| < 64 ==> forall c :: c in t.marked && c != call ==> c in u.marked && u.marked[c] == t.marked[c])
  {
  }

  class Worker {
    const generation: nat
    var failed: bool
    var calls: map<nat, bool>
    var pending: map<nat, nat>
    var completed: map<nat, bool>
    var completedOrder: seq<nat>      // insertion order of `completed`
    var nextRequest: nat
    var lastRequest: nat
    var sent: seq<Envelope>           // everything handed to the transport

    ghost function View(): WireProtocol.Worker
      reads this
    {
      WireProtocol.Worker(failed, calls, pending, Tombstones(completedOrder, completed), nextRequest, lastRequest)
    }

    constructor (generation: nat)
      ensures this.generation == generation && sent == []
      ensures View() == WireProtocol.Worker(false, map[], map[], Tombstones([], map[]), 3, 0)
    {
      this.generation := generation;
      failed := false;
      calls, pending, completed, completedOrder := map[], map[], map[], [];
      nextRequest, lastRequest := 3, 0;
      sent := [];
    }

    method Accept(m: Envelope)
      modifies this
      ensures View() == WireProtocol.Accept(old(View()), generation, m).0
      ensures sent == old(sent) +
                if m.body.Cancel? && !m.body.acknowledged &&
                   ((m.correlation in old(calls) && !old(calls)[m.correlation]) ||
                    (m.correlation in old(completed) && !old(completed)[m.correlation]))
                then [Envelope(generation, m.correlation, 0, Cancel(true))] else []
      ensures sent == old(sent) + WireProtocol.Accept(old(View()), generation, m).1
      ensures failed == (old(failed) || (
        match m.body
        case Request(_, _) =>
          || m.correlation % 2 == 1 || m.correlation <= old(lastRequest) || |old(calls)| >= 16
          || (m.parent != 0 && m.parent !in old(pending))
        case Cancel(acknowledged) =>
          || acknowledged
          || (!(m.correlation in old(calls) && !old(calls)[m.correlation]) &&
              !(m.correlation in old(completed) && !old(completed)[m.correlation]))
        case Reply(_) => m.correlation !in old(pending)
        case Event => true
        case Hello => true))
    {
      match m.body
      case Request(_, _) =>
        if m.correlation % 2 != 0 || m.correlation <= lastRequest || |calls| >= MAX_DEPTH {
          failed := true;
        } else if m.parent != 0 && m.parent !in pending {
          failed := true;
        } else {
          lastRequest := m.correlation;
          calls := calls[m.correlation := false];
        }
      case Cancel(acknowledged) =>
        if acknowledged {
          failed := true;
          return;
        }
        if m.correlation in calls && !calls[m.correlation] {
          calls := calls[m.correlation := true];
        } else if m.correlation in completed && !completed[m.correlation] {
          completed := completed[m.correlation := true];
        } else {
          failed := true;
          return;
        }
        sent := sent + [Acknowledge(generation, m.correlation)];
      case Reply(_) =>
        if m.correlation in pending {
          pending := pending - {m.correlation};
        } else {
          failed := true;
        }
      case _ =>
        failed := true;
    }

    /** A log line; an expired context raises and sends nothing. */
    method Log(call: nat) returns (expired: bool)
      modifies this`sent
      ensures expired == (call !in calls)
      ensures sent == old(sent) + if expired then [] else [Envelope(generation, call, 0, Event)]
    {
      expired := call !in calls;
      if !expired {
        sent := sent + [Envelope(generation, call, 0, Event)];
      }
    }

    method Service(call: nat, operation: Operation, key: string) returns (expired: bool)
      modifies this
      ensures expired == (call !in old(calls))
      ensures expired ==> View() == old(View()) && sent == old(sent)
      ensures !expired ==>
        && View() == RequestService(old(View()), generation, call, operation, key).0
        && sent == old(sent) + [Envelope(generation, old(nextRequest), call, Request(operation, key))]
        && sent == old(sent) + [RequestService(old(View()), generation, call, operation, key).1]
    {
      expired := call !in calls;
      if !expired {
        var correlation := nextRequest;
        nextRequest := nextRequest + 2;
        pending := pending[correlation := call];
        sent := sent + [Envelope(generation, correlation, call, Request(operation, key))];
      }
    }

    /** The tail of dispatch: reply, forget the live call, bury it, and bound the graveyard. */
    method Finish(call: nat, response: Response)
      requires call in calls
      modifies this
      ensures View() == WireProtocol.Finish(old(View()), generation, call, response).0
      ensures sent == old(sent) + [Envelope(generation, call, 0, Reply(response))]
      ensures sent == old(sent) + [WireProtocol.Finish(old(View()), generation, call, response).1]
      ensures forall c :: c in old(completed) && c != call && c != Oldest(old(completedOrder)) ==>
                c in completed && completed[c] == old(completed)[c]
      ensures |old(completed)| < 64 ==> forall c :: c in old(completed) && c != call ==> c in completed && completed[c] == old(completed)[c]
    {
      hide Bury, Oldest;
      ghost var graves := Tombstones(completedOrder, completed);
      OthersStayBuried(graves, call, calls[call]);
      var cancelled := calls[call];
      sent := sent + [Envelope(generation, call, 0, Reply(response))];
      calls := calls - {call};
      BuryCall(call, cancelled);
    }

    /** The tombstone of the call, and the oldest one goes when there are too many. */
    method BuryCall(call: nat, cancelled: bool)
      modifies `completed, `completedOrder
      ensures Tombstones(completedOrder, completed) == Bury(old(Tombstones(completedOrder, completed)), call, cancelled)
    {
      if call !in completed {
        completedOrder := completedOrder + [call];
      }
      completed := completed[call := cancelled];
      if |completed| > MAX_TOMBSTONES && completedOrder != [] {
        completed := completed - {completedOrder[0]};
        completedOrder := completedOrder[1..];
      }
    }
  }
}
