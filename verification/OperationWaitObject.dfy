/** The state waitForOperation shares between its listeners and its worker, as an object. */
module OperationWaitObject {
  import opened Text
  import opened Operations
  import opened OperationWait

  /** One attempt as the worker meets it: whether the subscription was confirmed, and what the read returned. */
  datatype Attempt = Attempt(acked: bool, reply: Option<Operation>)

  class OperationWaiter {
    const operationID: nat
    var revision: nat
    var token: bool
    var completed: nat
    var settled: bool
    var results: seq<Operation>
    var failures: seq<Operation>
    var lastOp: Option<Operation>

    ghost predicate Valid()
      reads this
    {
      && completed <= revision
      && |results| + |failures| == (if settled then 1 else 0)
      && (forall o :: o in results + failures ==> o.id == operationID && !o.state.OpPending?)
      && (forall o :: o in results ==> !Fails(o)) && (forall o :: o in failures ==> Fails(o))
    }

    /** A reply that leaves nothing to try again: a terminal state, or a pending one behind a confirmed subscription. */
    predicate Ends(a: Attempt) {
      a.reply.Some? && a.reply.value.id == operationID && (a.reply.value.state != OpPending || a.acked)
    }

    constructor (id: nat)
      ensures Valid() && operationID == id && !settled && revision == completed == 0 && !token
    {
      operationID := id;
      revision, token, completed, settled, results, failures, lastOp := 0, false, 0, false, [], [], None;
    }

    method TryResolve(o: Operation)
      requires Valid()
      modifies this
      ensures Valid() && revision == old(revision) && token == old(token) && completed == old(completed)
      ensures settled == (old(settled) || (o.id == operationID && !o.state.OpPending?))
      ensures old(settled) ==> results == old(results) && failures == old(failures)
      ensures !old(settled) && settled ==> if Fails(o) then failures == [o] else results == [o]
    {
      if o.id != operationID {
        return;
      }
      lastOp := Some(o);
      if o.state.OpPending? {
        return;
      }
      if !settled {
        settled := true;
        if Fails(o) {
          failures := failures + [o];
        } else {
          results := results + [o];
        }
      }
    }

    method Recover()
      requires Valid()
      modifies this
      ensures Valid() && revision == old(revision) + 1 && token && completed == old(completed)
      ensures settled == old(settled) && results == old(results) && failures == old(failures)
    {
      revision := revision + 1;
      token := true;
    }

    /**
     * One turn of the worker from the token to the end of its attempts: at most
     * three reads, stopped by the first reply behind a confirmed subscription
     * or by a terminal state. It leaves the wait settled or everything covered.
     */
    method Turn(attempts: seq<Attempt>) returns (done: nat)
      requires Valid() && token && |attempts| == READ_ATTEMPTS
      modifies this
      ensures Valid() && !token && revision == old(revision)
      ensures settled || completed == revision
      ensures done <= READ_ATTEMPTS && (done == 0 <==> old(settled) || old(completed) == revision)
      ensures old(settled) ==> results == old(results) && failures == old(failures)
      ensures !old(settled) && settled ==>
                exists k :: 0 <= k < done && attempts[k].reply.Some? && results + failures == [attempts[k].reply.value]
      ensures forall k :: 0 <= k < done - 1 ==> !Ends(attempts[k])
      ensures 0 < done < 3 ==> Ends(attempts[done - 1])
    {
      token, done := false, 0;
      if settled || revision <= completed {
        return;
      }
      var covered := revision;
      while done < READ_ATTEMPTS
        invariant done <= READ_ATTEMPTS && Valid() && !settled && !token && revision == old(revision) == covered
        invariant completed == old(completed)
        invariant forall k :: 0 <= k < done ==> !Ends(attempts[k])
      {
        covered := revision;
        var turn := attempts[done];
        done := done + 1;
        if turn.reply.Some? && turn.reply.value.id == operationID {
          TryResolve(turn.reply.value);
          if settled {
            return;
          }
          if turn.acked {
            break;
          }
        }
      }
      completed := covered;
    }
  }
}
