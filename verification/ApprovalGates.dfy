/**
  Approval gates: pending requests and recorded decisions per story and gate, under any
  interleaving of checks, decisions and clearing, including decisions made inside the callbacks
  of a check.
*/
module ApprovalGates {
  import opened Options

  datatype Key = Key(story: string, gate: string)

  /** A call that records or clears something; callbacks may make such calls as well. */
  datatype Op =
    | Approve(key: Key)
    | Reject(key: Key)
    | ClearPending(key: Key)
    | ClearAll(story: string)

  datatype Status = Pass | Pending | Blocked

  const VALID_GATES := {"pre_code", "pre_deploy", "pre_production", "budget_exceeded", "ambiguity_detected"}

  /** The two dicts of the manager. */
  datatype Records = Records(pending: set<Key>, decisions: map<Key, bool>)

  const NO_RECORDS := Records({}, map[])

  function Apply(r: Records, op: Op): Records {
    match op
    case Approve(k) => Records(r.pending - {k}, r.decisions[k := true])
    case Reject(k) => Records(r.pending - {k}, r.decisions[k := false])
    case ClearPending(k) => r.(pending := r.pending - {k})
    case ClearAll(s) =>
      Records(set k | k in r.pending && k.story != s, map k | k in r.decisions && k.story != s :: r.decisions[k])
  }

  function ApplyAll(r: Records, ops: seq<Op>): Records {
    if ops == [] then r else Apply(ApplyAll(r, ops[..|ops| - 1]), ops[|ops| - 1])
  }

  /** The latest decision on a key that has not been cleared since. */
  function Latest(ops: seq<Op>, k: Key): Option<bool> {
    if ops == [] then None
    else
      match ops[|ops| - 1]
      case Approve(j) => if j == k then Some(true) else Latest(ops[..|ops| - 1], k)
      case Reject(j) => if j == k then Some(false) else Latest(ops[..|ops| - 1], k)
      case ClearPending(_) => Latest(ops[..|ops| - 1], k)
      case ClearAll(s) => if s == k.story then None else Latest(ops[..|ops| - 1], k)
  }

  /** The operations that make or drop a decision on `k`. */
  ghost predicate Settles(op: Op, k: Key) {
    op == Approve(k) || op == Reject(k) || op == ClearAll(k.story)
  }

  /** The operation at position `i` makes this decision on `k`, and no later one settles `k`. */
  ghost predicate DecidedAt(ops: seq<Op>, k: Key, approved: bool, i: int) {
    && 0 <= i < |ops| && ops[i] == (if approved then Approve(k) else Reject(k))
    && forall j :: i < j < |ops| ==> !Settles(ops[j], k)
  }

  /** A decision is in force exactly if it was made and nothing has settled the key since. */
  lemma {:induction false} LatestIff(ops: seq<Op>, k: Key, approved: bool)
    ensures Latest(ops, k) == Some(approved) <==> exists i :: DecidedAt(ops, k, approved, i)
  {
    if ops == [] {
    } else {
      var n := |ops| - 1;
      LatestIff(ops[..n], k, approved);
      forall i
        ensures i != n ==> (DecidedAt(ops, k, approved, i) <==>
                              DecidedAt(ops[..n], k, approved, i) && !Settles(ops[n], k))
      {
        assert forall j :: 0 <= j < n ==> ops[..n][j] == ops[j];
      }
      assert DecidedAt(ops, k, approved, n) <==> ops[n] == (if approved then Approve(k) else Reject(k));
    }
  }

  /** A request stays pending exactly as long as nothing settles its key or clears the request. */
  lemma {:induction false} PendingAfterAll(r: Records, ops: seq<Op>, k: Key)
    ensures k in ApplyAll(r, ops).pending <==>
            k in r.pending && forall i :: 0 <= i < |ops| ==> !Settles(ops[i], k) && ops[i] != ClearPending(k)
  {
    if ops == [] {
    } else {
      var n := |ops| - 1;
      PendingAfterAll(r, ops[..n], k);
      assert forall i :: 0 <= i < n ==> ops[..n][i] == ops[i];
    }
  }

  /** Decided and pending keys do not overlap, and the decisions are the latest ones of `ops`. */
  ghost predicate Consistent(r: Records, ops: seq<Op>) {
    && r.pending !! r.decisions.Keys
    && forall k :: if k in r.decisions then Latest(ops, k) == Some(r.decisions[k]) else Latest(ops, k) == None
  }

  lemma ApplyConsistent(r: Records, ops: seq<Op>, op: Op)
    requires Consistent(r, ops)
    ensures Consistent(Apply(r, op), ops + [op])
  {
    assert (ops + [op])[..|ops + [op]| - 1] == ops;
  }

  lemma {:induction false} ApplyAllConsistent(r: Records, ops: seq<Op>, more: seq<Op>)
    requires Consistent(r, ops)
    ensures Consistent(ApplyAll(r, more), ops + more)
  {
    if more == [] {
      assert ops + more == ops;
    } else {
      var n := |more| - 1;
      ApplyAllConsistent(r, ops, more[..n]);
      ApplyConsistent(ApplyAll(r, more[..n]), ops + more[..n], more[n]);
      assert ops + more == ops + more[..n] + [more[n]];
    }
  }

  class ApprovalGateManager {
    const enabled: map<string, bool>  // safety_config.approval_gates
    var pending: set<Key>
    var decisions: map<Key, bool>
    ghost var history: seq<Op>

    function Now(): Records
      reads this
    {
      Records(pending, decisions)
    }

    ghost predicate Valid()
      reads this
    {
      Consistent(Now(), history)
    }

    constructor (enabled: map<string, bool>)
      ensures Valid() && this.enabled == enabled && Now() == NO_RECORDS && history == []
    {
      this.enabled := enabled;
      pending, decisions, history := {}, map[], [];
    }

    predicate IsEnabled(gate: string) {
      gate in enabled && enabled[gate]
    }

    method Approve(k: Key)
      requires Valid()
      modifies this
      ensures Valid() && Now() == Apply(old(Now()), Op.Approve(k)) && history == old(history) + [Op.Approve(k)]
    {
      ApplyConsistent(Now(), history, Op.Approve(k));
      decisions := decisions[k := true];
      pending := pending - {k};
      history := history + [Op.Approve(k)];
    }

    method Reject(k: Key)
      requires Valid()
      modifies this
      ensures Valid() && Now() == Apply(old(Now()), Op.Reject(k)) && history == old(history) + [Op.Reject(k)]
    {
      ApplyConsistent(Now(), history, Op.Reject(k));
      decisions := decisions[k := false];
      pending := pending - {k};
      history := history + [Op.Reject(k)];
    }

    method ClearPending(k: Key)
      requires Valid()
      modifies this
      ensures Valid() && Now() == Apply(old(Now()), Op.ClearPending(k))
              && history == old(history) + [Op.ClearPending(k)]
    {
      ApplyConsistent(Now(), history, Op.ClearPending(k));
      pending := pending - {k};
      history := history + [Op.ClearPending(k)];
    }

    method ClearAllForStory(story: string)
      requires Valid()
      modifies this
      ensures Valid() && Now() == Apply(old(Now()), ClearAll(story)) && history == old(history) + [ClearAll(story)]
    {
      ghost var start := Now();
      ApplyConsistent(start, history, ClearAll(story));
      var keys := set k | k in pending && k.story == story;
      ghost var all := keys;
      while keys != {}
        invariant keys <= all && decisions == start.decisions && history == old(history)
        invariant pending == start.pending - (all - keys)
        decreases keys
      {
        var k :| k in keys;
        pending := pending - {k};
        keys := keys - {k};
      }
      keys := set k | k in decisions && k.story == story;
      all := keys;
      while keys != {}
        invariant keys <= all && history == old(history)
        invariant pending == Apply(start, ClearAll(story)).pending
        invariant decisions == start.decisions - (all - keys)
        decreases keys
      {
        var k :| k in keys;
        decisions := decisions - {k};
        keys := keys - {k};
      }
      history := history + [ClearAll(story)];
    }

    method Perform(ops: seq<Op>)
      requires Valid()
      modifies this
      ensures Valid() && Now() == ApplyAll(old(Now()), ops) && history == old(history) + ops
    {
      for i := 0 to |ops|
        invariant Valid() && Now() == ApplyAll(old(Now()), ops[..i]) && history == old(history) + ops[..i]
      {
        assert ops[..i + 1] == ops[..i] + [ops[i]];
        match ops[i]
        case Approve(k) => Approve(k);
        case Reject(k) => Reject(k);
        case ClearPending(k) => ClearPending(k);
        case ClearAll(s) => ClearAllForStory(s);
      }
      assert ops[..|ops|] == ops;
    }

    /**
      A gate passes exactly when it is disabled or the latest recorded decision approves, blocks
      exactly when it is enabled and that decision rejects, and is pending otherwise. Only a new
      request runs the callbacks, which perform `callbackOps`; their decisions count from the
      next check on. None stands for the error on an unknown gate.
    */
    method CheckGate(gate: string, story: string, callbackOps: seq<Op>) returns (status: Option<Status>)
      requires Valid()
      modifies this
      ensures Valid() && (status.None? <==> gate !in VALID_GATES)
      ensures status == Some(Pass) <==>
                gate in VALID_GATES && (!IsEnabled(gate) || Latest(old(history), Key(story, gate)) == Some(true))
      ensures status == Some(Blocked) <==>
                gate in VALID_GATES && IsEnabled(gate) && Latest(old(history), Key(story, gate)) == Some(false)
      ensures var k := Key(story, gate);
        if status == Some(Pending) && k !in old(pending) then
          Now() == ApplyAll(old(Now()).(pending := old(pending) + {k}), callbackOps)
          && history == old(history) + callbackOps
        else
          Now() == old(Now()) && history == old(history)
    {
      if gate !in VALID_GATES {
        return None;
      }
      if !IsEnabled(gate) {
        return Some(Pass);
      }
      var k := Key(story, gate);
      if k in decisions {
        return Some(if decisions[k] then Pass else Blocked);
      }
      if k in pending {
        return Some(Pending);
      }
      pending := pending + {k};
      Perform(callbackOps);
      return Some(Pending);
    }
  }
}
