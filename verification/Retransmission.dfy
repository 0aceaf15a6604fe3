/** Bounds on retransmission: waits, total effort, and the time by which an unacknowledged packet
    is given up (the retransmit loop of internal/transport/packer.go). */
module Retransmission {
  import opened AckRanges
  import opened PackerEffects
  import opened PackerRuns
  import opened Packers

  /** The longest wait: the cap and the largest jitter on it. */
  const MAX_WAIT: nat := 3749

  /** After a write that succeeded the wait is capped; after a failed one a jitter below a quarter of
      it is added. */
  lemma WaitBounds(attempts: pos, err: WriteError, clock: nat)
    ensures BASE_BACKOFF_MS <= Wait(attempts, err, clock) <= MAX_WAIT
    ensures err.NoError? ==> Wait(attempts, err, clock) <= MAX_BACKOFF_MS
    ensures var backoff := Capped(BASE_BACKOFF_MS * Pow2(attempts - 1));
            !err.NoError? ==> backoff <= Wait(attempts, err, clock) < backoff + backoff / 4
  {
    assert BASE_BACKOFF_MS * Pow2(attempts) >= BASE_BACKOFF_MS;
    var backoff := Capped(BASE_BACKOFF_MS * Pow2(attempts - 1));
    assert BASE_BACKOFF_MS <= backoff;
  }

  // ----- The effort left -----

  function Left(p: Pending): nat {
    if Exhausted(p) then 0 else MAX_ATTEMPTS - p.attempts
  }

  /** Retransmissions that the table can still cause. */
  ghost function Remaining(m: map<PacketId, Pending>): nat
    decreases |m|
  {
    if m == map[] then 0
    else
      var id :| id in m;
      assert |m - {id}| == |m.Keys - {id}|;
      Left(m[id]) + Remaining(m - {id})
  }

  lemma {:induction false} RemainingWithout(m: map<PacketId, Pending>, id: PacketId)
    requires id in m
    ensures Remaining(m) == Left(m[id]) + Remaining(m - {id})
    decreases |m|
  {
    var first :| first in m && Remaining(m) == Left(m[first]) + Remaining(m - {first});
    if first != id {
      assert |m - {first}| == |m.Keys - {first}|;
      assert |m - {id}| == |m.Keys - {id}|;
      RemainingWithout(m - {first}, id);
      RemainingWithout(m - {id}, first);
      assert (m - {first}) - {id} == (m - {id}) - {first};
    }
  }

  lemma RemainingChanged(m: map<PacketId, Pending>, id: PacketId, p: Pending)
    ensures Remaining(m[id := p]) == Left(p) + Remaining(m - {id})
  {
    RemainingWithout(m[id := p], id);
    assert m[id := p] - {id} == m - {id};
  }

  lemma {:induction false} RemainingSmaller(m: map<PacketId, Pending>, gone: set<PacketId>)
    ensures Remaining(m - gone) <= Remaining(m)
  {
    if gone == {} {
      assert m - {} == m;
    } else {
      var id :| id in gone;
      RemainingSmaller(m, gone - {id});
      var m1 := m - (gone - {id});
      if id in m1 {
        RemainingWithout(m1, id);
        assert m1 - {id} == m - gone;
      } else {
        assert m1 == m - gone;
      }
    }
  }

  lemma VisitUsesEffort(s: State, now: nat, id: PacketId)
    requires id in s.pending
    ensures Remaining(s.pending) == Remaining(Visit(s, now, id).pending)
                                  + if Due(s.pending[id], now) && !Exhausted(s.pending[id]) then 1 else 0
  {
    var p := s.pending[id];
    RemainingWithout(s.pending, id);
    if Due(p, now) && !Exhausted(p) {
      RemainingChanged(s.pending, id, p.(attempts := p.attempts + 1));
    }
  }

  lemma {:induction false} VisitedUsesEffort(s: State, now: nat, order: seq<PacketId>)
    requires Distinct(order) && forall i :: 0 <= i < |order| ==> order[i] in s.pending
    ensures var (s', tasks) := Visited(s, now, order);
            Remaining(s.pending) == Remaining(s'.pending) + |tasks|
            && forall id :: id in tasks ==> id in order
  {
    if order != [] {
      var before, id := order[..|order| - 1], order[|order| - 1];
      VisitedUsesEffort(s, now, before);
      VisitSnoc(s, now, before, id);
      assert before + [id] == order;
      VisitUsesEffort(Visited(s, now, before).0, now, id);
    }
  }

  lemma {:induction false} Enumerate(ids: set<PacketId>) returns (order: seq<PacketId>)
    ensures Distinct(order) && forall id :: id in ids <==> id in order
    decreases |ids|
  {
    if ids == {} {
      order := [];
    } else {
      var id :| id in ids;
      var rest := Enumerate(ids - {id});
      order := rest + [id];
    }
  }

  /** Each pass of the retransmit loop uses up exactly as much effort as it sends packets. */
  lemma CollectUsesEffort(s: State, now: nat)
    ensures Remaining(s.pending) == Remaining(Collect(s, now).pending) + |Tasks(s, now)|
  {
    var order := Enumerate(s.pending.Keys);
    VisitedAll(s, now, order);
    VisitedUsesEffort(s, now, order);
  }

  /** Only a new packet brings effort, and 11 retransmissions of it; nothing else adds any. */
  lemma OnlySubmissionsAddEffort(s: State, op: Op)
    ensures Remaining(Apply(s, op).pending) <=
            Remaining(s.pending) + if ResultOf(s, op).Submitted? then MAX_ATTEMPTS - 1 else 0
  {
    match op
    case SubmitFrameOp(_, _, _, _, _) => SubmissionEffort(s, op);
    case SubmitStreamOp(_, _, _, _, _) => SubmissionEffort(s, op);
    case AckOp(p, ranges) => RemainingSmaller(s.pending, AckedBy(s, p, ranges));
    case CollectOp(now) => CollectUsesEffort(s, now);
    case UpdateOp(id, err, now, clock) => UpdateEffort(s, id, err, now, clock);
    case CancelOp(id) => RemainingSmaller(s.pending, Packers.Cancelled(s, id));
    case RegisterOp(_) =>
    case UnregisterOp(p) =>
      var gone := set id | id in s.pending && id.path == p;
      RemainingSmaller(s.pending, gone);
      assert Unregister(s, p).pending == s.pending - gone;
  }

  lemma UpdateEffort(s: State, id: PacketId, err: WriteError, now: nat, clock: nat)
    ensures Remaining(Update(s, id, err, now, clock).pending) <= Remaining(s.pending)
  {
    if id in s.pending {
      var p := s.pending[id];
      RemainingWithout(s.pending, id);
      RemainingChanged(s.pending, id, p.(nextRetry := now + Wait(p.attempts, err, clock)));
    }
  }

  lemma SubmissionEffort(s: State, op: Op)
    requires op.SubmitFrameOp? || op.SubmitStreamOp?
    ensures Remaining(Apply(s, op).pending) <=
            Remaining(s.pending) + if ResultOf(s, op).Submitted? then MAX_ATTEMPTS - 1 else 0
  {
    var r, s' := ResultOf(s, op), Apply(s, op);
    SubmissionTable(s, op);
    if r.Submitted? {
      RemainingChanged(s.pending, r.id, s'.pending[r.id]);
      RemainingSmaller(s.pending, {r.id});
    }
  }

  lemma SubmissionTable(s: State, op: Op)
    requires op.SubmitFrameOp? || op.SubmitStreamOp?
    ensures var r, s' := ResultOf(s, op), Apply(s, op);
            if r.Submitted? then
              r.id in s'.pending && s'.pending == s.pending[r.id := s'.pending[r.id]] && s'.pending[r.id].attempts == 1
            else s'.pending == s.pending
  {
  }

  // ----- The time left -----

  /** What a run has shown of the retransmit loop as far as one packet goes: when its last pass began,
      the time of its last operation on the packet, and whether the packet was collected and its
      write not yet followed by the update. */
  datatype Loop = Loop(start: nat, time: nat, owed: bool)

  function Advance(s: State, id: PacketId, op: Op, l: Loop): Loop {
    match op
    case CollectOp(now) => Loop(now, now, id in Tasks(s, now))
    case UpdateOp(other, _, now, _) => if other == id then l.(time := now, owed := false) else l
    case _ => l
  }

  /** The loop updates a packet it collected before it collects again, and within `slack` of the
      beginning of a pass it updates and begins the next one. All else may happen at any time. */
  predicate OnTime(id: PacketId, op: Op, l: Loop, slack: nat) {
    match op
    case CollectOp(now) => !l.owed && l.time <= now <= l.start + slack
    case UpdateOp(other, _, now, _) => other == id ==> l.owed && l.time <= now <= l.start + slack
    case _ => true
  }

  predicate Scheduled(s: State, id: PacketId, ops: seq<Op>, l: Loop, slack: nat)
    decreases |ops|
  {
    ops == [] ||
    (OnTime(id, ops[0], l, slack)
     && Scheduled(Apply(s, ops[0]), id, ops[1..], Advance(s, id, ops[0], l), slack))
  }

  /** The packet is out of the table at some point of the run. */
  predicate Leaves(s: State, id: PacketId, ops: seq<Op>)
    decreases |ops|
  {
    id !in s.pending || (ops != [] && Leaves(Apply(s, ops[0]), id, ops[1..]))
  }

  /** The waits that `attempts` leaves, each with the slack of two passes. */
  function Waits(attempts: nat, slack: nat): nat
    decreases MAX_ATTEMPTS - attempts
  {
    if attempts >= MAX_ATTEMPTS - 1 then 0 else MAX_WAIT + 2 * slack + Waits(attempts + 1, slack)
  }

  /** The latest time at which the packet can still be taken up. */
  function Deadline(p: Pending, slack: nat): nat {
    p.nextRetry + Waits(p.attempts, slack)
  }

  /** Between two steps a packet in the table is on its way to being given up by `limit`. */
  predicate InTime(p: Pending, l: Loop, slack: nat, limit: nat) {
    if l.owed then
      && l.start <= l.time
      && (Exhausted(p) || l.start + slack + MAX_WAIT + Waits(p.attempts, slack) <= limit)
    else !Exhausted(p) && l.start <= p.nextRetry && Deadline(p, slack) <= limit
  }

  /** No other operation touches the packet, unless it removes it. */
  lemma OthersLeaveIt(s: State, id: PacketId, op: Op)
    requires Assigned(s, id) && id in s.pending
    requires !op.CollectOp? && (op.UpdateOp? ==> op.id != id)
    ensures id in Apply(s, op).pending ==>
              Apply(s, op).pending[id] == s.pending[id] && Assigned(Apply(s, op), id)
  {
    if op.SubmitFrameOp? || op.SubmitStreamOp? {
      SubmissionTable(s, op);
      NumberIsLast(s, op);
      LastNeverFalls(s, op, id.path);
    }
  }

  lemma CollectInTime(s: State, id: PacketId, now: nat, l: Loop, slack: nat, limit: nat)
    requires id in s.pending && InTime(s.pending[id], l, slack, limit) && OnTime(id, CollectOp(now), l, slack)
    ensures now <= limit + slack && id in Collect(s, now).pending
    ensures InTime(Collect(s, now).pending[id], Advance(s, id, CollectOp(now), l), slack, limit)
  {
    var p := s.pending[id];
    if Due(p, now) {
      assert Waits(p.attempts, slack) ==
             if p.attempts == MAX_ATTEMPTS - 1 then 0 else MAX_WAIT + 2 * slack + Waits(p.attempts + 1, slack);
    }
  }

  lemma UpdateInTime(s: State, id: PacketId, op: Op, l: Loop, slack: nat, limit: nat)
    requires id in s.pending && InTime(s.pending[id], l, slack, limit)
    requires op.UpdateOp? && op.id == id && OnTime(id, op, l, slack)
    ensures var s' := Apply(s, op);
            id in s'.pending ==> InTime(s'.pending[id], Advance(s, id, op, l), slack, limit)
  {
    WaitBounds(s.pending[id].attempts, op.err, op.clock);
  }

  lemma StepInTime(s: State, id: PacketId, op: Op, l: Loop, slack: nat, limit: nat)
    requires Assigned(s, id) && id in s.pending && InTime(s.pending[id], l, slack, limit)
    requires OnTime(id, op, l, slack)
    ensures var s' := Apply(s, op);
            id in s'.pending ==> Assigned(s', id) && InTime(s'.pending[id], Advance(s, id, op, l), slack, limit)
    ensures op.CollectOp? ==> op.now <= limit + slack
  {
    if op.CollectOp? {
      CollectInTime(s, id, op.now, l, slack, limit);
    } else if op.UpdateOp? && op.id == id {
      UpdateInTime(s, id, op, l, slack, limit);
    } else {
      OthersLeaveIt(s, id, op);
    }
  }

  lemma {:induction false} LeavesByLimit(s: State, id: PacketId, ops: seq<Op>, l: Loop, slack: nat, limit: nat)
    requires Assigned(s, id) && (id in s.pending ==> InTime(s.pending[id], l, slack, limit))
    requires Scheduled(s, id, ops, l, slack)
    requires ops != [] && ops[|ops| - 1].CollectOp? && ops[|ops| - 1].now > limit + slack
    ensures Leaves(s, id, ops)
    decreases |ops|
  {
    if id in s.pending {
      var s' := Apply(s, ops[0]);
      StepInTime(s, id, ops[0], l, slack, limit);
      if id in s'.pending {
        assert ops[1..] != [] && ops[1..][|ops[1..]| - 1] == ops[|ops| - 1];
        LeavesByLimit(s', id, ops[1..], Advance(s, id, ops[0], l), slack, limit);
      }
    }
  }

  predicate NoUnregister(ops: seq<Op>, p: PathId) {
    forall i :: 0 <= i < |ops| ==> ops[i] != UnregisterOp(p)
  }

  /** A number that is used and not in the table does not come back while its path is registered. */
  lemma {:induction false} StaysAway(s: State, id: PacketId, ops: seq<Op>)
    requires Assigned(s, id) && NoUnregister(ops, id.path) && Leaves(s, id, ops)
    ensures id !in ApplyAll(s, ops).pending
    decreases |ops|
  {
    if ops != [] {
      var op := ops[0];
      LastNeverFalls(s, op, id.path);
      assert NoUnregister(ops[1..], id.path) by {
        assert forall i :: 0 <= i < |ops[1..]| ==> ops[1..][i] == ops[i + 1];
      }
      if id !in s.pending {
        AbsentStaysAbsent(s, id, op);
      }
      StaysAway(Apply(s, op), id, ops[1..]);
    }
  }

  lemma AbsentStaysAbsent(s: State, id: PacketId, op: Op)
    requires Assigned(s, id) && id !in s.pending
    ensures id !in Apply(s, op).pending
  {
    if op.SubmitFrameOp? || op.SubmitStreamOp? {
      SubmissionTable(s, op);
      NumberIsLast(s, op);
    }
  }

  /** In every run in which the loop keeps to its schedule, whatever else the packer does in between
      and whatever the writes return, a packet is out of the table before the first pass that begins
      after its deadline; out of it for good unless its path is unregistered. */
  lemma GivenUpInTime(s: State, id: PacketId, ops: seq<Op>, now: nat, start: nat, slack: nat)
    requires Assigned(s, id) && id in s.pending && !Exhausted(s.pending[id]) && start <= s.pending[id].nextRetry
    requires Scheduled(s, id, ops + [CollectOp(now)], Loop(start, start, false), slack)
    requires now > Deadline(s.pending[id], slack) + slack
    ensures Leaves(s, id, ops + [CollectOp(now)])
    ensures NoUnregister(ops, id.path) ==> id !in ApplyAll(s, ops + [CollectOp(now)]).pending
  {
    var run := ops + [CollectOp(now)];
    LeavesByLimit(s, id, run, Loop(start, start, false), slack, Deadline(s.pending[id], slack));
    if NoUnregister(ops, id.path) {
      StaysAway(s, id, run);
    }
  }

  /** Counted from a submission at op.now: the first wait and ten more, and 21 times the slack. */
  lemma FreshPacketGivenUpBy(s: State, op: Op, ops: seq<Op>, now: nat, start: nat, slack: nat)
    requires (op.SubmitFrameOp? || op.SubmitStreamOp?) && ResultOf(s, op).Submitted? && start <= op.now
    requires var id := ResultOf(s, op).id;
             Scheduled(Apply(s, op), id, ops + [CollectOp(now)], Loop(start, start, false), slack)
    requires now > op.now + 37690 + 21 * slack
    ensures Leaves(Apply(s, op), ResultOf(s, op).id, ops + [CollectOp(now)])
    ensures NoUnregister(ops, op.path) ==>
              ResultOf(s, op).id !in ApplyAll(Apply(s, op), ops + [CollectOp(now)]).pending
  {
    var id, s1 := ResultOf(s, op).id, Apply(s, op);
    NumberIsLast(s, op);
    SubmissionTable(s, op);
    assert s1.pending[id].nextRetry == op.now + BASE_BACKOFF_MS;
    AllWaits(1, slack);
    GivenUpInTime(s1, id, ops, now, start, slack);
  }

  lemma {:induction false} AllWaits(attempts: nat, slack: nat)
    requires attempts < MAX_ATTEMPTS
    ensures Waits(attempts, slack) == (MAX_ATTEMPTS - 1 - attempts) * (MAX_WAIT + 2 * slack)
    decreases MAX_ATTEMPTS - attempts
  {
    if attempts < MAX_ATTEMPTS - 1 {
      AllWaits(attempts + 1, slack);
      var left, span := MAX_ATTEMPTS - 2 - attempts, MAX_WAIT + 2 * slack;
      assert (left + 1) * span == left * span + span;
    }
  }

  // ----- Not before its time -----

  /** The operation is a pass that takes the packet up once more. */
  predicate Takes(s: State, op: Op, id: PacketId) {
    && op.CollectOp? && id in s.pending && id in Apply(s, op).pending
    && Apply(s, op).pending[id].attempts > s.pending[id].attempts
  }

  /** These are the packets that the pass hands to the writer. */
  lemma TakesExactly(s: State, now: nat, id: PacketId)
    ensures Takes(s, CollectOp(now), id) <==> id in Tasks(s, now)
  {
    CollectExactly(s, now, id);
  }

  /** The packet's retry is not rescheduled, and its path stays registered. */
  predicate Unscheduled(ops: seq<Op>, id: PacketId) {
    forall i :: 0 <= i < |ops| ==> ops[i] != UnregisterOp(id.path) && (ops[i].UpdateOp? ==> ops[i].id != id)
  }

  /** Between updates of a packet its retry time stays what it is, whatever else happens. */
  lemma {:induction false} RetryStays(s: State, id: PacketId, ops: seq<Op>)
    requires Assigned(s, id) && Unscheduled(ops, id)
    ensures id in ApplyAll(s, ops).pending ==>
              id in s.pending && ApplyAll(s, ops).pending[id].nextRetry == s.pending[id].nextRetry
    decreases |ops|
  {
    if ops != [] {
      var op, s' := ops[0], Apply(s, ops[0]);
      assert forall i :: 0 <= i < |ops[1..]| ==> ops[1..][i] == ops[i + 1];
      RetryStep(s, id, op);
      RetryStays(s', id, ops[1..]);
    }
  }

  lemma RetryStep(s: State, id: PacketId, op: Op)
    requires Assigned(s, id) && op != UnregisterOp(id.path) && (op.UpdateOp? ==> op.id != id)
    ensures var s' := Apply(s, op);
            && Assigned(s', id)
            && (id in s'.pending ==> id in s.pending && s'.pending[id].nextRetry == s.pending[id].nextRetry)
  {
    LastNeverFalls(s, op, id.path);
    if id !in s.pending {
      AbsentStaysAbsent(s, id, op);
    } else if op.CollectOp? {
      CollectExactly(s, op.now, id);
    } else {
      OthersLeaveIt(s, id, op);
    }
  }

  /** In every run: the first pass that takes up a submitted packet begins 200 ms after the submission or
      later. */
  lemma NotBeforeFirstRetry(s: State, op: Op, ops: seq<Op>, now: nat)
    requires (op.SubmitFrameOp? || op.SubmitStreamOp?) && ResultOf(s, op).Submitted?
    requires Unscheduled(ops, ResultOf(s, op).id)
    ensures Takes(ApplyAll(Apply(s, op), ops), CollectOp(now), ResultOf(s, op).id) ==> now >= op.now + 200
  {
    var id := ResultOf(s, op).id;
    SubmissionExactly(s, op);
    NumberIsLast(s, op);
    RetryStays(Apply(s, op), id, ops);
    CollectExactly(ApplyAll(Apply(s, op), ops), now, id);
  }

  /** And the next pass that takes it up after an update begins no earlier than the wait chosen there. */
  lemma NotBeforeNextRetry(s: State, op: Op, ops: seq<Op>, now: nat)
    requires op.UpdateOp? && Assigned(s, op.id) && op.id in s.pending && Unscheduled(ops, op.id)
    ensures Takes(ApplyAll(Apply(s, op), ops), CollectOp(now), op.id) ==>
              now >= op.now + Wait(s.pending[op.id].attempts, op.err, op.clock) >= op.now + 200
  {
    WaitBounds(s.pending[op.id].attempts, op.err, op.clock);
    UpdateExactly(s, op.id, op.err, op.now, op.clock, op.id);
    LastNeverFalls(s, op, op.id.path);
    RetryStays(Apply(s, op), op.id, ops);
    CollectExactly(ApplyAll(Apply(s, op), ops), now, op.id);
  }

  /** So two passes that take up the same packet, with the update of the first between them, are 200 ms
      apart when times grow; the storm of copies that the waits are to prevent cannot happen. */
  lemma RetriesApart(s: State, first: nat, before: seq<Op>, update: Op, ops: seq<Op>, second: nat)
    requires update.UpdateOp? && Takes(s, CollectOp(first), update.id) && first <= update.now
    requires Assigned(s, update.id) && Unscheduled(before, update.id) && Unscheduled(ops, update.id)
    ensures var s1 := ApplyAll(Apply(s, CollectOp(first)), before);
            Takes(ApplyAll(Apply(s1, update), ops), CollectOp(second), update.id) ==> second >= first + 200
  {
    var id, s0 := update.id, Apply(s, CollectOp(first));
    var s1 := ApplyAll(s0, before);
    LastNeverFalls(s, CollectOp(first), id.path);
    StaysAssigned(s0, id, before);
    if id in s1.pending {
      NotBeforeNextRetry(s1, update, ops, second);
    } else {
      AbsentStaysAbsent(s1, id, update);
      LastNeverFalls(s1, update, id.path);
      RetryStays(Apply(s1, update), id, ops);
    }
  }

  lemma {:induction false} StaysAssigned(s: State, id: PacketId, ops: seq<Op>)
    requires Assigned(s, id) && Unscheduled(ops, id)
    ensures Assigned(ApplyAll(s, ops), id)
    decreases |ops|
  {
    if ops != [] {
      assert forall i :: 0 <= i < |ops[1..]| ==> ops[1..][i] == ops[i + 1];
      LastNeverFalls(s, ops[0], id.path);
      StaysAssigned(Apply(s, ops[0]), id, ops[1..]);
    }
  }
}
