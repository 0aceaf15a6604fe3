/** Runs of the packer: packet numbers, the fate of every packet, and how often one is written. */
module PackerRuns {
  import opened AckRanges
  import opened Assembly
  import opened Frames
  import opened Packets
  import opened Packers
  import opened SendStreams

  /** One operation of the packer. A submission is one step, from queueing or popping to recording;
      submissions and the loops interleave freely. */
  datatype Op =
    | SubmitFrameOp(path: PathId, frame: Frame, carrier: nat, now: nat, err: WriteError)
    | SubmitStreamOp(path: PathId, streamId: nat, send: Send, now: nat, err: WriteError)
    | AckOp(path: PathId, ranges: seq<AckRange>)
    | CollectOp(now: nat)
    | UpdateOp(id: PacketId, err: WriteError, now: nat, clock: nat)
    | CancelOp(streamId: nat)
    | RegisterOp(path: PathId)
    | UnregisterOp(path: PathId)

  function Apply(s: State, op: Op): State {
    match op
    case SubmitFrameOp(p, f, carrier, now, err) => SubmitFrame(s, p, f, carrier, now, err).0
    case SubmitStreamOp(p, id, send, now, err) => SubmitFromSendStream(s, p, id, send, now, err).0
    case AckOp(p, ranges) => OnAck(s, p, ranges)
    case CollectOp(now) => Collect(s, now)
    case UpdateOp(id, err, now, clock) => Update(s, id, err, now, clock)
    case CancelOp(id) => Cancel(s, id)
    case RegisterOp(p) => Register(s, p)
    case UnregisterOp(p) => Unregister(s, p)
  }

  function ResultOf(s: State, op: Op): SubmitResult {
    match op
    case SubmitFrameOp(p, f, carrier, now, err) => SubmitFrame(s, p, f, carrier, now, err).1
    case SubmitStreamOp(p, id, send, now, err) => SubmitFromSendStream(s, p, id, send, now, err).2
    case _ => Nothing
  }

  datatype Fate = Acked | Dropped | Cancelled | Rejected | Forgotten

  /** The history of a run: where each number that is not pending went, the drops counted twice, the
      number of times each packet was handed to WriteStream, and the fates under each registration that
      has ended; the numbers of a path start anew with the next one. */
  datatype Ledger = Ledger(fates: map<PacketId, Fate>, twice: nat, writes: map<PacketId, nat>,
                           past: seq<map<PacketId, Fate>>)

  const NO_HISTORY := Ledger(map[], 0, map[], [])

  function Class(l: Ledger, k: Fate): set<PacketId> {
    set id | id in l.fates && l.fates[id] == k
  }

  function PastTotal(past: seq<map<PacketId, Fate>>, k: Fate): nat {
    if past == [] then 0 else PastTotal(past[..|past| - 1], k) + |Of(past[|past| - 1], k)|
  }

  function Of(fates: map<PacketId, Fate>, k: Fate): set<PacketId> {
    set id | id in fates && fates[id] == k
  }

  /** How many packets of the whole run had this fate. */
  function Total(l: Ledger, k: Fate): nat {
    |Class(l, k)| + PastTotal(l.past, k)
  }

  /** The fates of a path's numbers when it is unregistered; pending packets are forgotten. */
  function Ended(s: State, l: Ledger, p: PathId): map<PacketId, Fate> {
    map id | id in s.pending.Keys + l.fates.Keys && id.path == p :: if id in l.fates then l.fates[id] else Forgotten
  }

  function EndRegistration(s: State, l: Ledger, p: PathId): Ledger {
    l.(fates := map id | id in l.fates && id.path != p :: l.fates[id], past := l.past + [Ended(s, l, p)])
  }

  function Retire(l: Ledger, gone: set<PacketId>, k: Fate): Ledger {
    l.(fates := l.fates + map id | id in gone :: k)
  }

  function WrittenTimes(l: Ledger, id: PacketId): nat {
    if id in l.writes then l.writes[id] else 0
  }

  function Account(l: Ledger, s: State, op: Op): Ledger {
    match op
    case SubmitFrameOp(_, _, _, _, _) => AccountSubmit(l, ResultOf(s, op))
    case SubmitStreamOp(_, _, _, _, _) => AccountSubmit(l, ResultOf(s, op))
    case AckOp(p, ranges) => Retire(l, AckedBy(s, p, ranges), Acked)
    case CollectOp(now) =>
      Retire(l, GivenUp(s, now), Dropped).(
        writes := map id | id in l.writes.Keys + Tasks(s, now) ::
          if id in Tasks(s, now) then WrittenTimes(l, id) + 1 else WrittenTimes(l, id))
    case UpdateOp(id, err, _, _) =>
      if id in s.pending && (err.StreamNotExists? || Exhausted(s.pending[id])) then
        Retire(l, {id}, Dropped).(twice := l.twice + if CountsTwice(s, op) then 1 else 0)
      else l
    case CancelOp(streamId) => Retire(l, Packers.Cancelled(s, streamId), Cancelled)
    case RegisterOp(_) => l
    case UnregisterOp(p) => EndRegistration(s, l, p)
  }

  function AccountSubmit(l: Ledger, r: SubmitResult): Ledger {
    match r
    case Rejected(id) => Retire(l, {id}, Fate.Rejected)
    case Submitted(id, _) => l.(writes := l.writes[id := 1])
    case _ => l
  }

  /** The one branch of the code that counts a drop a second time. */
  predicate CountsTwice(s: State, op: Op) {
    op.UpdateOp? && op.id in s.pending && op.err.StreamNotExists? && Exhausted(s.pending[op.id])
  }

  /** The packet numbers handed out under the path's registration so far. */
  predicate Assigned(s: State, id: PacketId) {
    1 <= id.seqNum <= s.Last(id.path)
  }

  predicate Known(s: State, l: Ledger, id: PacketId) {
    id in s.pending || id in l.fates
  }

  /** Every number handed out under a registration that stands is pending or has one fate, never both,
      and no other number is known. */
  ghost predicate OneFate(s: State, l: Ledger) {
    && (forall id :: Known(s, l, id) <==> Assigned(s, id))
    && (forall id :: id in s.pending ==> id !in l.fates)
  }

  /** The counters are the sizes of their classes over the whole run, but for the drops counted twice. */
  ghost predicate Counted(s: State, l: Ledger) {
    && s.ackedCount == Total(l, Acked)
    && s.droppedCount == Total(l, Dropped) + l.twice
  }

  /** A pending packet was written as often as its attempts say, and none more than 12 times. */
  ghost predicate WritesBounded(s: State, l: Ledger) {
    && (forall id :: id in s.pending ==> WrittenTimes(l, id) == s.pending[id].attempts <= MAX_ATTEMPTS)
    && (forall id :: id in l.writes ==> l.writes[id] <= MAX_ATTEMPTS)
  }

  ghost predicate Balanced(s: State, l: Ledger) {
    OneFate(s, l) && Counted(s, l) && WritesBounded(s, l)
  }

  lemma RetireOneFate(s: State, l: Ledger, s': State, gone: set<PacketId>, k: Fate)
    requires OneFate(s, l) && gone <= s.pending.Keys
    requires s'.pending.Keys == s.pending.Keys - gone && s'.nextSeq == s.nextSeq
    ensures OneFate(s', Retire(l, gone, k))
  {
    forall id
      ensures Known(s', Retire(l, gone, k), id) <==> Assigned(s', id)
    {
      assert Known(s, l, id) <==> Assigned(s, id);
    }
  }

  lemma RetireCounts(s: State, l: Ledger, gone: set<PacketId>, k: Fate)
    requires OneFate(s, l) && gone <= s.pending.Keys
    ensures forall k' :: |Class(Retire(l, gone, k), k')| == |Class(l, k')| + if k' == k then |gone| else 0
  {
    forall k'
      ensures |Class(Retire(l, gone, k), k')| == |Class(l, k')| + if k' == k then |gone| else 0
    {
      SetSplit(Class(Retire(l, gone, k), k'), Class(l, k'), if k' == k then gone else {});
    }
  }

  lemma RejectCounts(l: Ledger, id: PacketId)
    requires id !in l.fates
    ensures Class(Retire(l, {id}, Fate.Rejected), Acked) == Class(l, Acked)
    ensures Class(Retire(l, {id}, Fate.Rejected), Dropped) == Class(l, Dropped)
  {
  }

  lemma RecordBalanced(s: State, l: Ledger, p: PathId, fs: seq<Frame>, carrier: nat, now: nat, err: WriteError)
    requires Balanced(s, l)
    ensures var (s', r) := Record(s, p, fs, carrier, now, err);
            Balanced(s', AccountSubmit(l, r)) && !Known(s, l, PacketId(p, s.Last(p) + 1))
  {
    var id := PacketId(p, s.Last(p) + 1);
    assert !Assigned(s, id);
    assert !Known(s, l, id);
    if BodyLength(fs) > s.maxPacketSize || p !in s.paths {
      RejectBalanced(s, l, id);
    } else {
      SubmitBalanced(s, l, id, Pending(fs, carrier, 1, now + BASE_BACKOFF_MS));
    }
  }

  lemma RejectBalanced(s: State, l: Ledger, id: PacketId)
    requires Balanced(s, l) && id.seqNum == s.Last(id.path) + 1 && !Known(s, l, id)
    ensures Balanced(s.(nextSeq := s.nextSeq[id.path := id.seqNum]), Retire(l, {id}, Fate.Rejected))
  {
    RecordOneFate(s, l, s.(nextSeq := s.nextSeq[id.path := id.seqNum]), Retire(l, {id}, Fate.Rejected), id);
    RejectCounts(l, id);
  }

  lemma SubmitBalanced(s: State, l: Ledger, id: PacketId, p: Pending)
    requires Balanced(s, l) && id.seqNum == s.Last(id.path) + 1 && !Known(s, l, id) && p.attempts == 1
    ensures Balanced(s.(nextSeq := s.nextSeq[id.path := id.seqNum], pending := s.pending[id := p]),
                     l.(writes := l.writes[id := 1]))
  {
    var s' := s.(nextSeq := s.nextSeq[id.path := id.seqNum], pending := s.pending[id := p]);
    var l' := l.(writes := l.writes[id := 1]);
    RecordOneFate(s, l, s', l', id);
    assert Class(l', Acked) == Class(l, Acked) && Class(l', Dropped) == Class(l, Dropped);
    assert WritesBounded(s', l');
  }

  /** Handing out the next number and making it known. */
  lemma RecordOneFate(s: State, l: Ledger, s': State, l': Ledger, id: PacketId)
    requires OneFate(s, l) && id.seqNum == s.Last(id.path) + 1
    requires s'.nextSeq == s.nextSeq[id.path := id.seqNum]
    requires forall i :: Known(s', l', i) <==> Known(s, l, i) || i == id
    requires forall i :: i in s'.pending ==> i !in l'.fates
    ensures OneFate(s', l')
  {
    forall i
      ensures Known(s', l', i) <==> Assigned(s', i)
    {
      assert Known(s, l, i) <==> Assigned(s, i);
      assert Assigned(s', i) <==> Assigned(s, i) || i == id;
    }
  }

  /** Only numbers, table and counters matter. */
  lemma SameTable(s: State, s': State, l: Ledger)
    requires Balanced(s, l)
    requires s'.pending == s.pending && s'.nextSeq == s.nextSeq
    requires s'.ackedCount == s.ackedCount && s'.droppedCount == s.droppedCount
    ensures Balanced(s', l)
  {
    forall id
      ensures Known(s', l, id) <==> Assigned(s', id)
    {
      assert Known(s, l, id) <==> Assigned(s, id);
    }
  }

  lemma SubmitFrameBalanced(s: State, l: Ledger, p: PathId, f: Frame, carrier: nat, now: nat, err: WriteError)
    requires Balanced(s, l)
    ensures var (s', r) := SubmitFrame(s, p, f, carrier, now, err); Balanced(s', AccountSubmit(l, r))
  {
    var q := s.Queue(p) + [f];
    var queued := s.(queues := s.queues[p := q]);
    if AnyTooLarge(s.maxPacketSize, queued.Queue(p)) {
      SameTable(s, queued, l);
    } else {
      var emptied := s.(queues := s.queues[p := []]);
      SameTable(s, emptied, l);
      RecordBalanced(emptied, l, p, q, carrier, now, err);
    }
  }

  lemma SubmitStreamBalanced(s: State, l: Ledger, p: PathId, id: nat, send: Send, now: nat, err: WriteError)
    requires Balanced(s, l)
    ensures var (s', _, r) := SubmitFromSendStream(s, p, id, send, now, err); Balanced(s', AccountSubmit(l, r))
  {
    var fs := Popped(id, send, s.maxPacketSize).0;
    if fs != [] {
      PopLoopFrames(id, send.base, send.chunks, s.maxPacketSize);
      var taken := Fit(s.maxPacketSize, fs, 0);
      if taken.Some? && taken.value != [] {
        RecordBalanced(s, l, p, taken.value, id, now, err);
        var (s1, r) := Record(s, p, taken.value, id, now, err);
        SameTable(s1, SubmitFromSendStream(s, p, id, send, now, err).0, AccountSubmit(l, r));
      }
    }
  }

  lemma AckBalanced(s: State, l: Ledger, p: PathId, ranges: seq<AckRange>)
    requires Balanced(s, l)
    ensures Balanced(OnAck(s, p, ranges), Retire(l, AckedBy(s, p, ranges), Acked))
  {
    RetireOneFate(s, l, OnAck(s, p, ranges), AckedBy(s, p, ranges), Acked);
    RetireCounts(s, l, AckedBy(s, p, ranges), Acked);
  }

  lemma CancelBalanced(s: State, l: Ledger, streamId: nat)
    requires Balanced(s, l)
    ensures Balanced(Cancel(s, streamId), Retire(l, Packers.Cancelled(s, streamId), Cancelled))
  {
    RetireOneFate(s, l, Cancel(s, streamId), Packers.Cancelled(s, streamId), Cancelled);
    RetireCounts(s, l, Packers.Cancelled(s, streamId), Cancelled);
  }

  lemma CollectBalanced(s: State, l: Ledger, now: nat)
    requires Balanced(s, l)
    ensures Balanced(Collect(s, now), Account(l, s, CollectOp(now)))
  {
    RetireOneFate(s, l, Collect(s, now), GivenUp(s, now), Dropped);
    RetireCounts(s, l, GivenUp(s, now), Dropped);
    var l1, l2 := Retire(l, GivenUp(s, now), Dropped), Account(l, s, CollectOp(now));
    assert forall id :: Known(Collect(s, now), l1, id) == Known(Collect(s, now), l2, id);
    assert Class(l2, Acked) == Class(l1, Acked) && Class(l2, Dropped) == Class(l1, Dropped);
  }

  lemma UpdateBalanced(s: State, l: Ledger, op: Op)
    requires Balanced(s, l) && op.UpdateOp?
    ensures Balanced(Apply(s, op), Account(l, s, op))
  {
    if op.id in s.pending && (op.err.StreamNotExists? || Exhausted(s.pending[op.id])) {
      UpdateDrops(s, l, op);
    } else {
      UpdateReschedules(s, l, op);
    }
  }

  lemma UpdateDrops(s: State, l: Ledger, op: Op)
    requires Balanced(s, l) && op.UpdateOp? && op.id in s.pending
    requires op.err.StreamNotExists? || Exhausted(s.pending[op.id])
    ensures Balanced(Apply(s, op), Account(l, s, op))
  {
    hide Apply, Account, Update, CountsTwice, OneFate, Class;
    DropFacts(s, l, op);
    RetireOneFate(s, l, Apply(s, op), {op.id}, Dropped);
    RetireCounts(s, l, {op.id}, Dropped);
    TwiceAside(Apply(s, op), Retire(l, {op.id}, Dropped), Account(l, s, op));
  }

  lemma DropFacts(s: State, l: Ledger, op: Op)
    requires op.UpdateOp? && op.id in s.pending
    requires op.err.StreamNotExists? || Exhausted(s.pending[op.id])
    ensures var s', l', twice := Apply(s, op), Account(l, s, op), if CountsTwice(s, op) then 1 else 0;
            && s'.pending == s.pending - {op.id} && s'.nextSeq == s.nextSeq
            && s'.ackedCount == s.ackedCount && s'.droppedCount == s.droppedCount + 1 + twice
            && l'.fates == Retire(l, {op.id}, Dropped).fates && l'.writes == l.writes && l'.twice == l.twice + twice
            && l'.past == l.past
  {
  }

  /** The count of double drops is no part of the fates. */
  lemma TwiceAside(s: State, l: Ledger, l': Ledger)
    requires l'.fates == l.fates
    ensures OneFate(s, l) ==> OneFate(s, l')
    ensures forall k :: Class(l', k) == Class(l, k)
  {
    assert forall id :: Known(s, l', id) == Known(s, l, id);
  }

  lemma UpdateReschedules(s: State, l: Ledger, op: Op)
    requires Balanced(s, l) && op.UpdateOp?
    requires op.id !in s.pending || !(op.err.StreamNotExists? || Exhausted(s.pending[op.id]))
    ensures Balanced(Apply(s, op), Account(l, s, op))
  {
    var s' := Apply(s, op);
    assert s'.pending.Keys == s.pending.Keys;
    assert forall id :: id in s'.pending ==> s'.pending[id].attempts == s.pending[id].attempts;
    forall id
      ensures Known(s', l, id) <==> Assigned(s', id)
    {
      assert Known(s, l, id) <==> Assigned(s, id);
    }
  }

  lemma RegisterBalanced(s: State, l: Ledger, p: PathId)
    requires Balanced(s, l)
    ensures Balanced(Register(s, p), l)
  {
    forall id
      ensures Known(Register(s, p), l, id) <==> Assigned(Register(s, p), id)
    {
      assert Known(s, l, id) <==> Assigned(s, id);
    }
  }

  /** The fates that a registration ends with are moved, not changed. */
  lemma EndedTotals(s: State, l: Ledger, p: PathId, k: Fate)
    requires OneFate(s, l) && k != Forgotten
    ensures Total(EndRegistration(s, l, p), k) == Total(l, k)
  {
    var l', ended := EndRegistration(s, l, p), Ended(s, l, p);
    assert l'.past[..|l.past|] == l.past;
    SetSplit(Class(l, k), Class(l', k), Of(ended, k));
  }

  lemma UnregisterBalanced(s: State, l: Ledger, p: PathId)
    requires Balanced(s, l)
    ensures Balanced(Unregister(s, p), EndRegistration(s, l, p))
  {
    EndedTotals(s, l, p, Acked);
    EndedTotals(s, l, p, Dropped);
    var s', l' := Unregister(s, p), EndRegistration(s, l, p);
    hide Total;
    forall id
      ensures Known(s', l', id) <==> Assigned(s', id)
    {
      assert Known(s, l, id) <==> Assigned(s, id);
    }
  }

  lemma StepBalanced(s: State, l: Ledger, op: Op)
    requires Balanced(s, l)
    ensures Balanced(Apply(s, op), Account(l, s, op))
  {
    match op
    case SubmitFrameOp(p, f, carrier, now, err) => SubmitFrameBalanced(s, l, p, f, carrier, now, err);
    case SubmitStreamOp(p, id, send, now, err) => SubmitStreamBalanced(s, l, p, id, send, now, err);
    case AckOp(p, ranges) => AckBalanced(s, l, p, ranges);
    case CollectOp(now) => CollectBalanced(s, l, now);
    case UpdateOp(_, _, _, _) => UpdateBalanced(s, l, op);
    case CancelOp(id) => CancelBalanced(s, l, id);
    case RegisterOp(p) => RegisterBalanced(s, l, p);
    case UnregisterOp(p) => UnregisterBalanced(s, l, p);
  }

  /** State and history after these operations on a new packer. */
  function Run(max: nat, ops: seq<Op>): (State, Ledger) {
    if ops == [] then (State(max, map[], map[], map[], {}, map[], 0, 0), NO_HISTORY)
    else
      var (s, l) := Run(max, ops[..|ops| - 1]);
      (Apply(s, ops[|ops| - 1]), Account(l, s, ops[|ops| - 1]))
  }

  /** In every run: each number handed out under a registration that stands is pending or has exactly
      one fate, the counters equal the class sizes over all registrations up to double counting, and no
      packet is written more than 12 times. */
  lemma {:induction false} RunBalanced(max: nat, ops: seq<Op>)
    ensures var (s, l) := Run(max, ops); Balanced(s, l)
  {
    if ops == [] {
      assert Class(NO_HISTORY, Acked) == {} && Class(NO_HISTORY, Dropped) == {};
    } else {
      RunBalanced(max, ops[..|ops| - 1]);
      var (s, l) := Run(max, ops[..|ops| - 1]);
      StepBalanced(s, l, ops[|ops| - 1]);
    }
  }

  lemma RunLast(max: nat, ops: seq<Op>)
    requires ops != []
    ensures var n := |ops| - 1;
            && Run(max, ops).0 == Apply(Run(max, ops[..n]).0, ops[n])
            && Run(max, ops).1 == Account(Run(max, ops[..n]).1, Run(max, ops[..n]).0, ops[n])
  {
  }

  predicate CountsTwiceAt(max: nat, ops: seq<Op>, i: nat)
    requires i < |ops|
  {
    CountsTwice(Run(max, ops[..i]).0, ops[i])
  }

  /** The result of the i-th operation. */
  function ResultAt(max: nat, ops: seq<Op>, i: nat): SubmitResult
    requires i < |ops|
  {
    ResultOf(Run(max, ops[..i]).0, ops[i])
  }

  /** The drop counter is the number of dropped packets exactly when no write of a last attempt ever
      found its stream gone. */
  lemma {:induction false} DroppedCountExactly(max: nat, ops: seq<Op>)
    ensures var (s, l) := Run(max, ops);
            s.droppedCount == Total(l, Dropped)
            <==> forall i :: 0 <= i < |ops| ==> !CountsTwiceAt(max, ops, i)
  {
    RunBalanced(max, ops);
    TwiceCounted(max, ops);
  }

  lemma {:induction false} TwiceCounted(max: nat, ops: seq<Op>)
    ensures Run(max, ops).1.twice == 0
       <==> forall i :: 0 <= i < |ops| ==> !CountsTwiceAt(max, ops, i)
  {
    hide CountsTwiceAt, Account, Apply, CountsTwice;
    if ops != [] {
      var n := |ops| - 1;
      TwiceCounted(max, ops[..n]);
      TwiceStep(Run(max, ops[..n]).1, Run(max, ops[..n]).0, ops[n]);
      RunLast(max, ops);
      forall i | 0 <= i < n
        ensures CountsTwiceAt(max, ops[..n], i) == CountsTwiceAt(max, ops, i)
      {
        SameBefore(max, ops, i, n);
      }
      LastCounts(max, ops);
    }
  }

  lemma SameBefore(max: nat, ops: seq<Op>, i: nat, n: nat)
    requires i < n <= |ops|
    ensures CountsTwiceAt(max, ops[..n], i) == CountsTwiceAt(max, ops, i)
  {
    assert ops[..n][..i] == ops[..i];
  }

  lemma LastCounts(max: nat, ops: seq<Op>)
    requires ops != []
    ensures var n := |ops| - 1; CountsTwiceAt(max, ops, n) == CountsTwice(Run(max, ops[..n]).0, ops[n])
  {
  }

  lemma TwiceStep(l: Ledger, s: State, op: Op)
    ensures Account(l, s, op).twice == l.twice + if CountsTwice(s, op) then 1 else 0
  {
  }

  const ONE := PacketId(1, 1)

  /** One packet and `n` retransmissions of it, each written without an error. */
  function Tries(n: nat): seq<Op> {
    if n == 0 then [RegisterOp(1), SubmitFrameOp(1, Ping, 0, 0, NoError)]
    else Tries(n - 1) + [CollectOp(10000 * n), UpdateOp(ONE, NoError, 10000 * n, 0)]
  }

  lemma RunSnoc(max: nat, ops: seq<Op>, op: Op)
    ensures var (s, l) := Run(max, ops); Run(max, ops + [op]) == (Apply(s, op), Account(l, s, op))
  {
    assert (ops + [op])[..|ops|] == ops;
  }

  /** The one packet is pending after this many attempts and due at `now`. */
  predicate Trying(s: State, l: Ledger, attempts: nat, now: nat) {
    && s.pending.Keys == {ONE} && s.pending[ONE].attempts == attempts && Due(s.pending[ONE], now)
    && s.droppedCount == 0 && l.fates == map[] && l.past == []
  }

  lemma CollectOne(s: State, l: Ledger, attempts: nat, now: nat)
    requires Trying(s, l, attempts, now) && attempts < MAX_ATTEMPTS
    ensures Trying(Collect(s, now), Account(l, s, CollectOp(now)), attempts + 1, now)
  {
    assert GivenUp(s, now) == {} && Tasks(s, now) == {ONE};
    assert Collect(s, now).pending.Keys == {ONE};
  }

  lemma UpdateOne(s: State, l: Ledger, attempts: nat, now: nat)
    requires Trying(s, l, attempts, now) && attempts < MAX_ATTEMPTS
    ensures var op := UpdateOp(ONE, NoError, now, 0);
            Trying(Apply(s, op), Account(l, s, op), attempts, now + MAX_BACKOFF_MS)
  {
    assert Apply(s, UpdateOp(ONE, NoError, now, 0)).pending.Keys == {ONE};
  }

  lemma {:induction false} TriesLeaveIt(n: nat)
    requires n < MAX_ATTEMPTS - 1
    ensures var (s, l) := Run(1048576, Tries(n)); Trying(s, l, n + 1, 10000 * n + MAX_BACKOFF_MS)
  {
    hide Account, Apply, Run, Trying;
    if n == 0 {
      FirstTry();
    } else {
      var now := 10000 * n;
      TriesLeaveIt(n - 1);
      var ops, collect, update := Tries(n - 1), CollectOp(now), UpdateOp(ONE, NoError, now, 0);
      var (s, l) := Run(1048576, ops);
      LaterToo(s, l, n, 10000 * (n - 1) + MAX_BACKOFF_MS, now);
      CollectOne(s, l, n, now);
      RunSnoc(1048576, ops, collect);
      CollectApplied(s, now);
      UpdateOne(Collect(s, now), Account(l, s, collect), n + 1, now);
      RunSnoc(1048576, ops + [collect], update);
      assert ops + [collect] + [update] == Tries(n);
    }
  }

  lemma LaterToo(s: State, l: Ledger, attempts: nat, now: nat, later: nat)
    requires Trying(s, l, attempts, now) && now <= later
    ensures Trying(s, l, attempts, later)
  {
  }

  lemma CollectApplied(s: State, now: nat)
    ensures Apply(s, CollectOp(now)) == Collect(s, now)
  {
  }

  lemma FirstTry()
    ensures var (s, l) := Run(1048576, Tries(0)); Trying(s, l, 1, MAX_BACKOFF_MS)
  {
    var none: seq<Op> := [];
    var register, submit := RegisterOp(1), SubmitFrameOp(1, Ping, 0, 0, NoError);
    RunSnoc(1048576, none, register);
    RunSnoc(1048576, none + [register], submit);
    assert none + [register] + [submit] == Tries(0);
    var s := Run(1048576, none + [register]).0;
    assert s.Queue(1) + [Ping] == [Ping];
    assert BodyLength([Ping]) == 18 by {
      assert [Ping][1..] == [];
    }
    assert Apply(s, submit).pending.Keys == {ONE};
  }

  /** A packet whose twelfth write finds the stream gone is dropped once and counted twice. */
  lemma OneDropCountsTwice()
    ensures var ops := Tries(10) + [CollectOp(110000)] + [UpdateOp(ONE, StreamNotExists, 110000, 0)];
            var (s, l) := Run(1048576, ops);
            Class(l, Dropped) == {ONE} && Total(l, Dropped) == 1 && s.droppedCount == 2
  {
    hide Run, Tries, Apply, Account;
    var ops, collect, update := Tries(10), CollectOp(110000), UpdateOp(ONE, StreamNotExists, 110000, 0);
    TriesLeaveIt(10);
    var (s, l) := Run(1048576, ops);
    CollectOne(s, l, 11, 110000);
    RunSnoc(1048576, ops, collect);
    CollectApplied(s, 110000);
    RunSnoc(1048576, ops + [collect], update);
    LastTryFails(Collect(s, 110000), Account(l, s, collect), update);
  }

  lemma LastTryFails(s: State, l: Ledger, op: Op)
    requires Trying(s, l, MAX_ATTEMPTS, 110000) && op == UpdateOp(ONE, StreamNotExists, 110000, 0)
    ensures Apply(s, op).droppedCount == 2 && Class(Account(l, s, op), Dropped) == {ONE}
    ensures Account(l, s, op).past == []
  {
  }

  /** Every packet given up was written twelve times. */
  predicate TriedOut(l: Ledger) {
    forall id :: id in l.fates && l.fates[id] == Dropped ==> WrittenTimes(l, id) == 12
  }

  predicate StreamsExist(ops: seq<Op>) {
    forall i :: 0 <= i < |ops| ==> ops[i].UpdateOp? ==> !ops[i].err.StreamNotExists?
  }

  lemma StepTriesOut(s: State, l: Ledger, op: Op)
    requires Balanced(s, l) && TriedOut(l) && (op.UpdateOp? ==> !op.err.StreamNotExists?)
    ensures TriedOut(Account(l, s, op))
  {
    if op.SubmitFrameOp? || op.SubmitStreamOp? {
      SubmissionTriesOut(s, l, op);
    }
  }

  lemma SubmissionTriesOut(s: State, l: Ledger, op: Op)
    requires Balanced(s, l) && TriedOut(l) && (op.SubmitFrameOp? || op.SubmitStreamOp?)
    ensures TriedOut(Account(l, s, op))
  {
    hide ResultOf, Apply;
    var r := ResultOf(s, op);
    NumberIsLast(s, op);
    if r.Submitted? || r.Rejected? {
      assert !Assigned(s, r.id);
      assert !Known(s, l, r.id);
    }
  }

  /** In every run in which no write finds its stream gone, a packet is given up only after it was
      written twelve times. */
  lemma {:induction false} GivenUpAfterTwelve(max: nat, ops: seq<Op>)
    requires StreamsExist(ops)
    ensures TriedOut(Run(max, ops).1)
    decreases |ops|
  {
    if ops != [] {
      var before := ops[..|ops| - 1];
      GivenUpAfterTwelve(max, before);
      RunBalanced(max, before);
      StepTriesOut(Run(max, before).0, Run(max, before).1, ops[|ops| - 1]);
      RunLast(max, ops);
    }
  }

  /** The i-th operation registers the path, and none after it unregisters it. */
  predicate RegisteredAt(ops: seq<Op>, i: nat, p: PathId) {
    i < |ops| && ops[i] == RegisterOp(p) && forall k :: i < k < |ops| ==> ops[k] != UnregisterOp(p)
  }

  ghost predicate RegisteredLast(ops: seq<Op>, p: PathId) {
    exists i :: RegisteredAt(ops, i, p)
  }

  lemma RegisteredAtSnoc(ops: seq<Op>, op: Op, i: nat, p: PathId)
    ensures RegisteredAt(ops + [op], i, p)
       <==> if i == |ops| then op == RegisterOp(p) else RegisteredAt(ops, i, p) && op != UnregisterOp(p)
  {
    var all := ops + [op];
    assert all[|ops|] == op;
    if i < |ops| {
      assert all[i] == ops[i] && forall k :: i < k < |ops| ==> all[k] == ops[k];
    }
  }

  lemma RegisteredStep(ops: seq<Op>, op: Op, p: PathId)
    ensures RegisteredLast(ops + [op], p)
       <==> op == RegisterOp(p) || (op != UnregisterOp(p) && RegisteredLast(ops, p))
  {
    forall i: nat
      ensures RegisteredAt(ops + [op], i, p)
         <==> if i == |ops| then op == RegisterOp(p) else RegisteredAt(ops, i, p) && op != UnregisterOp(p)
    {
      RegisteredAtSnoc(ops, op, i, p);
    }
    assert !RegisteredAt(ops, |ops|, p);
  }

  lemma PathsStep(s: State, op: Op, p: PathId)
    ensures p in Apply(s, op).paths <==> op == RegisterOp(p) || (op != UnregisterOp(p) && p in s.paths)
  {
  }

  /** In every run a path counts as registered exactly when it was registered and not unregistered
      since; so nothing is recorded for it at any other time. */
  lemma {:induction false} RegisteredExactly(max: nat, ops: seq<Op>, p: PathId)
    ensures p in Run(max, ops).0.paths <==> RegisteredLast(ops, p)
    decreases |ops|
  {
    hide Apply, RegisteredLast;
    if ops == [] {
      NothingRegistered(ops, p);
    } else {
      var n := |ops| - 1;
      RegisteredExactly(max, ops[..n], p);
      RunLast(max, ops);
      PathsStep(Run(max, ops[..n]).0, ops[n], p);
      RegisteredStep(ops[..n], ops[n], p);
      assert ops[..n] + [ops[n]] == ops;
    }
  }

  lemma NothingRegistered(ops: seq<Op>, p: PathId)
    requires ops == []
    ensures !RegisteredLast(ops, p)
  {
  }

  // ----- Packet numbers over runs -----

  /** The submission used a number of this path. */
  predicate Numbered(r: SubmitResult, p: PathId) {
    (r.Submitted? || r.Rejected?) && r.id.path == p
  }

  /** So did the i-th operation. */
  predicate NumberedAt(max: nat, ops: seq<Op>, i: nat, p: PathId) {
    i < |ops| && Numbered(ResultAt(max, ops, i), p)
  }

  predicate UnregistersBetween(ops: seq<Op>, i: nat, j: nat, p: PathId) {
    exists k :: i < k < j && k < |ops| && ops[k] == UnregisterOp(p)
  }

  function LastAt(max: nat, ops: seq<Op>, i: nat, p: PathId): nat
    requires i <= |ops|
  {
    Run(max, ops[..i]).0.Last(p)
  }

  lemma NumberIsLast(s: State, op: Op)
    ensures var r := ResultOf(s, op);
            (r.Submitted? || r.Rejected?) ==>
              r.id.seqNum == s.Last(r.id.path) + 1 == Apply(s, op).Last(r.id.path)
  {
  }

  lemma LastNeverFalls(s: State, op: Op, p: PathId)
    requires op != UnregisterOp(p)
    ensures s.Last(p) <= Apply(s, op).Last(p)
  {
  }

  /** Only a submission that uses a number moves the last one. */
  lemma LastMoves(s: State, op: Op, p: PathId)
    ensures Apply(s, op).Last(p) == if Numbered(ResultOf(s, op), p) then s.Last(p) + 1
                                    else if op == UnregisterOp(p) then 0 else s.Last(p)
  {
  }

  lemma LastStep(max: nat, ops: seq<Op>, i: nat, p: PathId)
    requires i < |ops|
    ensures LastAt(max, ops, i + 1, p) == if NumberedAt(max, ops, i, p) then LastAt(max, ops, i, p) + 1
                                          else if ops[i] == UnregisterOp(p) then 0 else LastAt(max, ops, i, p)
    ensures NumberedAt(max, ops, i, p) ==> ResultAt(max, ops, i).id == PacketId(p, LastAt(max, ops, i, p) + 1)
  {
    NextState(max, ops, i);
    hide Run, Apply, ResultOf;
    LastMoves(Run(max, ops[..i]).0, ops[i], p);
    NumberIsLast(Run(max, ops[..i]).0, ops[i]);
  }

  /** Within one registration numbers only grow. */
  lemma {:induction false} LastGrows(max: nat, ops: seq<Op>, i: nat, j: nat, p: PathId)
    requires i < j <= |ops| && NumberedAt(max, ops, i, p) && !UnregistersBetween(ops, i, j, p)
    ensures ResultAt(max, ops, i).id.seqNum <= LastAt(max, ops, j, p)
    decreases j
  {
    hide LastAt, NumberedAt;
    LastStep(max, ops, i, p);
    if i + 1 < j {
      assert !UnregistersBetween(ops, i, j - 1, p);
      LastGrows(max, ops, i, j - 1, p);
      LastStep(max, ops, j - 1, p);
    }
  }

  /** A submission uses the next number of its path. No packet has it under the present registration,
      and it is larger than every number used since the path was last unregistered, whatever became of
      other paths. */
  lemma NumbersAreFresh(max: nat, ops: seq<Op>, op: Op)
    ensures var (s, l) := Run(max, ops);
            var r := ResultOf(s, op);
            (r.Submitted? || r.Rejected?) ==>
              && r.id.seqNum == s.Last(r.id.path) + 1 == Apply(s, op).Last(r.id.path)
              && !Known(s, l, r.id)
              && (forall i :: NumberedAt(max, ops, i, r.id.path) && !UnregistersBetween(ops, i, |ops|, r.id.path) ==>
                                ResultAt(max, ops, i).id.seqNum < r.id.seqNum)
  {
    RunBalanced(max, ops);
    var (s, l) := Run(max, ops);
    var r := ResultOf(s, op);
    if r.Submitted? || r.Rejected? {
      NumberIsLast(s, op);
      assert !Assigned(s, r.id);
      assert ops[..|ops|] == ops;
      forall i | NumberedAt(max, ops, i, r.id.path) && !UnregistersBetween(ops, i, |ops|, r.id.path)
        ensures ResultAt(max, ops, i).id.seqNum < r.id.seqNum
      {
        LastGrows(max, ops, i, |ops|, r.id.path);
      }
    }
  }

  /** From where the numbers of a path start, the first submission that uses one gets 1. */
  lemma {:induction false} FirstIsOne(max: nat, ops: seq<Op>, i: nat, j: nat, p: PathId) returns (first: nat)
    requires i <= j && NumberedAt(max, ops, j, p) && LastAt(max, ops, i, p) == 0
    ensures i <= first <= j && NumberedAt(max, ops, first, p)
    ensures ResultAt(max, ops, first).id == PacketId(p, 1)
    decreases j - i
  {
    AtLeast(max, ops, j, p);
    hide LastAt, NumberedAt;
    LastStep(max, ops, i, p);
    if NumberedAt(max, ops, i, p) {
      first := i;
    } else {
      assert i != j;
      first := FirstIsOne(max, ops, i + 1, j, p);
    }
  }

  /** Two submissions got the same number of this path. */
  ghost predicate Reused(max: nat, ops: seq<Op>, p: PathId) {
    exists i, j :: i < j && NumberedAt(max, ops, i, p) && NumberedAt(max, ops, j, p)
                   && ResultAt(max, ops, i).id == ResultAt(max, ops, j).id
  }

  /** The path was unregistered between two submissions that used numbers of it. */
  ghost predicate UsedAcross(max: nat, ops: seq<Op>, p: PathId) {
    exists i, j :: i < j && NumberedAt(max, ops, i, p) && NumberedAt(max, ops, j, p) && UnregistersBetween(ops, i, j, p)
  }

  /** In every run a packet number is handed out twice on a path exactly when the path was unregistered
      between two uses of it. */
  lemma NumbersReusedExactly(max: nat, ops: seq<Op>, p: PathId)
    ensures Reused(max, ops, p) <==> UsedAcross(max, ops, p)
  {
    hide LastAt, NumberedAt, ResultAt, UnregistersBetween;
    if Reused(max, ops, p) {
      var i, j := SameNumber(max, ops, p);
      AtLeast(max, ops, j, p);
      LastStep(max, ops, j, p);
      if !UnregistersBetween(ops, i, j, p) {
        LastGrows(max, ops, i, j, p);
      }
    }
    if UsedAcross(max, ops, p) {
      var i, j :| i < j && NumberedAt(max, ops, i, p) && NumberedAt(max, ops, j, p) && UnregistersBetween(ops, i, j, p);
      var k := Between(ops, i, j, p);
      NothingUsed(max, ops, p);
      AtLeast(max, ops, i, p);
      var first := FirstIsOne(max, ops, 0, i, p);
      NotNumbered(max, ops, k, p);
      LastStep(max, ops, k, p);
      var again := FirstIsOne(max, ops, k + 1, j, p);
    }
  }

  lemma SameNumber(max: nat, ops: seq<Op>, p: PathId) returns (i: nat, j: nat)
    requires Reused(max, ops, p)
    ensures i < j && NumberedAt(max, ops, i, p) && NumberedAt(max, ops, j, p)
    ensures ResultAt(max, ops, i).id == ResultAt(max, ops, j).id
  {
    i, j :| i < j && NumberedAt(max, ops, i, p) && NumberedAt(max, ops, j, p)
            && ResultAt(max, ops, i).id == ResultAt(max, ops, j).id;
  }

  lemma AtLeast(max: nat, ops: seq<Op>, i: nat, p: PathId)
    requires NumberedAt(max, ops, i, p)
    ensures i < |ops|
  {
  }

  lemma Between(ops: seq<Op>, i: nat, j: nat, p: PathId) returns (k: nat)
    requires UnregistersBetween(ops, i, j, p)
    ensures i < k < j && k < |ops| && ops[k] == UnregisterOp(p)
  {
    k :| i < k < j && k < |ops| && ops[k] == UnregisterOp(p);
  }

  lemma NothingUsed(max: nat, ops: seq<Op>, p: PathId)
    ensures LastAt(max, ops, 0, p) == 0
  {
  }

  lemma NotNumbered(max: nat, ops: seq<Op>, k: nat, p: PathId)
    requires k < |ops| && ops[k] == UnregisterOp(p)
    ensures !NumberedAt(max, ops, k, p)
  {
  }

  /** Registered, used, unregistered and registered again: number 1 is handed out a second time. */
  const TWO_REGISTRATIONS: seq<Op> := [
    RegisterOp(1), SubmitFrameOp(1, Ping, 0, 0, NoError), UnregisterOp(1), RegisterOp(1),
    SubmitFrameOp(1, Ping, 0, 0, NoError)]

  /** Nothing is queued, and the path, if it is registered, has not used a number. */
  predicate Unused(s: State) {
    s.maxPacketSize == 1048576 && s.Queue(1) == [] && s.Last(1) == 0
  }

  lemma PingGoesOut(s: State)
    requires Unused(s) && 1 in s.paths
    ensures var op := SubmitFrameOp(1, Ping, 0, 0, NoError);
            ResultOf(s, op) == Submitted(ONE, NoError) && Unused(Unregister(Apply(s, op), 1))
  {
    assert [] + [Ping] == [Ping] && [Ping][1..] == [];
    assert TotalSize([Ping]) == 1;
  }

  lemma NumberHandedOutTwice()
    ensures ResultAt(1048576, TWO_REGISTRATIONS, 1) == Submitted(ONE, NoError)
    ensures ResultAt(1048576, TWO_REGISTRATIONS, 4) == Submitted(ONE, NoError)
    ensures Reused(1048576, TWO_REGISTRATIONS, 1)
  {
    hide Run, Apply, Unused;
    var ops := TWO_REGISTRATIONS;
    NextState(1048576, ops, 0);
    NextState(1048576, ops, 1);
    NextState(1048576, ops, 2);
    NextState(1048576, ops, 3);
    var s0, s1, s3 := Run(1048576, ops[..0]).0, Run(1048576, ops[..1]).0, Run(1048576, ops[..3]).0;
    NewIsUnused(ops[..0]);
    RegisterUnused(s0);
    PingGoesOut(s1);
    UnregisterApplied(Run(1048576, ops[..2]).0);
    RegisterUnused(s3);
    PingGoesOut(Run(1048576, ops[..4]).0);
    assert NumberedAt(1048576, ops, 1, 1) && NumberedAt(1048576, ops, 4, 1);
  }

  lemma NextState(max: nat, ops: seq<Op>, i: nat)
    requires i < |ops|
    ensures Run(max, ops[..i + 1]).0 == Apply(Run(max, ops[..i]).0, ops[i])
  {
    RunLast(max, ops[..i + 1]);
    assert ops[..i + 1][..i] == ops[..i];
  }

  lemma NewIsUnused(ops: seq<Op>)
    requires ops == []
    ensures Unused(Run(1048576, ops).0)
  {
  }

  lemma RegisterUnused(s: State)
    requires Unused(s)
    ensures var s' := Apply(s, RegisterOp(1)); Unused(s') && 1 in s'.paths
  {
  }

  lemma UnregisterApplied(s: State)
    ensures Apply(s, UnregisterOp(1)) == Unregister(s, 1)
  {
  }

  /** Once the queue of a path holds an oversized frame, every later SubmitFrame on it is refused, whatever
      else the packer does. */
  lemma {:induction false} BlockedForever(s: State, ops: seq<Op>, p: PathId)
    requires AnyTooLarge(s.maxPacketSize, s.Queue(p))
    ensures var s' := ApplyAll(s, ops);
            && AnyTooLarge(s'.maxPacketSize, s'.Queue(p))
            && forall op: Op :: op.SubmitFrameOp? && op.path == p ==> ResultOf(s', op) == Refused
    decreases |ops|
  {
    if ops == [] {
      forall op: Op | op.SubmitFrameOp? && op.path == p
        ensures ResultOf(s, op) == Refused
      {
        BlockedQueueStaysBlocked(s, p, op.frame, op.carrier, op.now, op.err);
      }
    } else {
      var op := ops[0];
      if op.SubmitFrameOp? && op.path == p {
        BlockedQueueStaysBlocked(s, p, op.frame, op.carrier, op.now, op.err);
      } else {
        assert Apply(s, op).Queue(p) == s.Queue(p) && Apply(s, op).maxPacketSize == s.maxPacketSize;
      }
      BlockedForever(Apply(s, op), ops[1..], p);
    }
  }

  /** One stream frame above the limit is enough: it is refused, stays in the queue, and has every later
      SubmitFrame on its path refused. */
  lemma OversizedFrameBlocks(s: State, p: PathId, f: Frame, carrier: nat, now: nat, err: WriteError, ops: seq<Op>)
    requires Oversized(s.maxPacketSize, f)
    ensures var (s1, r) := SubmitFrame(s, p, f, carrier, now, err);
            && r == Refused && s1.Queue(p) == s.Queue(p) + [f]
            && forall op: Op :: op.SubmitFrameOp? && op.path == p ==> ResultOf(ApplyAll(s1, ops), op) == Refused
  {
    var q := s.Queue(p) + [f];
    assert TooLarge(s.maxPacketSize, q[|s.Queue(p)|]);
    BlockedForever(SubmitFrame(s, p, f, carrier, now, err).0, ops, p);
  }

  /** A stream frame whose estimate, 21 bytes and its data, is above the limit. */
  predicate Oversized(max: nat, f: Frame) {
    f.Stream? && 21 + |f.data| > max
  }

  /** The i-th operation submits such a frame on this path. */
  predicate OversizedAt(max: nat, ops: seq<Op>, i: nat, p: PathId) {
    i < |ops| && ops[i].SubmitFrameOp? && ops[i].path == p && Oversized(max, ops[i].frame)
  }

  ghost predicate EverOversized(max: nat, ops: seq<Op>, p: PathId) {
    exists i :: OversizedAt(max, ops, i, p)
  }

  lemma EverOversizedSnoc(max: nat, ops: seq<Op>, op: Op, p: PathId)
    ensures EverOversized(max, ops + [op], p)
       <==> EverOversized(max, ops, p) || (op.SubmitFrameOp? && op.path == p && Oversized(max, op.frame))
  {
    var longer := ops + [op];
    assert forall i :: OversizedAt(max, ops, i, p) ==> OversizedAt(max, longer, i, p);
    assert forall i: nat :: OversizedAt(max, longer, i, p) && i < |ops| ==> OversizedAt(max, ops, i, p);
    assert OversizedAt(max, longer, |ops|, p) <==> op.SubmitFrameOp? && op.path == p && Oversized(max, op.frame);
  }

  /** Nothing is ever queued but behind an oversized frame. */
  predicate QueueAsFrames(s: State, max: nat, p: PathId, blocked: bool) {
    s.maxPacketSize == max && if blocked then AnyTooLarge(max, s.Queue(p)) else s.Queue(p) == []
  }

  lemma QueueStep(s: State, max: nat, p: PathId, blocked: bool, op: Op)
    requires QueueAsFrames(s, max, p, blocked)
    ensures QueueAsFrames(Apply(s, op), max, p,
                          blocked || (op.SubmitFrameOp? && op.path == p && Oversized(max, op.frame)))
  {
    if op.SubmitFrameOp? && op.path == p {
      if blocked {
        BlockedQueueStaysBlocked(s, p, op.frame, op.carrier, op.now, op.err);
      } else {
        OneQueued(s.maxPacketSize, op.frame);
      }
    } else {
      assert Apply(s, op).Queue(p) == s.Queue(p) && Apply(s, op).maxPacketSize == s.maxPacketSize;
    }
  }

  lemma OneQueued(max: nat, f: Frame)
    ensures [] + [f] == [f] && (AnyTooLarge(max, [f]) <==> Oversized(max, f))
  {
    if TooLarge(max, f) {
      assert TooLarge(max, [f][0]);
    }
  }

  /** In every run the queue of a path is empty, or it holds an oversized frame because one was submitted
      on the path. */
  lemma {:induction false} QueueExactly(max: nat, ops: seq<Op>, p: PathId)
    ensures QueueAsFrames(Run(max, ops).0, max, p, EverOversized(max, ops, p))
    decreases |ops|
  {
    hide Apply, QueueAsFrames, EverOversized;
    if ops == [] {
      NothingQueued(max, ops, p);
    } else {
      var n := |ops| - 1;
      QueueExactly(max, ops[..n], p);
      RunLast(max, ops);
      QueueStep(Run(max, ops[..n]).0, max, p, EverOversized(max, ops[..n], p), ops[n]);
      EverOversizedSnoc(max, ops[..n], ops[n], p);
      assert ops[..n] + [ops[n]] == ops;
    }
  }

  lemma NothingQueued(max: nat, ops: seq<Op>, p: PathId)
    requires ops == []
    ensures QueueAsFrames(Run(max, ops).0, max, p, EverOversized(max, ops, p))
  {
  }

  /** In every run SubmitFrame refuses a frame exactly when it, or one submitted on the path before, is
      above the limit. Otherwise the frame goes out by itself, exactly when its body is within the limit
      and the path is registered: nothing is ever batched. */
  lemma RefusedExactly(max: nat, ops: seq<Op>, p: PathId, f: Frame, carrier: nat, now: nat, err: WriteError)
    ensures var s := Run(max, ops).0;
            var (s', r) := SubmitFrame(s, p, f, carrier, now, err);
            && (r == Refused <==> EverOversized(max, ops, p) || Oversized(max, f))
            && (r.Submitted? <==> r != Refused && BodyLength([f]) <= max && p in s.paths)
            && (r.Submitted? ==> r.id in s'.pending && s'.pending[r.id].frames == [f])
  {
    QueueExactly(max, ops, p);
    OneQueued(max, f);
    var s := Run(max, ops).0;
    if EverOversized(max, ops, p) {
      BlockedQueueStaysBlocked(s, p, f, carrier, now, err);
    }
    hide Run, EverOversized;
  }

  function ApplyAll(s: State, ops: seq<Op>): State
    decreases |ops|
  {
    if ops == [] then s else ApplyAll(Apply(s, ops[0]), ops[1..])
  }
}
