/** Packet assembly, numbering and the table of unacknowledged packets
    (internal/transport/packer.go). */
module Packers {
  import opened AckRanges
  import opened Common
  import opened Frames
  import opened Packets
  import opened SendStreams

  const MAX_ATTEMPTS: nat := 12
  const BASE_BACKOFF_MS: nat := 200
  const MAX_BACKOFF_MS: nat := 3000

  datatype PacketId = PacketId(path: PathId, seqNum: nat)

  type pos = n: nat | n > 0 witness 1

  /** An unacknowledged packet. Its body is determined by its number and frames. */
  datatype Pending = Pending(frames: seq<Frame>, carrier: nat, attempts: pos, nextRetry: nat)

  /** The error of a write: none, the stream-not-exists error, or any other. */
  datatype WriteError = NoError | StreamNotExists | OtherError

  datatype SubmitResult =
    | Nothing                                     // no packet was made
    | Refused                                     // frame too large, no number used
    | Rejected(id: PacketId)                      // a number was used, nothing was recorded
    | Submitted(id: PacketId, err: WriteError)    // recorded, then written with this outcome

  /** `pending` is keyed by path and number; the code's nested maps give the same table. */
  datatype State = State(
    maxPacketSize: nat,
    queues: map<PathId, seq<Frame>>,
    nextSeq: map<PathId, nat>,
    pending: map<PacketId, Pending>,
    paths: set<PathId>,
    bufferedStreams: map<nat, PathId>,
    ackedCount: nat,
    droppedCount: nat
  ) {
    function Last(p: PathId): nat {
      if p in nextSeq then nextSeq[p] else 0
    }

    function Queue(p: PathId): seq<Frame> {
      if p in queues then queues[p] else []
    }
  }

  /** The size estimate for a stream frame; the encoding is 5 bytes longer. */
  function Estimate(f: Frame): nat
    requires f.Stream?
  {
    21 + |f.data|
  }

  predicate TooLarge(max: nat, f: Frame) {
    f.Stream? && Estimate(f) > max
  }

  predicate AnyTooLarge(max: nat, fs: seq<Frame>) {
    exists i :: 0 <= i < |fs| && TooLarge(max, fs[i])
  }

  /** Numbering and recording, common to both submit functions. */
  function Record(s: State, p: PathId, fs: seq<Frame>, carrier: nat, now: nat, err: WriteError): (State, SubmitResult) {
    var id := PacketId(p, s.Last(p) + 1);
    var numbered := s.(nextSeq := s.nextSeq[p := id.seqNum]);
    if BodyLength(fs) > s.maxPacketSize || p !in s.paths then (numbered, Rejected(id))
    else
      (numbered.(pending := s.pending[id := Pending(fs, carrier, 1, now + BASE_BACKOFF_MS)]), Submitted(id, err))
  }

  /** SubmitFrame. As written, the `break` on a full packet leaves the type switch and not the loop,
      so every queued frame is taken; a frame too large by itself returns with the queue untouched. */
  function SubmitFrame(s: State, p: PathId, f: Frame, carrier: nat, now: nat, err: WriteError): (State, SubmitResult) {
    var queued := s.(queues := s.queues[p := s.Queue(p) + [f]]);
    if AnyTooLarge(s.maxPacketSize, queued.Queue(p)) then (queued, Refused)
    else Record(s.(queues := s.queues[p := []]), p, queued.Queue(p), carrier, now, err)
  }

  /** The packing loop of SubmitFromSendStream: the frames taken, or none on an oversized one. */
  function Fit(max: nat, fs: seq<Frame>, size: nat): Option<seq<Frame>>
    requires StreamFrames(fs)
  {
    if fs == [] then Some([])
    else if Estimate(fs[0]) > max then None
    else if size + Estimate(fs[0]) > max then Some([])
    else
      var rest := Fit(max, fs[1..], size + Estimate(fs[0]));
      if rest.None? then None else Some([fs[0]] + rest.value)
  }

  function SubmitFromSendStream(s: State, p: PathId, id: nat, send: Send, now: nat, err: WriteError):
    (State, Send, SubmitResult)
  {
    var (fs, send') := Popped(id, send, s.maxPacketSize);
    if fs == [] then (s, send', Nothing)
    else
      PopLoopFrames(id, send.base, send.chunks, s.maxPacketSize);
      var taken := Fit(s.maxPacketSize, fs, 0);
      if taken.None? then (s, send', Refused)
      else if taken.value == [] then (s, send', Nothing)
      else
        var (s', r) := Record(s, p, taken.value, id, now, err);
        var flushLater := r.Submitted? && err.NoError? && send'.chunks != [];
        (if flushLater then s'.(bufferedStreams := s'.bufferedStreams[id := p]) else s', send', r)
  }

  function AckedBy(s: State, p: PathId, ranges: seq<AckRange>): set<PacketId> {
    set id | id in s.pending && id.path == p && Covers(ranges, id.seqNum)
  }

  function OnAck(s: State, p: PathId, ranges: seq<AckRange>): State {
    var gone := AckedBy(s, p, ranges);
    s.(pending := s.pending - gone, ackedCount := s.ackedCount + |gone|)
  }

  predicate Due(p: Pending, now: nat) {
    p.nextRetry <= now
  }

  predicate Exhausted(p: Pending) {
    p.attempts >= MAX_ATTEMPTS
  }

  /** The packets the retransmit loop takes up, and those it gives up on, at time `now`. */
  function Tasks(s: State, now: nat): set<PacketId> {
    set id | id in s.pending && Due(s.pending[id], now) && !Exhausted(s.pending[id])
  }

  function GivenUp(s: State, now: nat): set<PacketId> {
    set id | id in s.pending && Due(s.pending[id], now) && Exhausted(s.pending[id])
  }

  function Collect(s: State, now: nat): State {
    s.(pending := map id | id in s.pending && id !in GivenUp(s, now) ::
                    if id in Tasks(s, now) then s.pending[id].(attempts := s.pending[id].attempts + 1)
                    else s.pending[id],
       droppedCount := s.droppedCount + |GivenUp(s, now)|)
  }

  function Pow2(n: nat): (r: nat)
    ensures r > 0
  {
    if n == 0 then 1 else 2 * Pow2(n - 1)
  }

  function Capped(ms: nat): nat {
    if ms > MAX_BACKOFF_MS then MAX_BACKOFF_MS else ms
  }

  /** Wait before the next try; `clock` is the nanosecond clock that supplies the jitter. */
  function Wait(attempts: pos, err: WriteError, clock: nat): nat {
    if err.NoError? then Capped(BASE_BACKOFF_MS * Pow2(attempts))
    else
      var backoff := Capped(BASE_BACKOFF_MS * Pow2(attempts - 1));
      if backoff / 4 > 0 then backoff + clock % (backoff / 4) else backoff
  }

  /** After the write of one task. As written, a packet dropped because its stream is gone is
      counted again when it has also used its attempts. */
  function Update(s: State, id: PacketId, err: WriteError, now: nat, clock: nat): State {
    if id !in s.pending then s
    else
      var p := s.pending[id];
      var exhausted := if Exhausted(p) then 1 else 0;
      if err.StreamNotExists? then
        s.(pending := s.pending - {id}, droppedCount := s.droppedCount + 1 + exhausted)
      else if Exhausted(p) then
        s.(pending := s.pending - {id}, droppedCount := s.droppedCount + 1)
      else
        s.(pending := s.pending[id := p.(nextRetry := now + Wait(p.attempts, err, clock))])
  }

  /** Frames that are not stream frames are listed under stream 0. */
  predicate Carries(fs: seq<Frame>, streamId: nat) {
    exists i :: 0 <= i < |fs| && (if fs[i].Stream? then fs[i].streamId else 0) == streamId
  }

  function Cancelled(s: State, streamId: nat): set<PacketId> {
    set id | id in s.pending && Carries(s.pending[id].frames, streamId)
  }

  function Cancel(s: State, streamId: nat): State {
    s.(pending := s.pending - Cancelled(s, streamId))
  }

  function Register(s: State, p: PathId): State {
    if p in s.paths then s
    else s.(paths := s.paths + {p}, nextSeq := if p in s.nextSeq then s.nextSeq else s.nextSeq[p := 0])
  }

  function Unregister(s: State, p: PathId): State {
    s.(paths := s.paths - {p}, nextSeq := s.nextSeq - {p},
       pending := map id | id in s.pending && id.path != p :: s.pending[id])
  }

  // ----- The packer object -----

  class Packer {
    const maxPacketSize: nat
    var queues: map<PathId, seq<Frame>>
    var nextPacketSeq: map<PathId, nat>
    var pending: map<PacketId, Pending>
    var paths: set<PathId>
    var bufferedStreams: map<nat, PathId>
    var ackedCount: nat
    var droppedCount: nat

    function Value(): State
      reads this
    {
      State(maxPacketSize, queues, nextPacketSeq, pending, paths, bufferedStreams, ackedCount, droppedCount)
    }

    constructor (max: nat)
      ensures Value() == State(max, map[], map[], map[], {}, map[], 0, 0)
    {
      maxPacketSize := max;
      queues, nextPacketSeq, pending, paths, bufferedStreams := map[], map[], map[], {}, map[];
      ackedCount, droppedCount := 0, 0;
    }

    method RecordPacket(p: PathId, fs: seq<Frame>, carrier: nat, now: nat, err: WriteError) returns (r: SubmitResult)
      modifies this`nextPacketSeq, this`pending
      ensures (Value(), r) == Record(old(Value()), p, fs, carrier, now, err)
    {
      var seqNum := (if p in nextPacketSeq then nextPacketSeq[p] else 0) + 1;
      nextPacketSeq := nextPacketSeq[p := seqNum];
      if BodyLength(fs) > maxPacketSize {
        return Rejected(PacketId(p, seqNum));
      }
      if p !in paths {
        return Rejected(PacketId(p, seqNum));
      }
      pending := pending[PacketId(p, seqNum) := Pending(fs, carrier, 1, now + BASE_BACKOFF_MS)];
      return Submitted(PacketId(p, seqNum), err);
    }

    method Submit(p: PathId, f: Frame, carrier: nat, now: nat, err: WriteError) returns (r: SubmitResult)
      modifies this
      ensures (Value(), r) == SubmitFrame(old(Value()), p, f, carrier, now, err)
    {
      queues := queues[p := (if p in queues then queues[p] else []) + [f]];
      var frames := queues[p];
      ghost var queued := Value();
      var assembled: seq<Frame> := [];
      var size := 0;
      for i := 0 to |frames|
        invariant Value() == queued
        invariant assembled == frames[..i]
        invariant forall k :: 0 <= k < i ==> !TooLarge(maxPacketSize, frames[k])
      {
        match frames[i] {
          case Stream(_, _, _, data) =>
            var encSize := 1 + 8 + 8 + 4 + |data|;
            if encSize > maxPacketSize {
              assert TooLarge(maxPacketSize, frames[i]);
              return Refused;
            }
            if size + encSize <= maxPacketSize {
              size := size + encSize;
            }
          case Ack(_, _, _) =>
            size := size + 32;
          case _ =>
            size := size + 16;
        }
        assembled := assembled + [frames[i]];
      }
      assert assembled == frames;
      queues := queues[p := frames[|assembled|..]];
      assert queued.queues == old(queues)[p := frames] && frames[|assembled|..] == [];
      SetTwice(old(queues), p, frames, []);
      r := RecordPacket(p, assembled, carrier, now, err);
    }

    method SubmitStream(p: PathId, provider: SendStream, now: nat, err: WriteError) returns (r: SubmitResult)
      modifies this, provider
      ensures (Value(), provider.State(), r)
           == SubmitFromSendStream(old(Value()), p, provider.streamId, old(provider.State()), now, err)
    {
      ghost var send := provider.State();
      var frames := provider.PopFrames(maxPacketSize);
      if |frames| == 0 {
        return Nothing;
      }
      ghost var popped := provider.State();
      PopLoopFrames(provider.streamId, send.base, send.chunks, maxPacketSize);
      ghost var taken := Fit(maxPacketSize, frames, 0);
      var payload: seq<Frame> := [];
      var size: nat, k: nat := 0, 0;
      FitFromStart(maxPacketSize, frames);
      while k < |frames|
        invariant Value() == old(Value()) && provider.State() == popped
        invariant k <= |frames| && payload == frames[..k]
        invariant taken == FitsAfter(payload, Fit(maxPacketSize, frames[k..], size))
      {
        var encSize := 1 + 8 + 8 + 4 + |frames[k].data|;
        FitStep(maxPacketSize, frames, k, size);
        if encSize > maxPacketSize {
          return Refused;
        }
        if size + encSize > maxPacketSize {
          break;
        }
        payload := payload + [frames[k]];
        size := size + encSize;
        k := k + 1;
      }
      assert payload + [] == payload;
      if |payload| == 0 {
        return Nothing;
      }
      r := RecordPacket(p, payload, provider.streamId, now, err);
      if r.Submitted? && err.NoError? {
        var more := provider.HasBuffered();
        if more {
          bufferedStreams := bufferedStreams[provider.streamId := p];
        }
      }
    }

    method AcknowledgeRange(p: PathId, r: AckRange)
      modifies this`pending, this`ackedCount
      ensures Value() == AckSpan(old(Value()), p, r.smallest, r.largest + 1)
    {
      ghost var start := Value();
      var seqNum: nat := r.smallest;
      AckSpanEmpty(start, p, r.smallest, r.largest);
      while seqNum <= r.largest
        invariant r.smallest <= seqNum && (seqNum <= r.largest + 1 || seqNum == r.smallest)
        invariant Value() == AckSpan(start, p, r.smallest, seqNum)
      {
        AckSpanStep(start, p, r.smallest, seqNum);
        if PacketId(p, seqNum) in pending {
          pending := pending - {PacketId(p, seqNum)};
          ackedCount := ackedCount + 1;
        }
        seqNum := seqNum + 1;
      }
    }

    method Acknowledge(p: PathId, ranges: seq<AckRange>)
      modifies this`pending, this`ackedCount
      ensures Value() == OnAck(old(Value()), p, ranges)
    {
      ghost var start := Value();
      assert AckedBy(start, p, []) == {} && start.pending - {} == start.pending;
      for k := 0 to |ranges|
        invariant Value() == OnAck(start, p, ranges[..k])
      {
        AckRangeStep(start, p, ranges, k);
        AcknowledgeRange(p, ranges[k]);
      }
      assert ranges[..|ranges|] == ranges;
    }

    /** One packet of the collecting loop. */
    method VisitPacket(id: PacketId, now: nat) returns (taken: bool)
      requires id in pending
      modifies this`pending, this`droppedCount
      ensures Value() == Visit(old(Value()), now, id)
      ensures taken <==> Due(old(pending)[id], now) && !Exhausted(old(pending)[id])
    {
      taken := false;
      var packet := pending[id];
      if Due(packet, now) {
        if packet.attempts >= MAX_ATTEMPTS {
          pending := pending - {id};
          droppedCount := droppedCount + 1;
        } else {
          taken := true;
          pending := pending[id := packet.(attempts := packet.attempts + 1)];
        }
      }
    }

    method CollectTasks(now: nat) returns (tasks: set<PacketId>)
      modifies this`pending, this`droppedCount
      ensures Value() == Collect(old(Value()), now) && tasks == Tasks(old(Value()), now)
    {
      ghost var start := Value();
      tasks := {};
      var todo := pending.Keys;
      ghost var order: seq<PacketId> := [];
      while todo != {}
        invariant todo <= start.pending.Keys
        invariant forall id :: id in start.pending ==> (id in order <==> id !in todo)
        invariant Distinct(order) && forall i :: 0 <= i < |order| ==> order[i] in start.pending
        invariant Visited(start, now, order) == (Value(), tasks)
        decreases todo
      {
        var id :| id in todo;
        VisitSnoc(start, now, order, id);
        var taken := VisitPacket(id, now);
        if taken {
          tasks := tasks + {id};
        }
        todo, order := todo - {id}, order + [id];
      }
      VisitedAll(start, now, order);
    }

    method UpdateTask(id: PacketId, err: WriteError, now: nat, clock: nat)
      modifies this`pending, this`droppedCount
      ensures Value() == Update(old(Value()), id, err, now, clock)
    {
      if id !in pending {
        return;
      }
      var packet := pending[id];
      if err.StreamNotExists? {
        pending := pending - {id};
        droppedCount := droppedCount + 1;
      } else {
        pending := pending[id := packet.(nextRetry := now + Wait(packet.attempts, err, clock))];
      }
      if packet.attempts >= MAX_ATTEMPTS {
        pending := pending - {id};
        droppedCount := droppedCount + 1;
      }
    }

    method CancelFramesForStream(streamId: nat)
      modifies this`pending
      ensures Value() == Cancel(old(Value()), streamId)
    {
      ghost var start := Value();
      var todo := pending.Keys;
      ghost var done: set<PacketId> := {};
      while todo != {}
        invariant todo !! done && todo + done == start.pending.Keys
        invariant Value() == start.(pending := start.pending - (Cancelled(start, streamId) * done))
        decreases todo
      {
        var id :| id in todo;
        assert Cancelled(start, streamId) * (done + {id})
            == Cancelled(start, streamId) * done + (if id in Cancelled(start, streamId) then {id} else {});
        if Carries(pending[id].frames, streamId) {
          pending := pending - {id};
        }
        todo, done := todo - {id}, done + {id};
      }
      assert Cancelled(start, streamId) * done == Cancelled(start, streamId);
    }

    method RegisterPath(p: PathId)
      modifies this`paths, this`nextPacketSeq
      ensures Value() == Register(old(Value()), p)
    {
      if p in paths {
        return;
      }
      if p !in nextPacketSeq {
        nextPacketSeq := nextPacketSeq[p := 0];
      }
      paths := paths + {p};
    }

    method UnregisterPath(p: PathId)
      modifies this`paths, this`nextPacketSeq, this`pending
      ensures Value() == Unregister(old(Value()), p)
    {
      paths := paths - {p};
      pending := map id | id in pending && id.path != p :: pending[id];
      nextPacketSeq := nextPacketSeq - {p};
    }
  }

  function FitsAfter(done: seq<Frame>, rest: Option<seq<Frame>>): Option<seq<Frame>> {
    if rest.None? then None else Some(done + rest.value)
  }

  lemma FitFromStart(max: nat, fs: seq<Frame>)
    requires StreamFrames(fs)
    ensures fs[0..] == fs && FitsAfter([], Fit(max, fs, 0)) == Fit(max, fs, 0)
  {
    var taken := Fit(max, fs, 0);
    if taken.Some? {
      assert [] + taken.value == taken.value;
    }
  }

  lemma FitStep(max: nat, fs: seq<Frame>, k: nat, size: nat)
    requires StreamFrames(fs) && k < |fs|
    ensures var taken := FitsAfter(fs[..k], Fit(max, fs[k..], size));
            if Estimate(fs[k]) > max then taken == None
            else if size + Estimate(fs[k]) > max then taken == Some(fs[..k])
            else taken == FitsAfter(fs[..k + 1], Fit(max, fs[k + 1..], size + Estimate(fs[k])))
  {
    assert fs[k..][0] == fs[k] && fs[k..][1..] == fs[k + 1..];
    assert fs[..k] + [] == fs[..k];
    var rest := Fit(max, fs[k + 1..], size + Estimate(fs[k]));
    if rest.Some? {
      assert fs[..k] + ([fs[k]] + rest.value) == fs[..k + 1] + rest.value;
    }
  }

  /** The pending numbers of a path in [from, to). */
  function InSpan(s: State, p: PathId, from: nat, to: nat): set<PacketId> {
    set id | id in s.pending && id.path == p && from <= id.seqNum < to
  }

  /** The state when the numbers in [from, to) have been acknowledged. */
  function AckSpan(s: State, p: PathId, from: nat, to: nat): State {
    s.(pending := s.pending - InSpan(s, p, from, to), ackedCount := s.ackedCount + |InSpan(s, p, from, to)|)
  }

  lemma AckSpanEmpty(s: State, p: PathId, from: nat, largest: nat)
    ensures AckSpan(s, p, from, from) == s
    ensures largest < from ==> AckSpan(s, p, from, largest + 1) == s
  {
    assert InSpan(s, p, from, from) == {} && s.pending - {} == s.pending;
    if largest < from {
      assert InSpan(s, p, from, largest + 1) == {};
    }
  }

  lemma AckSpanStep(s: State, p: PathId, from: nat, to: nat)
    requires from <= to
    ensures var a := AckSpan(s, p, from, to);
            AckSpan(s, p, from, to + 1) ==
            if PacketId(p, to) in a.pending
            then a.(pending := a.pending - {PacketId(p, to)}, ackedCount := a.ackedCount + 1) else a
  {
    var before := InSpan(s, p, from, to);
    var added := if PacketId(p, to) in s.pending then {PacketId(p, to)} else {};
    InSpanStep(s, p, from, to);
    SetSplit(InSpan(s, p, from, to + 1), before, added);
    MinusTwice(s.pending, before, added);
  }

  lemma InSpanStep(s: State, p: PathId, from: nat, to: nat)
    requires from <= to
    ensures var added := if PacketId(p, to) in s.pending then {PacketId(p, to)} else {};
            && InSpan(s, p, from, to) !! added
            && InSpan(s, p, from, to + 1) == InSpan(s, p, from, to) + added
  {
  }

  lemma AckRangeStep(s: State, p: PathId, ranges: seq<AckRange>, k: nat)
    requires k < |ranges|
    ensures AckSpan(OnAck(s, p, ranges[..k]), p, ranges[k].smallest, ranges[k].largest + 1)
         == OnAck(s, p, ranges[..k + 1])
  {
    var first := AckedBy(s, p, ranges[..k]);
    var mid := OnAck(s, p, ranges[..k]);
    var second := InSpan(mid, p, ranges[k].smallest, ranges[k].largest + 1);
    CoversSnoc(ranges, k);
    SetSplit(AckedBy(s, p, ranges[..k + 1]), first, second);
    MinusTwice(s.pending, first, second);
  }

  lemma MinusTwice<K, V>(m: map<K, V>, a: set<K>, b: set<K>)
    ensures (m - a) - b == m - (a + b)
  {
  }

  lemma SetSplit<T>(whole: set<T>, a: set<T>, b: set<T>)
    requires a !! b && forall x :: x in whole <==> x in a || x in b
    ensures whole == a + b && |whole| == |a| + |b|
  {
    assert whole == a + b;
  }

  /** Collect restricted to the packets visited so far. */
  ghost function CollectMap(s: State, now: nat, done: set<PacketId>): map<PacketId, Pending> {
    map id | id in s.pending && !(id in done && id in GivenUp(s, now)) ::
      if id in done && id in Tasks(s, now) then s.pending[id].(attempts := s.pending[id].attempts + 1)
      else s.pending[id]
  }

  ghost function CollectOver(s: State, now: nat, done: set<PacketId>): State {
    s.(pending := CollectMap(s, now, done), droppedCount := s.droppedCount + |GivenUp(s, now) * done|)
  }

  /** What the visit of one packet does to the table. */
  function Visit(a: State, now: nat, id: PacketId): State
    requires id in a.pending
  {
    var p := a.pending[id];
    if !Due(p, now) then a
    else if Exhausted(p) then a.(pending := a.pending - {id}, droppedCount := a.droppedCount + 1)
    else a.(pending := a.pending[id := p.(attempts := p.attempts + 1)])
  }

  lemma CollectMapStep(s: State, now: nat, done: set<PacketId>, id: PacketId)
    requires id in s.pending && id !in done
    ensures var a := CollectMap(s, now, done);
            && id in a && a[id] == s.pending[id]
            && CollectMap(s, now, done + {id}) ==
               if id in GivenUp(s, now) then a - {id}
               else if id in Tasks(s, now) then a[id := s.pending[id].(attempts := s.pending[id].attempts + 1)]
               else a
  {
  }

  lemma DoneStep(all: set<PacketId>, done: set<PacketId>, id: PacketId)
    requires id !in done
    ensures all * (done + {id}) == all * done + (if id in all then {id} else {})
    ensures |all * (done + {id})| == |all * done| + (if id in all then 1 else 0)
  {
    SetSplit(all * (done + {id}), all * done, if id in all then {id} else {});
  }

  lemma CollectStep(s: State, now: nat, done: set<PacketId>, id: PacketId)
    requires id in s.pending && id !in done
    ensures id in CollectOver(s, now, done).pending
    ensures CollectOver(s, now, done).pending[id] == s.pending[id]
    ensures CollectOver(s, now, done + {id}) == Visit(CollectOver(s, now, done), now, id)
    ensures Tasks(s, now) * (done + {id})
         == Tasks(s, now) * done + (if id in Tasks(s, now) then {id} else {})
  {
    DoneStep(GivenUp(s, now), done, id);
    DoneStep(Tasks(s, now), done, id);
    CollectMapStep(s, now, done, id);
    var a := CollectOver(s, now, done);
    if !Due(s.pending[id], now) {
      assert Visit(a, now, id) == a;
    }
  }

  lemma CollectNone(s: State, now: nat)
    ensures CollectOver(s, now, {}) == s && Tasks(s, now) * {} == {}
  {
    assert GivenUp(s, now) * {} == {};
    assert CollectMap(s, now, {}) == s.pending;
  }

  lemma CollectAll(s: State, now: nat)
    ensures CollectOver(s, now, s.pending.Keys) == Collect(s, now)
    ensures Tasks(s, now) * s.pending.Keys == Tasks(s, now)
  {
    assert GivenUp(s, now) * s.pending.Keys == GivenUp(s, now);
    assert CollectMap(s, now, s.pending.Keys) == Collect(s, now).pending;
  }

  function Members(order: seq<PacketId>): set<PacketId> {
    set id | id in order
  }

  predicate Distinct(order: seq<PacketId>) {
    forall i, j :: 0 <= i < j < |order| ==> order[i] != order[j]
  }

  /** The table and the tasks after visiting these packets; packets not in the table are passed by. */
  function Visited(s: State, now: nat, order: seq<PacketId>): (State, set<PacketId>) {
    if order == [] then (s, {})
    else
      var (a, tasks) := Visited(s, now, order[..|order| - 1]);
      var id := order[|order| - 1];
      if id !in a.pending then (a, tasks)
      else
        (Visit(a, now, id), if Due(a.pending[id], now) && !Exhausted(a.pending[id]) then tasks + {id} else tasks)
  }

  lemma {:induction false} VisitedIsCollectOver(s: State, now: nat, order: seq<PacketId>)
    requires Distinct(order) && forall i :: 0 <= i < |order| ==> order[i] in s.pending
    ensures Visited(s, now, order) == (CollectOver(s, now, Members(order)), Tasks(s, now) * Members(order))
  {
    if order == [] {
      assert Members(order) == {};
      CollectNone(s, now);
    } else {
      var before, id := order[..|order| - 1], order[|order| - 1];
      VisitedIsCollectOver(s, now, before);
      assert Members(order) == Members(before) + {id};
      CollectStep(s, now, Members(before), id);
    }
  }

  lemma VisitSnoc(s: State, now: nat, order: seq<PacketId>, id: PacketId)
    requires Distinct(order) && forall i :: 0 <= i < |order| ==> order[i] in s.pending
    requires id in s.pending && id !in order
    ensures Distinct(order + [id])
    ensures var (a, tasks) := Visited(s, now, order);
            && id in a.pending
            && Visited(s, now, order + [id]) ==
               (Visit(a, now, id), if Due(a.pending[id], now) && !Exhausted(a.pending[id]) then tasks + {id} else tasks)
  {
    VisitedIsCollectOver(s, now, order);
    assert (order + [id])[..|order|] == order;
  }

  lemma VisitedAll(s: State, now: nat, order: seq<PacketId>)
    requires Distinct(order) && forall i :: 0 <= i < |order| ==> order[i] in s.pending
    requires forall id :: id in s.pending ==> id in order
    ensures Visited(s, now, order) == (Collect(s, now), Tasks(s, now))
  {
    VisitedIsCollectOver(s, now, order);
    assert Members(order) == s.pending.Keys;
    CollectAll(s, now);
  }

  lemma SetTwice<K, V>(m: map<K, V>, k: K, v: V, w: V)
    ensures m[k := v][k := w] == m[k := w]
  {
  }
}
