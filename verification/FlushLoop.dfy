/** The flush loop of the packer: which streams it is told to look after, and that it empties their
    buffers (internal/transport/packer.go). */
module FlushLoop {
  import opened AckRanges
  import opened Bytes
  import opened PackerRuns
  import opened Packers
  import opened SendStreams

  /** The packer and the send streams that the stream manager knows. */
  datatype World = World(packer: State, sends: map<nat, Send>)

  function Unlist(s: State, st: nat): State {
    s.(bufferedStreams := s.bufferedStreams - {st})
  }

  /** The loop's body for one stream: a path that is gone, a stream that is gone and an empty buffer are
      taken off the list; the error of the submission is ignored. */
  function FlushOne(w: World, st: nat, p: PathId, now: nat, err: WriteError): World {
    if p !in w.packer.paths then w.(packer := Unlist(w.packer, st))
    else if st !in w.sends then w.(packer := Unlist(w.packer, st))
    else
      var (s', send', _) := SubmitFromSendStream(w.packer, p, st, w.sends[st], now, err);
      World(if send'.chunks == [] then Unlist(s', st) else s', w.sends[st := send'])
  }

  // ----- Who is on the list -----

  datatype Action =
    | Write(stream: nat, data: seq<byte>)
    | Submit(stream: nat, path: PathId, now: nat, err: WriteError)
    | Flush(stream: nat, path: PathId, now: nat, err: WriteError)
    | Other(op: Op)

  function Act(w: World, a: Action): World {
    match a
    case Write(st, d) => if st in w.sends && d != [] then w.(sends := w.sends[st := Written(w.sends[st], d)]) else w
    case Submit(st, p, now, err) =>
      if st !in w.sends then w
      else
        var (s', send', _) := SubmitFromSendStream(w.packer, p, st, w.sends[st], now, err);
        World(s', w.sends[st := send'])
    case Flush(st, p, now, err) => FlushOne(w, st, p, now, err)
    case Other(op) => if op.SubmitStreamOp? then w else w.(packer := Apply(w.packer, op))
  }

  /** The streams whose last submission was recorded, written without error and left bytes behind, with
      the path of it; a stream leaves when a later submission does otherwise, or the loop finds its path
      gone. */
  function Owed(w: World, owed: map<nat, PathId>, a: Action): map<nat, PathId> {
    match a
    case Submit(st, p, now, err) => if st in w.sends then OwedAfter(w, owed, st, p, now, err) else owed
    case Flush(st, p, now, err) =>
      if p !in w.packer.paths || st !in w.sends then owed - {st} else OwedAfter(w, owed, st, p, now, err)
    case _ => owed
  }

  function OwedAfter(w: World, owed: map<nat, PathId>, st: nat, p: PathId, now: nat, err: WriteError):
    map<nat, PathId>
    requires st in w.sends
  {
    var (s', send', r) := SubmitFromSendStream(w.packer, p, st, w.sends[st], now, err);
    if r.Submitted? && err.NoError? && send'.chunks != [] then owed[st := p]
    else owed - {st}
  }

  function Run(w: World, actions: seq<Action>): (World, map<nat, PathId>) {
    if actions == [] then (w, map[])
    else
      var (w1, owed) := Run(w, actions[..|actions| - 1]);
      var a := actions[|actions| - 1];
      (Act(w1, a), Owed(w1, owed, a))
  }

  /** Every such stream is on the list with its path, and has bytes to send. */
  predicate AllListed(w: World, owed: map<nat, PathId>) {
    forall st :: st in owed ==>
                   && st in w.packer.bufferedStreams && w.packer.bufferedStreams[st] == owed[st]
                   && st in w.sends && w.sends[st].chunks != []
  }

  /** A submission lists its stream exactly when it was written without error and leaves something behind,
      and touches the entry of no other stream. */
  lemma SubmissionListsExactly(s: State, p: PathId, st: nat, send: Send, now: nat, err: WriteError)
    ensures var (s', send', r) := SubmitFromSendStream(s, p, st, send, now, err);
            var listed := r.Submitted? && r.err.NoError? && send'.chunks != [];
            && (listed ==> st in s'.bufferedStreams && s'.bufferedStreams[st] == p)
            && (!listed ==> s'.bufferedStreams == s.bufferedStreams)
            && (forall q :: q != st ==>
                  (q in s'.bufferedStreams <==> q in s.bufferedStreams)
                  && (q in s.bufferedStreams ==> s'.bufferedStreams[q] == s.bufferedStreams[q]))
  {
    hide Popped, Fit;
  }

  lemma OthersListNothing(s: State, op: Op)
    requires !op.SubmitStreamOp?
    ensures Apply(s, op).bufferedStreams == s.bufferedStreams
  {
  }

  lemma SubmitKeepsListed(w: World, owed: map<nat, PathId>, st: nat, p: PathId, now: nat, err: WriteError)
    requires AllListed(w, owed) && st in w.sends
    ensures AllListed(Act(w, Submit(st, p, now, err)), OwedAfter(w, owed, st, p, now, err))
  {
    hide SubmitFromSendStream;
    SubmissionListsExactly(w.packer, p, st, w.sends[st], now, err);
    SubmissionOutcome(w.packer, p, st, w.sends[st], now, err);
  }

  lemma SubmissionOutcome(s: State, p: PathId, st: nat, send: Send, now: nat, err: WriteError)
    ensures var r := SubmitFromSendStream(s, p, st, send, now, err).2; r.Submitted? ==> r.err == err
    ensures var s' := SubmitFromSendStream(s, p, st, send, now, err).0;
            s'.paths == s.paths && s'.maxPacketSize == s.maxPacketSize
    ensures SubmitFromSendStream(s, p, st, send, now, err).1 == Popped(st, send, s.maxPacketSize).1
  {
    hide Popped, Fit;
  }

  lemma ActKeepsListed(w: World, owed: map<nat, PathId>, a: Action)
    requires AllListed(w, owed)
    ensures AllListed(Act(w, a), Owed(w, owed, a))
  {
    match a
    case Write(st, d) =>
    case Submit(st, p, now, err) =>
      if st in w.sends {
        SubmitKeepsListed(w, owed, st, p, now, err);
      }
    case Flush(st, p, now, err) =>
      if p in w.packer.paths && st in w.sends {
        hide SubmitFromSendStream;
        SubmitKeepsListed(w, owed, st, p, now, err);
        SubmissionListsExactly(w.packer, p, st, w.sends[st], now, err);
      }
    case Other(op) =>
      if !op.SubmitStreamOp? {
        hide Apply;
        OthersListNothing(w.packer, op);
      }
  }

  /** In every run of writes, submissions, flushes and whatever else the packer does: a stream whose last
      submission was written without error and left something behind is on the list with its path, and
      still has it. So nothing is stranded in a buffer after a good write. */
  lemma {:induction false} LeftoversAreListed(w: World, actions: seq<Action>)
    ensures var (w', owed) := Run(w, actions); AllListed(w', owed)
    decreases |actions|
  {
    if actions != [] {
      var before, a := actions[..|actions| - 1], actions[|actions| - 1];
      LeftoversAreListed(w, before);
      ActKeepsListed(Run(w, before).0, Run(w, before).1, a);
    }
  }

  // ----- The list is worked off -----

  /** The loop's passes over one stream; each has its time and the outcome of its write. */
  function Passes(w: World, st: nat, p: PathId, passes: seq<(nat, WriteError)>): World
    decreases |passes|
  {
    if passes == [] then w
    else
      var last := passes[|passes| - 1];
      FlushOne(Passes(w, st, p, passes[..|passes| - 1]), st, p, last.0, last.1)
  }

  /** A listed stream on a registered path. */
  ghost predicate Served(w: World, st: nat, p: PathId) {
    && p in w.packer.paths && w.packer.maxPacketSize > 0
    && st in w.sends && w.sends[st].Consistent() && NonEmptyChunks(w.sends[st].chunks)
  }

  predicate Listed(w: World, st: nat) {
    st in w.packer.bufferedStreams
  }

  function Waiting(w: World, st: nat): nat
    requires st in w.sends
  {
    |w.sends[st].Buffered()|
  }

  lemma NothingBuffered(chunks: seq<seq<byte>>)
    requires NonEmptyChunks(chunks)
    ensures chunks == [] <==> |Concat(chunks)| == 0
  {
    if chunks != [] {
      assert chunks[0] != [];
    }
  }

  /** One pass sends as much as a packet may hold, and all the buffer exactly when it is no more. */
  lemma OnePass(w: World, st: nat, p: PathId, now: nat, err: WriteError)
    requires Served(w, st, p) && (Listed(w, st) || w.sends[st].chunks == [])
    ensures var w', max := FlushOne(w, st, p, now, err), w.packer.maxPacketSize;
            && Served(w', st, p) && w'.packer.maxPacketSize == max
            && Waiting(w', st) == (if Waiting(w, st) <= max then 0 else Waiting(w, st) - max)
            && (Listed(w', st) <==> Waiting(w', st) > 0)
            && (w'.sends[st].chunks == [] <==> Waiting(w', st) == 0)
  {
    hide SubmitFromSendStream, Popped, Consecutive, Concat;
    var s, send := w.packer, w.sends[st];
    SubmissionListsExactly(s, p, st, send, now, err);
    SubmissionOutcome(s, p, st, send, now, err);
    PopFramesSegments(st, send, s.maxPacketSize);
    var send' := Popped(st, send, s.maxPacketSize).1;
    NothingBuffered(send'.chunks);
    NothingBuffered(send.chunks);
  }

  /** Enough passes empty the buffer and take the stream off the list, and no fewer do, whatever becomes of
      the packets. */
  lemma {:induction false} FlushedExactly(w: World, st: nat, p: PathId, passes: seq<(nat, WriteError)>)
    requires Served(w, st, p) && Listed(w, st) && passes != []
    ensures var w', max := Passes(w, st, p, passes), w.packer.maxPacketSize;
            && Served(w', st, p) && w'.packer.maxPacketSize == max
            && Waiting(w', st) == (if Waiting(w, st) <= |passes| * max then 0 else Waiting(w, st) - |passes| * max)
            && (Listed(w', st) <==> Waiting(w, st) > |passes| * max)
            && (w'.sends[st].chunks == [] <==> Waiting(w, st) <= |passes| * max)
    decreases |passes|
  {
    hide FlushOne, Served, Waiting, Listed;
    var n, max, last := |passes| - 1, w.packer.maxPacketSize, passes[|passes| - 1];
    MorePasses(n, max);
    if n == 0 {
      assert Passes(w, st, p, passes[..0]) == w;
      OnePass(w, st, p, last.0, last.1);
    } else {
      FlushedExactly(w, st, p, passes[..n]);
      OnePass(Passes(w, st, p, passes[..n]), st, p, last.0, last.1);
    }
  }

  lemma MorePasses(n: nat, max: nat)
    ensures (n + 1) * max == n * max + max >= 0 && n * max >= 0
  {
  }

  // ----- The loop -----

  function States(providers: map<nat, SendStream>): map<nat, Send>
    reads providers.Values
  {
    map st | st in providers :: providers[st].State()
  }

  /** One round over a snapshot of the list, in this order. */
  function Round(w: World, list: map<nat, PathId>, order: seq<nat>, now: nat, errs: nat -> WriteError): World
    requires forall i :: 0 <= i < |order| ==> order[i] in list
    decreases |order|
  {
    if order == [] then w
    else
      var st := order[|order| - 1];
      FlushOne(Round(w, list, order[..|order| - 1], now, errs), st, list[st], now, errs(st))
  }

  method FlushEntry(packer: Packer, providers: map<nat, SendStream>, st: nat, p: PathId, now: nat, err: WriteError)
    requires forall q :: q in providers ==> providers[q].streamId == q
    modifies packer, providers.Values
    ensures World(packer.Value(), States(providers))
         == FlushOne(World(old(packer.Value()), old(States(providers))), st, p, now, err)
  {
    if p !in packer.paths {
      packer.bufferedStreams := packer.bufferedStreams - {st};
      assert States(providers) == old(States(providers));
      return;
    }
    if st in providers {
      var provider := providers[st];
      var _ := packer.SubmitStream(p, provider, now, err);
      var more := provider.HasBuffered();
      if !more {
        packer.bufferedStreams := packer.bufferedStreams - {st};
      }
      assert States(providers) == old(States(providers))[st := provider.State()];
    } else {
      packer.bufferedStreams := packer.bufferedStreams - {st};
      assert States(providers) == old(States(providers));
    }
  }

  /** A round of the loop: it goes through the list as it was, in any order. */
  method FlushRound(packer: Packer, providers: map<nat, SendStream>, now: nat, errs: nat -> WriteError)
    returns (ghost order: seq<nat>)
    requires forall q :: q in providers ==> providers[q].streamId == q
    modifies packer, providers.Values
    ensures forall st :: st in old(packer.bufferedStreams) <==> st in order
    ensures forall i, j :: 0 <= i < j < |order| ==> order[i] != order[j]
    ensures World(packer.Value(), States(providers))
         == Round(World(old(packer.Value()), old(States(providers))), old(packer.bufferedStreams), order, now, errs)
  {
    var toFlush := packer.bufferedStreams;
    var todo := toFlush.Keys;
    order := [];
    while todo != {}
      invariant todo <= toFlush.Keys
      invariant forall st :: st in toFlush ==> (st in order <==> st !in todo)
      invariant forall i :: 0 <= i < |order| ==> order[i] in toFlush
      invariant forall i, j :: 0 <= i < j < |order| ==> order[i] != order[j]
      invariant World(packer.Value(), States(providers))
             == Round(World(old(packer.Value()), old(States(providers))), toFlush, order, now, errs)
      decreases todo
    {
      var st :| st in todo;
      FlushEntry(packer, providers, st, toFlush[st], now, errs(st));
      assert (order + [st])[..|order|] == order;
      todo, order := todo - {st}, order + [st];
    }
  }
}
