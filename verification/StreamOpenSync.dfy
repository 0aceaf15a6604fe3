/** Both sides of opening a stream: OpenStreamSync sends an OpenStream frame and waits on a channel
    for the response, which the reader of its own path puts there (internal/transport/path.go). The
    calls for one stream are numbered; frames and responses carry the number of their call, which
    the code does not send. */
module StreamOpenSync {
  import opened Common
  import opened StreamOpen

  datatype Slot = Vacant | Full(answer: nat) | Closed

  /** Where a call of OpenStreamSync stands; `from` and `answer` name the call whose response it took. */
  datatype Open =
    | Unknown                                // the stream did not exist
    | Stored(ch: nat)                        // its channel is in openStreamRespCh
    | Asking(ch: nat)                        // its frame was submitted
    | Answered(ch: nat, from: nat)
    | Deleting(ch: nat, answer: Option<nat>)
    | Shutting(ch: nat, answer: Option<nat>)
    | Ended(answer: Option<nat>)

  datatype Opener = Opener(
    entry: Option<nat>,                      // openStreamRespCh[id]
    slots: seq<Slot>,                        // the response channels, each with room for one
    opens: map<nat, Open>,
    hand: Option<(nat, nat)>,                // the reader's response and the channel it found
    registered: bool,                        // streams[id] exists
    panicked: bool,                          // sent on a closed channel
    sent: set<nat>,                          // history: calls whose frame was submitted
    owners: seq<nat>                         // history: the call that made each channel
  )

  datatype World = World(far: Acceptor, near: Opener)

  const NEW_WORLD := World(NEW_ACCEPTOR, Opener(None, [], map[], None, false, false, {}, []))

  datatype WorldStep =
    | Far(step: AcceptStep)
    | Look(a: nat)
    | Put(a: nat)
    | Submit(a: nat, recorded: bool, ok: bool)    // a failed write may leave the frame to be sent again
    | Take(a: nat)
    | Register(a: nat)
    | GiveUp(a: nat)
    | Delete(a: nat)
    | Shut(a: nat)
    | RespLoad(answer: nat)
    | RespSend

  predicate Can(w: World, step: WorldStep) {
    var n := w.near;
    match step
    case Far(s) => s.Load? ==> s.frame in n.sent
    case Look(a) => a !in n.opens
    case Put(a) => a in n.opens && n.opens[a].Unknown?
    case Submit(a, recorded, ok) => a in n.opens && n.opens[a].Stored? && (ok ==> recorded)
    case Take(a) => a in n.opens && n.opens[a].Asking? && n.opens[a].ch < |n.slots| && n.slots[n.opens[a].ch].Full?
    case Register(a) => a in n.opens && n.opens[a].Answered?
    case GiveUp(a) => a in n.opens && n.opens[a].Asking?
    case Delete(a) => a in n.opens && n.opens[a].Deleting?
    case Shut(a) => a in n.opens && n.opens[a].Shutting? && n.opens[a].ch < |n.slots|
    case RespLoad(b) => b in w.far.handled && n.hand.None?
    case RespSend => n.hand.Some? && n.hand.value.1 < |n.slots|
  }

  function WithOpen(w: World, a: nat, o: Open): World {
    w.(near := w.near.(opens := w.near.opens[a := o]))
  }

  /** A step that is not possible changes nothing. */
  function Go(w: World, step: WorldStep): World {
    if !Can(w, step) then w
    else
      var n := w.near;
      match step
      case Far(s) => w.(far := Do(w.far, s))
      case Look(a) => WithOpen(w, a, if n.registered then Ended(None) else Unknown)
      case Put(a) =>
        w.(near := n.(opens := n.opens[a := Stored(|n.slots|)], entry := Some(|n.slots|), slots := n.slots + [Vacant],
                       owners := n.owners + [a]))
      case Submit(a, recorded, ok) =>
        w.(near := n.(opens := n.opens[a := if ok then Asking(n.opens[a].ch) else Deleting(n.opens[a].ch, None)],
                      sent := if recorded then n.sent + {a} else n.sent))
      case Take(a) =>
        var ch := n.opens[a].ch;
        w.(near := n.(opens := n.opens[a := Answered(ch, n.slots[ch].answer)], slots := n.slots[ch := Vacant]))
      case Register(a) =>
        w.(near := n.(opens := n.opens[a := Deleting(n.opens[a].ch, Some(n.opens[a].from))], registered := true))
      case GiveUp(a) => WithOpen(w, a, Deleting(n.opens[a].ch, None))
      case Delete(a) =>
        w.(near := n.(opens := n.opens[a := Shutting(n.opens[a].ch, n.opens[a].answer)], entry := None))
      case Shut(a) =>
        w.(near := n.(opens := n.opens[a := Ended(n.opens[a].answer)], slots := n.slots[n.opens[a].ch := Closed]))
      case RespLoad(b) => if n.entry.Some? then w.(near := n.(hand := Some((b, n.entry.value)))) else w
      case RespSend =>
        var (b, ch) := n.hand.value;
        if n.slots[ch].Closed? then w.(near := n.(hand := None, panicked := true))
        else if n.slots[ch].Full? then w.(near := n.(hand := None))
        else w.(near := n.(hand := None, slots := n.slots[ch := Full(b)]))
  }

  function RunWorld(steps: seq<WorldStep>): World
    decreases |steps|
  {
    if steps == [] then NEW_WORLD else Go(RunWorld(steps[..|steps| - 1]), steps[|steps| - 1])
  }

  // ----- The opener registers only after the peer handled a frame of its own -----

  /** The call whose response this call goes on. */
  function AnswerOf(o: Open): Option<nat> {
    match o
    case Answered(_, b) => Some(b)
    case Deleting(_, b) => b
    case Shutting(_, b) => b
    case Ended(b) => b
    case _ => None
  }

  /** Every handled frame was sent by one of the calls. */
  ghost predicate FramesCaused(w: World) {
    && (forall b :: b in w.far.handled ==> b in w.near.sent)
    && (!w.far.reader.Idle? ==> w.far.reader.frame in w.near.sent)
    && (forall a :: a in w.near.sent ==> a in w.near.opens)
  }

  /** Every response stands for a handled frame. */
  ghost predicate ResponsesCaused(n: Opener, handled: set<nat>) {
    && (forall c :: 0 <= c < |n.slots| && n.slots[c].Full? ==> n.slots[c].answer in handled)
    && (n.hand.Some? ==> n.hand.value.0 in handled)
    && (forall a :: a in n.opens && AnswerOf(n.opens[a]).Some? ==> AnswerOf(n.opens[a]).value in handled)
    && (n.registered ==> handled != {})
  }

  ghost predicate Caused(w: World) {
    FramesCaused(w) && ResponsesCaused(w.near, w.far.handled)
  }

  lemma FarHandled(s: Acceptor, step: AcceptStep)
    ensures s.handled <= Do(s, step).handled
    ensures forall b :: b in Do(s, step).handled && b !in s.handled ==> !s.reader.Idle? && b == s.reader.frame
    ensures !Do(s, step).reader.Idle? && (s.reader.Idle? || Do(s, step).reader.frame != s.reader.frame) ==>
              step.Load? && Do(s, step).reader.frame == step.frame
  {
  }

  lemma StepFrames(w: World, step: WorldStep)
    requires FramesCaused(w)
    ensures FramesCaused(Go(w, step)) && w.far.handled <= Go(w, step).far.handled
  {
    if step.Far? {
      FarHandled(w.far, step.step);
    }
  }

  lemma StepResponses(w: World, step: WorldStep)
    requires ResponsesCaused(w.near, w.far.handled)
    ensures ResponsesCaused(Go(w, step).near, w.far.handled)
  {
  }

  lemma ResponsesGrow(n: Opener, handled: set<nat>, more: set<nat>)
    requires ResponsesCaused(n, handled) && handled <= more
    ensures ResponsesCaused(n, more)
  {
  }

  lemma StepCaused(w: World, step: WorldStep)
    requires Caused(w)
    ensures Caused(Go(w, step))
  {
    StepFrames(w, step);
    StepResponses(w, step);
    ResponsesGrow(Go(w, step).near, w.far.handled, Go(w, step).far.handled);
  }

  lemma {:induction false} RunCaused(steps: seq<WorldStep>)
    ensures Caused(RunWorld(steps))
    decreases |steps|
  {
    if steps != [] {
      RunCaused(steps[..|steps| - 1]);
      StepCaused(RunWorld(steps[..|steps| - 1]), steps[|steps| - 1]);
    }
  }

  /** In every interleaving: a call that succeeds goes on the response to a frame that was sent and
      handled; the stream is registered here only after the peer handled such a frame; and when only
      one call was made, the frame was its own. */
  lemma OpenedAfterHandled(steps: seq<WorldStep>, a: nat)
    ensures var w := RunWorld(steps);
            && (w.near.registered ==> w.far.handled != {})
            && w.far.handled <= w.near.sent
            && (a in w.near.opens && AnswerOf(w.near.opens[a]).Some? ==>
                  var b := AnswerOf(w.near.opens[a]).value;
                  b in w.far.handled && (w.near.opens.Keys == {a} ==> b == a))
  {
    RunCaused(steps);
    var w := RunWorld(steps);
    if a in w.near.opens && AnswerOf(w.near.opens[a]).Some? {
      assert AnswerOf(w.near.opens[a]).value in w.near.opens.Keys;
    }
  }

  /** The response to any earlier call completes the call that waits now, whether or not the peer has
      handled the frame of this one. */
  lemma AnyResponseCompletes(w: World, a: nat, b: nat)
    requires a in w.near.opens && w.near.opens[a].Asking? && w.near.entry == Some(w.near.opens[a].ch)
    requires w.near.opens[a].ch < |w.near.slots| && w.near.slots[w.near.opens[a].ch].Vacant?
    requires w.near.hand.None? && b in w.far.handled
    ensures var w' := Go(Go(Go(Go(w, RespLoad(b)), RespSend), Take(a)), Register(a));
            && w'.near.registered && w'.near.opens[a] == Deleting(w.near.opens[a].ch, Some(b)) && w'.far == w.far
            && w'.near.slots == w.near.slots && w'.near.hand.None?
  {
    var w1 := Go(w, RespLoad(b));
    var w2 := Go(w1, RespSend);
    assert w2.near.slots[w.near.opens[a].ch] == Full(b);
    var w3 := Go(w2, Take(a));
    assert w3.near.opens[a] == Answered(w.near.opens[a].ch, b);
  }

  /** How a call ends: with the answer it took or with none, its entry gone and its channel closed. */
  lemma CallEnds(w: World, a: nat)
    requires a in w.near.opens && w.near.opens[a].Deleting? && w.near.opens[a].ch < |w.near.slots|
    ensures var w' := Go(Go(w, Delete(a)), Shut(a));
            && w'.near.opens[a] == Ended(w.near.opens[a].answer) && w'.near.entry.None?
            && w'.near.slots == w.near.slots[w.near.opens[a].ch := Closed]
            && w'.near.registered == w.near.registered
  {
  }

  /** A call that gives up, or whose submission failed, ends without an answer and registers nothing. */
  lemma FailedCallEnds(w: World, a: nat, step: WorldStep)
    requires a in w.near.opens && ChannelOf(w.near.opens[a]).Some? && ChannelOf(w.near.opens[a]).value < |w.near.slots|
    requires || (step == GiveUp(a) && w.near.opens[a].Asking?)
             || (step.Submit? && step.a == a && !step.ok && w.near.opens[a].Stored?)
    ensures var w' := Go(Go(Go(w, step), Delete(a)), Shut(a));
            a in w'.near.opens && w'.near.opens[a] == Ended(None) && w'.near.registered == w.near.registered
  {
    CallEnds(Go(w, step), a);
  }

  /** Once the stream is registered, every later call ends at once, without an entry, a channel or a
      frame. */
  lemma LaterCallsEnd(w: World, a: nat)
    requires w.near.registered && a !in w.near.opens
    ensures var w' := Go(w, Look(a));
            && w'.near.opens == w.near.opens[a := Ended(None)] && w'.far == w.far
            && w'.near.entry == w.near.entry && w'.near.slots == w.near.slots && w'.near.sent == w.near.sent
  {
  }

  /** A second response finds the channel full and is dropped. */
  lemma SecondResponseDropped(w: World, b: nat, ch: nat)
    requires w.near.hand == Some((b, ch)) && ch < |w.near.slots| && w.near.slots[ch].Full?
    ensures var w' := Go(w, RespSend);
            w'.near.slots == w.near.slots && w'.near.hand.None? && w'.near.panicked == w.near.panicked
  {
  }

  // ----- Sending on a closed channel -----

  function ChannelOf(o: Open): Option<nat> {
    match o
    case Stored(ch) => Some(ch)
    case Asking(ch) => Some(ch)
    case Answered(ch, _) => Some(ch)
    case Deleting(ch, _) => Some(ch)
    case Shutting(ch, _) => Some(ch)
    case _ => None
  }

  /** The call `a` owns its channel, which is open, and out of the map before it is closed. */
  predicate Owns(n: Opener, a: nat, o: Open) {
    ChannelOf(o).Some? ==>
      var ch := ChannelOf(o).value;
      && ch < |n.slots| == |n.owners| && n.owners[ch] == a && !n.slots[ch].Closed?
      && (o.Shutting? ==> n.entry != Some(ch))
  }

  ghost predicate Owned(n: Opener) {
    && |n.owners| == |n.slots|
    && (forall a :: a in n.opens ==> Owns(n, a, n.opens[a]))
    && (n.entry.Some? ==> n.entry.value < |n.slots| && !n.slots[n.entry.value].Closed?)
    && (n.hand.Some? ==> n.hand.value.1 < |n.slots|)
  }

  /** A call moves on with its channel, or without it; a response may come into a channel or be taken
      from it. */
  lemma MoveOwned(n: Opener, n': Opener, a: nat, o: Open)
    requires Owned(n) && n'.opens == n.opens[a := o] && Owns(n, a, o)
    requires n'.owners == n.owners && n'.entry == n.entry && n'.hand == n.hand && |n'.slots| == |n.slots|
    requires forall c :: 0 <= c < |n.slots| ==> (n'.slots[c].Closed? <==> n.slots[c].Closed?)
    ensures Owned(n')
  {
    forall b | b in n'.opens
      ensures Owns(n', b, n'.opens[b])
    {
      if b != a {
        assert Owns(n, b, n.opens[b]);
      }
    }
  }

  lemma PutOwned(w: World, a: nat)
    requires Owned(w.near) && Can(w, Put(a))
    ensures Owned(Go(w, Put(a)).near)
  {
    var n, n' := w.near, Go(w, Put(a)).near;
    forall b | b in n'.opens
      ensures Owns(n', b, n'.opens[b])
    {
      if b != a {
        assert Owns(n, b, n.opens[b]);
      }
    }
  }

  lemma DeleteOwned(w: World, a: nat)
    requires Owned(w.near) && Can(w, Delete(a))
    ensures Owned(Go(w, Delete(a)).near)
  {
    var n, n' := w.near, Go(w, Delete(a)).near;
    assert Owns(n, a, n.opens[a]);
    forall b | b in n'.opens
      ensures Owns(n', b, n'.opens[b])
    {
      if b != a {
        assert Owns(n, b, n.opens[b]);
      }
    }
  }

  lemma ShutOwned(w: World, a: nat)
    requires Owned(w.near) && Can(w, Shut(a))
    ensures Owned(Go(w, Shut(a)).near)
  {
    var n, n' := w.near, Go(w, Shut(a)).near;
    assert Owns(n, a, n.opens[a]);
    forall b | b in n'.opens
      ensures Owns(n', b, n'.opens[b])
    {
      if b != a {
        assert Owns(n, b, n.opens[b]);
      }
    }
  }

  lemma SendOwned(w: World)
    requires Owned(w.near) && Can(w, RespSend)
    ensures Owned(Go(w, RespSend).near)
  {
    var n, n' := w.near, Go(w, RespSend).near;
    assert forall c :: 0 <= c < |n.slots| ==> (n'.slots[c].Closed? <==> n.slots[c].Closed?);
    forall b | b in n'.opens
      ensures Owns(n', b, n'.opens[b])
    {
      assert Owns(n, b, n.opens[b]);
    }
  }

  lemma ResponseOwned(w: World, step: WorldStep)
    requires Owned(w.near) && Can(w, step) && (step.RespLoad? || step.Far?)
    ensures Owned(Go(w, step).near)
  {
    var n, n' := w.near, Go(w, step).near;
    forall b | b in n'.opens
      ensures Owns(n', b, n'.opens[b])
    {
      assert Owns(n, b, n.opens[b]);
    }
  }

  lemma CallOwned(w: World, step: WorldStep, a: nat)
    requires Owned(w.near) && Can(w, step)
    requires step.Look? || step.Submit? || step.Take? || step.Register? || step.GiveUp?
    requires step.a == a
    ensures Owned(Go(w, step).near)
  {
    var n := w.near;
    assert a in n.opens ==> Owns(n, a, n.opens[a]);
    MoveOwned(n, Go(w, step).near, a, Go(w, step).near.opens[a]);
  }

  lemma StepOwned(w: World, step: WorldStep)
    requires Owned(w.near)
    ensures Owned(Go(w, step).near)
  {
    if Can(w, step) {
      match step
      case Put(a) => PutOwned(w, a);
      case Delete(a) => DeleteOwned(w, a);
      case Shut(a) => ShutOwned(w, a);
      case Far(_) => ResponseOwned(w, step);
      case RespLoad(_) => ResponseOwned(w, step);
      case RespSend => SendOwned(w);
      case _ => CallOwned(w, step, step.a);
    }
  }

  lemma {:induction false} RunOwned(steps: seq<WorldStep>)
    ensures Owned(RunWorld(steps).near)
    decreases |steps|
  {
    if steps != [] {
      RunOwned(steps[..|steps| - 1]);
      StepOwned(RunWorld(steps[..|steps| - 1]), steps[|steps| - 1]);
    }
  }

  function GoAll(w: World, steps: seq<WorldStep>): World
    decreases |steps|
  {
    if steps == [] then w else Go(GoAll(w, steps[..|steps| - 1]), steps[|steps| - 1])
  }

  /** The i-th step closes this channel. */
  predicate ClosesAt(w: World, ch: nat, steps: seq<WorldStep>, i: nat)
    requires i < |steps|
  {
    var before := GoAll(w, steps[..i]);
    steps[i].Shut? && Can(before, steps[i]) && before.near.opens[steps[i].a].ch == ch
  }

  predicate NoSend(steps: seq<WorldStep>) {
    forall i :: 0 <= i < |steps| ==> !steps[i].RespSend?
  }

  lemma ClosesSnoc(w: World, ch: nat, steps: seq<WorldStep>)
    requires steps != []
    ensures var n := |steps| - 1;
            (exists i :: 0 <= i < |steps| && ClosesAt(w, ch, steps, i))
            <==> (exists i :: 0 <= i < n && ClosesAt(w, ch, steps[..n], i)) || ClosesAt(w, ch, steps, n)
  {
    var n := |steps| - 1;
    forall i | 0 <= i < n
      ensures ClosesAt(w, ch, steps[..n], i) == ClosesAt(w, ch, steps, i)
    {
      assert steps[..n][..i] == steps[..i];
    }
  }

  /** A channel in the reader's hand is closed exactly by its owner's own close. */
  lemma {:induction false} ClosedExactly(w: World, ch: nat, steps: seq<WorldStep>)
    requires Owned(w.near) && ch < |w.near.slots| && !w.near.slots[ch].Closed?
    ensures var w' := GoAll(w, steps);
            && Owned(w'.near) && ch < |w'.near.slots|
            && (w'.near.slots[ch].Closed? <==> exists i :: 0 <= i < |steps| && ClosesAt(w, ch, steps, i))
    decreases |steps|
  {
    if steps != [] {
      var n := |steps| - 1;
      ClosedExactly(w, ch, steps[..n]);
      StepOwned(GoAll(w, steps[..n]), steps[n]);
      ClosesSnoc(w, ch, steps);
      CloseStep(GoAll(w, steps[..n]), ch, steps[n]);
    }
  }

  lemma CloseStep(w: World, ch: nat, step: WorldStep)
    requires ch < |w.near.slots|
    ensures var w' := Go(w, step);
            && ch < |w'.near.slots|
            && (w'.near.slots[ch].Closed?
                <==> w.near.slots[ch].Closed? || (step.Shut? && Can(w, step) && w.near.opens[step.a].ch == ch))
  {
  }

  /** From the lookup of a response's channel to the send, with any other steps between: the send
      panics exactly when the call that owns the channel closed it in the meantime. */
  lemma SendPanicsExactly(w: World, b: nat, steps: seq<WorldStep>)
    requires Owned(w.near) && Can(w, RespLoad(b)) && w.near.entry.Some? && !w.near.panicked && NoSend(steps)
    ensures var w1 := Go(w, RespLoad(b));
            Go(GoAll(w1, steps), RespSend).near.panicked
            <==> exists i :: 0 <= i < |steps| && ClosesAt(w1, w.near.entry.value, steps, i)
  {
    var w1 := Go(w, RespLoad(b));
    StepOwned(w, RespLoad(b));
    ClosedExactly(w1, w.near.entry.value, steps);
    HandKept(w1, steps);
    SendResult(GoAll(w1, steps), b, w.near.entry.value);
  }

  lemma SendResult(w: World, b: nat, ch: nat)
    requires w.near.hand == Some((b, ch)) && ch < |w.near.slots| && !w.near.panicked
    ensures Go(w, RespSend).near.panicked <==> w.near.slots[ch].Closed?
  {
  }

  lemma {:induction false} HandKept(w: World, steps: seq<WorldStep>)
    requires w.near.hand.Some? && NoSend(steps)
    ensures var w' := GoAll(w, steps);
            w'.near.hand == w.near.hand && w'.near.panicked == w.near.panicked
    decreases |steps|
  {
    if steps != [] {
      HandKept(w, steps[..|steps| - 1]);
    }
  }

  // ----- A run that panics -----

  /** One call was made, and its frame sent and handled. */
  function OneCall(o: Open, entry: Option<nat>, slot: Slot, hand: Option<(nat, nat)>): World {
    World(Acceptor(Some(0), [1], map[], Idle, false, {1}),
          Opener(entry, [slot], map[1 := o], hand, false, false, {1}, [1]))
  }

  lemma RunSnoc(steps: seq<WorldStep>, step: WorldStep)
    ensures RunWorld(steps + [step]) == Go(RunWorld(steps), step)
  {
    assert (steps + [step])[..|steps|] == steps;
  }

  const ASKED := [Look(1), Put(1), Submit(1, true, true), Far(Load(1)), Far(Answer)]

  lemma FrameHandled()
    ensures RunWorld(ASKED) == OneCall(Asking(0), Some(0), Vacant, None)
  {
    hide RunWorld;
    RunNothing();
    var none: seq<WorldStep> := [];
    RunSnoc(none, Look(1));
    RunSnoc(none + [Look(1)], Put(1));
    RunSnoc(none + [Look(1)] + [Put(1)], Submit(1, true, true));
    RunSnoc(none + [Look(1)] + [Put(1)] + [Submit(1, true, true)], Far(Load(1)));
    RunSnoc(none + [Look(1)] + [Put(1)] + [Submit(1, true, true)] + [Far(Load(1))], Far(Answer));
    assert none + [Look(1)] + [Put(1)] + [Submit(1, true, true)] + [Far(Load(1))] + [Far(Answer)] == ASKED;
    Asks();
  }

  lemma RunNothing()
    ensures RunWorld([]) == NEW_WORLD
  {
  }

  lemma Asks()
    ensures Go(Go(Go(Go(Go(NEW_WORLD, Look(1)), Put(1)), Submit(1, true, true)), Far(Load(1))), Far(Answer))
         == OneCall(Asking(0), Some(0), Vacant, None)
  {
    var w2 := World(NEW_ACCEPTOR, Opener(Some(0), [Vacant], map[1 := Stored(0)], None, false, false, {}, [1]));
    assert map[][1 := Unknown][1 := Stored(0)] == map[1 := Stored(0)];
    assert Go(Go(NEW_WORLD, Look(1)), Put(1)) == w2;
    assert map[1 := Stored(0)][1 := Asking(0)] == map[1 := Asking(0)];
    assert Go(w2, Submit(1, true, true)) ==
           World(NEW_ACCEPTOR, Opener(Some(0), [Vacant], map[1 := Asking(0)], None, false, false, {1}, [1]));
  }

  /** The reader has looked up the channel for the response when the call gives up and closes it. */
  lemma LateResponsePanics()
    ensures RunWorld(ASKED + [RespLoad(1)] + [GiveUp(1)] + [Delete(1)] + [Shut(1)] + [RespSend]).near.panicked
  {
    hide RunWorld;
    FrameHandled();
    RunSnoc(ASKED, RespLoad(1));
    RunSnoc(ASKED + [RespLoad(1)], GiveUp(1));
    RunSnoc(ASKED + [RespLoad(1)] + [GiveUp(1)], Delete(1));
    RunSnoc(ASKED + [RespLoad(1)] + [GiveUp(1)] + [Delete(1)], Shut(1));
    RunSnoc(ASKED + [RespLoad(1)] + [GiveUp(1)] + [Delete(1)] + [Shut(1)], RespSend);
    Closes();
  }

  lemma Closes()
    ensures var w := OneCall(Asking(0), Some(0), Vacant, None);
            Go(Go(Go(Go(Go(w, RespLoad(1)), GiveUp(1)), Delete(1)), Shut(1)), RespSend).near.panicked
  {
    hide Go, OneCall;
    LoadsLate();
    GivesUp();
    DeletesEntry();
    ShutsChannel();
    SendsLate();
  }

  lemma LoadsLate()
    ensures Go(OneCall(Asking(0), Some(0), Vacant, None), RespLoad(1))
         == OneCall(Asking(0), Some(0), Vacant, Some((1, 0)))
  {
  }

  lemma GivesUp()
    ensures Go(OneCall(Asking(0), Some(0), Vacant, Some((1, 0))), GiveUp(1))
         == OneCall(Deleting(0, None), Some(0), Vacant, Some((1, 0)))
  {
    assert map[1 := Asking(0)][1 := Deleting(0, None)] == map[1 := Deleting(0, None)];
  }

  lemma DeletesEntry()
    ensures Go(OneCall(Deleting(0, None), Some(0), Vacant, Some((1, 0))), Delete(1))
         == OneCall(Shutting(0, None), None, Vacant, Some((1, 0)))
  {
    assert map[1 := Deleting(0, None)][1 := Shutting(0, None)] == map[1 := Shutting(0, None)];
  }

  lemma ShutsChannel()
    ensures Go(OneCall(Shutting(0, None), None, Vacant, Some((1, 0))), Shut(1))
         == OneCall(Ended(None), None, Closed, Some((1, 0)))
  {
    assert map[1 := Shutting(0, None)][1 := Ended(None)] == map[1 := Ended(None)];
    assert [Vacant][0 := Closed] == [Closed];
  }

  lemma SendsLate()
    ensures Go(OneCall(Ended(None), None, Closed, Some((1, 0))), RespSend).near.panicked
  {
  }
}
