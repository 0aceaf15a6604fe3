/** Opening one stream over one path: OpenStreamSync on one side, AcceptStream and the handler of
    OpenStream frames on the other (internal/transport/path.go). Every access to a shared map or
    channel is a step of its own; the calls of any number of goroutines interleave freely, and a
    frame once sent may be delivered again and again. Each side's frames are handled one at a time,
    by the reader of the path. */
module StreamOpen {
  import opened Common

  // ----- The accepting side -----

  /** Where a call of AcceptStream stands. */
  datatype Accept =
    | Checked                  // the stream did not exist
    | Waiting(ch: nat)
    | Woken                    // its channel was closed
    | Leaving(ok: bool)        // about to delete the waiter entry
    | Returned(ok: bool)

  /** Where the reader stands in handleOpenStreamFrame, for the frame of attempt `frame`. */
  datatype Reader =
    | Idle
    | Loaded(frame: nat, found: Option<nat>)
    | Closing(frame: nat, ch: nat)     // found the channel open

  datatype Acceptor = Acceptor(
    waiter: Option<nat>,            // acceptStreamWaiters[id], a channel
    closes: seq<nat>,               // how often each channel was closed
    accepts: map<nat, Accept>,
    reader: Reader,
    registered: bool,               // streams[id] exists
    handled: set<nat>               // history: the attempts whose OpenStream frame was handled
  )

  const NEW_ACCEPTOR := Acceptor(None, [], map[], Idle, false, {})

  datatype AcceptStep =
    | Begin(t: nat)
    | Join(t: nat)
    | Wake(t: nat)
    | Store(t: nat)
    | Abandon(t: nat)
    | Leave(t: nat)
    | Load(frame: nat)
    | Check
    | Answer

  predicate At(s: Acceptor, t: nat, a: Accept) {
    t in s.accepts && s.accepts[t] == a
  }

  predicate IsClosed(s: Acceptor, ch: nat) {
    ch < |s.closes| && s.closes[ch] > 0
  }

  predicate CanAccept(s: Acceptor, step: AcceptStep) {
    match step
    case Begin(t) => t !in s.accepts
    case Join(t) => At(s, t, Checked)
    case Wake(t) => t in s.accepts && s.accepts[t].Waiting? && IsClosed(s, s.accepts[t].ch)
    case Store(t) => At(s, t, Woken)
    case Abandon(t) => t in s.accepts && s.accepts[t].Waiting?
    case Leave(t) => t in s.accepts && s.accepts[t].Leaving?
    case Load(_) => s.reader.Idle?
    case Check => s.reader.Loaded? && s.reader.found.Some?
    case Answer => s.reader.Closing? || (s.reader.Loaded? && s.reader.found.None?)
  }

  /** A step that is not possible changes nothing. */
  function Do(s: Acceptor, step: AcceptStep): Acceptor {
    if !CanAccept(s, step) then s
    else
      match step
      case Begin(t) => s.(accepts := s.accepts[t := if s.registered then Returned(true) else Checked])
      case Join(t) =>
        if s.waiter.Some? then s.(accepts := s.accepts[t := Waiting(s.waiter.value)])
        else
          s.(accepts := s.accepts[t := Waiting(|s.closes|)], waiter := Some(|s.closes|), closes := s.closes + [0])
      case Wake(t) => s.(accepts := s.accepts[t := Woken])
      case Store(t) => s.(accepts := s.accepts[t := Leaving(true)], registered := true)
      case Abandon(t) => s.(accepts := s.accepts[t := Leaving(false)])
      case Leave(t) => s.(accepts := s.accepts[t := Returned(s.accepts[t].ok)], waiter := None)
      case Load(frame) => s.(reader := Loaded(frame, s.waiter))
      case Check =>
        var ch := s.reader.found.value;
        if IsClosed(s, ch) then s.(reader := Idle, handled := s.handled + {s.reader.frame})
        else s.(reader := Closing(s.reader.frame, ch))
      case Answer =>
        if s.reader.Closing? then
          if s.reader.ch < |s.closes| then
            s.(reader := Idle, handled := s.handled + {s.reader.frame},
               closes := s.closes[s.reader.ch := s.closes[s.reader.ch] + 1])
          else s
        else
          s.(reader := Idle, handled := s.handled + {s.reader.frame}, waiter := Some(|s.closes|),
             closes := s.closes + [1])
  }

  function Run(steps: seq<AcceptStep>): Acceptor
    decreases |steps|
  {
    if steps == [] then NEW_ACCEPTOR else Do(Run(steps[..|steps| - 1]), steps[|steps| - 1])
  }

  /** A channel is never closed twice, and none is closed before a frame was handled. */
  ghost predicate ChannelsSound(s: Acceptor) {
    && (forall c :: 0 <= c < |s.closes| ==> s.closes[c] <= 1 && (s.closes[c] > 0 ==> s.handled != {}))
    && (s.waiter.Some? ==> s.waiter.value < |s.closes|)
    && (s.reader.Loaded? && s.reader.found.Some? ==> s.reader.found.value < |s.closes|)
    && (s.reader.Closing? ==> s.reader.ch < |s.closes| && s.closes[s.reader.ch] == 0)
  }

  predicate Succeeds(a: Accept) {
    a == Woken || a == Leaving(true) || a == Returned(true)
  }

  /** No call succeeds, and the stream is not registered, before a frame was handled. */
  ghost predicate AcceptsSound(s: Acceptor) {
    && (forall t :: t in s.accepts && s.accepts[t].Waiting? ==> s.accepts[t].ch < |s.closes|)
    && (forall t :: t in s.accepts && Succeeds(s.accepts[t]) ==> s.handled != {})
    && (s.registered ==> s.handled != {})
  }

  ghost predicate Sound(s: Acceptor) {
    ChannelsSound(s) && AcceptsSound(s)
  }

  lemma StepChannels(s: Acceptor, step: AcceptStep)
    requires ChannelsSound(s)
    ensures ChannelsSound(Do(s, step)) && s.handled <= Do(s, step).handled && |s.closes| <= |Do(s, step).closes|
  {
  }

  lemma StepAccepts(s: Acceptor, step: AcceptStep)
    requires ChannelsSound(s) && AcceptsSound(s)
    ensures AcceptsSound(Do(s, step))
  {
    StepChannels(s, step);
  }

  lemma StepSound(s: Acceptor, step: AcceptStep)
    requires Sound(s)
    ensures Sound(Do(s, step)) && |s.closes| <= |Do(s, step).closes|
  {
    StepChannels(s, step);
    StepAccepts(s, step);
  }

  /** In every interleaving: no channel is closed twice, and no accept succeeds before an OpenStream
      frame was handled. */
  lemma {:induction false} RunSound(steps: seq<AcceptStep>)
    ensures Sound(Run(steps))
    decreases |steps|
  {
    if steps != [] {
      RunSound(steps[..|steps| - 1]);
      StepSound(Run(steps[..|steps| - 1]), steps[|steps| - 1]);
    }
  }

  // ----- When a waiting accept is woken -----

  function RunFrom(s: Acceptor, steps: seq<AcceptStep>): Acceptor
    decreases |steps|
  {
    if steps == [] then s else Do(RunFrom(s, steps[..|steps| - 1]), steps[|steps| - 1])
  }

  lemma {:induction false} RunFromSound(s: Acceptor, steps: seq<AcceptStep>)
    requires Sound(s)
    ensures Sound(RunFrom(s, steps)) && |s.closes| <= |RunFrom(s, steps).closes|
    decreases |steps|
  {
    if steps != [] {
      RunFromSound(s, steps[..|steps| - 1]);
      StepSound(RunFrom(s, steps[..|steps| - 1]), steps[|steps| - 1]);
    }
  }

  /** The reader is about to close this channel. */
  predicate InHand(s: Acceptor, ch: nat) {
    (s.reader.Loaded? && s.reader.found == Some(ch)) || (s.reader.Closing? && s.reader.ch == ch)
  }

  /** The channel is closed, or the frame in hand or the next one will close it. */
  predicate Hopeful(s: Acceptor, ch: nat) {
    IsClosed(s, ch) || InHand(s, ch) || s.waiter == Some(ch)
  }

  /** The two ways to lose a channel that only the shared entry leads to: a call that leaves deletes
      the entry, whoever else waits on it, and the handler, which had found no entry, stores its own
      over it. */
  predicate Strands(s: Acceptor, ch: nat, step: AcceptStep) {
    && !IsClosed(s, ch) && !InHand(s, ch) && CanAccept(s, step)
    && (step.Leave? || (step.Answer? && s.reader.Loaded?))
  }

  lemma JoinIsHopeful(s: Acceptor, t: nat)
    requires Sound(s) && At(s, t, Checked)
    ensures var s' := Do(s, Join(t));
            t in s'.accepts && s'.accepts[t].Waiting? && Hopeful(s', s'.accepts[t].ch)
            && s'.accepts[t].ch < |s'.closes|
  {
  }

  lemma HopeExactly(s: Acceptor, ch: nat, step: AcceptStep)
    requires Sound(s) && ch < |s.closes|
    ensures Hopeful(Do(s, step), ch) <==> Hopeful(s, ch) && !Strands(s, ch, step)
  {
  }

  predicate StrandsAt(s: Acceptor, ch: nat, steps: seq<AcceptStep>, i: nat)
    requires i < |steps|
  {
    Strands(RunFrom(s, steps[..i]), ch, steps[i])
  }

  predicate NeverStrands(s: Acceptor, ch: nat, steps: seq<AcceptStep>) {
    forall i :: 0 <= i < |steps| ==> !StrandsAt(s, ch, steps, i)
  }

  lemma NeverStrandsSnoc(s: Acceptor, ch: nat, steps: seq<AcceptStep>)
    requires steps != []
    ensures var n := |steps| - 1;
            NeverStrands(s, ch, steps)
            <==> NeverStrands(s, ch, steps[..n]) && !Strands(RunFrom(s, steps[..n]), ch, steps[n])
  {
    var n := |steps| - 1;
    forall i | 0 <= i < n
      ensures StrandsAt(s, ch, steps[..n], i) == StrandsAt(s, ch, steps, i)
    {
      assert steps[..n][..i] == steps[..i];
    }
    assert StrandsAt(s, ch, steps, n) == Strands(RunFrom(s, steps[..n]), ch, steps[n]);
  }

  /** A channel that was hopeful stays so exactly until a step strands it. */
  lemma {:induction false} StrandedExactly(s: Acceptor, ch: nat, steps: seq<AcceptStep>)
    requires Sound(s) && ch < |s.closes|
    ensures Hopeful(RunFrom(s, steps), ch) <==> Hopeful(s, ch) && NeverStrands(s, ch, steps)
    decreases |steps|
  {
    if steps != [] {
      var before := steps[..|steps| - 1];
      StrandedExactly(s, ch, before);
      RunFromSound(s, before);
      HopeExactly(RunFrom(s, before), ch, steps[|steps| - 1]);
      NeverStrandsSnoc(s, ch, steps);
    }
  }

  predicate NoLoad(steps: seq<AcceptStep>) {
    forall i :: 0 <= i < |steps| ==> !steps[i].Load?
  }

  /** Through the handling of one frame, a channel is closed or in hand exactly when it was so after
      the lookup. */
  lemma {:induction false} HandlingKeeps(s: Acceptor, ch: nat, steps: seq<AcceptStep>)
    requires Sound(s) && ch < |s.closes| && NoLoad(steps)
    ensures var s' := RunFrom(s, steps);
            IsClosed(s', ch) || InHand(s', ch) <==> IsClosed(s, ch) || InHand(s, ch)
    decreases |steps|
  {
    if steps != [] {
      var before := steps[..|steps| - 1];
      HandlingKeeps(s, ch, before);
      RunFromSound(s, before);
      HandlingStep(RunFrom(s, before), ch, steps[|steps| - 1]);
    }
  }

  lemma HandlingStep(s: Acceptor, ch: nat, step: AcceptStep)
    requires Sound(s) && ch < |s.closes| && !step.Load?
    ensures var s' := Do(s, step);
            IsClosed(s', ch) || InHand(s', ch) <==> IsClosed(s, ch) || InHand(s, ch)
  {
  }

  /** The handling of a frame, from its lookup to its end and with any other steps between, closes the
      channel of a waiting accept exactly when the channel was hopeful at the lookup. */
  lemma WokenExactly(s: Acceptor, t: nat, frame: nat, steps: seq<AcceptStep>)
    requires Sound(s) && s.reader.Idle? && t in s.accepts && s.accepts[t].Waiting?
    requires NoLoad(steps) && RunFrom(Do(s, Load(frame)), steps).reader.Idle?
    ensures IsClosed(RunFrom(Do(s, Load(frame)), steps), s.accepts[t].ch) <==> Hopeful(s, s.accepts[t].ch)
  {
    HandlingKeeps(Do(s, Load(frame)), s.accepts[t].ch, steps);
  }

  /** From joining to the end of a later frame's handling: the accept's channel is closed exactly when
      no step before that frame stranded it. */
  lemma JoinedWokenExactly(s: Acceptor, t: nat, before: seq<AcceptStep>, frame: nat, steps: seq<AcceptStep>)
    requires Sound(s) && At(s, t, Checked) && NoLoad(steps)
    requires RunFrom(Do(s, Join(t)), before).reader.Idle?
    requires RunFrom(Do(RunFrom(Do(s, Join(t)), before), Load(frame)), steps).reader.Idle?
    ensures var s1 := Do(s, Join(t));
            t in s1.accepts && s1.accepts[t].Waiting?
            && (IsClosed(RunFrom(Do(RunFrom(s1, before), Load(frame)), steps), s1.accepts[t].ch)
                <==> NeverStrands(s1, s1.accepts[t].ch, before))
  {
    hide Do, RunFrom, NeverStrands, CanAccept;
    JoinIsHopeful(s, t);
    StepSound(s, Join(t));
    var s1 := Do(s, Join(t));
    var ch, s2 := s1.accepts[t].ch, RunFrom(s1, before);
    StrandedExactly(s1, ch, before);
    RunFromSound(s1, before);
    StepSound(s2, Load(frame));
    LookupFindsExactly(s2, ch, frame);
    HandlingKeeps(Do(s2, Load(frame)), ch, steps);
  }

  lemma LookupFindsExactly(s: Acceptor, ch: nat, frame: nat)
    requires s.reader.Idle?
    ensures var s' := Do(s, Load(frame)); IsClosed(s', ch) || InHand(s', ch) <==> Hopeful(s, ch)
  {
  }

  /** An accept on a closed channel, whatever else happened, goes on to register the stream. */
  lemma ClosedCompletes(s: Acceptor, t: nat)
    requires t in s.accepts && s.accepts[t].Waiting? && IsClosed(s, s.accepts[t].ch)
    ensures var s1 := Do(Do(s, Wake(t)), Store(t));
            At(s1, t, Leaving(true)) && s1.registered
            && At(Do(s1, Leave(t)), t, Returned(true)) && Do(s1, Leave(t)).waiter.None?
  {
  }

  /** A call that gives up reports failure, takes the entry away and registers nothing. */
  lemma GivingUpFails(s: Acceptor, t: nat)
    requires t in s.accepts && s.accepts[t].Waiting?
    ensures var s' := Do(Do(s, Abandon(t)), Leave(t));
            At(s', t, Returned(false)) && s'.waiter.None? && s'.registered == s.registered
  {
  }

  /** A stream once registered stays so, and every later call returns at once with success; before that a
      call never does. */
  lemma {:induction false} LaterCallsReturn(s: Acceptor, steps: seq<AcceptStep>, t: nat)
    requires t !in RunFrom(s, steps).accepts
    ensures var s' := RunFrom(s, steps);
            && (s.registered ==> s'.registered)
            && (At(Do(s', Begin(t)), t, Returned(true)) <==> s'.registered)
            && Do(s', Begin(t)).waiter == s'.waiter && Do(s', Begin(t)).closes == s'.closes
  {
    StaysRegistered(s, steps);
  }

  lemma {:induction false} StaysRegistered(s: Acceptor, steps: seq<AcceptStep>)
    ensures s.registered ==> RunFrom(s, steps).registered
    decreases |steps|
  {
    if steps != [] {
      StaysRegistered(s, steps[..|steps| - 1]);
    }
  }

  /** The only call, waiting on the entry, while the reader has not looked and found nothing. */
  predicate Alone(s: Acceptor, t: nat) {
    && t in s.accepts && s.accepts[t].Waiting? && s.accepts.Keys == {t}
    && (s.reader.Loaded? ==> s.reader.found.Some? || IsClosed(s, s.accepts[t].ch))
    && (IsClosed(s, s.accepts[t].ch) || s.waiter == Some(s.accepts[t].ch))
  }

  predicate Undisturbed(t: nat, step: AcceptStep) {
    !step.Begin? && step != Wake(t) && step != Abandon(t)
  }

  /** With one call at a time, and with the lookup and the store of the handler not split by its
      arrival, no step strands it. */
  lemma {:induction false} AloneIsNeverStranded(s: Acceptor, t: nat, steps: seq<AcceptStep>)
    requires Sound(s) && Alone(s, t) && forall i :: 0 <= i < |steps| ==> Undisturbed(t, steps[i])
    ensures var s' := RunFrom(s, steps);
            Alone(s', t) && s'.accepts[t] == s.accepts[t] && Hopeful(s', s.accepts[t].ch)
    decreases |steps|
  {
    if steps != [] {
      var before := steps[..|steps| - 1];
      AloneIsNeverStranded(s, t, before);
      RunFromSound(s, before);
      AloneStep(RunFrom(s, before), t, steps[|steps| - 1]);
    }
  }

  lemma AloneStep(s: Acceptor, t: nat, step: AcceptStep)
    requires Sound(s) && Alone(s, t) && Undisturbed(t, step)
    ensures Alone(Do(s, step), t) && Do(s, step).accepts[t] == s.accepts[t]
  {
    assert forall u :: u in s.accepts ==> u == t;
  }

  lemma RunLast(steps: seq<AcceptStep>, step: AcceptStep)
    ensures Run(steps + [step]) == Do(Run(steps), step)
  {
    assert (steps + [step])[..|steps|] == steps;
  }

  /** The frame's handler looks, finds nothing, and only then does the accept join: the handler
      stores a closed channel over the accept's, which nothing can close any more. */
  lemma LateStoreStrands()
    ensures var s := RunFrom(NEW_ACCEPTOR, [Load(0), Begin(1), Join(1), Answer]);
            s == Acceptor(Some(1), [0, 1], map[1 := Waiting(0)], Idle, false, {0}) && !Hopeful(s, 0)
  {
    var s1 := Acceptor(None, [], map[], Loaded(0, None), false, {});
    var s2 := Acceptor(None, [], map[1 := Checked], Loaded(0, None), false, {});
    var s3 := Acceptor(Some(0), [0], map[1 := Waiting(0)], Loaded(0, None), false, {});
    hide RunFrom;
    FourSteps(NEW_ACCEPTOR, Load(0), Begin(1), Join(1), Answer);
    assert Do(NEW_ACCEPTOR, Load(0)) == s1;
    assert Do(s1, Begin(1)) == s2 by {
      assert s1.accepts[1 := Checked] == s2.accepts;
    }
    assert Do(s2, Join(1)) == s3 by {
      assert s2.accepts[1 := Waiting(0)] == s3.accepts;
    }
  }

  lemma FourSteps(s: Acceptor, a: AcceptStep, b: AcceptStep, c: AcceptStep, d: AcceptStep)
    ensures RunFrom(s, [a, b, c, d]) == Do(Do(Do(Do(s, a), b), c), d)
  {
    assert [a, b, c, d][..3] == [a, b, c] && [a, b, c][..2] == [a, b] && [a, b][..1] == [a] && [a][..0] == [];
    assert RunFrom(s, [a, b]) == Do(RunFrom(s, [a]), b);
    assert RunFrom(s, [a, b, c]) == Do(RunFrom(s, [a, b]), c);
  }

  /** Two calls wait on one channel. */
  function Sharing(first: Accept): Acceptor {
    Acceptor(Some(0), [0], map[1 := first, 2 := Waiting(0)], Idle, false, {})
  }

  const TWO_CHECKED := Acceptor(None, [], map[1 := Checked, 2 := Checked], Idle, false, {})

  lemma TwoCheckedReached()
    ensures Run([Begin(1), Begin(2)]) == TWO_CHECKED
  {
    RunLast([], Begin(1));
    assert [] + [Begin(1)] == [Begin(1)];
    RunLast([Begin(1)], Begin(2));
    assert map[1 := Checked][2 := Checked] == TWO_CHECKED.accepts;
  }

  lemma BothJoin()
    ensures Do(Do(TWO_CHECKED, Join(1)), Join(2)) == Sharing(Waiting(0))
  {
    var s3 := Acceptor(Some(0), [0], map[1 := Waiting(0), 2 := Checked], Idle, false, {});
    assert TWO_CHECKED.accepts[1 := Waiting(0)] == s3.accepts;
    assert Do(TWO_CHECKED, Join(1)) == s3;
    assert s3.accepts[2 := Waiting(0)] == Sharing(Waiting(0)).accepts;
  }

  /** One of them gives up and deletes the entry: the other is not woken by any later frame. */
  lemma SharedWaiterStrands()
    ensures var s := RunFrom(Run([Begin(1), Begin(2)]), [Join(1), Join(2), Abandon(1), Leave(1)]);
            At(s, 1, Returned(false)) && At(s, 2, Waiting(0)) && !Hopeful(s, 0)
  {
    hide Run, RunFrom;
    TwoCheckedReached();
    BothJoin();
    FourSteps(TWO_CHECKED, Join(1), Join(2), Abandon(1), Leave(1));
    assert Do(Sharing(Waiting(0)), Abandon(1)) == Sharing(Leaving(false)) by {
      assert Sharing(Waiting(0)).accepts[1 := Leaving(false)] == Sharing(Leaving(false)).accepts;
    }
  }
}
