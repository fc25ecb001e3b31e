/** Two runs through a change of resolution that leave the next Import pool with its buffers in another order than
    its pictures. */
module SessionRebuilds {
  import opened Slots
  import opened SessionModel
  import opened SessionSlots
  import opened SessionLockstep
  import opened SessionMisplaced
  import opened SessionGenerations

  /** The targets of two submitted pictures; the second was submitted for `publish`. */
  function TwoTargets(publish: Publish): Ledger {
    Ledger(3, map[1 := 0, 2 := 1],
           map[0 := Target(1, true, false, false, Import, Buffer(ANY_LAYOUT), Nothing),
               1 := Target(2, true, false, false, publish, Buffer(ANY_LAYOUT), Nothing)], [])
  }

  function OneTarget(): Ledger {
    Ledger(2, map[1 := 0], map[0 := Target(1, true, false, false, Import, Buffer(ANY_LAYOUT), Nothing)], [])
  }

  /** An Import pool of one slot, and both OUTPUT buffers with the firmware or free. */
  ghost predicate OneSlot(s: State, phase: Phase, busy: bool, l: Ledger, b: seq<Entry>) {
    && s.phase == phase && s.pool.memory == Dmabuf && s.pool.layout == ANY_LAYOUT && s.stats.misplaced == 0
    && |s.pool.capture| == 1 && s.pool.capture[0].queued == busy
    && |s.pool.outputs| == 2 && s.pool.outputs[0] == OutputSlot(true, 1)
    && s.ledger == l && s.backlog == b
    && s.pool.outputs[1] == if l.next == 2 then OutputSlot(false, 0) else OutputSlot(true, 2)
  }

  /** A run and what it has been like. */
  ghost predicate Went(h: seq<Action>, u: seq<nat>) {
    && Legal(QUALIFIED, 2, h) && OrderlyRun(QUALIFIED, 2, h) && Undecoded(QUALIFIED, 2, h) == u
  }

  lemma Goes(h: seq<Action>, u: seq<nat>, a: Action) returns (r: seq<Action>)
    requires Went(h, u) && Enabled(QUALIFIED, Replay(QUALIFIED, 2, h), a)
    requires Orderly(QUALIFIED, Replay(QUALIFIED, 2, h), u, a)
    ensures r == h + [a] && Went(r, AfterAction(Replay(QUALIFIED, 2, h), u, a))
    ensures Replay(QUALIFIED, 2, r) == Step(QUALIFIED, Replay(QUALIFIED, 2, h), a)
  {
    hide Step, Enabled, AfterAction, Orderly;
    r := h + [a];
    Extend(QUALIFIED, 2, h, a);
    assert r[..|h|] == h;
  }

  lemma FirstPicture() returns (h: seq<Action>)
    ensures Went(h, [1])
    ensures var s := Replay(QUALIFIED, 2, h);
            && s.phase.Configured? && s.sourceChange && s.pool.capture == [] && s.backlog == []
            && s.ledger == OneTarget() && s.pool.outputs == [OutputSlot(true, 1), OutputSlot(false, 0)]
            && s.stats.misplaced == 0
  {
    h := [];
    FreeSlot(Replay(QUALIFIED, 2, h).pool.outputs, 0, 0);
    h := Goes(h, [], Submit(0, Import, Buffer(ANY_LAYOUT), 3));
    h := Goes(h, [1], SourceChange);
  }

  lemma FirstGathered(l: Ledger, n: nat)
    requires l == OneTarget()
    ensures Gathered(l, [], map[1 := 3], n) == if n <= 1 then [] else [Entry(1, 3)]
  {
    if n > 0 {
      FirstGathered(l, n - 1);
    }
  }

  lemma FirstPool(s: State)
    requires s.phase.Configured? && s.backlog == [] && s.ledger == OneTarget() && s.stats.misplaced == 0
    requires s.pool.outputs == [OutputSlot(true, 1), OutputSlot(false, 0)]
    ensures OneSlot(ConfigureStep(QUALIFIED, s, ANY_LAYOUT, 1, map[1 := 3]), Streaming, true, OneTarget(), [])
    ensures Orderly(QUALIFIED, s, [1], ConfigureCapture(ANY_LAYOUT, 1, map[1 := 3]))
  {
    var fds := map[1 := 3];
    OldestPending(s.ledger.pending, 0, 2, 1);
    EnteredStep(QUALIFIED, s, ANY_LAYOUT, 1, fds);
    FirstGathered(s.ledger, 2);
    var g := Entered(QUALIFIED, s, ANY_LAYOUT, 1, fds);
    assert ImportSlot(g.pool.capture, 3) == 0;
    assert QueueNext(g) == GiveBuffer(g);
  }

  lemma SecondListed(s: State, publish: Publish)
    requires OneSlot(s, Streaming, true, OneTarget(), [])
    ensures FreeOutput(s.pool.outputs, 0) == 1
    ensures OneSlot(SubmitStep(s, 1, publish, Buffer(ANY_LAYOUT), 4), Streaming, true, TwoTargets(publish),
                    [Entry(2, 4)])
  {
    assert FreeOutput(s.pool.outputs, 1) == 1;
    var slot := 1;
    var listed := s.(pool := s.pool.(outputs := s.pool.outputs[slot := OutputSlot(true, 2)]),
                     kernel := s.kernel.(output := s.kernel.output + multiset{slot}),
                     ledger := s.ledger.Issue(1, publish, Buffer(ANY_LAYOUT)),
                     stats := s.stats.(submitted := s.stats.submitted + 1),
                     backlog := [Entry(2, 4)]);
    assert s.backlog + [Entry(2, 4)] == [Entry(2, 4)];
    assert QueueNext(listed) == listed;
  }

  /** The first picture's buffer is with the firmware; the second waits behind it. */
  lemma BothSubmitted(publish: Publish) returns (h: seq<Action>)
    ensures Went(h, [1, 2])
    ensures OneSlot(Replay(QUALIFIED, 2, h), Streaming, true, TwoTargets(publish), [Entry(2, 4)])
  {
    hide Replay, Legal, OrderlyRun, Undecoded, ConfigureStep, SubmitStep, Orderly;
    h := FirstPicture();
    FirstPool(Replay(QUALIFIED, 2, h));
    h := Goes(h, [1], ConfigureCapture(ANY_LAYOUT, 1, map[1 := 3]));
    SecondListed(Replay(QUALIFIED, 2, h), publish);
    SubmitOrderly(Replay(QUALIFIED, 2, h), publish);
    h := Goes(h, [1], Submit(1, publish, Buffer(ANY_LAYOUT), 4));
    assert [1] + [2] == [1, 2];
  }

  lemma SubmitOrderly(s: State, publish: Publish)
    ensures Orderly(QUALIFIED, s, [1], Submit(1, publish, Buffer(ANY_LAYOUT), 4))
  {
  }

  const EMPTY_LAST: Completion := Completion(0, 0, false, true, false)

  /** The drain: LAST comes in the first picture's buffer, and both OUTPUT buffers are still queued. */
  lemma Drained(h: seq<Action>, publish: Publish) returns (r: seq<Action>)
    requires Went(h, [1, 2])
    requires OneSlot(Replay(QUALIFIED, 2, h), Streaming, true, TwoTargets(publish), [Entry(2, 4)])
    ensures r == h + [DrainBegin(OnChange), DrainFeed(0), CaptureReturn(EMPTY_LAST, false)] && Went(r, [1, 2])
    ensures OneSlot(Replay(QUALIFIED, 2, r), Draining, false, TwoTargets(publish), [Entry(2, 4)])
    ensures Replay(QUALIFIED, 2, r).sawLast
  {
    hide Replay, Legal, OrderlyRun, Undecoded;
    r := Goes(h, [1, 2], DrainBegin(OnChange));
    assert QueueNext(Replay(QUALIFIED, 2, r)) == Replay(QUALIFIED, 2, r);
    r := Goes(r, [1, 2], DrainFeed(0));
    RunOf(r, [1, 2]);
    RunsAreOwned(QUALIFIED, 2, r);
    KernelHasSlot(QUALIFIED, Replay(QUALIFIED, 2, r), 0);
    r := Goes(r, [1, 2], CaptureReturn(EMPTY_LAST, false));
  }

  lemma RunOf(h: seq<Action>, u: seq<nat>)
    requires Went(h, u)
    ensures Legal(QUALIFIED, 2, h) && OrderlyRun(QUALIFIED, 2, h) && Undecoded(QUALIFIED, 2, h) == u
  {
  }

  /** Where the second pool is built: nothing has been decoded, and the second picture is queued before the
      first. */
  ghost predicate ReadyToRebuild(s: State, publish: Publish) {
    && s.phase.Configured? && s.sourceChange && s.stats.misplaced == 0 && s.generation > 0
    && s.ledger == TwoTargets(publish) && s.backlog == [Entry(2, 4)]
    && s.pool.outputs == [OutputSlot(true, 1), OutputSlot(true, 2)]
  }

  lemma OwedBoth(l: Ledger, publish: Publish, outputs: seq<OutputSlot>)
    requires l == TwoTargets(publish) && outputs == [OutputSlot(true, 1), OutputSlot(true, 2)]
    ensures l.FailExcept(Owed(outputs), 3) == l
  {
    assert outputs[0].token in Owed(outputs) && outputs[1].token in Owed(outputs);
    assert l.FailExcept(Owed(outputs), 0) == l;
    assert l.FailExcept(Owed(outputs), 1) == l;
    assert l.FailExcept(Owed(outputs), 2) == l;
  }

  lemma TornDown(h: seq<Action>, publish: Publish) returns (r: seq<Action>)
    requires Went(h, [1, 2]) && Replay(QUALIFIED, 2, h).sawLast
    requires OneSlot(Replay(QUALIFIED, 2, h), Draining, false, TwoTargets(publish), [Entry(2, 4)])
    ensures r == h + [DrainEnd, StreamOff, Teardown] && Went(r, [1, 2])
    ensures ReadyToRebuild(Replay(QUALIFIED, 2, r), publish)
  {
    hide Replay, Legal, OrderlyRun, Undecoded, Ledger.FailExcept, LostBelow, Owed;
    var s := Replay(QUALIFIED, 2, h);
    OwedBoth(s.ledger, publish, s.pool.outputs);
    r := Goes(h, [1, 2], DrainEnd);
    r := Goes(r, [1, 2], StreamOff);
    assert Replay(QUALIFIED, 2, r).ledger.HeldSlots(Replay(QUALIFIED, 2, r).generation) == {};
    r := Goes(r, [1, 2], Teardown);
  }

  lemma ChangedAfterTwo(publish: Publish) returns (h: seq<Action>, k: nat)
    ensures k < |h| && h[k].DrainEnd? && Went(h[..k], [1, 2]) && Went(h, [1, 2])
    ensures OneSlot(Replay(QUALIFIED, 2, h[..k]), Draining, false, TwoTargets(publish), [Entry(2, 4)])
    ensures ReadyToRebuild(Replay(QUALIFIED, 2, h), publish)
  {
    hide Replay, Legal, OrderlyRun, Undecoded, OneSlot, ReadyToRebuild;
    var before := BothSubmitted(publish);
    before := Drained(before, publish);
    k := |before|;
    h := TornDown(before, publish);
    assert h[..k] == before;
  }

  const SECOND_FDS: map<nat, int> := map[1 := 5]

  /** The first picture is gathered again, behind the second. */
  lemma SecondGathered(l: Ledger, publish: Publish, n: nat)
    requires l == TwoTargets(publish) && n <= 3
    ensures Gathered(l, [Entry(2, 4)], SECOND_FDS, n) == if n <= 1 then [Entry(2, 4)] else [Entry(2, 4), Entry(1, 5)]
  {
    assert [Entry(2, 4)][0].token == 2;
    if n > 0 {
      SecondGathered(l, publish, n - 1);
      var b := Gathered(l, [Entry(2, 4)], SECOND_FDS, n - 1);
      assert b[0].token == 2;
    }
  }

  lemma SecondGranted(s: State, publish: Publish)
    requires ReadyToRebuild(s, publish)
    ensures GrantsImport(QUALIFIED, s.ledger, ANY_LAYOUT)
    ensures var g := Entered(QUALIFIED, s, ANY_LAYOUT, 1, SECOND_FDS);
            g.backlog == [Entry(2, 4), Entry(1, 5)] && g.ledger == s.ledger
  {
    OldestPending(s.ledger.pending, 0, 3, 1);
    SecondGathered(s.ledger, publish, 3);
  }

  const SECOND_POOL: Action := ConfigureCapture(ANY_LAYOUT, 1, SECOND_FDS)

  /** A picture that survived the drain, its OUTPUT buffer still queued, is failed by the rebuild: it was submitted
      for display into an Import session, and the entry before its own was regathered behind it. */
  lemma RebuildFailsRun() returns (h: seq<Action>, k: nat)
    ensures k < |h| && h[k].DrainEnd? && Legal(QUALIFIED, 2, h[..k]) && Legal(QUALIFIED, 2, h)
    ensures 2 in Owed(Replay(QUALIFIED, 2, h[..k]).pool.outputs) && 2 in Replay(QUALIFIED, 2, h).ledger.pending
    ensures Legal(QUALIFIED, 2, h + [SECOND_POOL])
    ensures var l := Replay(QUALIFIED, 2, h + [SECOND_POOL]).ledger;
            2 !in l.pending && Event(2, Errored) in l.log && l.Get(1).error && 1 in l.pending
  {
    hide Replay, Legal, OrderlyRun, Undecoded, ConfigureStep;
    h, k := ChangedAfterTwo(Direct);
    RunOf(h, [1, 2]);
    RunOf(h[..k], [1, 2]);
    var outputs := Replay(QUALIFIED, 2, h[..k]).pool.outputs;
    assert outputs[1].token in Owed(outputs);
    DirectRefused(Replay(QUALIFIED, 2, h));
    Extend(QUALIFIED, 2, h, SECOND_POOL);
  }

  lemma DirectRefused(s: State)
    requires ReadyToRebuild(s, Direct)
    ensures var l := ConfigureStep(QUALIFIED, s, ANY_LAYOUT, 1, SECOND_FDS).ledger;
            2 !in l.pending && Event(2, Errored) in l.log && l.Get(1).error && 1 in l.pending
  {
    SecondGranted(s, Direct);
    hide GrantsImport, Gathered;
    EnteredStep(QUALIFIED, s, ANY_LAYOUT, 1, SECOND_FDS);
    var g := Entered(QUALIFIED, s, ANY_LAYOUT, 1, SECOND_FDS);
    var failed := CountError(g.(backlog := [Entry(1, 5)], ledger := g.ledger.Fail(2)));
    assert g.backlog[1..] == [Entry(1, 5)];
    assert QueueNext(g) == QueueNext(failed);
    assert QueueNext(failed) == GiveBuffer(failed);
    assert failed.ledger.log == [] + [Event(2, Errored)];
  }

  /** Every undecoded picture is waited for, with a descriptor and a fitting buffer, and nothing has gone wrong so
      far; yet the pool does not work: the first picture's buffer is queued behind the second's. */
  lemma ReorderedByTheChange() returns (h: seq<Action>)
    ensures Legal(QUALIFIED, 2, h) && OrderlyRun(QUALIFIED, 2, h) && Legal(QUALIFIED, 2, h + [SECOND_POOL])
    ensures var s := Replay(QUALIFIED, 2, h);
            && s.stats.misplaced == 0
            && forall t :: t in Undecoded(QUALIFIED, 2, h) ==> Waiting(s.ledger, map[1 := 5, 2 := 4], ANY_LAYOUT, t)
    ensures !NeverMisplaces(QUALIFIED, 2, h + [SECOND_POOL])
  {
    hide Replay, ConfigureStep, Undecoded, Legal, OrderlyRun, NeverMisplaces;
    var k;
    h, k := ChangedAfterTwo(Import);
    RunOf(h, [1, 2]);
    var s := Replay(QUALIFIED, 2, h);
    SecondGranted(s, Import);
    EveryPool(QUALIFIED, 2, h, ANY_LAYOUT, 1, SECOND_FDS);
    var g := Entered(QUALIFIED, s, ANY_LAYOUT, 1, SECOND_FDS);
    assert Tokens(g.backlog)[0] == 2;
  }
}
