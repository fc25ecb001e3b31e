/** Lockstep across changes of resolution: each Import pool of a session is judged by what enter_streaming gathers
    for it. */
module SessionGenerations {
  import opened Layouts
  import opened Slots
  import opened SessionModel
  import opened SessionTokens
  import opened SessionSlots
  import opened SessionImport
  import opened SessionTheorems
  import opened SessionLockstep
  import opened SessionMisplaced
  import opened SessionStranding

  /** So far the firmware has been in order, whatever the pools and their geometry: a picture is the oldest one
      that is undecoded, and it does not come before its own client buffer was handed over. No pool has mixed
      up the backlog. */
  ghost predicate Orderly(cfg: Config, s: State, u: seq<nat>, a: Action) {
    match a
    case CaptureReturn(d, _) => d.payload ==> u != [] && d.timestamp == u[0] && d.timestamp !in Tokens(s.backlog)
    case ConfigureCapture(layout, _, fds) =>
      GrantsImport(cfg, s.ledger, layout) ==> Rising(Tokens(Gathered(s.ledger, s.backlog, fds, s.ledger.next)))
    case _ => true
  }

  ghost predicate OrderlyRun(cfg: Config, outputs: nat, h: seq<Action>)
    requires Legal(cfg, outputs, h)
    decreases |h|
  {
    h != [] ==>
      var n := |h| - 1;
      && OrderlyRun(cfg, outputs, h[..n])
      && Orderly(cfg, Replay(cfg, outputs, h[..n]), Undecoded(cfg, outputs, h[..n]), h[n])
  }

  // ---------------------------------------------------------------- what is accounted for stays so

  /** What may stay behind when a state is accounted for. */
  lemma Accounts(s: State, n: State, u: seq<nat>, v: seq<nat>)
    requires Rising(Tokens(s.backlog)) && Tail(s.backlog, n.backlog)
    requires forall t :: t in n.ledger.pending ==> t in v
    requires forall t :: t in Tokens(n.backlog) && t in Tokens(s.backlog) ==> t in v
    ensures Accounted(n, v)
  {
    var k := |s.backlog| - |n.backlog|;
    assert forall i :: 0 <= i < |n.backlog| ==> Tokens(n.backlog)[i] == Tokens(s.backlog)[i + k];
  }

  lemma SubmitAccounted(s: State, u: seq<nat>, a: Action)
    requires a.Submit? && FreeOutput(s.pool.outputs, 0) < |s.pool.outputs|
    requires Accounted(s, u) && s.ledger.next >= 1 && forall t :: t in u ==> t < s.ledger.next
    ensures Accounted(SubmitStep(s, a.id, a.publish, a.destination, a.fd), u + [s.ledger.next])
  {
    hide QueueNext, Rising;
    var slot := FreeOutput(s.pool.outputs, 0);
    var issued := s.(pool := s.pool.(outputs := s.pool.outputs[slot := OutputSlot(true, s.ledger.next)]),
                     kernel := s.kernel.(output := s.kernel.output + multiset{slot}),
                     ledger := s.ledger.Issue(a.id, a.publish, a.destination),
                     stats := s.stats.(submitted := s.stats.submitted + 1));
    var listed := issued.(backlog := s.backlog + [Entry(s.ledger.next, if a.destination.Buffer? then a.fd else -1)]);
    assert Tokens(listed.backlog) == Tokens(s.backlog) + [s.ledger.next];
    OneMore(Tokens(s.backlog), s.ledger.next);
    QueueNextTail(listed);
    QueueNextPending(listed);
    Accounts(listed, QueueNext(listed), u, u + [s.ledger.next]);
  }

  lemma DeliverSettles(cfg: Config, s: State, d: Completion, owner: nat, copyFails: bool)
    ensures forall t :: t in Deliver(cfg, s, d, owner, copyFails).ledger.pending ==> t in s.ledger.pending
    ensures d.payload && d.timestamp != 0 ==> d.timestamp !in Deliver(cfg, s, d, owner, copyFails).ledger.pending
  {
    DeliverMap(cfg, s, d, owner, copyFails);
  }

  lemma CaptureAccounted(cfg: Config, s: State, u: seq<nat>, a: Action)
    requires a.CaptureReturn? && a.d.index < |s.pool.capture|
    requires Rising(u) && Accounted(s, u) && Orderly(cfg, s, u, a)
    ensures Accounted(CaptureStep(cfg, s, a.d, a.copyFails), AfterAction(s, u, a))
  {
    hide QueueNext, Deliver;
    var taken := Taken(s, a.d.index);
    QueueNextTail(taken);
    QueueNextPending(taken);
    var last := NoteLast(NextIfStreaming(taken), a.d.last);
    DeliverSettles(cfg, last, a.d, s.pool.capture[a.d.index].importToken, a.copyFails);
    DeliverKeeps(cfg, last, a.d, s.pool.capture[a.d.index].importToken, a.copyFails);
    var v := AfterAction(s, u, a);
    assert forall t :: t in u && (!a.d.payload || t != a.d.timestamp) ==> t in v;
    Accounts(s, CaptureStep(cfg, s, a.d, a.copyFails), u, v);
  }

  lemma ConfigureAccounted(cfg: Config, s: State, u: seq<nat>, a: Action)
    requires a.ConfigureCapture? && Accounted(s, u) && Orderly(cfg, s, u, a)
    ensures Accounted(ConfigureStep(cfg, s, a.layout, a.count, a.fds), u)
  {
    hide QueueNext, Gathered, GrantsImport, Requeued, Rising;
    var p := NewPool(cfg, s, a.layout, a.count);
    if GrantsImport(cfg, s.ledger, a.layout) {
      var g := p.(backlog := Gathered(p.ledger, p.backlog, a.fds, p.ledger.next));
      GatheredAppends(s.ledger, s.backlog, a.fds, s.ledger.next);
      AppendedKnown(s, g.backlog, u);
      QueueNextTail(g);
      QueueNextPending(g);
      Accounts(g, ConfigureStep(cfg, s, a.layout, a.count, a.fds), u, u);
    }
  }

  lemma AppendedKnown(s: State, g: seq<Entry>, u: seq<nat>)
    requires Accounted(s, u) && Appends(s.ledger, s.backlog, g, s.ledger.next)
    ensures forall t :: t in Tokens(g) ==> t in u
  {
    hide Rising, Listed;
    forall i | 0 <= i < |g|
      ensures g[i].token in u
    {
      assert i < |s.backlog| ==> Tokens(s.backlog)[i] == g[i].token;
    }
  }

  lemma StepAccounted(cfg: Config, s: State, u: seq<nat>, a: Action)
    requires Enabled(cfg, s, a) && Conserved(s.ledger) && Rising(u) && (forall t :: t in u ==> t < s.ledger.next)
    requires Accounted(s, u) && Orderly(cfg, s, u, a)
    ensures Accounted(Step(cfg, s, a), AfterAction(s, u, a))
  {
    hide Conserved, SubmitStep, CaptureStep, ConfigureStep, Rising, Accounted, Orderly;
    PendingBelow(s.ledger);
    if a.Submit? {
      SubmitAccounted(s, u, a);
    } else if a.CaptureReturn? {
      CaptureAccounted(cfg, s, u, a);
    } else if a.ConfigureCapture? {
      ConfigureAccounted(cfg, s, u, a);
    } else {
      OthersAccounted(cfg, s, u, a);
    }
  }

  lemma OthersAccounted(cfg: Config, s: State, u: seq<nat>, a: Action)
    requires Enabled(cfg, s, a) && !a.Submit? && !a.CaptureReturn? && !a.ConfigureCapture? && Accounted(s, u)
    ensures Accounted(Step(cfg, s, a), AfterAction(s, u, a))
  {
    hide Step, Enabled, Rising;
    OthersAddNothing(cfg, s, a);
    Accounts(s, Step(cfg, s, a), u, u);
  }

  /** In an orderly run nothing that is waited for or queued has been decoded. */
  lemma {:induction false} OrderlyRunsAreAccounted(cfg: Config, outputs: nat, h: seq<Action>)
    requires Legal(cfg, outputs, h) && OrderlyRun(cfg, outputs, h)
    ensures Accounted(Replay(cfg, outputs, h), Undecoded(cfg, outputs, h))
    decreases |h|
  {
    hide Step, Enabled, Orderly, Accounted, Rising;
    if h == [] {
      NothingYet(outputs);
    } else {
      var n := |h| - 1;
      OrderlyRunsAreAccounted(cfg, outputs, h[..n]);
      UndecodedRises(cfg, outputs, h[..n]);
      TokensAreConserved(cfg, outputs, h[..n]);
      hide Conserved;
      StepAccounted(cfg, Replay(cfg, outputs, h[..n]), Undecoded(cfg, outputs, h[..n]), h[n]);
    }
  }

  lemma NothingYet(outputs: nat)
    ensures Accounted(Initial(outputs), [])
  {
  }

  /** The exact condition for every Import pool of an orderly session, the first or after any number of changes
      of resolution: it works if and only if what enter_streaming gathers is, in order, what is left to decode. */
  lemma EveryPool(cfg: Config, outputs: nat, h: seq<Action>, layout: Layout, count: nat, fds: map<nat, int>)
    requires Legal(cfg, outputs, h) && OrderlyRun(cfg, outputs, h) && Replay(cfg, outputs, h).stats.misplaced == 0
    requires var s := Replay(cfg, outputs, h);
             Enabled(cfg, s, ConfigureCapture(layout, count, fds)) && GrantsImport(cfg, s.ledger, layout)
    ensures var s, a := Replay(cfg, outputs, h), ConfigureCapture(layout, count, fds);
            && Legal(cfg, outputs, h + [a])
            && (NeverMisplaces(cfg, outputs, h + [a]) <==>
                  InStep(Entered(cfg, s, layout, count, fds), Undecoded(cfg, outputs, h)))
            && (NeverMisplaces(cfg, outputs, h + [a]) ==> OrderlyRun(cfg, outputs, h + [a]))
  {
    hide Replay, Legal, Undecoded, Enabled, GrantsImport, NeverMisplaces, InStep, Accounted, Entered, Orderly, Rising;
    OrderlyRunsAreAccounted(cfg, outputs, h);
    PoolInStep(cfg, outputs, h, layout, count, fds);
    UndecodedRises(cfg, outputs, h);
    var s, a, u := Replay(cfg, outputs, h), ConfigureCapture(layout, count, fds), Undecoded(cfg, outputs, h);
    assert (h + [a])[..|h|] == h;
    if InStep(Entered(cfg, s, layout, count, fds), u) {
      InStepOrderly(cfg, s, layout, count, fds, u);
    }
  }

  lemma InStepOrderly(cfg: Config, s: State, layout: Layout, count: nat, fds: map<nat, int>, u: seq<nat>)
    requires InStep(Entered(cfg, s, layout, count, fds), u) && Rising(u)
    ensures Orderly(cfg, s, u, ConfigureCapture(layout, count, fds))
  {
    hide AllReady, Gathered, Rising, GrantsImport;
    if GrantsImport(cfg, s.ledger, layout) {
      EnteredStep(cfg, s, layout, count, fds);
    }
  }

  // ---------------------------------------------------------------- a pool that works keeps the session orderly

  lemma InOrderIsOrderly(cfg: Config, s: State, u: seq<nat>, a: Action)
    requires Lockstep(s, u) && Owned(cfg, s) && Rising(u) && Enabled(cfg, s, a) && InOrder(s, u, a)
    ensures Orderly(cfg, s, u, a)
  {
    hide InFlight, AllReady;
    if a.CaptureReturn? && a.d.payload {
      var f := s.pool.capture[a.d.index];
      TakeInFlight(s.pool.capture, a.d.index, Frame(false, 0, f.importFd));
      assert u == [f.importToken] + Tokens(s.backlog);
      assert forall i :: 0 <= i < |s.backlog| ==> Tokens(s.backlog)[i] == u[i + 1];
    }
  }

  /** As long as its Import pool is in lockstep and the firmware in order, an orderly session stays orderly, so
      that the next pool can be judged by `EveryPool`. */
  lemma {:induction false} LockstepStaysOrderly(cfg: Config, outputs: nat, h: seq<Action>, k: nat)
    requires cfg.decodeOrder && Legal(cfg, outputs, h) && k <= |h| && Legal(cfg, outputs, h[..k])
    requires OrderlyRun(cfg, outputs, h[..k]) && InOrderFrom(cfg, outputs, h, k)
    requires Lockstep(Replay(cfg, outputs, h[..k]), Undecoded(cfg, outputs, h[..k]))
    ensures OrderlyRun(cfg, outputs, h)
    decreases |h|
  {
    hide Lockstep, Step, Enabled, AfterAction, Orderly, InOrder, Rising;
    if k == |h| {
      assert h[..k] == h;
    } else {
      var n := |h| - 1;
      assert h[..n][..k] == h[..k];
      LockstepStaysOrderly(cfg, outputs, h[..n], k);
      RunsInLockstep(cfg, outputs, h[..n], k);
      RunsAreOwned(cfg, outputs, h[..n]);
      UndecodedRises(cfg, outputs, h[..n]);
      hide Owned, Conserved;
      InOrderIsOrderly(cfg, Replay(cfg, outputs, h[..n]), Undecoded(cfg, outputs, h[..n]), h[n]);
    }
  }
}
