/** Every token that is issued is settled at most once, whatever the firmware does. */
module SessionTokens {
  import opened Slots
  import opened SessionModel

  predicate Logged(log: seq<Event>, token: nat) {
    exists i :: 0 <= i < |log| && log[i].token == token
  }

  /** Tokens are issued in increasing order; each is pending or was settled, not both and not twice; a pending
      target and its entry in the map belong together. */
  ghost predicate Conserved(l: Ledger) {
    && l.next >= 1
    && (forall t: nat :: 1 <= t < l.next <==> t in l.pending || Logged(l.log, t))
    && (forall i :: 0 <= i < |l.log| ==> l.log[i].token !in l.pending)
    && (forall i, j :: 0 <= i < j < |l.log| ==> l.log[i].token != l.log[j].token)
    && (forall t :: t in l.pending ==> l.Get(l.pending[t]).token == t && l.Get(l.pending[t]).pending)
    && (forall id :: l.Get(id).pending ==> Owns(l, id) || Event(l.Get(id).token, Stranded) in l.log)
  }

  predicate Owns(l: Ledger, id: nat) {
    l.Get(id).token in l.pending && l.pending[l.Get(id).token] == id
  }

  lemma AppendLog(log: seq<Event>, e: Event, t: nat)
    ensures Logged(log + [e], t) <==> Logged(log, t) || t == e.token
  {
    if Logged(log, t) {
      var i :| 0 <= i < |log| && log[i].token == t;
      assert (log + [e])[i].token == t;
    }
    assert (log + [e])[|log|] == e;
  }

  /** A token leaves the map; its target is told, or the token is stranded. */
  lemma SettleConserves(l: Ledger, token: nat, fate: Fate, after: Target)
    requires Conserved(l) && token in l.pending
    requires after.pending ==> fate == Stranded && after.token == token
    ensures Conserved(l.Settle(token, fate, after))
  {
    var l' := l.Settle(token, fate, after);
    forall t: nat
      ensures 1 <= t < l'.next <==> t in l'.pending || Logged(l'.log, t)
    {
      AppendLog(l.log, Event(token, fate), t);
    }
    assert l.Get(l.pending[token]).token == token;
    forall id | l'.Get(id).pending
      ensures Owns(l', id) || Event(l'.Get(id).token, Stranded) in l'.log
    {
      if id != l.pending[token] {
        assert l'.Get(id) == l.Get(id);
      } else {
        assert l'.log[|l.log|] == Event(token, fate);
      }
    }
  }

  lemma FailConserves(l: Ledger, token: nat)
    requires Conserved(l)
    ensures Conserved(l.Fail(token))
  {
    hide Conserved;
    if token in l.pending {
      SettleConserves(l, token, Errored, l.Get(l.pending[token]).(pending := false, error := true));
    }
  }

  lemma {:induction false} FailExceptConserves(l: Ledger, keep: set<nat>, n: nat)
    requires Conserved(l)
    ensures Conserved(l.FailExcept(keep, n))
  {
    hide Conserved;
    if n > 0 {
      FailExceptConserves(l, keep, n - 1);
      FailConserves(l.FailExcept(keep, n - 1), n - 1);
    }
  }

  lemma ReleaseConserves(l: Ledger, id: nat)
    requires Conserved(l)
    ensures Conserved(l.Release(id))
  {
    var t := l.Get(id);
    var cleared := t.(pending := false, frame := Nothing, completed := false, error := false, token := 0);
    if t.pending && t.token in l.pending {
      assert l.pending[t.token] == id by {
        StrandedIsSettled(l, t.token);
      }
      SettleConserves(l, t.token, Fate.Released, cleared);
    } else {
      forall x | l.Release(id).Get(x).pending
        ensures Owns(l, x) || Event(l.Get(x).token, Stranded) in l.log
      {
        assert l.Release(id).Get(x) == l.Get(x);
      }
    }
  }

  lemma StrandedIsSettled(l: Ledger, token: nat)
    requires Conserved(l) && token in l.pending
    ensures forall fate :: Event(token, fate) !in l.log
  {
    forall i | 0 <= i < |l.log|
      ensures l.log[i].token != token
    {
    }
  }

  lemma IssueConserves(l: Ledger, id: nat, publish: Publish, destination: Destination)
    requires Conserved(l) && !l.Get(id).pending
    ensures Conserved(l.Issue(id, publish, destination))
  {
    var l' := l.Issue(id, publish, destination);
    forall i | 0 <= i < |l.log|
      ensures l.log[i].token != l.next
    {
      assert Logged(l.log, l.log[i].token);
    }
    forall x | l'.Get(x).pending
      ensures Owns(l', x) || Event(l'.Get(x).token, Stranded) in l'.log
    {
      if x != id {
        assert l'.Get(x) == l.Get(x);
      }
    }
  }

  /** An abandoned target: one whose token is not in the map. */
  lemma AbandonConserves(l: Ledger, id: nat, after: Target)
    requires Conserved(l) && !after.pending && !Owns(l, id)
    ensures Conserved(l.(targets := l.targets[id := after]))
  {
    var l' := l.(targets := l.targets[id := after]);
    forall t | t in l.pending
      ensures l'.Get(l'.pending[t]) == l.Get(l.pending[t])
    {
      assert l.Get(l.pending[t]).token == t;
    }
    forall x | l'.Get(x).pending
      ensures Owns(l', x) || Event(l'.Get(x).token, Stranded) in l'.log
    {
      assert l'.Get(x) == l.Get(x);
    }
  }

  // ---------------------------------------------------------------- every action

  lemma {:induction false} QueueNextConserves(s: State)
    requires Conserved(s.ledger)
    ensures Conserved(QueueNext(s).ledger)
    decreases |s.backlog|
  {
    hide Conserved;
    if s.pool.memory == Dmabuf && s.backlog != [] && Idle(s.pool.capture) {
      var rest := s.(backlog := s.backlog[1..]);
      if s.backlog[0].fd < 0 {
        QueueNextConserves(rest);
      } else if Bufferless(s.ledger, s.backlog[0].token) {
        FailConserves(s.ledger, s.backlog[0].token);
        QueueNextConserves(CountError(rest.(ledger := s.ledger.Fail(s.backlog[0].token))));
      }
    }
  }

  lemma DeliverConserves(cfg: Config, s: State, d: Completion, owner: nat, copyFails: bool)
    requires Conserved(s.ledger)
    ensures Conserved(Deliver(cfg, s, d, owner, copyFails).ledger)
  {
    FailConserves(s.ledger, d.timestamp);
    FailConserves(s.ledger.Fail(d.timestamp), owner);
    if d.timestamp in s.ledger.pending {
      PublishConserves(cfg, s, d.timestamp, d.index, copyFails);
    }
  }

  lemma PublishConserves(cfg: Config, s: State, token: nat, index: nat, copyFails: bool)
    requires Conserved(s.ledger) && token in s.ledger.pending
    ensures Conserved(PublishStep(cfg, s, token, index, copyFails).ledger)
  {
    var t := s.ledger.Get(s.ledger.pending[token]);
    assert t.token == token;
    hide Conserved;
    SettleConserves(s.ledger, token, Stranded, t.(publish := Copy));
    SettleConserves(s.ledger, token, Errored, t.(publish := Copy, pending := false, error := true));
    SettleConserves(s.ledger, token, Published, Delivered(s, t, index));
  }

  lemma StepConserves(cfg: Config, s: State, a: Action)
    requires Enabled(cfg, s, a) && Conserved(s.ledger)
    ensures Conserved(Step(cfg, s, a).ledger)
  {
    hide Conserved, QueueNext, Deliver, Requeued, QueueScratch;
    match a
    case Release(id) => ReleaseConserves(s.ledger, id);
    case Submit(id, publish, destination, fd) => SubmitConserves(s, id, publish, destination, fd);
    case OutputReturn(index, error) => FailConserves(s.ledger, s.pool.outputs[index].token);
    case CaptureReturn(d, copyFails) => CaptureConserves(cfg, s, d, copyFails);
    case ConfigureCapture(layout, count, fds) =>
      var p := NewPool(cfg, s, layout, count);
      QueueNextConserves(p.(backlog := Gathered(p.ledger, p.backlog, fds, p.ledger.next)));
    case DrainFeed(scratch) =>
      QueueNextConserves(s);
      ScratchKeepsLedger(QueueNext(s), scratch);
    case DrainEnd => FailExceptConserves(s.ledger, Owed(s.pool.outputs), s.ledger.next);
    case Timeout(id) => TimeoutConserves(s, id);
    case Fail => FailExceptConserves(s.ledger, {}, s.ledger.next);
    case _ =>
  }

  lemma ScratchKeepsLedger(s: State, scratch: int)
    ensures QueueScratch(s, scratch).ledger == s.ledger
  {
  }

  lemma SubmitConserves(s: State, id: nat, publish: Publish, destination: Destination, fd: int)
    requires Conserved(s.ledger) && !s.ledger.Get(id).pending
    requires FreeOutput(s.pool.outputs, 0) < |s.pool.outputs|
    ensures Conserved(SubmitStep(s, id, publish, destination, fd).ledger)
  {
    hide Conserved, QueueNext;
    IssueConserves(s.ledger, id, publish, destination);
    forall s': State | s'.ledger == s.ledger.Issue(id, publish, destination)
      ensures Conserved(QueueNext(s').ledger)
    {
      QueueNextConserves(s');
    }
  }

  lemma CaptureConserves(cfg: Config, s: State, d: Completion, copyFails: bool)
    requires Conserved(s.ledger) && d.index < |s.pool.capture|
    ensures Conserved(CaptureStep(cfg, s, d, copyFails).ledger)
  {
    hide Conserved, QueueNext, Deliver;
    var owner := s.pool.capture[d.index].importToken;
    QueueNextConserves(Taken(s, d.index));
    var next := NextIfStreaming(Taken(s, d.index));
    DeliverConserves(cfg, NoteLast(next, d.last), d, owner, copyFails);
  }

  lemma TimeoutConserves(s: State, id: nat)
    requires Conserved(s.ledger)
    ensures Conserved(TimeoutStep(s, id).ledger)
  {
    hide Conserved;
    var t := s.ledger.Get(id);
    FailConserves(s.ledger, t.token);
    if !Owns(s.ledger, id) {
      AbandonConserves(s.ledger, id, t.(pending := false, error := true));
    }
  }

  /** Token conservation. In every run each issued token is in exactly one of pending, published, failed and
      released (or stranded by a copy without a buffer or an engine), so none is published twice. */
  lemma {:induction false} TokensAreConserved(cfg: Config, outputs: nat, h: seq<Action>)
    requires Legal(cfg, outputs, h)
    ensures Conserved(Replay(cfg, outputs, h).ledger)
    decreases |h|
  {
    if h != [] {
      var n := |h| - 1;
      TokensAreConserved(cfg, outputs, h[..n]);
      StepConserves(cfg, Replay(cfg, outputs, h[..n]), h[n]);
    }
  }
}
