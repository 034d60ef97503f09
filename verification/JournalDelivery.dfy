/**
 When a delivered command starts, and when it does not: what the journal holds under its ID or its nonce decides, and
 the refusal of a delivery that does not verify is filed under the ID it names.
 */
module JournalDelivery {
  import opened AgentRunner
  import opened Basics
  import opened CommandEnvelope
  import opened CommandJournal
  import JournalGates
  import JournalProtocol

  // ---------------------------------------------------------------------------------------------
  // What is filed under an ID stays until its expiry
  // ---------------------------------------------------------------------------------------------

  /** A command, executed or refused, is filed under this ID and retained until x. */
  predicate HeldIn(m: Journal, id: string, x: Time) {
    && !IsNonceKey(id) && x != ZERO_TIME && id in m && m[id].expiry == x
    && (m[id].state.Executing? || m[id].state.ResultPending? || m[id].state.Acknowledged?)
  }

  predicate Held(s: Store, id: string, x: Time) {
    HeldIn(s.mem, id, x) && HeldIn(s.disk, id, x)
  }

  /** If this is a start of this command, it was not admitted before t. */
  predicate StartsFrom(e: Event, id: string, t: Time) {
    e.Started? && e.id == id ==> t <= e.admittedAt
  }

  /** Time and history go forward, and the command is not started by an admission before t. */
  ghost predicate Forward(w: World, w': World, id: string, t: Time) {
    && w.clock <= w'.clock && w.events <= w'.events
    && forall i :: |w.events| <= i < |w'.events| ==> StartsFrom(w'.events[i], id, t)
  }

  lemma ForwardOn(w: World, v: World, y: World, id: string, t: Time)
    requires Forward(w, v, id, t) && (Forward(v, y, id, t) || (t <= v.clock && Forward(v, y, id, v.clock)))
    ensures Forward(w, y, id, t)
  {
    forall i | |w.events| <= i < |y.events|
      ensures StartsFrom(y.events[i], id, t)
    {
      if i < |v.events| {
        assert y.events[i] == v.events[i];
      }
    }
  }

  /** From w to w' the entry is dropped only after x, and the command is started only after x. */
  ghost predicate Retains(w: World, w': World, id: string, x: Time) {
    && Forward(w, w', id, w.clock)
    && (Held(w.store, id, x) ==>
          && (x < w'.clock || Held(w'.store, id, x))
          && forall i :: |w.events| <= i < |w'.events| ==> StartsFrom(w'.events[i], id, x + 1))
  }

  lemma RetainsOn(w: World, v: World, y: World, id: string, x: Time)
    requires Retains(w, v, id, x) && Retains(v, y, id, x)
    ensures Retains(w, y, id, x)
  {
    ForwardOn(w, v, y, id, w.clock);
    if Held(w.store, id, x) {
      forall i | |w.events| <= i < |y.events|
        ensures StartsFrom(y.events[i], id, x + 1)
      {
        if i < |v.events| {
          assert y.events[i] == v.events[i];
        }
      }
    }
  }

  /** Steps of the store keep what is held. */
  lemma StoreKeepsHeld(s: Store, id: string, x: Time, other: string, nonce: string, expiry: Time, now: Time,
        result: CommandResult, o: SaveOutcome)
    requires Held(s, id, x)
    ensures Held(Ack(s, other, o).0, id, x) && Held(Requeue(s, other, o).0, id, x)
    ensures Held(Mark(s, other, o).0, id, x) && Held(Reserve(s, other, nonce, expiry, o).0, id, x)
    ensures Held(Complete(s, other, expiry, now, result, o).0, id, x)
  {
    assert IsNonceKey(NonceKey(nonce));
  }

  lemma RecoverKeepsHeld(s: Store, id: string, x: Time, o: SaveOutcome)
    requires Held(s, id, x)
    ensures Held(Recover(s, o).0, id, x)
  {
  }

  lemma SentRetains(w: World, p: PendingResult, reached: bool, id: string, x: Time)
    ensures Retains(w, Sent(w, p, reached), id, x)
  {
  }

  /** Nothing but the store has changed, and it keeps what it held. */
  lemma StoreRetains(w: World, store: Store, id: string, x: Time)
    requires Held(w.store, id, x) ==> Held(store, id, x)
    ensures Retains(w, w.(store := store), id, x)
  {
  }

  lemma AcceptedRetains(w: World, p: PendingResult, env: Environment, id: string, x: Time)
    ensures var c := env(w.step);
      var w1 := Sent(Tick(w, c), p, true);
      Retains(w, w1.(store := Ack(w1.store, p.commandID, c.save).0), id, x)
  {
    var c := env(w.step);
    var w1 := Sent(Tick(w, c), p, true);
    SentRetains(Tick(w, c), p, true, id, x);
    if Held(w1.store, id, x) {
      StoreKeepsHeld(w1.store, id, x, p.commandID, "", 0, 0, UNKNOWN_OUTCOME, c.save);
    }
  }

  lemma {:induction false} FlushItemsRetains(w: World, items: seq<PendingResult>, failed: bool, env: Environment,
        id: string, x: Time)
    ensures Retains(w, FlushItems(w, items, failed, env).0, id, x)
    decreases |items|
  {
    if items != [] {
      var c, p := env(w.step), items[0];
      var w1 := Tick(w, c);
      match c.upload
      case NotAttempted =>
      case DiedUploading(reached) => SentRetains(w1, p, reached, id, x);
      case NotConfirmed(reached) =>
        var w2 := Sent(w1, p, reached);
        SentRetains(w1, p, reached, id, x);
        FlushItemsRetains(w2, items[1..], true, env, id, x);
        RetainsOn(w, w2, FlushItems(w2, items[1..], true, env).0, id, x);
      case Accepted =>
        AcceptedRetains(w, p, env, id, x);
        var w2 := Sent(w1, p, true);
        var (store, status) := Ack(w2.store, p.commandID, c.save);
        if status == Done {
          var w3 := w2.(store := store);
          FlushItemsRetains(w3, items[1..], failed, env, id, x);
          RetainsOn(w, w3, FlushItems(w3, items[1..], failed, env).0, id, x);
        }
    }
  }

  lemma FlushRetains(w: World, env: Environment, id: string, x: Time)
    ensures Retains(w, Flush(w, env).0, id, x)
  {
    FlushItemsRetains(w, Outbox(w.store.mem), false, env, id, x);
  }

  lemma QueueResultRetains(w: World, other: string, expiry: Time, result: CommandResult, env: Environment, id: string,
        x: Time)
    ensures Retains(w, QueueResult(w, other, expiry, result, env).0, id, x)
  {
    var c := env(w.step);
    var w1 := Tick(w, c);
    if Held(w1.store, id, x) {
      StoreKeepsHeld(w1.store, id, x, other, "", expiry, w1.clock, result, c.save);
    }
    var w2 := w1.(store := Complete(w1.store, other, expiry, w1.clock, result, c.save).0);
    StoreRetains(w1, w2.store, id, x);
    FlushRetains(w2, env, id, x);
    RetainsOn(w, w2, Flush(w2, env).0, id, x);
  }

  lemma RedeliveredRetains(w: World, other: string, save: SaveOutcome, env: Environment, id: string, x: Time)
    ensures Retains(w, Redelivered(w, other, save, env).0, id, x)
  {
    if Held(w.store, id, x) {
      StoreKeepsHeld(w.store, id, x, other, "", 0, 0, UNKNOWN_OUTCOME, save);
    }
    var w1 := w.(store := Requeue(w.store, other, save).0);
    StoreRetains(w, w1.store, id, x);
    FlushRetains(w1, env, id, x);
    RetainsOn(w, w1, Flush(w1, env).0, id, x);
  }

  lemma RunProcessGoesForward(w: World, other: string, nonce: string, expiry: Time, envelope: Envelope,
        admittedAt: Time, env: Environment, id: string)
    requires admittedAt <= w.clock
    ensures Forward(w, RunProcess(w, other, nonce, expiry, envelope, admittedAt, env).0, id, admittedAt)
  {
    var w1 := w.(events := w.events + [Started(other, nonce, envelope, expiry, admittedAt, w.clock)]);
    var c := env(w1.step);
    var w2 := Tick(w1, c);
    if c.run.Some? {
      var w3 := w2.(events := w2.events + [Finished(other, c.run.value)]);
      var w4 := w3.(store := Complete(w3.store, other, expiry, w3.clock, c.run.value, c.save).0);
      assert Forward(w, w4, id, admittedAt);
      FlushRetains(w4, env, id, ZERO_TIME);
      ForwardOn(w, w4, Flush(w4, env).0, id, admittedAt);
    }
  }

  lemma ExecuteReservedGoesForward(w: World, other: string, nonce: string, expiry: Time, envelope: Envelope,
        admittedAt: Time, env: Environment, id: string)
    requires admittedAt <= w.clock
    ensures Forward(w, ExecuteReserved(w, other, nonce, expiry, envelope, admittedAt, env).0, id, admittedAt)
  {
    var c := env(w.step);
    var w1 := Tick(w, c);
    var (store, status) := Mark(w1.store, other, c.save);
    var w2 := w1.(store := store);
    if status == Done {
      RunProcessGoesForward(w2, other, nonce, expiry, envelope, admittedAt, env, id);
      ForwardOn(w, w2, RunProcess(w2, other, nonce, expiry, envelope, admittedAt, env).0, id, admittedAt);
    } else if status != Died {
      QueueResultRetains(w2, other, expiry, NOT_MARKED, env, id, ZERO_TIME);
      ForwardOn(w, w2, QueueResult(w2, other, expiry, NOT_MARKED, env).0, id, admittedAt);
    }
  }

  lemma ExecuteGoesForward(w: World, other: string, nonce: string, expiry: Time, envelope: Envelope, save: SaveOutcome,
        env: Environment, id: string)
    ensures Forward(w, Execute(w, other, nonce, expiry, envelope, save, env).0, id, w.clock)
  {
    var (store, status) := Reserve(w.store, other, nonce, expiry, save);
    var w1 := w.(store := store);
    if status == Done {
      ExecuteReservedGoesForward(w1, other, nonce, expiry, envelope, w1.clock, env, id);
      ForwardOn(w, w1, ExecuteReserved(w1, other, nonce, expiry, envelope, w1.clock, env).0, id, w.clock);
    } else if status != Died {
      QueueResultRetains(w1, other, expiry, NOT_RESERVED, env, id, ZERO_TIME);
      ForwardOn(w, w1, QueueResult(w1, other, expiry, NOT_RESERVED, env).0, id, w.clock);
    }
  }

  /** The process of another command. */
  lemma RunProcessRetains(w: World, other: string, nonce: string, expiry: Time, envelope: Envelope, admittedAt: Time,
        env: Environment, id: string, x: Time)
    requires other != id
    ensures Retains(w, RunProcess(w, other, nonce, expiry, envelope, admittedAt, env).0, id, x)
  {
    var w1 := w.(events := w.events + [Started(other, nonce, envelope, expiry, admittedAt, w.clock)]);
    var c := env(w1.step);
    var w2 := Tick(w1, c);
    if c.run.Some? {
      var w3 := w2.(events := w2.events + [Finished(other, c.run.value)]);
      if Held(w3.store, id, x) {
        StoreKeepsHeld(w3.store, id, x, other, "", expiry, w3.clock, c.run.value, c.save);
      }
      var w4 := w3.(store := Complete(w3.store, other, expiry, w3.clock, c.run.value, c.save).0);
      assert Retains(w, w4, id, x);
      FlushRetains(w4, env, id, x);
      RetainsOn(w, w4, Flush(w4, env).0, id, x);
    }
  }

  lemma ExecuteReservedRetains(w: World, other: string, nonce: string, expiry: Time, envelope: Envelope,
        admittedAt: Time, env: Environment, id: string, x: Time)
    requires other != id
    ensures Retains(w, ExecuteReserved(w, other, nonce, expiry, envelope, admittedAt, env).0, id, x)
  {
    var c := env(w.step);
    var w1 := Tick(w, c);
    if Held(w1.store, id, x) {
      StoreKeepsHeld(w1.store, id, x, other, nonce, expiry, 0, UNKNOWN_OUTCOME, c.save);
    }
    var (store, status) := Mark(w1.store, other, c.save);
    var w2 := w1.(store := store);
    StoreRetains(w1, store, id, x);
    if status == Done {
      RunProcessRetains(w2, other, nonce, expiry, envelope, admittedAt, env, id, x);
      RetainsOn(w, w2, RunProcess(w2, other, nonce, expiry, envelope, admittedAt, env).0, id, x);
    } else if status != Died {
      QueueResultRetains(w2, other, expiry, NOT_MARKED, env, id, x);
      RetainsOn(w, w2, QueueResult(w2, other, expiry, NOT_MARKED, env).0, id, x);
    }
  }

  lemma ExecuteRetains(w: World, other: string, nonce: string, expiry: Time, envelope: Envelope, save: SaveOutcome,
        env: Environment, id: string, x: Time)
    requires other !in w.store.mem
    ensures Retains(w, Execute(w, other, nonce, expiry, envelope, save, env).0, id, x)
  {
    if other == id {
      ExecuteGoesForward(w, other, nonce, expiry, envelope, save, env, id);
    } else {
      if Held(w.store, id, x) {
        StoreKeepsHeld(w.store, id, x, other, nonce, expiry, 0, UNKNOWN_OUTCOME, save);
      }
      var (store, status) := Reserve(w.store, other, nonce, expiry, save);
      var w1 := w.(store := store);
      StoreRetains(w, store, id, x);
      if status == Done {
        ExecuteReservedRetains(w1, other, nonce, expiry, envelope, w1.clock, env, id, x);
        RetainsOn(w, w1, ExecuteReserved(w1, other, nonce, expiry, envelope, w1.clock, env).0, id, x);
      } else if status != Died {
        QueueResultRetains(w1, other, expiry, NOT_RESERVED, env, id, x);
        RetainsOn(w, w1, QueueResult(w1, other, expiry, NOT_RESERVED, env).0, id, x);
      }
    }
  }

  lemma ProcessCommandRetains(w: World, cmd: Command, env: Environment, id: string, x: Time)
    ensures Retains(w, ProcessCommand(w, cmd, env).0, id, x)
  {
    var c := env(w.step);
    var w1 := Tick(w, c);
    match Gate(w1.store.mem, cmd, w1.clock)
    case Refuse(expiry, result) =>
      QueueResultRetains(w1, cmd.id, expiry, result, env, id, x);
      RetainsOn(w, w1, ProcessCommand(w, cmd, env).0, id, x);
    case Replay =>
      RedeliveredRetains(w1, cmd.id, c.save, env, id, x);
      RetainsOn(w, w1, ProcessCommand(w, cmd, env).0, id, x);
    case Admit(expiry) =>
      ExecuteRetains(w1, cmd.id, cmd.nonce, expiry, cmd.envelope, c.save, env, id, x);
      RetainsOn(w, w1, ProcessCommand(w, cmd, env).0, id, x);
  }

  lemma {:induction false} ProcessBatchRetains(w: World, commands: seq<Command>, first: Flow, env: Environment,
        id: string, x: Time)
    ensures Retains(w, ProcessBatch(w, commands, first, env).0, id, x)
    decreases |commands|
  {
    if commands != [] {
      ProcessCommandRetains(w, commands[0], env, id, x);
      var (w1, flow) := ProcessCommand(w, commands[0], env);
      if flow != Fatal && flow != Dead {
        var w2 := Tick(w1, env(w1.step));
        RetainsOn(w, w1, w2, id, x);
        ProcessBatchRetains(w2, commands[1..], First(first, flow), env, id, x);
        RetainsOn(w, w2, ProcessBatch(w2, commands[1..], First(first, flow), env).0, id, x);
      }
    }
  }

  /** Pruning drops what is held only when its expiry has passed. */
  lemma PruneStepRetains(w: World, env: Environment, id: string, x: Time)
    ensures Retains(w, PruneStep(w, env).0, id, x)
  {
  }

  lemma HandleAnswerRetains(w: World, commands: seq<Command>, monitoring: Flow, routed: bool, env: Environment,
        id: string, x: Time)
    ensures Retains(w, HandleAnswer(w, commands, monitoring, routed, env).0, id, x)
  {
    FlushRetains(w, env, id, x);
    var (w1, flushed) := Flush(w, env);
    if flushed != Dead && routed && commands != [] {
      var first := if flushed == Fine then monitoring else flushed;
      ProcessBatchRetains(w1, commands, first, env, id, x);
      var (w2, end) := ProcessBatch(w1, commands, first, env);
      RetainsOn(w, w1, w2, id, x);
      if end.Drained? {
        FlushRetains(w2, env, id, x);
        RetainsOn(w, w2, Flush(w2, env).0, id, x);
      }
    }
  }

  lemma CheckInRetains(w: World, beat: Beat, env: Environment, id: string, x: Time)
    ensures Retains(w, CheckIn(w, beat, env).0, id, x)
  {
    if !beat.Abandoned? {
      PruneStepRetains(w, env, id, x);
      var (w1, flow) := PruneStep(w, env);
      if flow == Fine && beat.Answered? {
        HandleAnswerRetains(w1, Judged(beat.deliveries, beat.trust), beat.monitoring, beat.routed, env, id, x);
        RetainsOn(w, w1, Beaten(w1, beat, env).0, id, x);
      }
    }
  }

  /** Held in the file, and in memory while the agent is up. */
  predicate HeldBy(w: World, id: string, x: Time) {
    HeldIn(w.store.disk, id, x) && (w.up ==> HeldIn(w.store.mem, id, x))
  }

  lemma LoadSessionRetains(w: World, env: Environment, id: string, x: Time)
    requires HeldIn(w.store.disk, id, x)
    ensures var w' := LoadSession(w, env);
      Forward(w, w', id, w.clock) && (x < w'.clock || HeldBy(w', id, x))
      && forall i :: |w.events| <= i < |w'.events| ==> StartsFrom(w'.events[i], id, x + 1)
  {
    var c := env(w.step);
    var w1 := Tick(w, c);
    var read := Store(w1.store.disk, w1.store.disk, NoWrite);
    RecoverKeepsHeld(read, id, x, c.save);
    var (store, status) := Recover(read, c.save);
    var w2 := w1.(store := store);
    if status == Done {
      PruneStepRetains(w2, env, id, x);
      ForwardOn(w, w2, PruneStep(w2, env).0, id, w.clock);
    }
  }

  lemma ActRetains(w: World, a: Activity, env: Environment, id: string, x: Time)
    requires HeldBy(w, id, x)
    ensures var w' := Act(w, a, env);
      Forward(w, w', id, w.clock) && (x < w'.clock || HeldBy(w', id, x))
      && forall i :: |w.events| <= i < |w'.events| ==> StartsFrom(w'.events[i], id, x + 1)
  {
    match a
    case PowerLoss =>
    case Boot =>
      if !w.up {
        LoadSessionRetains(w, env, id, x);
      }
    case Beats(beat) =>
      if w.up {
        CheckInRetains(w, beat, env, id, x);
      }
  }

  lemma ActGoesForward(w: World, a: Activity, env: Environment, id: string)
    ensures Forward(w, Act(w, a, env), id, w.clock)
  {
    match a
    case PowerLoss =>
    case Boot =>
      if !w.up {
        LoadSessionGoesForward(w, env, id);
      }
    case Beats(beat) =>
      if w.up {
        CheckInRetains(w, beat, env, id, ZERO_TIME);
      }
  }

  lemma LoadSessionGoesForward(w: World, env: Environment, id: string)
    ensures Forward(w, LoadSession(w, env), id, w.clock)
  {
    var c := env(w.step);
    var w1 := Tick(w, c);
    var (store, status) := Recover(Store(w1.store.disk, w1.store.disk, NoWrite), c.save);
    var w2 := w1.(store := store);
    if status == Done {
      PruneStepRetains(w2, env, id, ZERO_TIME);
      ForwardOn(w, w2, PruneStep(w2, env).0, id, w.clock);
    }
  }

  /** Over every run from here: the entry is dropped only after x, and until then the command is not admitted. */
  lemma {:induction false} RunRetains(w: World, activities: seq<Activity>, env: Environment, id: string, x: Time)
    requires HeldBy(w, id, x)
    ensures var w' := Run(w, activities, env);
      && w.clock <= w'.clock && w.events <= w'.events
      && (x < w'.clock || HeldBy(w', id, x))
      && forall i :: |w.events| <= i < |w'.events| ==> StartsFrom(w'.events[i], id, x + 1)
    decreases |activities|
  {
    if activities != [] {
      var n := |activities| - 1;
      RunRetains(w, activities[..n], env, id, x);
      var v, a := Run(w, activities[..n], env), activities[n];
      if HeldBy(v, id, x) {
        ActRetains(v, a, env, id, x);
      } else {
        ActGoesForward(v, a, env, id);
      }
      StartsInParts(w, v, Act(v, a, env), id, x);
    }
  }

  lemma StartsInParts(w: World, v: World, y: World, id: string, x: Time)
    requires w.events <= v.events <= y.events
    requires forall i :: |w.events| <= i < |v.events| ==> StartsFrom(v.events[i], id, x + 1)
    requires forall i :: |v.events| <= i < |y.events| ==>
      StartsFrom(y.events[i], id, x + 1) || (x < v.clock && StartsFrom(y.events[i], id, v.clock))
    ensures forall i :: |w.events| <= i < |y.events| ==> StartsFrom(y.events[i], id, x + 1)
  {
    forall i | |w.events| <= i < |y.events|
      ensures StartsFrom(y.events[i], id, x + 1)
    {
      if i < |v.events| {
        assert y.events[i] == v.events[i];
      }
    }
  }

  // ---------------------------------------------------------------------------------------------
  // A refusal is filed under the ID it names
  // ---------------------------------------------------------------------------------------------

  ghost predicate WorkingSaves(env: Environment) {
    forall n: nat :: env(n).save.Saved?
  }

  /** The agent survives its uploads. */
  ghost predicate SurvivedUploads(env: Environment) {
    forall n: nat :: !env(n).upload.DiedUploading?
  }

  /** Until when a refusal at `now` is retained. */
  function RetainedUntil(verdict: Verdict, now: Time): Time
    requires verdict.Refuse?
  {
    if verdict.expiry == ZERO_TIME then now + UNVERIFIED_RESULT_TTL else verdict.expiry
  }

  /** Storing the refusal of an unknown ID, with a save that works. */
  lemma RefusalIsStored(s: Store, id: string, verdict: Verdict, now: Time)
    requires id !in s.mem && !IsNonceKey(id) && verdict.Refuse? && now > ZERO_TIME
    ensures var (t, status) := Complete(s, id, verdict.expiry, now, verdict.result, Saved);
      status == Done && Held(t, id, RetainedUntil(verdict, now))
  {
  }

  lemma RefusedCommandIsQueued(w: World, cmd: Command, env: Environment)
    requires Gate(w.store.mem, cmd, w.clock + env(w.step).elapsed).Refuse?
    ensures var w1 := Tick(w, env(w.step));
      var verdict := Gate(w.store.mem, cmd, w1.clock);
      ProcessCommand(w, cmd, env) == QueueResult(w1, cmd.id, verdict.expiry, verdict.result, env)
  {
  }

  lemma StoredRefusalIsFlushed(w: World, id: string, verdict: Verdict, env: Environment)
    requires verdict.Refuse? && env(w.step).save.Saved? && id !in w.store.mem && !IsNonceKey(id) && w.clock > ZERO_TIME
    ensures var x := RetainedUntil(verdict, w.clock + env(w.step).elapsed);
      var w' := QueueResult(w, id, verdict.expiry, verdict.result, env).0;
      w.clock <= w'.clock && w.events <= w'.events && (x < w'.clock || Held(w'.store, id, x))
  {
    var w1 := Tick(w, env(w.step));
    var x := RetainedUntil(verdict, w1.clock);
    RefusalIsStored(w1.store, id, verdict, w1.clock);
    var (store, status) := Complete(w1.store, id, verdict.expiry, w1.clock, verdict.result, env(w.step).save);
    var w2 := w1.(store := store);
    FlushRetains(w2, env, id, x);
    assert QueueResult(w, id, verdict.expiry, verdict.result, env) == Flush(w2, env);
  }

  /** A refused command is filed under its ID, unless something is there already. */
  lemma RefusalIsFiled(w: World, cmd: Command, env: Environment)
    requires cmd.id !in w.store.mem && !IsNonceKey(cmd.id) && env(w.step + 1).save.Saved? && w.clock > ZERO_TIME
    requires Gate(w.store.mem, cmd, w.clock + env(w.step).elapsed).Refuse?
    ensures var now := w.clock + env(w.step).elapsed;
      var x := RetainedUntil(Gate(w.store.mem, cmd, now), now + env(w.step + 1).elapsed);
      var w' := ProcessCommand(w, cmd, env).0;
      w.clock <= w'.clock && w.events <= w'.events && (x < w'.clock || Held(w'.store, cmd.id, x))
  {
    var w1 := Tick(w, env(w.step));
    RefusedCommandIsQueued(w, cmd, env);
    StoredRefusalIsFlushed(w1, cmd.id, Gate(w.store.mem, cmd, w1.clock), env);
  }

  lemma {:induction false} FlushWithWorkingSaves(w: World, items: seq<PendingResult>, failed: bool, env: Environment)
    requires WorkingSaves(env) && SurvivedUploads(env)
    requires JournalProtocol.Deliverable(w.store.mem, items)
    ensures var (w', flow) := FlushItems(w, items, failed, env);
      && (flow == Fine || flow == ReportError) && w'.up == w.up && w'.store.mem.Keys == w.store.mem.Keys
    decreases |items|
  {
    if items != [] {
      var c, p := env(w.step), items[0];
      var w1 := Tick(w, c);
      match c.upload
      case NotAttempted =>
      case NotConfirmed(reached) =>
        JournalProtocol.RestDeliverable(w.store.mem, w.store.mem, items);
        FlushWithWorkingSaves(Sent(w1, p, reached), items[1..], true, env);
      case Accepted =>
        var w2 := Sent(w1, p, true);
        var (store, status) := Ack(w2.store, p.commandID, c.save);
        assert status == Done && store.mem.Keys == w.store.mem.Keys;
        JournalProtocol.AckTakesOneAway(w2.store, p.commandID);
        JournalProtocol.RestDeliverable(w.store.mem, store.mem, items);
        FlushWithWorkingSaves(w2.(store := store), items[1..], failed, env);
    }
  }

  /** With working saves and uploads that do not kill the agent, a check-in gets to the delivery it brings. */
  function AtTheGate(w: World, env: Environment): World {
    Flush(PruneStep(w, env).0, env).0
  }

  lemma CheckInReachesTheGate(w: World, env: Environment)
    requires WorkingSaves(env) && SurvivedUploads(env)
    ensures PruneStep(w, env).1 == Fine
    ensures Flush(PruneStep(w, env).0, env).1 == Fine || Flush(PruneStep(w, env).0, env).1 == ReportError
    ensures AtTheGate(w, env).up == w.up
    ensures AtTheGate(w, env).store.mem.Keys <= w.store.mem.Keys
    ensures w.clock <= AtTheGate(w, env).clock && w.events <= AtTheGate(w, env).events
  {
    var (w1, flow) := PruneStep(w, env);
    assert flow == Fine && w1.up == w.up && w1.store.mem.Keys <= w.store.mem.Keys;
    JournalProtocol.OutboxDeliverable(w1.store.mem);
    FlushWithWorkingSaves(w1, Outbox(w1.store.mem), false, env);
    FlushRetains(w1, env, "", ZERO_TIME);
  }

  /** The heartbeat that brings one delivery. */
  function Brings(d: Delivery, t: Trust): Activity {
    Beats(Answered([d], t, Fine, true))
  }

  /** What is left of that check-in once the delivery has been processed. */
  function AfterProcessing(r: (World, Flow), env: Environment): World {
    if r.1 == Fatal || r.1 == Dead then Die(r.0) else Flush(Tick(r.0, env(r.0.step)), env).0
  }

  /** The check-in after pruning. */
  lemma AnswerOneCommand(v: World, cmd: Command, env: Environment)
    requires Flush(v, env).1 == Fine || Flush(v, env).1 == ReportError
    ensures var r := ProcessCommand(Flush(v, env).0, cmd, env);
      HandleAnswer(v, [cmd], Fine, true, env).0
        == if r.1 == Fatal || r.1 == Dead then r.0 else Flush(Tick(r.0, env(r.0.step)), env).0
  {
    var (g, flushed) := Flush(v, env);
    OneCommandBatch(g, cmd, flushed, env);
  }

  lemma OneDelivery(w: World, d: Delivery, t: Trust, env: Environment)
    requires w.up && WorkingSaves(env) && SurvivedUploads(env)
    ensures var r := ProcessCommand(AtTheGate(w, env), Judge(d, t), env);
      var w' := Act(w, Brings(d, t), env);
      w'.store == AfterProcessing(r, env).store && w'.events == AfterProcessing(r, env).events
      && w'.clock == AfterProcessing(r, env).clock && (w'.up ==> AfterProcessing(r, env).up)
  {
    CheckInReachesTheGate(w, env);
    BringsOneCommand(w, d, t, env);
    var v := PruneStep(w, env).0;
    AnswerOneCommand(v, Judge(d, t), env);
    FatalIsReturned(v, Judge(d, t), env);
  }

  lemma BringsOneCommand(w: World, d: Delivery, t: Trust, env: Environment)
    requires w.up && PruneStep(w, env).1 == Fine
    ensures var answer := HandleAnswer(PruneStep(w, env).0, [Judge(d, t)], Fine, true, env);
      Act(w, Brings(d, t), env) == if answer.1 == Fatal || answer.1 == Dead then Die(answer.0) else answer.0
  {
    CarriesOneCommand(PruneStep(w, env).0, d, t, env);
    var beat := Answered([d], t, Fine, true);
    assert CheckIn(w, beat, env) == Beaten(PruneStep(w, env).0, beat, env);
  }

  lemma CarriesOneCommand(w: World, d: Delivery, t: Trust, env: Environment)
    ensures Beaten(w, Answered([d], t, Fine, true), env) == HandleAnswer(w, [Judge(d, t)], Fine, true, env)
  {
    assert Judged([d], t) == [Judge(d, t)];
  }

  lemma FatalIsReturned(v: World, cmd: Command, env: Environment)
    requires Flush(v, env).1 == Fine || Flush(v, env).1 == ReportError
    ensures var r := ProcessCommand(Flush(v, env).0, cmd, env);
      r.1 == Fatal || r.1 == Dead ==> HandleAnswer(v, [cmd], Fine, true, env).1 == r.1
  {
    var (g, flushed) := Flush(v, env);
    OneCommandBatch(g, cmd, flushed, env);
  }

  lemma OneCommandBatch(w: World, cmd: Command, first: Flow, env: Environment)
    ensures var (v, flow) := ProcessCommand(w, cmd, env);
      var (v', end) := ProcessBatch(w, [cmd], first, env);
      if flow == Fatal || flow == Dead then v' == v && end == Returned(flow)
      else v' == Tick(v, env(v.step)) && end.Drained?
  {
    assert [cmd][1..] == [];
  }

  lemma AfterProcessingRetains(r: (World, Flow), env: Environment, id: string, x: Time)
    ensures Retains(r.0, AfterProcessing(r, env), id, x)
  {
    var v := Tick(r.0, env(r.0.step));
    FlushRetains(v, env, id, x);
    RetainsOn(r.0, v, Flush(v, env).0, id, x);
  }

  /** Not addressed to this agent, or not signed by a key it trusts. */
  predicate Unverified(cmd: Command) {
    !(cmd.forThisAgent && cmd.keyKnown && cmd.authentic)
  }

  lemma UnverifiedIsRefused(mem: Journal, cmd: Command, now: Time)
    requires Unverified(cmd)
    ensures Gate(mem, cmd, now).Refuse? && Gate(mem, cmd, now).expiry == ZERO_TIME
  {
  }

  /** Filed when the delivery is processed. */
  lemma UnverifiedIsFiledAtTheGate(g: World, cmd: Command, env: Environment) returns (y: Time)
    requires Unverified(cmd) && !IsNonceKey(cmd.id) && cmd.id !in g.store.mem && g.clock > ZERO_TIME && WorkingSaves(env)
    ensures var v := ProcessCommand(g, cmd, env).0;
      g.clock + UNVERIFIED_RESULT_TTL <= y && (y < v.clock || Held(v.store, cmd.id, y))
  {
    var now := g.clock + env(g.step).elapsed;
    UnverifiedIsRefused(g.store.mem, cmd, now);
    RefusalIsFiled(g, cmd, env);
    y := RetainedUntil(Gate(g.store.mem, cmd, now), now + env(g.step + 1).elapsed);
  }

  lemma HeldIsHeldBy(v: World, w: World, id: string, y: Time)
    requires Retains(v, w, id, y) && (y < v.clock || Held(v.store, id, y))
    ensures y < w.clock || HeldBy(w, id, y)
  {
  }

  /** From the end of the check-in that brought it, a delivery that does not verify is filed under the ID it names, for a day. */
  lemma UnverifiedDeliveryIsFiled(w: World, d: Delivery, t: Trust, env: Environment) returns (y: Time)
    requires w.up && w.clock > ZERO_TIME && WorkingSaves(env) && SurvivedUploads(env)
    requires Unverified(Judge(d, t)) && !IsNonceKey(Judge(d, t).id) && Judge(d, t).id !in w.store.mem
    ensures var w' := Act(w, Brings(d, t), env);
      w.clock + UNVERIFIED_RESULT_TTL <= y && (y < w'.clock || HeldBy(w', Judge(d, t).id, y))
  {
    var cmd, g := Judge(d, t), AtTheGate(w, env);
    CheckInReachesTheGate(w, env);
    y := UnverifiedIsFiledAtTheGate(g, cmd, env);
    var r := ProcessCommand(g, cmd, env);
    AfterProcessingRetains(r, env, cmd.id, y);
    HeldIsHeldBy(r.0, AfterProcessing(r, env), cmd.id, y);
    OneDelivery(w, d, t, env);
  }

  /** Nothing is started by a check-in whose one delivery is not admitted. */
  lemma RefusedCommandDoesNotStart(w: World, d: Delivery, t: Trust, env: Environment)
    requires w.up && WorkingSaves(env) && SurvivedUploads(env)
    requires var g := AtTheGate(w, env); !Gate(g.store.mem, Judge(d, t), g.clock + env(g.step).elapsed).Admit?
    ensures var w' := Act(w, Brings(d, t), env);
      w.events <= w'.events && forall i :: |w.events| <= i < |w'.events| ==> !w'.events[i].Started?
  {
    var cmd, g := Judge(d, t), AtTheGate(w, env);
    var none: set<Command> := {};
    CheckInReachesTheGate(w, env);
    JournalGates.PruneStepAdvances(w, env, none);
    var w1 := PruneStep(w, env).0;
    JournalGates.FlushItemsAdvances(w1, Outbox(w1.store.mem), false, env, none);
    JournalGates.AdvancesOn(w, w1, g, none, env);
    NotAdmittedAdvances(g, cmd, env);
    var r := ProcessCommand(g, cmd, env);
    JournalGates.AdvancesOn(w, g, r.0, none, env);
    AfterProcessingAdvances(r, env);
    JournalGates.AdvancesOn(w, r.0, AfterProcessing(r, env), none, env);
    OneDelivery(w, d, t, env);
    forall i | |w.events| <= i < |AfterProcessing(r, env).events|
      ensures !AfterProcessing(r, env).events[i].Started?
    {
      assert JournalGates.Justified(AfterProcessing(r, env).events[i], none);
    }
  }

  lemma NotAdmittedAdvances(w: World, cmd: Command, env: Environment)
    requires !Gate(w.store.mem, cmd, w.clock + env(w.step).elapsed).Admit?
    ensures JournalGates.Advances(w, ProcessCommand(w, cmd, env).0, {}, env)
  {
    var w1 := Tick(w, env(w.step));
    match Gate(w1.store.mem, cmd, w1.clock)
    case Refuse(expiry, result) =>
      JournalGates.QueueResultAdvances(w1, cmd.id, expiry, result, env, {});
      JournalGates.AdvancesOn(w, w1, QueueResult(w1, cmd.id, expiry, result, env).0, {}, env);
    case Replay =>
      JournalGates.RedeliveredAdvances(w1, cmd.id, env(w.step).save, env, {});
      JournalGates.AdvancesOn(w, w1, Redelivered(w1, cmd.id, env(w.step).save, env).0, {}, env);
  }

  lemma AfterProcessingAdvances(r: (World, Flow), env: Environment)
    ensures JournalGates.Advances(r.0, AfterProcessing(r, env), {}, env)
  {
    var v := Tick(r.0, env(r.0.step));
    JournalGates.FlushItemsAdvances(v, Outbox(v.store.mem), false, env, {});
    JournalGates.AdvancesOn(r.0, v, Flush(v, env).0, {}, env);
  }

  /**
   A refusal keeps the ID it names for a day: after one check-in that refused a delivery which does not verify, no run
   whatsoever admits a command with that ID within the following 24 hours.
   */
  lemma RefusalBlocksItsID(w: World, d: Delivery, t: Trust, env: Environment, later: seq<Activity>,
        after: Environment)
    requires w.up && w.clock > ZERO_TIME && WorkingSaves(env) && SurvivedUploads(env)
    requires Unverified(Judge(d, t)) && !IsNonceKey(Judge(d, t).id) && Judge(d, t).id !in w.store.mem
    ensures var events := Run(Act(w, Brings(d, t), env), later, after).events;
      forall i :: |w.events| <= i < |events| ==>
        StartsFrom(events[i], Judge(d, t).id, w.clock + UNVERIFIED_RESULT_TTL + 1)
  {
    var y := UnverifiedDeliveryIsFiled(w, d, t, env);
    var g := AtTheGate(w, env);
    UnverifiedIsRefused(g.store.mem, Judge(d, t), g.clock + env(g.step).elapsed);
    RefusedCommandDoesNotStart(w, d, t, env);
    var id, x, w' := Judge(d, t).id, w.clock + UNVERIFIED_RESULT_TTL, Act(w, Brings(d, t), env);
    var v := Run(w', later, after);
    if y < w'.clock {
      RunGoesForward(w', later, after, id);
    } else {
      RunRetains(w', later, after, id, y);
    }
    forall i | |w.events| <= i < |v.events|
      ensures StartsFrom(v.events[i], id, x + 1)
    {
      if i < |w'.events| {
        assert v.events[i] == w'.events[i];
      }
    }
  }

  lemma {:induction false} RunGoesForward(w: World, activities: seq<Activity>, env: Environment, id: string)
    ensures Forward(w, Run(w, activities, env), id, w.clock)
    decreases |activities|
  {
    if activities != [] {
      var n := |activities| - 1;
      RunGoesForward(w, activities[..n], env, id);
      var v := Run(w, activities[..n], env);
      ActGoesForward(v, activities[n], env, id);
      ForwardOn(w, v, Act(v, activities[n], env), id, w.clock);
    }
  }

  /**
   So a command with that ID that the server had issued by then is never started: its signed window, a day at most,
   closes before the ID is free again.
   */
  lemma BlockedCommandNeverStarts(w: World, d: Delivery, t: Trust, env: Environment, later: seq<Activity>,
        after: Environment, genuine: Delivery, trust: Trust, i: nat)
    requires w.up && w.clock > ZERO_TIME && WorkingSaves(env) && SurvivedUploads(env)
    requires Unverified(Judge(d, t)) && !IsNonceKey(Judge(d, t).id) && Judge(d, t).id !in w.store.mem
    requires genuine.envelope.commandID == Judge(d, t).id
    requires var issued := trust.parseTime(genuine.envelope.issuedAt); issued.Some? && issued.value <= w.clock
    requires |w.events| <= i < |Run(Act(w, Brings(d, t), env), later, after).events|
    ensures !JournalGates.Authorizes(genuine, trust, Run(Act(w, Brings(d, t), env), later, after).events[i])
  {
    RefusalBlocksItsID(w, d, t, env, later, after);
    var e := Run(Act(w, Brings(d, t), env), later, after).events[i];
    assert StartsFrom(e, Judge(d, t).id, w.clock + UNVERIFIED_RESULT_TTL + 1);
    assert MAX_LIFETIME == UNVERIFIED_RESULT_TTL;
  }

  // ---------------------------------------------------------------------------------------------
  // A delivered command starts, exactly
  // ---------------------------------------------------------------------------------------------

  /** The gates that do not depend on the journal. */
  predicate Passes(cmd: Command, now: Time) {
    cmd.forThisAgent && cmd.keyKnown && cmd.authentic && Window(cmd.issuedAt, cmd.expiresAt, now).Some?
  }

  ghost predicate StartedSince(events: seq<Event>, from: nat, cmd: Command) {
    exists i :: from <= i < |events| && events[i].Started? && events[i].envelope == cmd.envelope
  }

  /**
   With working saves and uploads that do not kill the agent, the one command a heartbeat brings is started by that
   check-in exactly when it is addressed here, verifies, is in its window at the gate, and the journal holds nothing
   under its ID and nothing under its nonce after pruning.
   */
  lemma DeliveredCommandStartsExactly(w: World, d: Delivery, t: Trust, env: Environment)
    requires w.up && WorkingSaves(env) && SurvivedUploads(env)
    requires Judge(d, t).authentic ==> !IsNonceKey(Judge(d, t).id)
    ensures var cmd, g := Judge(d, t), AtTheGate(w, env);
      StartedSince(Act(w, Brings(d, t), env).events, |w.events|, cmd) <==>
        && Passes(cmd, g.clock + env(g.step).elapsed)
        && cmd.id !in g.store.mem && NonceKey(cmd.nonce) !in g.store.mem
    ensures AtTheGate(w, env).store.mem.Keys == PruneStep(w, env).0.store.mem.Keys
  {
    var cmd, g := Judge(d, t), AtTheGate(w, env);
    CheckInReachesTheGate(w, env);
    GateKeys(w, env);
    if Gate(g.store.mem, cmd, g.clock + env(g.step).elapsed).Admit? {
      AdmittedStays(w, d, t, env);
    } else {
      RefusedCommandDoesNotStart(w, d, t, env);
    }
  }

  lemma GateKeys(w: World, env: Environment)
    requires WorkingSaves(env) && SurvivedUploads(env)
    ensures AtTheGate(w, env).store.mem.Keys == PruneStep(w, env).0.store.mem.Keys
  {
    var w1 := PruneStep(w, env).0;
    JournalProtocol.OutboxDeliverable(w1.store.mem);
    FlushWithWorkingSaves(w1, Outbox(w1.store.mem), false, env);
  }

  lemma AdmittedIsStarted(g: World, cmd: Command, env: Environment)
    requires WorkingSaves(env) && !IsNonceKey(cmd.id)
    requires Gate(g.store.mem, cmd, g.clock + env(g.step).elapsed).Admit?
    ensures StartedSince(ProcessCommand(g, cmd, env).0.events, |g.events|, cmd)
  {
    JournalProtocol.AdmittedCommandStarts(g, cmd, env);
    var now := g.clock + env(g.step).elapsed;
    var e := Started(cmd.id, cmd.nonce, cmd.envelope, cmd.expiresAt.value, now, now + env(g.step + 1).elapsed);
    assert (g.events + [e])[|g.events|] == e;
  }

  lemma StartStays(events: seq<Event>, more: seq<Event>, from: nat, earlier: nat, cmd: Command)
    requires StartedSince(events, from, cmd) && events <= more && earlier <= from
    ensures StartedSince(more, earlier, cmd)
  {
    var i :| from <= i < |events| && events[i].Started? && events[i].envelope == cmd.envelope;
    assert more[i] == events[i];
  }

  lemma AdmittedStays(w: World, d: Delivery, t: Trust, env: Environment)
    requires w.up && WorkingSaves(env) && SurvivedUploads(env) && !IsNonceKey(Judge(d, t).id)
    requires var g := AtTheGate(w, env); Gate(g.store.mem, Judge(d, t), g.clock + env(g.step).elapsed).Admit?
    ensures StartedSince(Act(w, Brings(d, t), env).events, |w.events|, Judge(d, t))
  {
    var cmd, g := Judge(d, t), AtTheGate(w, env);
    CheckInReachesTheGate(w, env);
    AdmittedIsStarted(g, cmd, env);
    var r := ProcessCommand(g, cmd, env);
    AfterProcessingRetains(r, env, "", ZERO_TIME);
    OneDelivery(w, d, t, env);
    StartStays(r.0.events, AfterProcessing(r, env).events, |g.events|, |w.events|, cmd);
  }
}
