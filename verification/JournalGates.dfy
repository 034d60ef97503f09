/**
 Fail closed: over every run, whatever the environment does and whatever is delivered, a process is
 started only for a delivered command that passed every gate.
 */
module JournalGates {
  import opened Basics
  import opened CommandJournal
  import opened AgentRunner
  import opened CommandEnvelope

  /** A command that passed every gate, by the clock that was read when it was admitted. */
  ghost predicate Justifies(cmd: Command, e: Event) {
    && e.Started? && e.id == cmd.id && e.nonce == cmd.nonce && e.envelope == cmd.envelope
    && cmd.expiresAt == Some(e.expiry)
    && cmd.forThisAgent && cmd.keyKnown && cmd.authentic
    && cmd.issuedAt.Some? && GoodPair(cmd.issuedAt.value, e.expiry)
    && cmd.issuedAt.value - MAX_SKEW <= e.admittedAt < e.expiry
    && e.admittedAt <= e.at
  }

  ghost predicate Justified(e: Event, commands: set<Command>) {
    e.Started? ==> exists cmd :: cmd in commands && Justifies(cmd, e)
  }

  /** No save up to this step reported failure and took effect. */
  ghost predicate NoLateSave(env: Environment, steps: nat) {
    forall n :: 0 <= n < steps ==> !env(n).save.FailedAfterRename?
  }

  /** No acknowledgement has taken effect late, neither now nor at any upload so far. */
  ghost predicate Clean(w: World) {
    && !w.store.wrote.LateAcknowledgement?
    && forall i :: 0 <= i < |w.events| && w.events[i].Uploaded? ==> !w.events[i].wrote.LateAcknowledgement?
  }

  /**
   From w to w', time and history went forward, what was started was justified, and without a late save
   no acknowledgement was late.
   */
  ghost predicate Advances(w: World, w': World, commands: set<Command>, env: Environment) {
    && w.clock <= w'.clock && w.step <= w'.step && w.events <= w'.events
    && (forall i :: |w.events| <= i < |w'.events| ==> Justified(w'.events[i], commands))
    && (NoLateSave(env, w'.step) && Clean(w) ==> Clean(w'))
  }

  lemma AdvancesOn(w: World, x: World, y: World, commands: set<Command>, env: Environment)
    requires Advances(w, x, commands, env) && Advances(x, y, commands, env)
    ensures Advances(w, y, commands, env)
  {
    forall i | |w.events| <= i < |y.events|
      ensures Justified(y.events[i], commands)
    {
      if i < |x.events| {
        assert y.events[i] == x.events[i];
      }
    }
  }

  lemma SentAdvances(w: World, p: PendingResult, reached: bool, commands: set<Command>, env: Environment)
    ensures Advances(w, Sent(w, p, reached), commands, env)
  {
  }

  /** A confirmed upload and its acknowledgement, whatever the save does. */
  lemma AcknowledgedAdvances(w: World, p: PendingResult, env: Environment, commands: set<Command>)
    ensures var c := env(w.step);
      var w2 := Sent(Tick(w, c), p, true);
      var (store, _) := Ack(w2.store, p.commandID, c.save);
      Advances(w, w2.(store := store), commands, env) && Advances(w, Die(w2.(store := store)), commands, env)
  {
    var c := env(w.step);
    var w2 := Sent(Tick(w, c), p, true);
    SentAdvances(Tick(w, c), p, true, commands, env);
    assert NoLateSave(env, w2.step) ==> !c.save.FailedAfterRename?;
  }

  lemma {:induction false} FlushItemsAdvances(w: World, items: seq<PendingResult>, failed: bool, env: Environment,
        commands: set<Command>)
    ensures Advances(w, FlushItems(w, items, failed, env).0, commands, env)
    decreases |items|
  {
    if items != [] {
      var c, p := env(w.step), items[0];
      var w1 := Tick(w, c);
      match c.upload
      case NotAttempted =>
      case DiedUploading(reached) => SentAdvances(w1, p, reached, commands, env);
      case NotConfirmed(reached) =>
        var w2 := Sent(w1, p, reached);
        SentAdvances(w1, p, reached, commands, env);
        FlushItemsAdvances(w2, items[1..], true, env, commands);
        AdvancesOn(w, w2, FlushItems(w2, items[1..], true, env).0, commands, env);
      case Accepted =>
        AcknowledgedAdvances(w, p, env, commands);
        var w2 := Sent(w1, p, true);
        var (store, status) := Ack(w2.store, p.commandID, c.save);
        if status == Done {
          var w3 := w2.(store := store);
          FlushItemsAdvances(w3, items[1..], failed, env, commands);
          AdvancesOn(w, w3, FlushItems(w3, items[1..], failed, env).0, commands, env);
        }
    }
  }

  /** A save that acknowledges nothing adds no event and makes no acknowledgement late. */
  lemma StoreAdvances(w: World, store: Store, commands: set<Command>, env: Environment)
    requires store.wrote.LateAcknowledgement? ==> store.wrote == w.store.wrote
    ensures Advances(w, w.(store := store), commands, env)
  {
  }

  lemma FlushAdvances(w: World, v: World, env: Environment, commands: set<Command>)
    requires Advances(w, v, commands, env)
    ensures Advances(w, Flush(v, env).0, commands, env)
  {
    FlushItemsAdvances(v, Outbox(v.store.mem), false, env, commands);
    AdvancesOn(w, v, Flush(v, env).0, commands, env);
  }

  lemma QueueResultAdvances(w: World, id: string, expiry: Time, result: CommandResult, env: Environment,
        commands: set<Command>)
    ensures Advances(w, QueueResult(w, id, expiry, result, env).0, commands, env)
  {
    var c := env(w.step);
    var w1 := Tick(w, c);
    var w2 := w1.(store := Complete(w1.store, id, expiry, w1.clock, result, c.save).0);
    StoreAdvances(w1, w2.store, commands, env);
    FlushAdvances(w, w2, env, commands);
  }

  lemma RedeliveredAdvances(w: World, id: string, save: SaveOutcome, env: Environment, commands: set<Command>)
    ensures Advances(w, Redelivered(w, id, save, env).0, commands, env)
  {
    var w1 := w.(store := Requeue(w.store, id, save).0);
    StoreAdvances(w, w1.store, commands, env);
    FlushAdvances(w, w1, env, commands);
  }

  lemma RunProcessAdvances(w: World, id: string, nonce: string, expiry: Time, envelope: Envelope, admittedAt: Time,
        env: Environment, commands: set<Command>)
    requires Justified(Started(id, nonce, envelope, expiry, admittedAt, w.clock), commands)
    ensures Advances(w, RunProcess(w, id, nonce, expiry, envelope, admittedAt, env).0, commands, env)
  {
    var w1 := w.(events := w.events + [Started(id, nonce, envelope, expiry, admittedAt, w.clock)]);
    var c := env(w1.step);
    var w2 := Tick(w1, c);
    if c.run.Some? {
      var w3 := w2.(events := w2.events + [Finished(id, c.run.value)]);
      var (store, status) := Complete(w3.store, id, expiry, w3.clock, c.run.value, c.save);
      var w4 := w3.(store := store);
      assert Advances(w, w4, commands, env);
      FlushAdvances(w, w4, env, commands);
    }
  }

  lemma ExecuteReservedAdvances(w: World, id: string, nonce: string, expiry: Time, envelope: Envelope,
        admittedAt: Time, env: Environment, commands: set<Command>)
    requires forall at :: at >= w.clock ==> Justified(Started(id, nonce, envelope, expiry, admittedAt, at), commands)
    ensures Advances(w, ExecuteReserved(w, id, nonce, expiry, envelope, admittedAt, env).0, commands, env)
  {
    var c := env(w.step);
    var w1 := Tick(w, c);
    var (store, status) := Mark(w1.store, id, c.save);
    var w2 := w1.(store := store);
    if status == Done {
      RunProcessAdvances(w2, id, nonce, expiry, envelope, admittedAt, env, commands);
      AdvancesOn(w, w2, RunProcess(w2, id, nonce, expiry, envelope, admittedAt, env).0, commands, env);
    } else if status != Died {
      QueueResultAdvances(w2, id, expiry, NOT_MARKED, env, commands);
      AdvancesOn(w, w2, QueueResult(w2, id, expiry, NOT_MARKED, env).0, commands, env);
    }
  }

  lemma ExecuteAdvances(w: World, id: string, nonce: string, expiry: Time, envelope: Envelope, save: SaveOutcome,
        env: Environment, commands: set<Command>)
    requires forall at :: at >= w.clock ==> Justified(Started(id, nonce, envelope, expiry, w.clock, at), commands)
    ensures Advances(w, Execute(w, id, nonce, expiry, envelope, save, env).0, commands, env)
  {
    var (store, status) := Reserve(w.store, id, nonce, expiry, save);
    var w1 := w.(store := store);
    if status == Done {
      ExecuteReservedAdvances(w1, id, nonce, expiry, envelope, w1.clock, env, commands);
      AdvancesOn(w, w1, ExecuteReserved(w1, id, nonce, expiry, envelope, w1.clock, env).0, commands, env);
    } else if status != Died {
      QueueResultAdvances(w1, id, expiry, NOT_RESERVED, env, commands);
      AdvancesOn(w, w1, QueueResult(w1, id, expiry, NOT_RESERVED, env).0, commands, env);
    }
  }

  /** What the gates let through is justified from then on. */
  lemma AdmittedIsJustified(mem: Journal, cmd: Command, now: Time, at: Time)
    requires Gate(mem, cmd, now).Admit? && at >= now
    ensures Justifies(cmd, Started(cmd.id, cmd.nonce, cmd.envelope, Gate(mem, cmd, now).expiry, now, at))
  {
    WindowIsAnInterval(cmd.issuedAt, cmd.expiresAt, now);
  }

  lemma ProcessCommandAdvances(w: World, cmd: Command, env: Environment, commands: set<Command>)
    requires cmd in commands
    ensures Advances(w, ProcessCommand(w, cmd, env).0, commands, env)
  {
    var c := env(w.step);
    var w1 := Tick(w, c);
    match Gate(w1.store.mem, cmd, w1.clock)
    case Refuse(expiry, result) =>
      QueueResultAdvances(w1, cmd.id, expiry, result, env, commands);
      AdvancesOn(w, w1, ProcessCommand(w, cmd, env).0, commands, env);
    case Replay =>
      RedeliveredAdvances(w1, cmd.id, c.save, env, commands);
      AdvancesOn(w, w1, ProcessCommand(w, cmd, env).0, commands, env);
    case Admit(expiry) =>
      forall at | at >= w1.clock
        ensures Justified(Started(cmd.id, cmd.nonce, cmd.envelope, expiry, w1.clock, at), commands)
      {
        AdmittedIsJustified(w1.store.mem, cmd, w1.clock, at);
      }
      ExecuteAdvances(w1, cmd.id, cmd.nonce, expiry, cmd.envelope, c.save, env, commands);
      AdvancesOn(w, w1, ProcessCommand(w, cmd, env).0, commands, env);
  }

  lemma {:induction false} ProcessBatchAdvances(w: World, batch: seq<Command>, first: Flow, env: Environment,
        commands: set<Command>)
    requires forall i :: 0 <= i < |batch| ==> batch[i] in commands
    ensures Advances(w, ProcessBatch(w, batch, first, env).0, commands, env)
    decreases |batch|
  {
    if batch != [] {
      ProcessCommandAdvances(w, batch[0], env, commands);
      var (w1, flow) := ProcessCommand(w, batch[0], env);
      if flow != Fatal && flow != Dead {
        var w2 := Tick(w1, env(w1.step));
        AdvancesOn(w, w1, w2, commands, env);
        ProcessBatchAdvances(w2, batch[1..], First(first, flow), env, commands);
        AdvancesOn(w, w2, ProcessBatch(w, batch, first, env).0, commands, env);
      }
    }
  }

  lemma PruneStepAdvances(w: World, env: Environment, commands: set<Command>)
    ensures Advances(w, PruneStep(w, env).0, commands, env)
  {
  }

  lemma HandleAnswerAdvances(w: World, batch: seq<Command>, monitoring: Flow, routed: bool, env: Environment,
        commands: set<Command>)
    requires forall i :: 0 <= i < |batch| ==> batch[i] in commands
    ensures Advances(w, HandleAnswer(w, batch, monitoring, routed, env).0, commands, env)
  {
    FlushItemsAdvances(w, Outbox(w.store.mem), false, env, commands);
    var (w1, flushed) := Flush(w, env);
    if flushed != Dead && routed && batch != [] {
      var first := if flushed == Fine then monitoring else flushed;
      ProcessBatchAdvances(w1, batch, first, env, commands);
      var (w2, end) := ProcessBatch(w1, batch, first, env);
      AdvancesOn(w, w1, w2, commands, env);
      if end.Drained? {
        FlushItemsAdvances(w2, Outbox(w2.store.mem), false, env, commands);
        AdvancesOn(w, w2, Flush(w2, env).0, commands, env);
      }
    }
  }

  /** The commands an activity delivers. */
  function Delivered(a: Activity): set<Command> {
    if a.Beats? && a.beat.Answered? then Elems(Judged(a.beat.deliveries, a.beat.trust)) else {}
  }

  lemma BootAdvances(w: World, env: Environment, commands: set<Command>)
    ensures Advances(w, LoadSession(w, env), commands, env)
  {
    var c := env(w.step);
    var w1 := Tick(w, c);
    var (store, status) := Recover(Store(w1.store.disk, w1.store.disk, NoWrite), c.save);
    var w2 := w1.(store := store);
    if status == Done {
      PruneStepAdvances(w2, env, commands);
      AdvancesOn(w, w2, PruneStep(w2, env).0, commands, env);
    }
  }

  lemma BeatenAdvances(w: World, beat: Beat, env: Environment, commands: set<Command>)
    requires Delivered(Beats(beat)) <= commands
    ensures Advances(w, Beaten(w, beat, env).0, commands, env)
  {
    if beat.Answered? {
      var batch := Judged(beat.deliveries, beat.trust);
      assert forall i :: 0 <= i < |batch| ==> batch[i] in Elems(batch);
      HandleAnswerAdvances(w, batch, beat.monitoring, beat.routed, env, commands);
    }
  }

  lemma CheckInAdvances(w: World, beat: Beat, env: Environment, commands: set<Command>)
    requires Delivered(Beats(beat)) <= commands
    ensures Advances(w, CheckIn(w, beat, env).0, commands, env)
  {
    if !beat.Abandoned? {
      PruneStepAdvances(w, env, commands);
      var (w1, flow) := PruneStep(w, env);
      if flow == Fine {
        BeatenAdvances(w1, beat, env, commands);
        AdvancesOn(w, w1, Beaten(w1, beat, env).0, commands, env);
      }
    }
  }

  lemma ActAdvances(w: World, a: Activity, env: Environment)
    ensures Advances(w, Act(w, a, env), Delivered(a), env)
  {
    match a
    case PowerLoss =>
    case Boot => BootAdvances(w, env, {});
    case Beats(beat) =>
      if w.up {
        CheckInAdvances(w, beat, env, Delivered(a));
      }
  }

  function AllDelivered(activities: seq<Activity>): set<Command> {
    if activities == [] then {}
    else AllDelivered(activities[..|activities| - 1]) + Delivered(activities[|activities| - 1])
  }

  lemma {:induction false} WasDelivered(activities: seq<Activity>, cmd: Command)
    requires cmd in AllDelivered(activities)
    ensures exists a :: a in activities && cmd in Delivered(a)
  {
    var init, last := activities[..|activities| - 1], activities[|activities| - 1];
    if cmd in AllDelivered(init) {
      WasDelivered(init, cmd);
      var a :| a in init && cmd in Delivered(a);
      assert a in activities;
    } else {
      assert last in activities;
    }
  }

  lemma {:induction false} RunAdvances(w: World, activities: seq<Activity>, env: Environment)
    ensures Advances(w, Run(w, activities, env), AllDelivered(activities), env)
    decreases |activities|
  {
    if activities != [] {
      var init, a := activities[..|activities| - 1], activities[|activities| - 1];
      RunAdvances(w, init, env);
      var before, after := Run(w, init, env), Run(w, activities, env);
      ActAdvances(before, a, env);
      Widen(w, before, AllDelivered(init), AllDelivered(activities), env);
      Widen(before, after, Delivered(a), AllDelivered(activities), env);
      AdvancesOn(w, before, after, AllDelivered(activities), env);
    }
  }

  lemma Widen(w: World, w': World, some: set<Command>, all: set<Command>, env: Environment)
    requires Advances(w, w', some, env) && some <= all
    ensures Advances(w, w', all, env)
  {
    forall i | |w.events| <= i < |w'.events|
      ensures Justified(w'.events[i], all)
    {
      assert Justified(w'.events[i], some);
    }
  }

  /**
   A delivery that justifies a start: it is the command that was started, is addressed to this agent, is signed over
   its canonical form by the key the session trusts for it, and was inside its signed window, by the agent's
   clock, when it was admitted.
   */
  ghost predicate Authorizes(d: Delivery, t: Trust, e: Event) {
    var c, key := d.envelope, SigningKey(d.envelope, t);
    && e.Started? && e.envelope == c && e.id == c.commandID && e.nonce == c.nonce
    && c.agentID == t.agentID
    && key.Some? && t.verifies(key.value, SignedForm(c, t), d.signature)
    && t.parseTime(c.expiresAt) == Some(e.expiry)
    && t.parseTime(c.issuedAt).Some? && GoodPair(t.parseTime(c.issuedAt).value, e.expiry)
    && t.parseTime(c.issuedAt).value - MAX_SKEW <= e.admittedAt < e.expiry
    && e.admittedAt <= e.at
  }

  /** A heartbeat of the run delivered an authorization of this start. */
  ghost predicate Authorized(a: Activity, e: Event) {
    a.Beats? && a.beat.Answered? && exists d :: d in a.beat.deliveries && Authorizes(d, a.beat.trust, e)
  }

  lemma JudgedDeliveryAuthorizes(a: Activity, cmd: Command, e: Event)
    requires cmd in Delivered(a) && Justifies(cmd, e)
    ensures Authorized(a, e)
  {
    var ds, t := a.beat.deliveries, a.beat.trust;
    var i :| 0 <= i < |ds| && Judged(ds, t)[i] == cmd;
    assert Authorizes(ds[i], t, e);
  }

  /**
   Over every run and every environment, with no assumption on what is delivered: each process started was
   started for a delivered command, kind and payload included, that is addressed to this agent, signed
   with a key it trusts, and was inside its signed window when it was admitted, before the start.
   */
  lemma StartedCommandsPassedEveryGate(disk: Journal, clock: Time, activities: seq<Activity>, env: Environment, i: nat)
    requires var events := Run(FirstBoot(disk, clock), activities, env).events;
      i < |events| && events[i].Started?
    ensures var events := Run(FirstBoot(disk, clock), activities, env).events;
      exists a :: a in activities && Authorized(a, events[i])
  {
    RunAdvances(FirstBoot(disk, clock), activities, env);
    var events := Run(FirstBoot(disk, clock), activities, env).events;
    assert Justified(events[i], AllDelivered(activities));
    var cmd :| cmd in AllDelivered(activities) && Justifies(cmd, events[i]);
    WasDelivered(activities, cmd);
    var a :| a in activities && cmd in Delivered(a);
    JudgedDeliveryAuthorizes(a, cmd, events[i]);
  }

  /** A run in which no save that reports failure has taken effect knows no late acknowledgement. */
  lemma LateAcknowledgementsComeFromLateSaves(disk: Journal, clock: Time, activities: seq<Activity>, env: Environment,
        i: nat)
    requires var w := Run(FirstBoot(disk, clock), activities, env);
      NoLateSave(env, w.step) && i < |w.events| && w.events[i].Uploaded?
    ensures !Run(FirstBoot(disk, clock), activities, env).events[i].wrote.LateAcknowledgement?
  {
    RunAdvances(FirstBoot(disk, clock), activities, env);
  }
}
