/**
 The command half of the agent runtime (agent/internal/service/runner.go) over the durable journal:
 the accept/refuse gate, result delivery, the check-in loop and restart recovery.

 Everything the runtime does not control (how much time passes, what each save and each upload does,
 what the process returns, where the agent dies) is read from an environment, one choice per
 interaction.  A theorem for all environments is a theorem for every interleaving of crashes.
 */
module AgentRunner {
  import opened Basics
  import opened CommandEnvelope
  import opened CommandJournal

  /** Raw key material. */
  type Key = string

  /** A command as a heartbeat delivers it. */
  datatype Delivery = Delivery(envelope: Envelope, signature: string)

  /**
   What a session judges deliveries with: its own ID, the keys it trusts, and the two procedures of the
   verifier.  `verifies` stands for VerifyWithKeyID and `parseTime` for parseCommandTime.
   */
  datatype Trust = Trust(
    agentID: string,
    legacy: Key,
    keys: map<string, Key>,
    verifies: (Key, Envelope, string) -> bool,
    parseTime: string -> Option<Time>)

  /** A delivery with its checks made.  A time is None when it does not parse canonically. */
  datatype Command = Command(
    id: string, nonce: string, envelope: Envelope, forThisAgent: bool, keyKnown: bool, authentic: bool,
    issuedAt: Option<Time>, expiresAt: Option<Time>)

  /** What happens to one upload. `reached` says whether the server took the result all the same. */
  datatype Upload =
    | NotAttempted               // the context is already cancelled
    | Accepted
    | NotConfirmed(reached: bool)
    | DiedUploading(reached: bool)

  datatype Choice = Choice(
    elapsed: nat,
    save: SaveOutcome,
    upload: Upload,
    run: Option<CommandResult>,  // None: the agent dies while the process runs
    stopping: bool)              // a stop was requested by now

  type Environment = nat -> Choice

  datatype Event =
    | Started(id: string, nonce: string, envelope: Envelope, expiry: Time,  // the command as it was handed over
        admittedAt: Time, at: Time)                                         // the clock of the gates, and then of the start
    | Finished(id: string, result: CommandResult)  // the process returned
    | Uploaded(id: string, result: CommandResult, onDisk: Option<Entry>, wrote: LastWrite)
    | ServerAccepted(id: string)
    | Dropped(ids: set<string>)  // pruned from the file

  datatype World = World(store: Store, up: bool, clock: Time, step: nat, events: seq<Event>)

  /** Fatal errors end the process; the service manager starts it again later. */
  datatype Flow = Fine | ReportError | Fatal | Dead

  // ---------------------------------------------------------------------------------------------
  // Specification
  // ---------------------------------------------------------------------------------------------

  function Tick(w: World, c: Choice): World {
    w.(clock := w.clock + c.elapsed, step := w.step + 1)
  }

  function Die(w: World): World {
    w.(up := false)
  }

  function OnDisk(w: World, id: string): Option<Entry> {
    if id in w.store.disk then Some(w.store.disk[id]) else None
  }

  function Sent(w: World, p: PendingResult, reached: bool): World {
    var sent := w.(events := w.events + [Uploaded(p.commandID, p.result, OnDisk(w, p.commandID), w.store.wrote)]);
    if reached then sent.(events := sent.events + [ServerAccepted(p.commandID)]) else sent
  }

  function FlushItems(w: World, items: seq<PendingResult>, failed: bool, env: Environment): (World, Flow)
    decreases |items|
  {
    if items == [] then (w, if failed then ReportError else Fine)
    else
      var c, p := env(w.step), items[0];
      var w := Tick(w, c);
      match c.upload
      case NotAttempted => (w, ReportError)
      case DiedUploading(reached) => (Die(Sent(w, p, reached)), Dead)
      case NotConfirmed(reached) => FlushItems(Sent(w, p, reached), items[1..], true, env)
      case Accepted =>
        var w := Sent(w, p, true);
        var (store, status) := Ack(w.store, p.commandID, c.save);
        var w := w.(store := store);
        if status == Done then FlushItems(w, items[1..], failed, env)
        else if status == Died then (Die(w), Dead)
        else (w, Fatal)
  }

  function Flush(w: World, env: Environment): (World, Flow) {
    FlushItems(w, Outbox(w.store.mem), false, env)
  }

  function QueueResult(w: World, id: string, expiry: Time, result: CommandResult, env: Environment): (World, Flow) {
    var c := env(w.step);
    var w := Tick(w, c);
    var (store, status) := Complete(w.store, id, expiry, w.clock, result, c.save);
    var w := w.(store := store);
    match status
    case Done => Flush(w, env)
    case AlreadyStored => Flush(w, env)
    case Died => (Die(w), Dead)
    case _ => (w, Fatal)
  }

  /** The key a command must be signed with: the legacy key, or from the third version on the one it names. */
  function SigningKey(e: Envelope, t: Trust): Option<Key> {
    if e.version != VERSION_3 then Some(t.legacy)
    else if e.keyID in t.keys then Some(t.keys[e.keyID])
    else None
  }

  /** What the signature is checked over: the agent's own ID, and no key ID before the third version. */
  function SignedForm(e: Envelope, t: Trust): Envelope {
    e.(agentID := t.agentID, keyID := if e.version == VERSION_3 then e.keyID else "")
  }

  function Judge(d: Delivery, t: Trust): Command {
    var e, key := d.envelope, SigningKey(d.envelope, t);
    Command(e.commandID, e.nonce, e, e.agentID == t.agentID, key.Some?,
      key.Some? && t.verifies(key.value, SignedForm(e, t), d.signature),
      t.parseTime(e.issuedAt), t.parseTime(e.expiresAt))
  }

  function Judged(deliveries: seq<Delivery>, t: Trust): seq<Command> {
    seq(|deliveries|, i requires 0 <= i < |deliveries| => Judge(deliveries[i], t))
  }

  const WRONG_AGENT: CommandResult := PlainResult("agent refused command: agent identity mismatch")
  const UNKNOWN_KEY: CommandResult := PlainResult("agent refused command: unknown signing key")
  const BAD_SIGNATURE: CommandResult := PlainResult("agent refused command: signature verification failed")
  const BAD_WINDOW: CommandResult := PlainResult("agent refused command: invalid signed time window")
  const REPEATED_NONCE: CommandResult := PlainResult("agent refused command: repeated nonce")
  const NOT_RESERVED: CommandResult := PlainResult("agent refused command: replay state could not be persisted")
  const NOT_MARKED: CommandResult := PlainResult("agent refused command: execution state could not be persisted")

  /** A refusal after a failed save: any trouble queueing it is fatal. */
  function RefuseAfterFailedSave(w: World, id: string, expiry: Time, result: CommandResult, env: Environment): (World,
        Flow) {
    var (w, flow) := QueueResult(w, id, expiry, result, env);
    (w, if flow == ReportError then Fatal else flow)
  }

  datatype Verdict = Refuse(expiry: Time, result: CommandResult) | Replay | Admit(expiry: Time)

  /** The gates in their order: addressee, key, signature, time window, ID replay, nonce replay. */
  function Gate(mem: Journal, cmd: Command, now: Time): Verdict {
    var window := Window(cmd.issuedAt, cmd.expiresAt, now);
    if !cmd.forThisAgent then Refuse(ZERO_TIME, WRONG_AGENT)
    else if !cmd.keyKnown then Refuse(ZERO_TIME, UNKNOWN_KEY)
    else if !cmd.authentic then Refuse(ZERO_TIME, BAD_SIGNATURE)
    else if window.None? then Refuse(ZERO_TIME, BAD_WINDOW)
    else if cmd.id in mem then Replay
    else if NonceKey(cmd.nonce) in mem then Refuse(window.value, REPEATED_NONCE)
    else Admit(window.value)
  }

  function ProcessCommand(w: World, cmd: Command, env: Environment): (World, Flow) {
    var c := env(w.step);
    var w := Tick(w, c);
    match Gate(w.store.mem, cmd, w.clock)
    case Refuse(expiry, result) => QueueResult(w, cmd.id, expiry, result, env)
    case Replay => Redelivered(w, cmd.id, c.save, env)
    case Admit(expiry) => Execute(w, cmd.id, cmd.nonce, expiry, cmd.envelope, c.save, env)
  }

  function Redelivered(w: World, id: string, save: SaveOutcome, env: Environment): (World, Flow) {
    var (store, status) := Requeue(w.store, id, save);
    var w := w.(store := store);
    match status
    case Done => Flush(w, env)
    case Died => (Die(w), Dead)
    case _ => (w, Fatal)
  }

  /** The clock of w is the one the gates read. */
  function Execute(w: World, id: string, nonce: string, expiry: Time, envelope: Envelope, save: SaveOutcome,
        env: Environment): (World, Flow) {
    var (store, status) := Reserve(w.store, id, nonce, expiry, save);
    var w := w.(store := store);
    match status
    case Done => ExecuteReserved(w, id, nonce, expiry, envelope, w.clock, env)
    case Died => (Die(w), Dead)
    case _ => RefuseAfterFailedSave(w, id, expiry, NOT_RESERVED, env)
  }

  function ExecuteReserved(w: World, id: string, nonce: string, expiry: Time, envelope: Envelope, admittedAt: Time,
        env: Environment): (World, Flow) {
    var c := env(w.step);
    var w := Tick(w, c);
    var (store, status) := Mark(w.store, id, c.save);
    var w := w.(store := store);
    match status
    case Done => RunProcess(w, id, nonce, expiry, envelope, admittedAt, env)
    case Died => (Die(w), Dead)
    case _ => RefuseAfterFailedSave(w, id, expiry, NOT_MARKED, env)
  }

  function RunProcess(w: World, id: string, nonce: string, expiry: Time, envelope: Envelope, admittedAt: Time,
        env: Environment): (World, Flow) {
    var w := w.(events := w.events + [Started(id, nonce, envelope, expiry, admittedAt, w.clock)]);
    var c := env(w.step);
    var w := Tick(w, c);
    match c.run
    case None => (Die(w), Dead)
    case Some(result) =>
      var w := w.(events := w.events + [Finished(id, result)]);
      var (store, status) := Complete(w.store, id, expiry, w.clock, result, c.save);
      var w := w.(store := store);
      match status
      case Done => Flush(w, env)
      case Died => (Die(w), Dead)
      case _ => (w, Fatal)
  }

  function RecordDrop(w: World, before: Journal): World {
    w.(events := w.events + [Dropped(before.Keys - w.store.disk.Keys)])
  }

  function PruneStep(w: World, env: Environment): (World, Flow) {
    var c := env(w.step);
    var w := Tick(w, c);
    var before := w.store.disk;
    var (store, status) := PruneAndSave(w.store, w.clock, c.save);
    var w := RecordDrop(w.(store := store), before);
    match status
    case Done => (w, Fine)
    case Died => (Die(w), Dead)
    case _ => (w, Fatal)
  }

  /** loadSession: read the file, resolve interrupted commands, prune; any failure leaves no session. */
  function LoadSession(w: World, env: Environment): World {
    var c := env(w.step);
    var w := Tick(w, c);
    var (store, status) := Recover(Store(w.store.disk, w.store.disk, NoWrite), c.save);
    var w := w.(store := store);
    if status != Done then w
    else
      var (w, flow) := PruneStep(w, env);
      if flow == Fine then w.(up := true) else w
  }

  /** What one heartbeat brings. */
  datatype Beat =
    | Abandoned                  // a stop was requested or the credential was rejected: nothing is done
    | Unanswered                 // heartbeat error
    | Quarantined
    | MonitoringUnsaved          // the monitoring evaluation could not be persisted: fatal
    | Answered(deliveries: seq<Delivery>, trust: Trust, monitoring: Flow, routed: bool)

  /** The commands of one heartbeat, in order, one at a time; `first` is the first error so far. */
  datatype BatchEnd = Drained(first: Flow) | Returned(flow: Flow)

  function First(first: Flow, next: Flow): Flow {
    if first == Fine then next else first
  }

  function ProcessBatch(w: World, commands: seq<Command>, first: Flow, env: Environment): (World, BatchEnd)
    decreases |commands|
  {
    if commands == [] then (w, Drained(first))
    else
      var (w, flow) := ProcessCommand(w, commands[0], env);
      if flow == Fatal || flow == Dead then (w, Returned(flow))
      else
        var stopping := env(w.step).stopping;
        var w := Tick(w, env(w.step));
        if stopping then (w, Drained(First(first, flow)))
        else ProcessBatch(w, commands[1..], First(first, flow), env)
  }

  /**
   The part of checkIn after the heartbeat.  An error of the first flush is only remembered; an error while
   routes and keys are taken over (`routed` is false) ends the check-in and replaces it.
   */
  function HandleAnswer(w: World, commands: seq<Command>, monitoring: Flow, routed: bool, env: Environment)
    : (World, Flow)
  {
    var (w, flushed) := Flush(w, env);
    var first := if flushed == Fine then monitoring else flushed;
    if flushed == Dead then (w, Dead)
    else if !routed then (w, ReportError)
    else if commands == [] then (w, first)
    else
      var (w, end) := ProcessBatch(w, commands, first, env);
      match end
      case Returned(flow) => (w, flow)
      case Drained(first) =>
        var (w, last) := Flush(w, env);
        (w, if last == Dead then Dead else First(first, last))
  }

  function CheckIn(w: World, beat: Beat, env: Environment): (World, Flow) {
    if beat.Abandoned? then (w, ReportError)
    else
      var (w, flow) := PruneStep(w, env);
      if flow != Fine then (w, flow) else Beaten(w, beat, env)
  }

  /** The check-in from the heartbeat on. */
  function Beaten(w: World, beat: Beat, env: Environment): (World, Flow) {
    match beat
    case Answered(deliveries, trust, monitoring, routed) =>
      HandleAnswer(w, Judged(deliveries, trust), monitoring, routed, env)
    case Quarantined => (w, Fine)
    case MonitoringUnsaved => (w, Fatal)
    case _ => (w, ReportError)
  }

  datatype Activity = Boot | Beats(beat: Beat) | PowerLoss

  /** A fatal error of the check-in loop ends the process, and so does everything that kills it. */
  function Act(w: World, a: Activity, env: Environment): World {
    match a
    case Boot => if w.up then w else LoadSession(w, env)
    case PowerLoss => Die(w)
    case Beats(beat) =>
      if !w.up then w
      else
        var (w, flow) := CheckIn(w, beat, env);
        if flow == Fatal || flow == Dead then Die(w) else w
  }

  function Run(w: World, activities: seq<Activity>, env: Environment): World
    decreases |activities|
  {
    if activities == [] then w
    else
      var before := Run(w, activities[..|activities| - 1], env);
      Act(before, activities[|activities| - 1], env)
  }

  /** A machine that has never run a command, with whatever journal an earlier version left. */
  function FirstBoot(disk: Journal, clock: Time): World {
    World(Store(map[], disk, NoWrite), false, clock, 0, [])
  }

  // ---------------------------------------------------------------------------------------------
  // The runtime, updated in place
  // ---------------------------------------------------------------------------------------------

  class Agent {
    const env: Environment
    const file: JournalFile
    var seen: SeenStore
    var up: bool
    var clock: Time
    var step: nat
    ghost var events: seq<Event>

    constructor (env: Environment, file: JournalFile, clock: Time)
      ensures Valid() && this.env == env && this.file == file && fresh(seen)
      ensures !up && this.clock == clock && step == 0 && events == []
    {
      this.env := env;
      this.file := file;
      this.seen := new SeenStore(file);
      this.up := false;
      this.clock := clock;
      this.step := 0;
      this.events := [];
    }

    ghost predicate Valid()
      reads this, seen
    {
      seen.file == file
    }

    ghost function State(): World
      reads this, seen, seen.file
    {
      World(seen.State(), up, clock, step, events)
    }

    method Next() returns (c: Choice)
      modifies this`clock, this`step
      ensures c == env(old(step))
      ensures State() == Tick(old(State()), c)
    {
      c := env(step);
      clock := clock + c.elapsed;
      step := step + 1;
    }

    /** What an upload leaves in the history. */
    ghost method ReportResult(p: PendingResult, reached: bool)
      modifies this`events
      ensures State() == Sent(old(State()), p, reached)
    {
      var durable := if p.commandID in seen.file.content then Some(seen.file.content[p.commandID]) else None;
      events := events + [Uploaded(p.commandID, p.result, durable, seen.wrote)];
      if reached {
        events := events + [ServerAccepted(p.commandID)];
      }
    }

    /** One turn of the flush: `ended` when the flush goes no further. */
    method DeliverFirst(ghost items: seq<PendingResult>, p: PendingResult, failedBefore: bool)
      returns (ended: bool, flow: Flow, failed: bool)
      requires Valid() && items != [] && items[0] == p
      modifies this`clock, this`step, this`events, this`up, seen, file
      ensures Valid()
      ensures ended ==> (State(), flow) == FlushItems(old(State()), items, failedBefore, env)
      ensures !ended ==>
        FlushItems(State(), items[1..], failed, env) == FlushItems(old(State()), items, failedBefore, env)
    {
      ended, flow, failed := false, Fine, failedBefore;
      var c := Next();
      match c.upload {
        case NotAttempted =>
          ended, flow := true, ReportError;
        case DiedUploading(reached) =>
          ReportResult(p, reached);
          up := false;
          ended, flow := true, Dead;
        case NotConfirmed(reached) =>
          ReportResult(p, reached);
          failed := true;
        case Accepted =>
          ReportResult(p, true);
          var status := seen.Acknowledge(p.commandID, c.save);
          if status == Died {
            up := false;
            ended, flow := true, Dead;
          } else if status != Done {
            ended, flow := true, Fatal;
          }
      }
    }

    method FlushPendingResults() returns (flow: Flow)
      requires Valid()
      modifies this`clock, this`step, this`events, this`up, seen, file
      ensures Valid() && (State(), flow) == Flush(old(State()), env)
    {
      ghost var start := State();
      var items := seen.PendingResults();
      var failed, ended := false, false;
      var i := 0;
      while i < |items|
        invariant 0 <= i <= |items|
        invariant Valid() && seen == old(seen)
        invariant FlushItems(start, items, false, env) == FlushItems(State(), items[i..], failed, env)
        decreases |items| - i
      {
        assert items[i..][1..] == items[i + 1..];
        ended, flow, failed := DeliverFirst(items[i..], items[i], failed);
        if ended {
          return;
        }
        i := i + 1;
      }
      assert items[i..] == [];
      flow := if failed then ReportError else Fine;
    }

    method QueueRefusal(id: string, expiry: Time, result: CommandResult) returns (flow: Flow)
      requires Valid()
      modifies this`clock, this`step, this`events, this`up, seen, file
      ensures Valid() && (State(), flow) == QueueResult(old(State()), id, expiry, result, env)
    {
      var c := Next();
      var status := seen.StoreResult(id, expiry, clock, result, c.save);
      match status
      case Done => flow := FlushPendingResults();
      case AlreadyStored => flow := FlushPendingResults();
      case Died =>
        up := false;
        flow := Dead;
      case _ => flow := Fatal;
    }

    /** The gates in their order: addressee, key, signature, time window, ID replay, nonce replay. */
    method Process(d: Delivery, t: Trust) returns (flow: Flow)
      requires Valid()
      modifies this`clock, this`step, this`events, this`up, seen, file
      ensures Valid() && (State(), flow) == ProcessCommand(old(State()), Judge(d, t), env)
    {
      var cmd := d.envelope;
      var c := Next();
      if cmd.agentID != t.agentID {
        flow := QueueRefusal(cmd.commandID, ZERO_TIME, WRONG_AGENT);
        return;
      }
      var verified;
      if cmd.version == VERSION_3 {
        if cmd.keyID !in t.keys {
          flow := QueueRefusal(cmd.commandID, ZERO_TIME, UNKNOWN_KEY);
          return;
        }
        verified := t.verifies(t.keys[cmd.keyID], cmd.(agentID := t.agentID), d.signature);
      } else {
        verified := t.verifies(t.legacy, cmd.(agentID := t.agentID, keyID := ""), d.signature);
      }
      assert verified == Judge(d, t).authentic;
      if !verified {
        flow := QueueRefusal(cmd.commandID, ZERO_TIME, BAD_SIGNATURE);
        return;
      }
      var expiry := Window(t.parseTime(cmd.issuedAt), t.parseTime(cmd.expiresAt), clock);
      if expiry == None {
        flow := QueueRefusal(cmd.commandID, ZERO_TIME, BAD_WINDOW);
        return;
      }
      if cmd.commandID in seen.entries {
        flow := Requeue(cmd.commandID, c.save);
        return;
      }
      if NonceKey(cmd.nonce) in seen.entries {
        flow := QueueRefusal(cmd.commandID, expiry.value, REPEATED_NONCE);
        return;
      }
      flow := ReserveAndExecute(cmd, expiry.value, c.save);
    }

    method Requeue(id: string, save: SaveOutcome) returns (flow: Flow)
      requires Valid()
      modifies this`clock, this`step, this`events, this`up, seen, file
      ensures Valid() && (State(), flow) == Redelivered(old(State()), id, save, env)
    {
      var _, status := seen.RequeueAcknowledged(id, save);
      match status
      case Done => flow := FlushPendingResults();
      case Died =>
        up := false;
        flow := Dead;
      case _ => flow := Fatal;
    }

    method ReserveAndExecute(cmd: Envelope, expiry: Time, save: SaveOutcome) returns (flow: Flow)
      requires Valid()
      modifies this`clock, this`step, this`events, this`up, seen, file
      ensures Valid()
      ensures (State(), flow) == Execute(old(State()), cmd.commandID, cmd.nonce, expiry, cmd, save, env)
    {
      ghost var admittedAt := clock;
      var status := seen.ReserveCommand(cmd.commandID, cmd.nonce, expiry, save);
      if status == Died {
        up := false;
        return Dead;
      }
      if status != Done {
        flow := QueueRefusal(cmd.commandID, expiry, NOT_RESERVED);
        flow := if flow == ReportError then Fatal else flow;
        return;
      }
      var c := Next();
      status := seen.MarkExecuting(cmd.commandID, c.save);
      if status == Died {
        up := false;
        return Dead;
      }
      if status != Done {
        flow := QueueRefusal(cmd.commandID, expiry, NOT_MARKED);
        flow := if flow == ReportError then Fatal else flow;
        return;
      }
      flow := RunStarted(cmd, expiry, admittedAt);
    }

    /** Hands the command to the executor of its kind, stores what it returns, and reports. */
    method RunStarted(cmd: Envelope, expiry: Time, ghost admittedAt: Time) returns (flow: Flow)
      requires Valid()
      modifies this`clock, this`step, this`events, this`up, seen, file
      ensures Valid()
      ensures (State(), flow) == RunProcess(old(State()), cmd.commandID, cmd.nonce, expiry, cmd, admittedAt, env)
    {
      events := events + [Started(cmd.commandID, cmd.nonce, cmd, expiry, admittedAt, clock)];
      var c := Next();
      if c.run == None {
        up := false;
        return Dead;
      }
      events := events + [Finished(cmd.commandID, c.run.value)];
      var status := seen.StoreResult(cmd.commandID, expiry, clock, c.run.value, c.save);
      if status == Died {
        up := false;
        return Dead;
      }
      if status != Done {
        return Fatal;
      }
      flow := FlushPendingResults();
    }

    method PruneJournal() returns (flow: Flow)
      requires Valid()
      modifies this`clock, this`step, this`events, this`up, seen, file
      ensures Valid() && (State(), flow) == PruneStep(old(State()), env)
    {
      var c := Next();
      ghost var before := seen.file.content;
      var changed := seen.Prune(clock);
      var status := Done;
      if changed {
        status := seen.Save(c.save);
      }
      events := events + [Dropped(before.Keys - seen.file.content.Keys)];
      match status
      case Done => flow := Fine;
      case Died =>
        up := false;
        flow := Dead;
      case _ => flow := Fatal;
    }

    /** Every start reads the journal afresh; a session that cannot be loaded leaves the agent down. */
    method Load()
      requires Valid()
      modifies this`clock, this`step, this`events, this`up, this`seen, file
      ensures Valid() && fresh(seen)
      ensures State() == LoadSession(old(State()), env)
    {
      var c := Next();
      seen := new SeenStore(file);
      var _, _, status := seen.RecoverInterrupted(c.save);
      if status != Done {
        return;
      }
      var flow := PruneJournal();
      if flow == Fine {
        up := true;
      }
    }

    method CheckInOnce(beat: Beat) returns (flow: Flow)
      requires Valid()
      modifies this`clock, this`step, this`events, this`up, seen, file
      ensures Valid() && (State(), flow) == CheckIn(old(State()), beat, env)
    {
      if beat.Abandoned? {
        return ReportError;
      }
      flow := PruneJournal();
      if flow != Fine {
        return;
      }
      match beat
      case Unanswered => flow := ReportError;
      case Quarantined => flow := Fine;
      case MonitoringUnsaved => flow := Fatal;
      case Answered(deliveries, trust, monitoring, routed) => flow := Answer(deliveries, trust, monitoring, routed);
    }

    method Answer(deliveries: seq<Delivery>, trust: Trust, monitoring: Flow, routed: bool) returns (flow: Flow)
      requires Valid()
      modifies this`clock, this`step, this`events, this`up, seen, file
      ensures Valid()
      ensures (State(), flow) == HandleAnswer(old(State()), Judged(deliveries, trust), monitoring, routed, env)
    {
      flow := FlushPendingResults();
      if flow == Dead {
        return;
      }
      var first := if flow == Fine then monitoring else flow;
      if !routed {
        return ReportError;
      }
      if deliveries == [] {
        return first;
      }
      var end := ProcessAll(deliveries, trust, first);
      if end.Returned? {
        return end.flow;
      }
      flow := FlushPendingResults();
      if flow != Dead {
        flow := First(end.first, flow);
      }
    }

    method ProcessAll(deliveries: seq<Delivery>, trust: Trust, first: Flow) returns (end: BatchEnd)
      requires Valid()
      modifies this`clock, this`step, this`events, this`up, seen, file
      ensures Valid() && (State(), end) == ProcessBatch(old(State()), Judged(deliveries, trust), first, env)
    {
      ghost var start, commands := State(), Judged(deliveries, trust);
      var soFar := first;
      var i := 0;
      while i < |deliveries|
        invariant 0 <= i <= |deliveries|
        invariant Valid() && seen == old(seen)
        invariant ProcessBatch(start, commands, first, env) == ProcessBatch(State(), commands[i..], soFar, env)
        decreases |deliveries| - i
      {
        assert commands[i..][0] == Judge(deliveries[i], trust) && commands[i..][1..] == commands[i + 1..];
        var flow := Process(deliveries[i], trust);
        if flow == Fatal || flow == Dead {
          return Returned(flow);
        }
        if soFar == Fine {
          soFar := flow;
        }
        var c := Next();
        if c.stopping {
          return Drained(soFar);
        }
        i := i + 1;
      }
      assert commands[i..] == [];
      end := Drained(soFar);
    }
  }
}
