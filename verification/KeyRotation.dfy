/**
 The command-signing key registry (server/scripts/rotate_command_key.py): the operator's commands on
 the registry file, and the fleet of agents that hold snapshots of its trust bundle.
 */
module KeyRotation {
  import opened Basics
  import CommandEnvelope

  const ACTIVE: string := "active"
  const OVERLAP: string := "overlap"
  const RETIRED: string := "retired"

  /** A missing path is "". */
  datatype Entry = Entry(status: string, privatePath: string, publicPath: string)

  datatype Registry = Registry(activeID: string, keys: map<string, Entry>)

  datatype RotationError =
    | AlreadyInitialized | NoRegistry | BadKeyID | DuplicateKey | UnknownKey | KeyIsRetired | AlreadyActive
    | KeyIsActive | BrokenRegistry | InvalidRegistry | KeyFileExists | InputOutput

  /** Where an operating-system error strikes, if it does. */
  datatype Fault = Works | WriteFails | JournalFails

  /** The registry file, the private key files beside it, and the rotation journal. */
  datatype Disk = Disk(file: Option<Registry>, keyFiles: set<string>, log: seq<(string, string)>)

  predicate GoodEntry(id: string, e: Entry) {
    CommandEnvelope.IsKeyID(id) && e.status in {ACTIVE, OVERLAP, RETIRED} && (e.privatePath != "" || e.publicPath != "")
  }

  /** The keys whose status is "active". */
  function Actives(r: Registry): set<string> {
    set k | k in r.keys && r.keys[k].status == ACTIVE
  }

  /** _validate_invariants. */
  predicate ValidRegistry(r: Registry) {
    && CommandEnvelope.IsKeyID(r.activeID)
    && |Actives(r)| == 1
    && r.activeID in Actives(r)
    && forall k :: k in r.keys ==> GoodEntry(k, r.keys[k])
  }

  // ---------------------------------------------------------------------------------------------
  // The documents the commands want to write
  // ---------------------------------------------------------------------------------------------

  function InitDocument(file: Option<Registry>, id: string, private: string, public: string): Result<Registry,
        RotationError> {
    if file.Some? then Err(AlreadyInitialized)
    else if !CommandEnvelope.IsKeyID(id) then Err(BadKeyID)
    else Ok(Registry(id, map[id := Entry(ACTIVE, private, public)]))
  }

  function AddDocument(file: Option<Registry>, id: string, private: string, public: string): Result<Registry,
        RotationError> {
    match file
    case None => Err(NoRegistry)
    case Some(r) =>
      if id in r.keys then Err(DuplicateKey) else Ok(r.(keys := r.keys[id := Entry(OVERLAP, private, public)]))
  }

  function SetStatus(r: Registry, id: string, status: string): Registry
    requires id in r.keys
  {
    r.(keys := r.keys[id := r.keys[id].(status := status)])
  }

  function ActivateDocument(file: Option<Registry>, id: string): Result<Registry, RotationError> {
    match file
    case None => Err(NoRegistry)
    case Some(r) =>
      if id !in r.keys then Err(UnknownKey)
      else if r.keys[id].status == RETIRED then Err(KeyIsRetired)
      else if r.activeID == id then Err(AlreadyActive)
      else if r.activeID !in r.keys then Err(BrokenRegistry)
      else Ok(SetStatus(SetStatus(r, r.activeID, OVERLAP), id, ACTIVE).(activeID := id))
  }

  function RetireDocument(file: Option<Registry>, id: string): Result<Registry, RotationError> {
    match file
    case None => Err(NoRegistry)
    case Some(r) =>
      if id !in r.keys then Err(UnknownKey)
      else if id == r.activeID then Err(KeyIsActive)
      else Ok(SetStatus(r, id, RETIRED))
  }

  /** _write_atomic and then _journal. */
  function Commit(d: Disk, document: Result<Registry, RotationError>, line: (string, string), fault: Fault)
    : (Disk, Result<(), RotationError>)
  {
    match document
    case Err(e) => (d, Err(e))
    case Ok(r) =>
      if !ValidRegistry(r) then (d, Err(InvalidRegistry))
      else if fault == WriteFails then (d, Err(InputOutput))
      else if fault == JournalFails then (d.(file := Some(r)), Err(InputOutput))
      else (d.(file := Some(r), log := d.log + [line]), Ok(()))
  }

  datatype Command =
    | Init(id: string, private: string, public: string)
    | Generate(id: string, private: string, public: string)   // the paths of the new key files
    | Add(id: string, private: string, public: string)
    | Activate(id: string)
    | Retire(id: string)

  function Execute(d: Disk, c: Command, fault: Fault): (Disk, Result<(), RotationError>) {
    match c
    case Init(id, private, public) => Commit(d, InitDocument(d.file, id, private, public), ("init", id), fault)
    case Generate(id, private, public) =>
      var document := AddDocument(d.file, id, private, public);
      if document.Err? then (d, Err(document.error))
      else if private in d.keyFiles then (d, Err(KeyFileExists))
      else Commit(d.(keyFiles := d.keyFiles + {private}), document, ("generate", id), fault)
    case Add(id, private, public) => Commit(d, AddDocument(d.file, id, private, public), ("add", id), fault)
    case Activate(id) => Commit(d, ActivateDocument(d.file, id), ("activate", id), fault)
    case Retire(id) => Commit(d, RetireDocument(d.file, id), ("retire", id), fault)
  }

  // ---------------------------------------------------------------------------------------------
  // The commands
  // ---------------------------------------------------------------------------------------------

  class RegistryTool {
    var file: Option<Registry>
    var keyFiles: set<string>
    var log: seq<(string, string)>

    function State(): Disk
      reads this
    {
      Disk(file, keyFiles, log)
    }

    constructor ()
      ensures State() == Disk(None, {}, [])
    {
      file, keyFiles, log := None, {}, [];
    }

    method Load() returns (r: Result<Registry, RotationError>)
      ensures r == if file.None? then Err(NoRegistry) else Ok(file.value)
    {
      r := if file.None? then Err(NoRegistry) else Ok(file.value);
    }

    /** _validate_invariants: one pass collects the active keys, another checks every entry. */
    method Validate(r: Registry) returns (ok: bool)
      ensures ok == ValidRegistry(r)
    {
      var actives: set<string> := {};
      var todo := r.keys.Keys;
      while todo != {}
        invariant todo <= r.keys.Keys
        invariant actives == set k | k in r.keys && k !in todo && r.keys[k].status == ACTIVE
        decreases |todo|
      {
        var k :| k in todo;
        if r.keys[k].status == ACTIVE {
          actives := actives + {k};
        }
        todo := todo - {k};
      }
      assert actives == Actives(r);
      if !CommandEnvelope.IsKeyID(r.activeID) || |actives| != 1 || r.activeID !in actives {
        return false;
      }
      todo := r.keys.Keys;
      while todo != {}
        invariant todo <= r.keys.Keys
        invariant forall k :: k in r.keys && k !in todo ==> GoodEntry(k, r.keys[k])
        decreases |todo|
      {
        var k :| k in todo;
        if !GoodEntry(k, r.keys[k]) {
          return false;
        }
        todo := todo - {k};
      }
      ok := true;
    }

    method WriteAtomic(r: Registry, fault: Fault) returns (status: Result<(), RotationError>)
      modifies this`file
      ensures status == if !ValidRegistry(r) then Err(InvalidRegistry) else if fault == WriteFails then Err(InputOutput) else Ok(())
      ensures file == if status.Ok? then Some(r) else old(file)
    {
      var ok := Validate(r);
      if !ok {
        return Err(InvalidRegistry);
      }
      if fault == WriteFails {
        return Err(InputOutput);
      }
      file := Some(r);
      status := Ok(());
    }

    method Journal(line: (string, string), fault: Fault) returns (status: Result<(), RotationError>)
      modifies this`log
      ensures status == if fault == JournalFails then Err(InputOutput) else Ok(())
      ensures log == if status.Ok? then old(log) + [line] else old(log)
    {
      if fault == JournalFails {
        return Err(InputOutput);
      }
      log := log + [line];
      status := Ok(());
    }

    method WriteAndJournal(r: Registry, line: (string, string), fault: Fault) returns (status: Result<(),
          RotationError>)
      modifies this
      ensures (State(), status) == Commit(old(State()), Ok(r), line, fault)
    {
      status := WriteAtomic(r, fault);
      if status.Ok? {
        status := Journal(line, fault);
      }
    }

    method InitRegistry(id: string, private: string, public: string, fault: Fault) returns (status: Result<(),
          RotationError>)
      modifies this
      ensures (State(), status) == Execute(old(State()), Init(id, private, public), fault)
    {
      if file.Some? {
        return Err(AlreadyInitialized);
      }
      if !CommandEnvelope.IsKeyID(id) {
        return Err(BadKeyID);
      }
      var document := Registry(id, map[id := Entry(ACTIVE, private, public)]);
      status := WriteAndJournal(document, ("init", id), fault);
    }

    method GenerateKey(id: string, private: string, public: string, fault: Fault) returns (status: Result<(),
          RotationError>)
      modifies this
      ensures (State(), status) == Execute(old(State()), Generate(id, private, public), fault)
    {
      var loaded := Load();
      if loaded.Err? {
        return Err(loaded.error);
      }
      var document := loaded.value;
      if id in document.keys {
        return Err(DuplicateKey);
      }
      if private in keyFiles {
        return Err(KeyFileExists);
      }
      keyFiles := keyFiles + {private};
      document := document.(keys := document.keys[id := Entry(OVERLAP, private, public)]);
      status := WriteAndJournal(document, ("generate", id), fault);
    }

    method AddKey(id: string, private: string, public: string, fault: Fault) returns (status: Result<(), RotationError>)
      modifies this
      ensures (State(), status) == Execute(old(State()), Add(id, private, public), fault)
    {
      var loaded := Load();
      if loaded.Err? {
        return Err(loaded.error);
      }
      var document := loaded.value;
      if id in document.keys {
        return Err(DuplicateKey);
      }
      document := document.(keys := document.keys[id := Entry(OVERLAP, private, public)]);
      status := WriteAndJournal(document, ("add", id), fault);
    }

    method ActivateKey(id: string, fault: Fault) returns (status: Result<(), RotationError>)
      modifies this
      ensures (State(), status) == Execute(old(State()), Activate(id), fault)
    {
      var loaded := Load();
      if loaded.Err? {
        return Err(loaded.error);
      }
      var document := loaded.value;
      if id !in document.keys {
        return Err(UnknownKey);
      }
      if document.keys[id].status == RETIRED {
        return Err(KeyIsRetired);
      }
      var previous := document.activeID;
      if previous == id {
        return Err(AlreadyActive);
      }
      if previous !in document.keys {
        return Err(BrokenRegistry);
      }
      document := SetStatus(document, previous, OVERLAP);
      document := SetStatus(document, id, ACTIVE);
      document := document.(activeID := id);
      status := WriteAndJournal(document, ("activate", id), fault);
    }

    method RetireKey(id: string, fault: Fault) returns (status: Result<(), RotationError>)
      modifies this
      ensures (State(), status) == Execute(old(State()), Retire(id), fault)
    {
      var loaded := Load();
      if loaded.Err? {
        return Err(loaded.error);
      }
      var document := loaded.value;
      if id !in document.keys {
        return Err(UnknownKey);
      }
      if id == document.activeID {
        return Err(KeyIsActive);
      }
      document := SetStatus(document, id, RETIRED);
      status := WriteAndJournal(document, ("retire", id), fault);
    }
  }

  // ---------------------------------------------------------------------------------------------
  // What every command keeps
  // ---------------------------------------------------------------------------------------------

  ghost predicate ValidDisk(d: Disk) {
    d.file.Some? ==> ValidRegistry(d.file.value)
  }

  predicate IsRetired(d: Disk, id: string) {
    d.file.Some? && id in d.file.value.keys && d.file.value.keys[id].status == RETIRED
  }

  lemma OneActive(r: Registry)
    requires ValidRegistry(r)
    ensures Actives(r) == {r.activeID}
  {
    var rest := Actives(r) - {r.activeID};
    assert |rest| == 0;
    assert Actives(r) == rest + {r.activeID};
  }

  /** A command that fails leaves the registry and the journal as they were, unless only the journal line failed. */
  lemma RefusedCommandsChangeNothing(d: Disk, c: Command, fault: Fault)
    requires Execute(d, c, fault).1.Err? && fault != JournalFails
    ensures Execute(d, c, fault).0.file == d.file && Execute(d, c, fault).0.log == d.log
  {
  }

  /**
   When a failed generate cannot be repeated: its repetition ends in KeyFileExists exactly when the first try
   got past the checks of the registry, and did not fail at the journal line alone.  In that last case the
   key is in the registry, and the repetition ends in DuplicateKey.
   */
  lemma FailedGenerateCannotBeRepeated(d: Disk, id: string, private: string, public: string, fault: Fault, later: Fault)
    requires Execute(d, Generate(id, private, public), fault).1.Err?
    ensures var document := AddDocument(d.file, id, private, public);
      var onlyJournal := document.Ok? && private !in d.keyFiles && ValidRegistry(document.value) && fault == JournalFails;
      var again := Execute(Execute(d, Generate(id, private, public), fault).0, Generate(id, private, public), later).1;
      && (again == Err(KeyFileExists) <==> document.Ok? && !onlyJournal)
      && (again == Err(DuplicateKey) <==> document == Err(DuplicateKey) || onlyJournal)
  {
    var document := AddDocument(d.file, id, private, public);
    if document.Ok? && private !in d.keyFiles {
      var e := d.(keyFiles := d.keyFiles + {private});
      assert Execute(d, Generate(id, private, public), fault) == Commit(e, document, ("generate", id), fault);
    }
  }

  /** Valid commands on valid registries never trip over _validate_invariants, except on a bad new key. */
  lemma OnlyBadNewKeysAreInvalid(d: Disk, c: Command, fault: Fault)
    requires ValidDisk(d) && Execute(d, c, fault).1 == Err(InvalidRegistry)
    ensures !c.Activate? && !c.Retire?
    ensures !CommandEnvelope.IsKeyID(c.id) || (c.private == "" && c.public == "")
  {
    match c {
      case Init(id, private, public) =>
        assert Actives(Registry(id, map[id := Entry(ACTIVE, private, public)])) == {id};
      case Generate(id, private, public) => AddKeepsActives(d.file.value, id, private, public);
      case Add(id, private, public) => AddKeepsActives(d.file.value, id, private, public);
      case Activate(id) => ActivateMovesActive(d.file.value, id);
      case Retire(id) => RetireKeepsActives(d.file.value, id);
    }
  }

  lemma AddKeepsActives(r: Registry, id: string, private: string, public: string)
    requires id !in r.keys
    ensures Actives(r.(keys := r.keys[id := Entry(OVERLAP, private, public)])) == Actives(r)
  {
  }

  lemma RetireKeepsActives(r: Registry, id: string)
    requires ValidRegistry(r) && id in r.keys && id != r.activeID
    ensures Actives(SetStatus(r, id, RETIRED)) == Actives(r)
  {
    OneActive(r);
    assert id !in Actives(r);
  }

  lemma ActivateMovesActive(r: Registry, id: string)
    requires ValidRegistry(r) && id in r.keys && id != r.activeID
    ensures Actives(SetStatus(SetStatus(r, r.activeID, OVERLAP), id, ACTIVE).(activeID := id)) == {id}
  {
    OneActive(r);
    forall k | k in r.keys && k != r.activeID
      ensures r.keys[k].status != ACTIVE
    {
      assert k !in Actives(r);
    }
  }

  /** The agent trust bundle: every key that is not retired. */
  function Bundle(r: Registry): set<string> {
    set k | k in r.keys && r.keys[k].status != RETIRED
  }

  /** A key that was unknown is trusted now, and nothing signs with it yet. */
  ghost predicate NewOverlapKey(before: Registry, after: Registry, id: string) {
    && id !in before.keys && id in after.keys && after.activeID == before.activeID
    && Bundle(after) == Bundle(before) + {id}
  }

  /**
   What a successful command does to the two things others see of the registry: the signing key and the
   trust bundle.
   */
  lemma CommandEffects(d: Disk, c: Command, fault: Fault)
    requires ValidDisk(d) && Execute(d, c, fault).1.Ok?
    ensures c.Init? <==> d.file.None?
    ensures Execute(d, c, fault).0.file.Some?
    ensures var r := Execute(d, c, fault).0.file.value;
      match c
      case Init(id, _, _) => r.activeID == id && Bundle(r) == {id}
      case Generate(id, _, _) => NewOverlapKey(d.file.value, r, id)
      case Add(id, _, _) => NewOverlapKey(d.file.value, r, id)
      case Activate(id) => r.activeID == id && id in Bundle(d.file.value) && Bundle(r) == Bundle(d.file.value)
      case Retire(id) =>
        r.activeID == d.file.value.activeID != id && Bundle(r) == Bundle(d.file.value) - {id}
  {
    match c {
      case Init(_, _, _) =>
      case Generate(_, _, _) =>
      case Add(_, _, _) =>
      case Activate(id) =>
        var r := d.file.value;
        assert r.activeID in Actives(r);
      case Retire(_) =>
    }
  }

  /** Over any run of commands and faults. */
  function RunCommands(d: Disk, commands: seq<(Command, Fault)>): Disk
    decreases |commands|
  {
    if commands == [] then d else RunCommands(Execute(d, commands[0].0, commands[0].1).0, commands[1..])
  }

  lemma CommandKeeps(d: Disk, c: Command, fault: Fault, id: string)
    requires ValidDisk(d)
    ensures ValidDisk(Execute(d, c, fault).0)
    ensures IsRetired(d, id) ==> IsRetired(Execute(d, c, fault).0, id)
  {
    if d.file.Some? {
      OneActive(d.file.value);
    }
  }

  /**
   From an empty directory: the registry, once there, always has exactly one active key, the one it
   names, and a retired key stays retired.
   */
  lemma {:induction false} RegistryStaysValid(d: Disk, commands: seq<(Command, Fault)>, id: string)
    requires ValidDisk(d)
    ensures ValidDisk(RunCommands(d, commands))
    ensures IsRetired(d, id) ==> IsRetired(RunCommands(d, commands), id)
    ensures RunCommands(d, commands).file.Some? ==>
      Actives(RunCommands(d, commands).file.value) == {RunCommands(d, commands).file.value.activeID}
    decreases |commands|
  {
    if commands != [] {
      CommandKeeps(d, commands[0].0, commands[0].1, id);
      RegistryStaysValid(Execute(d, commands[0].0, commands[0].1).0, commands[1..], id);
    } else if d.file.Some? {
      OneActive(d.file.value);
    }
  }

  // ---------------------------------------------------------------------------------------------
  // The fleet
  // ---------------------------------------------------------------------------------------------

  type AgentID = nat

  /** A signed command on its way to an agent, with the key that signed it. */
  datatype InFlight = InFlight(id: nat, key: string, agent: AgentID)

  datatype Agent = Agent(bundle: set<string>, beatAt: nat)

  /** `now` counts events; addedAt says when a key entered the registry. */
  datatype Fleet = Fleet(disk: Disk, addedAt: map<string, nat>, agents: map<AgentID, Agent>, inFlight: set<InFlight>,
        now: nat)

  datatype Event =
    | Enroll(agent: AgentID)
    | Beat(agent: AgentID)
    | Sign(id: nat, agent: AgentID)
    | Settle(settled: InFlight)             // executed, refused or expired
    | Operate(command: Command, fault: Fault)

  function Refreshed(f: Fleet, agent: AgentID): Fleet
    requires f.disk.file.Some?
  {
    f.(agents := f.agents[agent := Agent(Bundle(f.disk.file.value), f.now)])
  }

  function NoteNewKey(f: Fleet, disk: Disk): Fleet {
    var keys := if disk.file.Some? then disk.file.value.keys.Keys else {};
    f.(disk := disk, addedAt := map k | k in keys :: if k in f.addedAt then f.addedAt[k] else f.now)
  }

  function Happen(f: Fleet, e: Event): Fleet {
    var g :=
      match e
      case Enroll(agent) => if f.disk.file.Some? && agent !in f.agents then Refreshed(f, agent) else f
      case Beat(agent) => if f.disk.file.Some? && agent in f.agents then Refreshed(f, agent) else f
      case Sign(id, agent) =>
        if f.disk.file.Some? && agent in f.agents
        then f.(inFlight := f.inFlight + {InFlight(id, f.disk.file.value.activeID, agent)}) else f
      case Settle(settled) => f.(inFlight := f.inFlight - {settled})
      case Operate(command, fault) => NoteNewKey(f, Execute(f.disk, command, fault).0);
    g.(now := f.now + 1)
  }

  /** Every agent has refreshed its bundle since the key was added. */
  predicate FleetKnows(f: Fleet, key: string) {
    key in f.addedAt && forall a :: a in f.agents ==> f.agents[a].beatAt > f.addedAt[key]
  }

  predicate SignedByInFlight(f: Fleet, key: string) {
    exists c :: c in f.inFlight && c.key == key
  }

  predicate TakesEffect(f: Fleet, e: Event) {
    e.Operate? && Execute(f.disk, e.command, e.fault).0.file != f.disk.file
  }

  /** The two waits of the runbook. */
  predicate Patient(f: Fleet, e: Event) {
    (TakesEffect(f, e) && e.command.Activate? ==> FleetKnows(f, e.command.id)) &&
    (TakesEffect(f, e) && e.command.Retire? ==> !SignedByInFlight(f, e.command.id))
  }

  ghost predicate Trusted(f: Fleet) {
    forall c, a :: c in f.inFlight && a in f.agents ==> c.key in f.agents[a].bundle
  }

  function KeysOf(d: Disk): set<string> {
    if d.file.Some? then d.file.value.keys.Keys else {}
  }

  ghost predicate SaneClock(f: Fleet) {
    && f.addedAt.Keys == KeysOf(f.disk)
    && (forall k :: k in f.addedAt ==> f.addedAt[k] < f.now)
    && (forall a :: a in f.agents ==> f.agents[a].beatAt < f.now)
  }

  /** An agent that beat after a key was added holds it, unless it has been retired. */
  ghost predicate FreshBundles(f: Fleet) {
    forall a, k :: a in f.agents && k in f.addedAt && f.agents[a].beatAt > f.addedAt[k] && !IsRetired(f.disk, k)
      ==> k in f.agents[a].bundle
  }

  ghost predicate Safe(f: Fleet) {
    && ValidDisk(f.disk) && SaneClock(f) && FreshBundles(f)
    && (f.disk.file.Some? ==> FleetKnows(f, f.disk.file.value.activeID))
    && (f.disk.file.None? ==> f.agents == map[])
    && (forall c :: c in f.inFlight ==> FleetKnows(f, c.key) && !IsRetired(f.disk, c.key))
  }

  const EMPTY: Fleet := Fleet(Disk(None, {}, []), map[], map[], {}, 0)

  lemma SafeIsTrusted(f: Fleet)
    requires Safe(f)
    ensures Trusted(f)
  {
  }

  lemma EmptyIsSafe()
    ensures Safe(EMPTY)
  {
  }

  lemma RefreshKeepsSafe(f: Fleet, agent: AgentID)
    requires Safe(f) && f.disk.file.Some?
    ensures Safe(Refreshed(f, agent).(now := f.now + 1))
  {
    var g := Refreshed(f, agent).(now := f.now + 1);
    assert forall a :: a in g.agents ==> a == agent || a in f.agents;
    assert forall k :: FleetKnows(f, k) ==> FleetKnows(g, k);
  }

  lemma SignKeepsSafe(f: Fleet, id: nat, agent: AgentID)
    requires Safe(f)
    ensures Safe(Happen(f, Sign(id, agent)))
  {
    var g := Happen(f, Sign(id, agent));
    assert forall k :: FleetKnows(f, k) ==> FleetKnows(g, k);
    if f.disk.file.Some? {
      OneActive(f.disk.file.value);
    }
  }

  lemma SettleKeepsSafe(f: Fleet, settled: InFlight)
    requires Safe(f)
    ensures Safe(Happen(f, Settle(settled)))
  {
    var g := Happen(f, Settle(settled));
    assert forall k :: FleetKnows(f, k) ==> FleetKnows(g, k);
  }

  /** How one command may change the registry. */
  ghost predicate Moves(d: Disk, c: Command, g: Disk) {
    && KeysOf(d) <= KeysOf(g) && (d.file.Some? ==> g.file.Some?)
    && (forall k :: k in KeysOf(d) && IsRetired(g, k) && !IsRetired(d, k) ==> c == Retire(k))
    && (forall k :: IsRetired(d, k) ==> IsRetired(g, k))
    && (d.file.Some? && g.file.value.activeID != d.file.value.activeID ==> c == Activate(g.file.value.activeID))
    && (d.file.None? && g.file.Some? ==> KeysOf(g) == {g.file.value.activeID} && !IsRetired(g, g.file.value.activeID))
  }

  lemma CommitMoves(d: Disk, c: Command, document: Result<Registry, RotationError>, line: (string, string),
        fault: Fault)
    requires document.Ok? ==> Moves(d, c, d.(file := Some(document.value)))
    ensures Moves(d, c, Commit(d, document, line, fault).0)
  {
  }

  lemma AddMoves(d: Disk, c: Command, id: string, private: string, public: string)
    requires AddDocument(d.file, id, private, public).Ok?
    ensures Moves(d, c, d.(file := Some(AddDocument(d.file, id, private, public).value)))
  {
  }

  lemma ActivateMoves(d: Disk, id: string)
    requires ValidDisk(d) && ActivateDocument(d.file, id).Ok?
    ensures Moves(d, Activate(id), d.(file := Some(ActivateDocument(d.file, id).value)))
  {
    OneActive(d.file.value);
  }

  lemma CommandMoves(d: Disk, c: Command, fault: Fault)
    requires ValidDisk(d)
    ensures Moves(d, c, Execute(d, c, fault).0)
  {
    match c {
      case Init(id, private, public) => CommitMoves(d, c, InitDocument(d.file, id, private, public), ("init", id), fault);
      case Generate(id, private, public) =>
        if AddDocument(d.file, id, private, public).Ok? {
          AddMoves(d.(keyFiles := d.keyFiles + {private}), c, id, private, public);
          CommitMoves(d.(keyFiles := d.keyFiles + {private}), c, AddDocument(d.file, id, private, public), ("generate", id), fault);
        }
      case Add(id, private, public) =>
        if AddDocument(d.file, id, private, public).Ok? {
          AddMoves(d, c, id, private, public);
        }
        CommitMoves(d, c, AddDocument(d.file, id, private, public), ("add", id), fault);
      case Activate(id) =>
        if ActivateDocument(d.file, id).Ok? {
          ActivateMoves(d, id);
        }
        CommitMoves(d, c, ActivateDocument(d.file, id), ("activate", id), fault);
      case Retire(id) =>
        CommitMoves(d, c, RetireDocument(d.file, id), ("retire", id), fault);
    }
  }

  lemma NoteKeepsKnowledge(f: Fleet, c: Command, disk: Disk, k: string)
    requires Safe(f) && Moves(f.disk, c, disk) && FleetKnows(f, k)
    ensures FleetKnows(NoteNewKey(f, disk).(now := f.now + 1), k)
  {
    assert k in KeysOf(f.disk) && k in KeysOf(disk);
    var g := NoteNewKey(f, disk);
    assert g.addedAt[k] == f.addedAt[k];
  }

  lemma NoteKeepsBundles(f: Fleet, c: Command, disk: Disk)
    requires Safe(f) && Moves(f.disk, c, disk)
    ensures var g := NoteNewKey(f, disk).(now := f.now + 1);
      SaneClock(g) && FreshBundles(g)
  {
    var g := NoteNewKey(f, disk).(now := f.now + 1);
    assert g.addedAt.Keys == KeysOf(disk);
    forall a, k | a in g.agents && k in g.addedAt && g.agents[a].beatAt > g.addedAt[k] && !IsRetired(g.disk, k)
      ensures k in g.agents[a].bundle
    {
      assert f.agents[a].beatAt < f.now;
      assert k in f.addedAt;
      CommandNeverRevives(f.disk, c, disk, k);
    }
  }

  lemma CommandNeverRevives(d: Disk, c: Command, g: Disk, k: string)
    requires Moves(d, c, g) && k in KeysOf(d) && !IsRetired(g, k)
    ensures !IsRetired(d, k)
  {
  }

  lemma NoteKeepsSafe(f: Fleet, c: Command, disk: Disk)
    requires Safe(f) && ValidDisk(disk) && Moves(f.disk, c, disk)
    requires c.Activate? ==> FleetKnows(f, c.id)
    requires c.Retire? ==> !SignedByInFlight(f, c.id)
    ensures Safe(NoteNewKey(f, disk).(now := f.now + 1))
  {
    var g := NoteNewKey(f, disk).(now := f.now + 1);
    NoteKeepsBundles(f, c, disk);
    if disk.file.Some? {
      var active := disk.file.value.activeID;
      if f.disk.file.Some? {
        assert FleetKnows(f, active);
        NoteKeepsKnowledge(f, c, disk, active);
      } else {
        assert active in KeysOf(disk);
      }
    }
    forall x | x in g.inFlight
      ensures FleetKnows(g, x.key) && !IsRetired(g.disk, x.key)
    {
      assert x in f.inFlight && FleetKnows(f, x.key);
      NoteKeepsKnowledge(f, c, disk, x.key);
      assert SignedByInFlight(f, x.key);
      assert x.key in KeysOf(f.disk);
    }
  }

  lemma OperateKeepsSafe(f: Fleet, command: Command, fault: Fault)
    requires Safe(f) && Patient(f, Operate(command, fault))
    ensures Safe(Happen(f, Operate(command, fault)))
  {
    CommandKeeps(f.disk, command, fault, "");
    var disk := Execute(f.disk, command, fault).0;
    if disk.file == f.disk.file {
      NoteKeepsSafe(f, Add("", "", ""), disk);
    } else {
      CommandMoves(f.disk, command, fault);
      NoteKeepsSafe(f, command, disk);
    }
  }

  lemma EventKeepsSafe(f: Fleet, e: Event)
    requires Safe(f) && Patient(f, e)
    ensures Safe(Happen(f, e))
  {
    match e {
      case Enroll(agent) =>
        if f.disk.file.Some? && agent !in f.agents {
          RefreshKeepsSafe(f, agent);
        } else {
          SettleKeepsSafe(f, InFlight(0, "", 0));
        }
      case Beat(agent) =>
        if f.disk.file.Some? && agent in f.agents {
          RefreshKeepsSafe(f, agent);
        }
      case Sign(id, agent) => SignKeepsSafe(f, id, agent);
      case Settle(settled) => SettleKeepsSafe(f, settled);
      case Operate(command, fault) => OperateKeepsSafe(f, command, fault);
    }
  }

  /** The first events of a history, one after the other. */
  function History(f: Fleet, events: seq<Event>): Fleet
    decreases |events|
  {
    if events == [] then f else History(Happen(f, events[0]), events[1..])
  }

  ghost predicate PatientThroughout(f: Fleet, events: seq<Event>)
    decreases |events|
  {
    events == [] || (Patient(f, events[0]) && PatientThroughout(Happen(f, events[0]), events[1..]))
  }

  lemma {:induction false} HistoryKeepsSafe(f: Fleet, events: seq<Event>)
    requires Safe(f) && PatientThroughout(f, events)
    ensures Safe(History(f, events))
    decreases |events|
  {
    if events != [] {
      EventKeepsSafe(f, events[0]);
      HistoryKeepsSafe(Happen(f, events[0]), events[1..]);
    }
  }

  /**
   Over every history in which the operator keeps both waits: each command in flight was signed by a key
   in every agent's bundle, and the registry has exactly one active key.
   */
  lemma PatientRotationNeverStrandsACommand(events: seq<Event>)
    requires PatientThroughout(EMPTY, events)
    ensures Trusted(History(EMPTY, events))
    ensures var d := History(EMPTY, events).disk;
      d.file.Some? ==> ValidRegistry(d.file.value) && Actives(d.file.value) == {d.file.value.activeID}
  {
    EmptyIsSafe();
    HistoryKeepsSafe(EMPTY, events);
    SafeIsTrusted(History(EMPTY, events));
    var d := History(EMPTY, events).disk;
    if d.file.Some? {
      OneActive(d.file.value);
    }
  }

  /** The first wait is needed: activating a key some agent has not seen strands the next command. */
  lemma ActivatingTooEarlyStrandsACommand(f: Fleet, key: string, agent: AgentID, id: nat)
    requires ValidDisk(f.disk) && Execute(f.disk, Activate(key), Works).1.Ok?
    requires agent in f.agents && key !in f.agents[agent].bundle
    ensures !Trusted(History(f, [Operate(Activate(key), Works), Sign(id, agent)]))
  {
    var g := Happen(f, Operate(Activate(key), Works));
    assert History(f, [Operate(Activate(key), Works), Sign(id, agent)]) == History(g, [Sign(id, agent)])
        == Happen(g, Sign(id, agent)) by {
      assert [Operate(Activate(key), Works), Sign(id, agent)][1..] == [Sign(id, agent)];
      assert History(g, [Sign(id, agent)]) == History(Happen(g, Sign(id, agent)), []);
    }
    assert g.disk.file.value.activeID == key;
    assert InFlight(id, key, agent) in Happen(g, Sign(id, agent)).inFlight;
  }

  /** The second wait is needed: a key retired too early leaves the bundle of the next agent that beats. */
  lemma RetiringTooEarlyStrandsACommand(f: Fleet, c: InFlight, agent: AgentID)
    requires ValidDisk(f.disk) && Execute(f.disk, Retire(c.key), Works).1.Ok?
    requires c in f.inFlight && agent in f.agents
    ensures !Trusted(History(f, [Operate(Retire(c.key), Works), Beat(agent)]))
  {
    var g := Happen(f, Operate(Retire(c.key), Works));
    assert History(f, [Operate(Retire(c.key), Works), Beat(agent)]) == History(g, [Beat(agent)])
        == Happen(g, Beat(agent)) by {
      assert [Operate(Retire(c.key), Works), Beat(agent)][1..] == [Beat(agent)];
      assert History(g, [Beat(agent)]) == History(Happen(g, Beat(agent)), []);
    }
    assert IsRetired(g.disk, c.key) && agent in g.agents;
    var h := Happen(g, Beat(agent));
    assert c in h.inFlight && agent in h.agents;
    assert h.agents[agent].bundle == Bundle(g.disk.file.value);
    assert c.key !in h.agents[agent].bundle;
  }
}
