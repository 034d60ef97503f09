/**
 The durable command journal of agent/internal/service/replay.go: the in-memory `entries` map, the
 protected file it is saved to, and every transition of

     reserved -> executing -> result_pending -> acknowledged

 A save may fail or the process may die before or after the rename that makes it visible.
 Each transition has a function over the pair (memory, disk), which is what the protocol proofs use,
 and the method of class `SeenStore` that performs it in place.
 */
module CommandJournal {
  import opened Basics
  import Lex

  /** Nanoseconds since Go's zero time, so that `ZERO_TIME` is the value `IsZero` reports. */
  type Time = int

  const ZERO_TIME: Time := 0
  const HOUR: Time := 3600 * SECOND
  const UNVERIFIED_RESULT_TTL: Time := 24 * HOUR

  datatype ExecutionState = Unset | Reserved | Executing | ResultPending | Acknowledged

  datatype CommandResult = CommandResult(
    exitCode: int, stdout: string, stderr: string, agentCompletedAt: string,
    stdoutTruncated: bool, stderrTruncated: bool, stdoutTotalBytes: int, stderrTotalBytes: int)

  datatype Entry = Entry(expiry: Time, nonce: string, state: ExecutionState, result: Option<CommandResult>)

  const NO_ENTRY := Entry(ZERO_TIME, "", Unset, None)

  /** Command IDs and "nonce:" replay keys share one map, as they do in the file. */
  type Journal = map<string, Entry>

  const NONCE_PREFIX: string := "nonce:"

  function NonceKey(nonce: string): string {
    NONCE_PREFIX + nonce
  }

  predicate IsNonceKey(key: string) {
    NONCE_PREFIX <= key
  }

  lemma NonceKeyInjective(a: string, b: string)
    requires NonceKey(a) == NonceKey(b)
    ensures a == b
  {
    assert NonceKey(a)[|NONCE_PREFIX|..] == a && NonceKey(b)[|NONCE_PREFIX|..] == b;
  }

  /** Refusals and the recovery record carry no completion time and no truncation data. */
  function PlainResult(stderr: string): CommandResult {
    CommandResult(-1, "", stderr, "", false, false, 0, 0)
  }

  const UNKNOWN_OUTCOME: CommandResult := PlainResult(
    "agent restarted before the command result was durably recorded; execution outcome is unknown and the command was not replayed")

  // ---------------------------------------------------------------------------------------------
  // Saving
  // ---------------------------------------------------------------------------------------------

  /** What one save does: where it fails or where the process dies, relative to the rename. */
  datatype SaveOutcome =
    | Saved
    | FailedBeforeRename
    | FailedAfterRename
    | DiedBeforeRename
    | DiedAfterRename
  {
    predicate Renamed() { Saved? || FailedAfterRename? || DiedAfterRename? }
    predicate Dies() { DiedBeforeRename? || DiedAfterRename? }
  }

  datatype Status = Done | Rejected | AlreadyStored | SaveFailed | Died

  /**
   The last save of this session that took effect on the file, if any: an acknowledgement that took effect
   although its save reported failure, or any other.
   */
  datatype LastWrite = NoWrite | Write | LateAcknowledgement(id: string)

  /** Memory, file, and for the theorems what the session last wrote; the program keeps only the first two. */
  datatype Store = Store(mem: Journal, disk: Journal, wrote: LastWrite)

  function SaveStatus(o: SaveOutcome): Status {
    if o.Dies() then Died else if o.Saved? then Done else SaveFailed
  }

  function DiskAfter(disk: Journal, next: Journal, o: SaveOutcome): Journal {
    if o.Renamed() then next else disk
  }

  function WroteAfter(wrote: LastWrite, o: SaveOutcome): LastWrite {
    if o.Renamed() then Write else wrote
  }

  /** mutateAndSave: memory keeps the new map only if the save reports success. */
  function Commit(s: Store, next: Journal, o: SaveOutcome): (Store, Status) {
    (Store(if o.Saved? then next else s.mem, DiskAfter(s.disk, next, o), WroteAfter(s.wrote, o)), SaveStatus(o))
  }

  // ---------------------------------------------------------------------------------------------
  // Transitions
  // ---------------------------------------------------------------------------------------------

  function WithReservation(m: Journal, id: string, nonce: string, expiry: Time): Journal {
    m[id := Entry(expiry, nonce, Reserved, None)][NonceKey(nonce) := Entry(expiry, "", Unset, None)]
  }

  function Reserve(s: Store, id: string, nonce: string, expiry: Time, o: SaveOutcome): (Store, Status) {
    if id in s.mem || NonceKey(nonce) in s.mem then (s, Rejected)
    else Commit(s, WithReservation(s.mem, id, nonce, expiry), o)
  }

  function Mark(s: Store, id: string, o: SaveOutcome): (Store, Status) {
    if id !in s.mem || !s.mem[id].state.Reserved? then (s, Rejected)
    else Commit(s, s.mem[id := s.mem[id].(state := Executing)], o)
  }

  function EntryOf(m: Journal, id: string): Entry {
    if id in m then m[id] else NO_ENTRY
  }

  predicate HasStoredResult(e: Entry) {
    (e.state.Acknowledged? || e.state.ResultPending?) && e.result.Some?
  }

  /** A refusal may precede any trusted expiry; it then gets a bounded retention of its own. */
  function ResultEntry(e: Entry, expiry: Time, now: Time, result: CommandResult): Entry {
    var given := if e.expiry == ZERO_TIME && expiry == ZERO_TIME then now + UNVERIFIED_RESULT_TTL else expiry;
    Entry(if e.expiry == ZERO_TIME then given else e.expiry, e.nonce, ResultPending, Some(result))
  }

  function Complete(s: Store, id: string, expiry: Time, now: Time, result: CommandResult, o: SaveOutcome): (Store,
        Status) {
    var e := EntryOf(s.mem, id);
    if HasStoredResult(e) then (s, AlreadyStored)
    else Commit(s, s.mem[id := ResultEntry(e, expiry, now, result)], o)
  }

  function Ack(s: Store, id: string, o: SaveOutcome): (Store, Status) {
    if id !in s.mem || !s.mem[id].state.ResultPending? || s.mem[id].result.None? then (s, Rejected)
    else
      var (t, status) := Commit(s, s.mem[id := s.mem[id].(state := Acknowledged)], o);
      (if o.FailedAfterRename? then t.(wrote := LateAcknowledgement(id)) else t, status)
  }

  predicate Requeueable(m: Journal, id: string) {
    id in m && m[id].state.Acknowledged? && m[id].result.Some?
  }

  function Requeue(s: Store, id: string, o: SaveOutcome): (Store, Status) {
    if !Requeueable(s.mem, id) then (s, Done)
    else Commit(s, s.mem[id := s.mem[id].(state := ResultPending)], o)
  }

  /** Command entries that recovery drops, among the keys in `over`. */
  predicate IsReservation(m: Journal, k: string) {
    k in m && !IsNonceKey(k) && m[k].state.Reserved?
  }

  predicate IsInterrupted(m: Journal, k: string) {
    k in m && !IsNonceKey(k) && m[k].state.Executing?
  }

  function FreedNonces(m: Journal, over: set<string>): set<string> {
    set id | id in over && IsReservation(m, id) && m[id].nonce != "" :: NonceKey(m[id].nonce)
  }

  function Recovered(m: Journal, over: set<string>): Journal {
    map k | k in m && !(k in over && IsReservation(m, k)) && k !in FreedNonces(m, over) ::
      if k in over && IsInterrupted(m, k) then m[k].(state := ResultPending, result := Some(UNKNOWN_OUTCOME)) else m[k]
  }

  predicate NeedsRecovery(m: Journal, over: set<string>) {
    exists k :: k in over && (IsReservation(m, k) || IsInterrupted(m, k))
  }

  function Recover(s: Store, o: SaveOutcome): (Store, Status) {
    if !NeedsRecovery(s.mem, s.mem.Keys) then (s, Done) else Commit(s, Recovered(s.mem, s.mem.Keys), o)
  }

  predicate Unresolved(e: Entry) {
    e.state.Reserved? || e.state.Executing? || e.state.ResultPending?
  }

  predicate Expendable(e: Entry, now: Time) {
    !Unresolved(e) && e.expiry != ZERO_TIME && e.expiry < now
  }

  function Pruned(m: Journal, over: set<string>, now: Time): Journal {
    map k | k in m && !(k in over && Expendable(m[k], now)) :: m[k]
  }

  /** Prune and, when something was dropped, save.  A failed save does not bring memory back. */
  function PruneAndSave(s: Store, now: Time, o: SaveOutcome): (Store, Status) {
    var next := Pruned(s.mem, s.mem.Keys, now);
    if next == s.mem then (s, Done) else (Store(next, DiskAfter(s.disk, next, o), WroteAfter(s.wrote, o)), SaveStatus(o))
  }

  datatype PendingResult = PendingResult(commandID: string, result: CommandResult)

  predicate IsPending(m: Journal, k: string) {
    k in m && !IsNonceKey(k) && m[k].state.ResultPending? && m[k].result.Some?
  }

  function PendingIDs(m: Journal): set<string> {
    set k | k in m && IsPending(m, k)
  }

  function Outbox(m: Journal): (r: seq<PendingResult>)
    ensures |r| == |PendingIDs(m)|
  {
    var ids := Lex.SortedSeq(PendingIDs(m));
    assert forall i :: 0 <= i < |ids| ==> ids[i] in Elems(ids);
    seq(|ids|, i requires 0 <= i < |ids| => PendingResult(ids[i], m[ids[i]].result.value))
  }

  /** In the order of command IDs, each ID once. */
  ghost predicate ByID(r: seq<PendingResult>) {
    forall i, j :: 0 <= i < j < |r| ==> Lex.Less(r[i].commandID, r[j].commandID)
  }

  /** The pending results of the entries whose keys are in `over`, and nothing else. */
  ghost predicate ListsPending(m: Journal, over: set<string>, r: seq<PendingResult>) {
    && (forall p :: p in r ==> p.commandID in over && IsPending(m, p.commandID) && m[p.commandID].result == Some(p.result))
    && forall id :: id in over && IsPending(m, id) ==> PendingResult(id, m[id].result.value) in r
  }

  function IDs(r: seq<PendingResult>): seq<string> {
    seq(|r|, i requires 0 <= i < |r| => r[i].commandID)
  }

  lemma OutboxIsOrdered(m: Journal)
    ensures ByID(Outbox(m)) && ListsPending(m, m.Keys, Outbox(m))
  {
    var ids, r := Lex.SortedSeq(PendingIDs(m)), Outbox(m);
    Lex.SortedSeqIsSorted(PendingIDs(m));
    assert forall i :: 0 <= i < |ids| ==> ids[i] in Elems(ids);
    forall id | id in m.Keys && IsPending(m, id)
      ensures PendingResult(id, m[id].result.value) in r
    {
      assert id in Elems(ids);
      var n :| 0 <= n < |ids| && ids[n] == id;
      assert r[n] == PendingResult(id, m[id].result.value);
    }
  }

  lemma IDsOfTheOrderedList(m: Journal, r: seq<PendingResult>)
    requires ByID(r) && ListsPending(m, m.Keys, r)
    ensures Lex.StrictlySorted(IDs(r)) && Elems(IDs(r)) == PendingIDs(m)
  {
    var ids := IDs(r);
    forall id | id in Elems(ids)
      ensures id in PendingIDs(m)
    {
      var n :| 0 <= n < |ids| && ids[n] == id;
      assert r[n] in r;
    }
    forall id | id in PendingIDs(m)
      ensures id in Elems(ids)
    {
      var n :| 0 <= n < |r| && r[n] == PendingResult(id, m[id].result.value);
      assert ids[n] == id;
    }
  }

  lemma OrderedListIsTheOutbox(m: Journal, r: seq<PendingResult>)
    requires ByID(r) && ListsPending(m, m.Keys, r)
    ensures r == Outbox(m)
  {
    IDsOfTheOrderedList(m, r);
    Lex.SortedSeqUnique(IDs(r), PendingIDs(m));
    var box := Outbox(m);
    assert |r| == |box|;
    forall i | 0 <= i < |r|
      ensures r[i] == box[i]
    {
      assert r[i] in r && IDs(r)[i] == r[i].commandID;
    }
  }

  /** The outbox is the one list that holds every pending result, in the order of command IDs. */
  lemma OutboxIsTheOrderedList(m: Journal, r: seq<PendingResult>)
    ensures ByID(r) && ListsPending(m, m.Keys, r) <==> r == Outbox(m)
  {
    OutboxIsOrdered(m);
    if ByID(r) && ListsPending(m, m.Keys, r) {
      OrderedListIsTheOutbox(m, r);
    }
  }

  // ---------------------------------------------------------------------------------------------
  // The store, updated in place
  // ---------------------------------------------------------------------------------------------

  /** The journal file.  An absent or empty file reads as an empty map. */
  class JournalFile {
    var content: Journal

    constructor (content: Journal)
      ensures this.content == content
    {
      this.content := content;
    }
  }

  class SeenStore {
    var entries: Journal
    const file: JournalFile
    ghost var wrote: LastWrite

    /** LoadSeenStore. */
    constructor (file: JournalFile)
      ensures this.file == file && entries == file.content && wrote == NoWrite
    {
      this.file := file;
      this.entries := file.content;
      this.wrote := NoWrite;
    }

    ghost function State(): Store
      reads this, file
    {
      Store(entries, file.content, wrote)
    }

    method Save(o: SaveOutcome) returns (status: Status)
      modifies this`wrote, file
      ensures State() == Store(old(entries), DiskAfter(old(file.content), entries, o), WroteAfter(old(wrote), o))
      ensures status == SaveStatus(o)
    {
      if o.Renamed() {
        file.content := entries;
        wrote := Write;
      }
      status := SaveStatus(o);
    }

    method MutateAndSave(next: Journal, o: SaveOutcome) returns (status: Status)
      modifies this, file
      ensures (State(), status) == Commit(old(State()), next, o)
    {
      var before := entries;
      entries := next;
      status := Save(o);
      if status != Done {
        entries := before;
      }
    }

    method ReserveCommand(id: string, nonce: string, expiry: Time, o: SaveOutcome) returns (status: Status)
      modifies this, file
      ensures (State(), status) == Reserve(old(State()), id, nonce, expiry, o)
    {
      if id in entries {
        return Rejected;
      }
      if NonceKey(nonce) in entries {
        return Rejected;
      }
      var next := entries[id := Entry(expiry, nonce, Reserved, None)];
      next := next[NonceKey(nonce) := Entry(expiry, "", Unset, None)];
      status := MutateAndSave(next, o);
    }

    method MarkExecuting(id: string, o: SaveOutcome) returns (status: Status)
      modifies this, file
      ensures (State(), status) == Mark(old(State()), id, o)
    {
      if id !in entries || entries[id].state != Reserved {
        return Rejected;
      }
      var entry := entries[id];
      entry := entry.(state := Executing);
      status := MutateAndSave(entries[id := entry], o);
    }

    method StoreResult(id: string, expiry: Time, now: Time, result: CommandResult, o: SaveOutcome)
      returns (status: Status)
      modifies this, file
      ensures (State(), status) == Complete(old(State()), id, expiry, now, result, o)
    {
      var entry := if id in entries then entries[id] else NO_ENTRY;
      if (entry.state == Acknowledged || entry.state == ResultPending) && entry.result != None {
        return AlreadyStored;
      }
      var fallback := expiry;
      if entry.expiry == ZERO_TIME && expiry == ZERO_TIME {
        fallback := now + UNVERIFIED_RESULT_TTL;
      }
      if entry.expiry == ZERO_TIME {
        entry := entry.(expiry := fallback);
      }
      entry := entry.(state := ResultPending, result := Some(result));
      status := MutateAndSave(entries[id := entry], o);
    }

    method Acknowledge(id: string, o: SaveOutcome) returns (status: Status)
      modifies this, file
      ensures (State(), status) == Ack(old(State()), id, o)
    {
      if id !in entries || entries[id].state != ResultPending || entries[id].result == None {
        return Rejected;
      }
      status := MutateAndSave(entries[id := entries[id].(state := Acknowledged)], o);
      if o.FailedAfterRename? {
        wrote := LateAcknowledgement(id);
      }
    }

    method RequeueAcknowledged(id: string, o: SaveOutcome) returns (requeued: bool, status: Status)
      modifies this, file
      ensures (State(), status) == Requeue(old(State()), id, o)
      ensures requeued <==> Requeueable(old(entries), id) && o.Saved?
    {
      if id !in entries || entries[id].state != Acknowledged || entries[id].result == None {
        return false, Done;
      }
      status := MutateAndSave(entries[id := entries[id].(state := ResultPending)], o);
      requeued := status == Done;
    }

    /** The durable outbox, ordered by command ID whatever order the map is walked in. */
    method PendingResults() returns (pending: seq<PendingResult>)
      ensures ByID(pending) && ListsPending(entries, entries.Keys, pending)
      ensures pending == Outbox(entries)
    {
      pending := [];
      var todo := entries.Keys;
      while todo != {}
        invariant todo <= entries.Keys
        invariant ByID(pending) && ListsPending(entries, entries.Keys - todo, pending)
        decreases |todo|
      {
        var id :| id in todo;
        ghost var before, done := pending, entries.Keys - todo;
        todo := todo - {id};
        if !IsNonceKey(id) && entries[id].state == ResultPending && entries[id].result != None {
          pending := InsertByID(pending, PendingResult(id, entries[id].result.value));
        }
        assert entries.Keys - todo == done + {id};
        OneMoreListed(entries, done, id, before, pending);
      }
      assert entries.Keys - todo == entries.Keys;
      OutboxIsTheOrderedList(entries, pending);
    }

    /** The body of the walk: one entry. */
    method RecoverEntry(id: string) returns (released: bool, unknown: bool)
      requires !IsNonceKey(id) ==> id in entries
      modifies this`entries
      ensures entries == RecoverKey(old(entries), id)
      ensures released == IsReservation(old(entries), id) && unknown == IsInterrupted(old(entries), id)
    {
      released, unknown := false, false;
      if IsNonceKey(id) {
        return;
      }
      var entry := entries[id];
      match entry.state
      case Reserved =>
        entries := entries - {id};
        if entry.nonce != "" {
          entries := entries - {NonceKey(entry.nonce)};
        }
        released := true;
      case Executing =>
        entries := entries[id := entry.(state := ResultPending, result := Some(UNKNOWN_OUTCOME))];
        unknown := true;
      case _ =>
    }

    /** One step of the walk, by what was met before it. */
    method RecoverNext(id: string, ghost before: Journal, ghost done: set<string>, ghost next: set<string>)
      returns (n: nat, u: nat)
      requires id in before && id !in done && done <= before.Keys && entries == Recovered(before, done)
      requires next == done + {id}
      modifies this`entries
      ensures entries == Recovered(before, next)
      ensures NeedsRecovery(before, next) <==> NeedsRecovery(before, done) || n + u > 0
    {
      RecoverOne(before, done, id);
      var released, unknown := RecoverEntry(id);
      n, u := if released then 1 else 0, if unknown then 1 else 0;
    }

    /**
     Walks the map in any order, deleting as it goes.  Reservations are released together with
     their nonces; interrupted executions get the unknown-outcome result.
     */
    method RecoverEntries() returns (released: nat, unknown: nat)
      modifies this`entries
      ensures entries == Recovered(old(entries), old(entries).Keys)
      ensures released + unknown > 0 <==> NeedsRecovery(old(entries), old(entries).Keys)
    {
      ghost var before := entries;
      var todo := entries.Keys;
      ghost var done: set<string> := {};
      released, unknown := 0, 0;
      RecoveredFromNothing(before);
      while todo != {}
        invariant todo !! done && done + todo == before.Keys
        invariant entries == Recovered(before, done)
        invariant released + unknown > 0 <==> NeedsRecovery(before, done)
        decreases |todo|
      {
        var id :| id in todo;
        ghost var next := done + {id};
        var n, u := RecoverNext(id, before, done, next);
        released, unknown := released + n, unknown + u;
        todo, done := todo - {id}, next;
      }
      assert done == before.Keys;
    }

    method RecoverInterrupted(o: SaveOutcome) returns (released: nat, unknown: nat, status: Status)
      modifies this, file
      ensures (State(), status) == Recover(old(State()), o)
    {
      var before := entries;
      released, unknown := RecoverEntries();
      if released + unknown == 0 {
        RecoverNothing(before);
        return released, unknown, Done;
      }
      status := Save(o);
      if status != Done {
        entries := before;
        released, unknown := 0, 0;
      }
    }

    /** One step of the walk of Prune. */
    method PruneEntry(id: string, now: Time) returns (dropped: bool)
      requires id in entries
      modifies this`entries
      ensures dropped == Expendable(old(entries)[id], now)
      ensures entries == if dropped then old(entries) - {id} else old(entries)
    {
      dropped := false;
      var entry := entries[id];
      if entry.state != Reserved && entry.state != Executing && entry.state != ResultPending {
        if entry.expiry != ZERO_TIME && entry.expiry < now {
          entries := entries - {id};
          dropped := true;
        }
      }
    }

    method Prune(now: Time) returns (changed: bool)
      modifies this`entries
      ensures entries == Pruned(old(entries), old(entries).Keys, now)
      ensures changed <==> entries != old(entries)
    {
      ghost var before := entries;
      var todo := entries.Keys;
      ghost var done: set<string> := {};
      changed := false;
      PrunedFromNothing(before, now);
      while todo != {}
        invariant todo !! done && done + todo == before.Keys
        invariant entries == Pruned(before, done, now)
        invariant changed <==> entries != before
        decreases |todo|
      {
        var id :| id in todo;
        PrunedOneMore(before, done, id, now);
        var dropped := PruneEntry(id, now);
        todo, done, changed := todo - {id}, done + {id}, changed || dropped;
      }
      assert done == before.Keys;
    }
  }

  lemma PrunedFromNothing(m: Journal, now: Time)
    ensures Pruned(m, {}, now) == m
  {
  }

  lemma PrunedOneMore(m: Journal, done: set<string>, id: string, now: Time)
    requires id in m && id !in done
    ensures id in Pruned(m, done, now) && Pruned(m, done, now)[id] == m[id]
    ensures Pruned(m, done + {id}, now)
      == if Expendable(m[id], now) then Pruned(m, done, now) - {id} else Pruned(m, done, now)
    ensures Expendable(m[id], now) ==> Pruned(m, done + {id}, now) != m
  {
  }

  /** One step of sorting: the new result goes before the first one with a greater ID. */
  method InsertByID(sorted: seq<PendingResult>, p: PendingResult) returns (r: seq<PendingResult>)
    requires ByID(sorted) && forall q :: q in sorted ==> q.commandID != p.commandID
    ensures ByID(r) && Elems(r) == Elems(sorted) + {p}
  {
    var i := 0;
    while i < |sorted| && Lex.Less(sorted[i].commandID, p.commandID)
      invariant 0 <= i <= |sorted|
      invariant forall k :: 0 <= k < i ==> Lex.Less(sorted[k].commandID, p.commandID)
    {
      i := i + 1;
    }
    r := sorted[..i] + [p] + sorted[i..];
    InsertedByID(sorted, p, i);
  }

  /** All of `a` comes before all of `b`. */
  ghost predicate AllBefore(a: seq<PendingResult>, b: seq<PendingResult>) {
    forall j, k :: 0 <= j < |a| && 0 <= k < |b| ==> Lex.Less(a[j].commandID, b[k].commandID)
  }

  lemma ByIDConcat(a: seq<PendingResult>, b: seq<PendingResult>)
    requires ByID(a) && ByID(b) && AllBefore(a, b)
    ensures ByID(a + b)
  {
  }

  lemma RestIsGreater(sorted: seq<PendingResult>, p: PendingResult)
    requires ByID(sorted) && forall q :: q in sorted ==> q.commandID != p.commandID
    requires sorted != [] ==> !Lex.Less(sorted[0].commandID, p.commandID)
    ensures AllBefore([p], sorted)
  {
    forall k | 0 <= k < |sorted|
      ensures Lex.Less(p.commandID, sorted[k].commandID)
    {
      assert sorted[0] in sorted;
      Lex.LessTrichotomy(sorted[0].commandID, p.commandID);
      if k > 0 {
        Lex.LessTransitive(p.commandID, sorted[0].commandID, sorted[k].commandID);
      }
    }
  }

  lemma InsertedByID(sorted: seq<PendingResult>, p: PendingResult, i: nat)
    requires ByID(sorted) && i <= |sorted| && forall q :: q in sorted ==> q.commandID != p.commandID
    requires forall k :: 0 <= k < i ==> Lex.Less(sorted[k].commandID, p.commandID)
    requires i < |sorted| ==> !Lex.Less(sorted[i].commandID, p.commandID)
    ensures var r := sorted[..i] + [p] + sorted[i..];
      ByID(r) && Elems(r) == Elems(sorted) + {p}
  {
    var low, high := sorted[..i], sorted[i..];
    assert sorted == low + high;
    RestIsGreater(high, p);
    ByIDConcat(low, [p]);
    assert AllBefore(low, high);
    assert AllBefore(low + [p], high);
    ByIDConcat(low + [p], high);
    assert forall q :: q in low + [p] + high <==> q in low || q == p || q in high;
  }

  lemma OneMoreListed(m: Journal, done: set<string>, id: string, before: seq<PendingResult>,
        after: seq<PendingResult>)
    requires ListsPending(m, done, before) && id in m
    requires if IsPending(m, id) then Elems(after) == Elems(before) + {PendingResult(id, m[id].result.value)}
      else after == before
    ensures ListsPending(m, done + {id}, after)
  {
    assert forall p :: p in after <==> p in Elems(after);
    assert forall p :: p in before <==> p in Elems(before);
  }

  /** What the walk does to the map on meeting one key, whatever it met before. */
  function RecoverKey(m: Journal, id: string): Journal {
    if IsReservation(m, id) then
      if m[id].nonce != "" then m - {id} - {NonceKey(m[id].nonce)} else m - {id}
    else if IsInterrupted(m, id) then m[id := m[id].(state := ResultPending, result := Some(UNKNOWN_OUTCOME))]
    else m
  }

  lemma RecoveredFromNothing(m: Journal)
    ensures Recovered(m, {}) == m && !NeedsRecovery(m, {})
  {
    assert FreedNonces(m, {}) == {};
  }

  lemma FreedByOneMore(m: Journal, done: set<string>, id: string)
    ensures FreedNonces(m, done + {id}) ==
      FreedNonces(m, done) + (if IsReservation(m, id) && m[id].nonce != "" then {NonceKey(m[id].nonce)} else {})
    ensures forall k :: k in FreedNonces(m, done) ==> IsNonceKey(k)
  {
  }

  lemma NeededByOneMore(m: Journal, done: set<string>, id: string)
    ensures NeedsRecovery(m, done + {id}) <==>
      NeedsRecovery(m, done) || IsReservation(m, id) || IsInterrupted(m, id)
  {
    if NeedsRecovery(m, done) {
      var k :| k in done && (IsReservation(m, k) || IsInterrupted(m, k));
      assert k in done + {id};
    }
    if IsReservation(m, id) || IsInterrupted(m, id) {
      assert id in done + {id};
    }
  }

  lemma StillThere(m: Journal, done: set<string>, id: string)
    requires id in m && id !in done && !IsNonceKey(id)
    ensures id in Recovered(m, done) && Recovered(m, done)[id] == m[id]
  {
    FreedByOneMore(m, done, id);
  }

  lemma RecoverOne(m: Journal, done: set<string>, id: string)
    requires id in m && id !in done && done <= m.Keys
    ensures !IsNonceKey(id) ==> id in Recovered(m, done) && Recovered(m, done)[id] == m[id]
    ensures Recovered(m, done + {id}) == RecoverKey(Recovered(m, done), id)
    ensures NeedsRecovery(m, done + {id}) <==>
      NeedsRecovery(m, done) || IsReservation(m, id) || IsInterrupted(m, id)
    ensures IsReservation(Recovered(m, done), id) == IsReservation(m, id)
    ensures IsInterrupted(Recovered(m, done), id) == IsInterrupted(m, id)
  {
    FreedByOneMore(m, done, id);
    NeededByOneMore(m, done, id);
    if !IsNonceKey(id) {
      StillThere(m, done, id);
    }
  }

  lemma RecoverNothing(m: Journal)
    requires !NeedsRecovery(m, m.Keys)
    ensures Recovered(m, m.Keys) == m
  {
    assert forall k :: k in m ==> !IsReservation(m, k) && !IsInterrupted(m, k);
    assert FreedNonces(m, m.Keys) == {};
  }
}
