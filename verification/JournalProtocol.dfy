/**
 Safety of the command journal over every run: every order of heartbeats, deliveries, save failures,
 crashes and restarts that `AgentRunner.Run` can produce.

 The invariant says what the file (and, while the agent is up, memory) still knows about the past:
 every command ever started is either past its signed expiry or still held under its ID and its
 nonce; every result ever uploaded is still the stored one; every started command whose result the
 server has not taken is still unresolved.
 */
module JournalProtocol {
  import opened Basics
  import opened CommandJournal
  import opened AgentRunner
  import opened CommandEnvelope
  import Lex

  // ---------------------------------------------------------------------------------------------
  // Reading a history
  // ---------------------------------------------------------------------------------------------

  function UploadsAfter(known: map<string, CommandResult>, e: Event): map<string, CommandResult> {
    match e
    case Uploaded(id, result, _, _) => known[id := result]
    case Dropped(ids) => known - ids
    case _ => known
  }

  /** The last result uploaded for each ID since the file last dropped that ID. */
  function LastUpload(events: seq<Event>): map<string, CommandResult>
    decreases |events|
  {
    if events == [] then map[]
    else UploadsAfter(LastUpload(events[..|events| - 1]), events[|events| - 1])
  }

  function OutstandingAfter(ids: set<string>, e: Event): set<string> {
    match e
    case Started(id, _, _, _, _, _) => ids + {id}
    case ServerAccepted(id) => ids - {id}
    case _ => ids
  }

  /** Commands started whose result the server has not accepted since. */
  function Outstanding(events: seq<Event>): set<string>
    decreases |events|
  {
    if events == [] then {}
    else OutstandingAfter(Outstanding(events[..|events| - 1]), events[|events| - 1])
  }

  function FinishesAfter(known: map<string, set<CommandResult>>, e: Event): map<string, set<CommandResult>> {
    match e
    case Started(id, _, _, _, _, _) => known[id := {}]
    case Finished(id, result) => if id in known then known[id := known[id] + {result}] else known
    case Dropped(ids) => known - ids
    case _ => known
  }

  /** For each command started since the file last dropped its ID, what its process returned. */
  function Finishes(events: seq<Event>): map<string, set<CommandResult>>
    decreases |events|
  {
    if events == [] then map[]
    else FinishesAfter(Finishes(events[..|events| - 1]), events[|events| - 1])
  }

  /** A result a started command may be given: what its process returned, or the unknown-outcome record. */
  ghost predicate Genuine(events: seq<Event>, id: string, result: CommandResult) {
    id in Finishes(events) ==> result == UNKNOWN_OUTCOME || result in Finishes(events)[id]
  }

  lemma FoldLast(events: seq<Event>, e: Event)
    ensures LastUpload(events + [e]) == UploadsAfter(LastUpload(events), e)
    ensures Outstanding(events + [e]) == OutstandingAfter(Outstanding(events), e)
    ensures Finishes(events + [e]) == FinishesAfter(Finishes(events), e)
  {
    assert (events + [e])[..|events|] == events;
  }

  ghost predicate StartedOnce(events: seq<Event>) {
    forall i, j :: 0 <= i < j < |events| && events[i].Started? && events[j].Started? ==> events[i].id != events[j].id
  }

  /** A nonce starts a second command only after the signed window of the first has closed. */
  ghost predicate NonceExclusive(events: seq<Event>) {
    forall i, j :: 0 <= i < j < |events| && events[i].Started? && events[j].Started? && events[i].nonce == events[j].nonce ==>
      events[i].expiry < events[j].at
  }

  /**
   Every upload carries what the file holds at that moment as this ID's retained result.  It is in the file as
   acknowledged exactly when the last save that took effect in the session was a late acknowledgement of it.
   */
  ghost predicate UploadsDurable(events: seq<Event>) {
    forall i :: 0 <= i < |events| && events[i].Uploaded? ==> DurableUpload(events[i])
  }

  ghost predicate DurableUpload(e: Event)
    requires e.Uploaded?
  {
    && HoldsResult(e.onDisk, e.result)
    && (e.onDisk.value.state.Acknowledged? <==> e.wrote == LateAcknowledgement(e.id))
  }

  ghost predicate HoldsResult(e: Option<Entry>, result: CommandResult) {
    e.Some? && e.value.result == Some(result) && (e.value.state.ResultPending? || e.value.state.Acknowledged?)
  }

  ghost predicate UploadsAgree(events: seq<Event>) {
    forall i :: 0 <= i < |events| && events[i].Uploaded? ==>
      var known := LastUpload(events[..i]);
      events[i].id in known ==> known[events[i].id] == events[i].result
  }

  ghost predicate UploadsGenuine(events: seq<Event>) {
    forall i :: 0 <= i < |events| && events[i].Uploaded? ==> Genuine(events[..i], events[i].id, events[i].result)
  }

  ghost predicate StartsSigned(events: seq<Event>, signed: string -> Time) {
    forall i :: 0 <= i < |events| && events[i].Started? ==>
      events[i].expiry == signed(events[i].id) && !IsNonceKey(events[i].id)
  }

  ghost predicate History(events: seq<Event>, signed: string -> Time) {
    && StartedOnce(events)
    && NonceExclusive(events)
    && UploadsDurable(events)
    && UploadsAgree(events)
    && UploadsGenuine(events)
    && StartsSigned(events, signed)
  }

  // ---------------------------------------------------------------------------------------------
  // The invariant
  // ---------------------------------------------------------------------------------------------

  ghost predicate WellFormed(m: Journal) {
    forall k :: k in m ==>
      if IsNonceKey(k) then m[k].state.Unset? || (m[k].state.ResultPending? && m[k].result.Some?)
      else if m[k].state.ResultPending? then m[k].result.Some?
      else m[k].state.Acknowledged? || m[k].result.None?
  }

  /** Past its window, or still held: as a command that may have run, and as a used nonce. */
  ghost predicate Guarded(m: Journal, s: Event, clock: Time)
    requires s.Started?
  {
    || s.expiry < clock
    || (&& s.id in m && m[s.id].expiry == s.expiry && !m[s.id].state.Unset? && !m[s.id].state.Reserved?
        && NonceKey(s.nonce) in m && m[NonceKey(s.nonce)].expiry == s.expiry
        && forall k :: k in m && !IsNonceKey(k) && m[k].state.Reserved? ==> m[k].nonce != s.nonce)
  }

  ghost predicate StartsGuarded(m: Journal, events: seq<Event>, clock: Time) {
    forall i :: 0 <= i < |events| && events[i].Started? ==> Guarded(m, events[i], clock)
  }

  ghost predicate UploadsHeld(m: Journal, events: seq<Event>) {
    forall id :: id in LastUpload(events) ==>
      !IsNonceKey(id) && id in m && HoldsResult(Some(m[id]), LastUpload(events)[id])
  }

  ghost predicate OutstandingHeld(m: Journal, events: seq<Event>) {
    forall id :: id in Outstanding(events) ==>
      !IsNonceKey(id) && id in m && (m[id].state.Executing? || m[id].state.ResultPending?)
  }

  /** A started command that was not dropped is there, executing or with a genuine result. */
  ghost predicate StartsHeld(m: Journal, events: seq<Event>) {
    forall id :: id in Finishes(events) ==>
      && !IsNonceKey(id) && id in m && !m[id].state.Reserved? && !m[id].state.Unset?
      && (!m[id].state.Executing? ==> m[id].result.Some?)
      && (m[id].result.Some? ==> Genuine(events, id, m[id].result.value))
  }

  /** What the journal must still know. */
  ghost predicate Remembers(m: Journal, events: seq<Event>, clock: Time) {
    && WellFormed(m)
    && StartsGuarded(m, events, clock)
    && UploadsHeld(m, events)
    && OutstandingHeld(m, events)
    && StartsHeld(m, events)
  }

  ghost predicate Safe(w: World, signed: string -> Time) {
    && w.clock > ZERO_TIME
    && Remembers(w.store.disk, w.events, w.clock)
    && History(w.events, signed)
  }

  ghost predicate Live(w: World, signed: string -> Time) {
    && Safe(w, signed)
    && Remembers(w.store.mem, w.events, w.clock)
  }

  /** No command is between its reservation and its result, except possibly `busy`. */
  ghost predicate Settled(m: Journal, busy: set<string>) {
    forall k :: k in m && !IsNonceKey(k) && (m[k].state.Reserved? || m[k].state.Executing?) ==> k in busy
  }

  /**
   File and memory agree, except on the one ID whose acknowledgement took effect late: memory still calls
   it pending and the file already calls it acknowledged.
   */
  ghost predicate Synced(s: Store) {
    && s.mem.Keys == s.disk.Keys
    && forall k :: k in s.mem ==>
      if s.wrote == LateAcknowledgement(k) then
        s.mem[k].state.ResultPending? && s.disk[k] == s.mem[k].(state := Acknowledged)
      else s.disk[k] == s.mem[k]
  }

  ghost predicate AtRest(w: World, signed: string -> Time) {
    Live(w, signed) && Settled(w.store.mem, {}) && Synced(w.store)
  }

  ghost predicate Invariant(w: World, signed: string -> Time) {
    Safe(w, signed) && (w.up ==> AtRest(w, signed))
  }

  // ---------------------------------------------------------------------------------------------
  // Steps of the store keep what the journal remembers
  // ---------------------------------------------------------------------------------------------

  lemma TickKeeps(w: World, c: Choice, signed: string -> Time)
    ensures Safe(w, signed) ==> Safe(Tick(w, c), signed)
    ensures Live(w, signed) ==> Live(Tick(w, c), signed)
    ensures AtRest(w, signed) ==> AtRest(Tick(w, c), signed)
  {
  }

  lemma ReservationRemembers(m: Journal, id: string, nonce: string, expiry: Time, events: seq<Event>, clock: Time)
    requires Remembers(m, events, clock)
    requires id !in m && NonceKey(nonce) !in m && !IsNonceKey(id)
    ensures Remembers(WithReservation(m, id, nonce, expiry), events, clock)
  {
  }

  lemma MarkRemembers(m: Journal, id: string, events: seq<Event>, clock: Time)
    requires Remembers(m, events, clock)
    requires id in m && m[id].state.Reserved?
    ensures Remembers(m[id := m[id].(state := Executing)], events, clock)
  {
  }

  lemma ResultRemembers(m: Journal, id: string, expiry: Time, now: Time, result: CommandResult, events: seq<Event>,
        clock: Time)
    requires Remembers(m, events, clock) && clock > ZERO_TIME
    requires !HasStoredResult(EntryOf(m, id)) && Genuine(events, id, result)
    ensures Remembers(m[id := ResultEntry(EntryOf(m, id), expiry, now, result)], events, clock)
  {
    var m' := m[id := ResultEntry(EntryOf(m, id), expiry, now, result)];
    assert WellFormed(m');
    assert UploadsHeld(m', events);
    assert OutstandingHeld(m', events);
    assert StartsHeld(m', events);
    assert NonceKey("") == NONCE_PREFIX;
    forall i | 0 <= i < |events| && events[i].Started?
      ensures Guarded(m', events[i], clock)
    {
      assert Guarded(m, events[i], clock);
    }
  }

  lemma AcknowledgedRemembers(m: Journal, id: string, events: seq<Event>, clock: Time)
    requires Remembers(m, events, clock)
    requires IsPending(m, id) && id !in Outstanding(events)
    ensures Remembers(m[id := m[id].(state := Acknowledged)], events, clock)
  {
  }

  lemma RequeuedRemembers(m: Journal, id: string, events: seq<Event>, clock: Time)
    requires Remembers(m, events, clock)
    requires Requeueable(m, id)
    ensures Remembers(m[id := m[id].(state := ResultPending)], events, clock)
  {
  }

  lemma RecoveredRemembers(m: Journal, events: seq<Event>, clock: Time, signed: string -> Time)
    requires Remembers(m, events, clock) && StartsSigned(events, signed)
    ensures Remembers(Recovered(m, m.Keys), events, clock)
    ensures Settled(Recovered(m, m.Keys), {})
  {
    var m' := Recovered(m, m.Keys);
    forall k | k in m && k !in m'
      ensures IsReservation(m, k) || IsNonceKey(k)
    {
    }
    forall i | 0 <= i < |events| && events[i].Started?
      ensures Guarded(m', events[i], clock)
    {
      var s := events[i];
      assert Guarded(m, s, clock);
      if !(s.expiry < clock) {
        if NonceKey(s.nonce) in FreedNonces(m, m.Keys) {
          var id :| id in m.Keys && IsReservation(m, id) && NonceKey(m[id].nonce) == NonceKey(s.nonce);
          NonceKeyInjective(m[id].nonce, s.nonce);
        }
        assert !IsReservation(m, NonceKey(s.nonce));
        assert s.id !in FreedNonces(m, m.Keys);
      }
    }
  }

  lemma PrunedRemembers(s: Store, kept: Journal, gone: set<string>, events: seq<Event>, clock: Time)
    requires Remembers(s.mem, events, clock) && Remembers(s.disk, events, clock)
    requires kept == Pruned(s.mem, s.mem.Keys, clock)
    requires gone == s.disk.Keys - kept.Keys
    ensures Remembers(kept, events + [Dropped(gone)], clock)
  {
    FoldLast(events, Dropped(gone));
    var next := events + [Dropped(gone)];
    forall i | 0 <= i < |next| && next[i].Started?
      ensures Guarded(kept, next[i], clock)
    {
      assert next[i] == events[i];
      assert Guarded(s.mem, events[i], clock);
    }
  }

  // ---------------------------------------------------------------------------------------------
  // Steps of the runtime keep the invariant
  // ---------------------------------------------------------------------------------------------

  /** What every activity leaves behind: a safe file, and a settled agent unless it is about to end. */
  ghost predicate Outcome(w: World, flow: Flow, signed: string -> Time) {
    && Safe(w, signed)
    && (flow == Dead ==> !w.up)
    && (flow == Fine || flow == ReportError ==> AtRest(w, signed))
  }

  lemma EventKeepsUploads(events: seq<Event>, e: Event)
    requires UploadsAgree(events) && UploadsGenuine(events)
    requires e.Uploaded? && e.id in LastUpload(events) ==> LastUpload(events)[e.id] == e.result
    requires e.Uploaded? ==> Genuine(events, e.id, e.result)
    ensures UploadsAgree(events + [e]) && UploadsGenuine(events + [e])
  {
    var next := events + [e];
    forall i | 0 <= i < |next| && next[i].Uploaded?
      ensures Genuine(next[..i], next[i].id, next[i].result)
      ensures var known := LastUpload(next[..i]); next[i].id in known ==> known[next[i].id] == next[i].result
    {
      if i < |events| {
        assert next[..i] == events[..i];
      } else {
        assert next[..i] == events;
      }
    }
  }

  lemma EventKeepsStarts(events: seq<Event>, e: Event, signed: string -> Time)
    requires StartedOnce(events) && NonceExclusive(events) && StartsSigned(events, signed)
    requires e.Started? ==> e.expiry == signed(e.id) && !IsNonceKey(e.id)
    requires e.Started? ==> forall i :: 0 <= i < |events| && events[i].Started? ==>
      events[i].id != e.id && (events[i].nonce == e.nonce ==> events[i].expiry < e.at)
    ensures StartedOnce(events + [e]) && NonceExclusive(events + [e]) && StartsSigned(events + [e], signed)
  {
  }

  lemma EventKeepsDurable(events: seq<Event>, e: Event)
    requires UploadsDurable(events)
    requires e.Uploaded? ==> DurableUpload(e)
    ensures UploadsDurable(events + [e])
  {
  }

  lemma EventKeepsHistory(events: seq<Event>, e: Event, signed: string -> Time)
    requires History(events, signed)
    requires e.Started? ==> e.expiry == signed(e.id) && !IsNonceKey(e.id)
    requires e.Started? ==> forall i :: 0 <= i < |events| && events[i].Started? ==>
      events[i].id != e.id && (events[i].nonce == e.nonce ==> events[i].expiry < e.at)
    requires e.Uploaded? ==> DurableUpload(e)
    requires e.Uploaded? && e.id in LastUpload(events) ==> LastUpload(events)[e.id] == e.result
    requires e.Uploaded? ==> Genuine(events, e.id, e.result)
    ensures History(events + [e], signed)
  {
    EventKeepsUploads(events, e);
    EventKeepsStarts(events, e, signed);
    EventKeepsDurable(events, e);
  }

  lemma SentKeeps(w: World, p: PendingResult, reached: bool, signed: string -> Time)
    requires AtRest(w, signed)
    requires IsPending(w.store.mem, p.commandID) && w.store.mem[p.commandID].result == Some(p.result)
    ensures AtRest(Sent(w, p, reached), signed)
    ensures reached ==> p.commandID !in Outstanding(Sent(w, p, reached).events)
  {
    var up := Uploaded(p.commandID, p.result, OnDisk(w, p.commandID), w.store.wrote);
    FoldLast(w.events, up);
    EventKeepsHistory(w.events, up, signed);
    var sent := w.events + [up];
    NewEventRemembered(w.store.mem, w.events, up, w.clock);
    NewEventRemembered(w.store.disk, w.events, up, w.clock);
    if reached {
      FoldLast(sent, ServerAccepted(p.commandID));
      EventKeepsHistory(sent, ServerAccepted(p.commandID), signed);
      NewEventRemembered(w.store.mem, sent, ServerAccepted(p.commandID), w.clock);
      NewEventRemembered(w.store.disk, sent, ServerAccepted(p.commandID), w.clock);
    }
  }

  lemma NewEventRemembered(m: Journal, events: seq<Event>, e: Event, clock: Time)
    requires Remembers(m, events, clock)
    requires e.Uploaded? || e.ServerAccepted? || e.Finished?
    requires e.Uploaded? ==> !IsNonceKey(e.id) && e.id in m && HoldsResult(Some(m[e.id]), e.result)
    ensures Remembers(m, events + [e], clock)
  {
    FoldLast(events, e);
    forall i | 0 <= i < |events + [e]| && (events + [e])[i].Started?
      ensures Guarded(m, (events + [e])[i], clock)
    {
      assert (events + [e])[i] == events[i];
    }
  }

  /** An acknowledgement, on memory and file alone. */
  lemma AckMoves(s: Store, id: string, o: SaveOutcome)
    requires Synced(s) && IsPending(s.mem, id) && Settled(s.mem, {})
    ensures var (t, status) := Ack(s, id, o);
      var next := s.mem[id := s.mem[id].(state := Acknowledged)];
      && status != Rejected && status != AlreadyStored
      && t.mem == (if o.Saved? then next else s.mem) && t.disk == (if o.Renamed() then next else s.disk)
      && (status != Died ==> Synced(t) && Settled(t.mem, {}))
      && forall k :: k != id && IsPending(s.mem, k) ==> IsPending(t.mem, k) && t.mem[k] == s.mem[k]
  {
  }

  lemma AckKeeps(w: World, id: string, o: SaveOutcome, signed: string -> Time)
    requires AtRest(w, signed) && IsPending(w.store.mem, id) && id !in Outstanding(w.events)
    ensures var (store, status) := Ack(w.store, id, o);
      && Safe(w.(store := store), signed)
      && status != Rejected && status != AlreadyStored
      && (status != Died ==> AtRest(w.(store := store), signed))
      && forall k :: k != id && IsPending(w.store.mem, k) ==> IsPending(store.mem, k) && store.mem[k] == w.store.mem[k]
  {
    AckMoves(w.store, id, o);
    AcknowledgedRemembers(w.store.mem, id, w.events, w.clock);
    var next := w.store.mem[id := w.store.mem[id].(state := Acknowledged)];
    assert Remembers(next, w.events, w.clock);
  }

  ghost predicate Deliverable(m: Journal, items: seq<PendingResult>) {
    && (forall i :: 0 <= i < |items| ==> IsPending(m, items[i].commandID) && m[items[i].commandID].result == Some(items[i].result))
    && forall i, j :: 0 <= i < j < |items| ==> items[i].commandID != items[j].commandID
  }

  lemma RestDeliverable(m: Journal, m': Journal, items: seq<PendingResult>)
    requires Deliverable(m, items) && items != []
    requires forall k :: k != items[0].commandID && IsPending(m, k) ==> IsPending(m', k) && m'[k] == m[k]
    ensures Deliverable(m', items[1..])
  {
    assert forall i :: 0 <= i < |items| - 1 ==> items[1..][i] == items[i + 1];
    forall i | 0 <= i < |items[1..]|
      ensures IsPending(m', items[1..][i].commandID) && m'[items[1..][i].commandID].result == Some(items[1..][i].result)
    {
      assert items[0].commandID != items[i + 1].commandID;
    }
  }

  /** The upload was confirmed: the acknowledgement keeps the rest deliverable. */
  lemma ConfirmedKeeps(w: World, items: seq<PendingResult>, o: SaveOutcome, signed: string -> Time)
    requires items != []
    requires AtRest(w, signed) && Deliverable(w.store.mem, items)
    ensures var w1 := Sent(w, items[0], true);
      var (store, status) := Ack(w1.store, items[0].commandID, o);
      && Safe(w1.(store := store), signed)
      && (status != Died ==> AtRest(w1.(store := store), signed))
      && status != Rejected && status != AlreadyStored
      && Deliverable(store.mem, items[1..])
  {
    SentKeeps(w, items[0], true, signed);
    var w1 := Sent(w, items[0], true);
    AckKeeps(w1, items[0].commandID, o, signed);
    var (store, status) := Ack(w1.store, items[0].commandID, o);
    RestDeliverable(w.store.mem, store.mem, items);
  }

  /** The upload was not confirmed: memory is as before. */
  lemma UnconfirmedKeeps(w: World, items: seq<PendingResult>, reached: bool, signed: string -> Time)
    requires items != [] && AtRest(w, signed) && Deliverable(w.store.mem, items)
    ensures AtRest(Sent(w, items[0], reached), signed)
    ensures Deliverable(Sent(w, items[0], reached).store.mem, items[1..])
  {
    SentKeeps(w, items[0], reached, signed);
    RestDeliverable(w.store.mem, w.store.mem, items);
  }

  /** How a flush ends: settled, or dead with a safe file. */
  ghost predicate Flushed(w: World, w': World, flow: Flow, signed: string -> Time) {
    (flow != Dead ==> AtRest(w', signed) && w'.up == w.up) && (flow == Dead ==> Safe(w', signed) && !w'.up)
  }

  /** A confirmed upload: the acknowledgement decides whether the flush goes on. */
  lemma FlushConfirmed(w: World, items: seq<PendingResult>, failed: bool, env: Environment)
    requires items != [] && env(w.step).upload.Accepted?
    ensures var w1 := Sent(Tick(w, env(w.step)), items[0], true);
      var (store, status) := Ack(w1.store, items[0].commandID, env(w.step).save);
      var w2 := w1.(store := store);
      FlushItems(w, items, failed, env) ==
        if status == Done then FlushItems(w2, items[1..], failed, env)
        else if status == Died then (Die(w2), Dead) else (w2, Fatal)
  {
  }

  lemma {:induction false} FlushConfirmedKeeps(w: World, items: seq<PendingResult>, failed: bool, env: Environment,
        signed: string -> Time)
    requires items != [] && env(w.step).upload.Accepted?
    requires AtRest(w, signed) && Deliverable(w.store.mem, items)
    ensures var (w', flow) := FlushItems(w, items, failed, env);
      Flushed(w, w', flow, signed)
    decreases |items|, 0
  {
    var c, p := env(w.step), items[0];
    var w1 := Tick(w, c);
    TickKeeps(w, c, signed);
    ConfirmedKeeps(w1, items, c.save, signed);
    FlushConfirmed(w, items, failed, env);
    var w2 := Sent(w1, p, true);
    var (store, status) := Ack(w2.store, p.commandID, c.save);
    var w3 := w2.(store := store);
    assert w3.up == w.up;
    if status == Done {
      FlushItemsKeeps(w3, items[1..], failed, env, signed);
    }
  }

  lemma {:induction false} FlushItemsKeeps(w: World, items: seq<PendingResult>, failed: bool, env: Environment,
        signed: string -> Time)
    requires AtRest(w, signed) && Deliverable(w.store.mem, items)
    ensures var (w', flow) := FlushItems(w, items, failed, env);
      Flushed(w, w', flow, signed)
    decreases |items|, 1
  {
    if items != [] {
      var c := env(w.step);
      var w1 := Tick(w, c);
      TickKeeps(w, c, signed);
      match c.upload
      case NotAttempted =>
      case DiedUploading(reached) => UnconfirmedKeeps(w1, items, reached, signed);
      case NotConfirmed(reached) =>
        UnconfirmedKeeps(w1, items, reached, signed);
        FlushItemsKeeps(Sent(w1, items[0], reached), items[1..], true, env, signed);
      case Accepted => FlushConfirmedKeeps(w, items, failed, env, signed);
    }
  }

  lemma OutboxDeliverable(m: Journal)
    ensures Deliverable(m, Outbox(m))
  {
    var ids := Lex.SortedSeq(PendingIDs(m));
    Lex.SortedSeqIsSorted(PendingIDs(m));
    var items := Outbox(m);
    forall i | 0 <= i < |items|
      ensures IsPending(m, items[i].commandID) && m[items[i].commandID].result == Some(items[i].result)
    {
      assert ids[i] in Elems(ids);
    }
    forall i, j | 0 <= i < j < |items|
      ensures items[i].commandID != items[j].commandID
    {
      Lex.LessTrichotomy(ids[i], ids[j]);
    }
  }

  lemma FlushKeeps(w: World, env: Environment, signed: string -> Time)
    requires AtRest(w, signed)
    ensures var (w', flow) := Flush(w, env);
      Outcome(w', flow, signed) && (flow != Dead ==> AtRest(w', signed) && w'.up == w.up)
  {
    OutboxDeliverable(w.store.mem);
    FlushItemsKeeps(w, Outbox(w.store.mem), false, env, signed);
  }

  /** Before a refusal or a result is stored for `id`: nothing else is open, and the file is current. */
  ghost predicate ReadyFor(w: World, id: string, signed: string -> Time) {
    && Live(w, signed) && Settled(w.store.mem, {id})
    && (Synced(w.store) || !HasStoredResult(EntryOf(w.store.mem, id)))
  }

  /** Storing this result for `id`, if nothing is stored yet, would not misreport a process. */
  ghost predicate Honest(w: World, id: string, result: CommandResult) {
    HasStoredResult(EntryOf(w.store.mem, id)) || Genuine(w.events, id, result)
  }

  lemma RestIsHonest(w: World, id: string, result: CommandResult, signed: string -> Time)
    requires AtRest(w, signed)
    ensures Honest(w, id, result)
  {
  }

  lemma {:induction false} NeverStarted(events: seq<Event>, id: string)
    requires forall i :: 0 <= i < |events| && events[i].Started? ==> events[i].id != id
    ensures id !in Finishes(events)
    decreases |events|
  {
    if events != [] {
      NeverStarted(events[..|events| - 1], id);
    }
  }

  lemma CompleteKeeps(w: World, id: string, expiry: Time, result: CommandResult, o: SaveOutcome, signed: string -> Time)
    requires ReadyFor(w, id, signed) && Honest(w, id, result)
    ensures var (store, status) := Complete(w.store, id, expiry, w.clock, result, o);
      && Safe(w.(store := store), signed)
      && (status == Done || status == AlreadyStored ==> AtRest(w.(store := store), signed))
      && (status == AlreadyStored ==> HasStoredResult(EntryOf(w.store.mem, id)))
  {
    if !HasStoredResult(EntryOf(w.store.mem, id)) {
      ResultRemembers(w.store.mem, id, expiry, w.clock, result, w.events, w.clock);
    }
  }

  lemma QueueResultKeeps(w: World, id: string, expiry: Time, result: CommandResult, env: Environment,
        signed: string -> Time)
    requires ReadyFor(w, id, signed) && Honest(w, id, result)
    ensures var (w', flow) := QueueResult(w, id, expiry, result, env);
      Outcome(w', flow, signed) && (flow != Dead ==> w'.up == w.up)
  {
    var c := env(w.step);
    var w1 := Tick(w, c);
    TickKeeps(w, c, signed);
    CompleteKeeps(w1, id, expiry, result, c.save, signed);
    var (store, status) := Complete(w1.store, id, expiry, w1.clock, result, c.save);
    var w2 := w1.(store := store);
    if status == Done || status == AlreadyStored {
      FlushKeeps(w2, env, signed);
      assert QueueResult(w, id, expiry, result, env) == Flush(w2, env);
    }
  }

  lemma RequeueKeeps(w: World, id: string, o: SaveOutcome, signed: string -> Time)
    requires AtRest(w, signed)
    ensures var (store, status) := Requeue(w.store, id, o);
      && Safe(w.(store := store), signed)
      && (status == Done ==> AtRest(w.(store := store), signed))
  {
    if Requeueable(w.store.mem, id) {
      RequeuedRemembers(w.store.mem, id, w.events, w.clock);
    }
  }

  lemma RedeliveredKeeps(w: World, id: string, save: SaveOutcome, env: Environment, signed: string -> Time)
    requires AtRest(w, signed)
    ensures var (w', flow) := Redelivered(w, id, save, env);
      Outcome(w', flow, signed) && (flow != Dead ==> w'.up == w.up)
  {
    RequeueKeeps(w, id, save, signed);
    var (store, status) := Requeue(w.store, id, save);
    var w1 := w.(store := store);
    if status == Done {
      FlushKeeps(w1, env, signed);
      assert Redelivered(w, id, save, env) == Flush(w1, env);
    }
  }

  /** A command that passed every gate has never been started, and its nonce is free. */
  ghost predicate Fresh(w: World, id: string, nonce: string, expiry: Time, signed: string -> Time) {
    && !IsNonceKey(id) && expiry == signed(id)
    && forall i :: 0 <= i < |w.events| && w.events[i].Started? ==>
      w.events[i].id != id && (w.events[i].nonce == nonce ==> w.events[i].expiry < w.clock)
  }

  lemma AdmittedIsFresh(w: World, cmd: Command, signed: string -> Time)
    requires AtRest(w, signed)
    requires !IsNonceKey(cmd.id)
    requires cmd.expiresAt.Some? ==> cmd.expiresAt.value == signed(cmd.id)
    requires Gate(w.store.mem, cmd, w.clock).Admit?
    ensures Fresh(w, cmd.id, cmd.nonce, Gate(w.store.mem, cmd, w.clock).expiry, signed)
  {
    forall i | 0 <= i < |w.events| && w.events[i].Started?
      ensures w.events[i].id != cmd.id && (w.events[i].nonce == cmd.nonce ==> w.events[i].expiry < w.clock)
    {
      assert Guarded(w.store.mem, w.events[i], w.clock);
    }
  }

  lemma StartKeeps(w: World, id: string, nonce: string, expiry: Time, envelope: Envelope, admittedAt: Time,
        signed: string -> Time)
    requires Live(w, signed) && w.store.mem == w.store.disk && Settled(w.store.mem, {id})
    requires id in w.store.mem && w.store.mem[id].state.Executing? && w.store.mem[id].expiry == expiry
    requires NonceKey(nonce) in w.store.mem && w.store.mem[NonceKey(nonce)].expiry == expiry
    requires Fresh(w, id, nonce, expiry, signed)
    requires w.store.mem[id].result.None?
    ensures ReadyFor(w.(events := w.events + [Started(id, nonce, envelope, expiry, admittedAt, w.clock)]), id, signed)
    ensures id in Finishes(w.events + [Started(id, nonce, envelope, expiry, admittedAt, w.clock)])
  {
    var e := Started(id, nonce, envelope, expiry, admittedAt, w.clock);
    var next := w.events + [e];
    EventKeepsHistory(w.events, e, signed);
    FoldLast(w.events, e);
    forall i | 0 <= i < |next| && next[i].Started?
      ensures Guarded(w.store.mem, next[i], w.clock)
    {
      if i < |w.events| {
        assert Guarded(w.store.mem, w.events[i], w.clock);
      }
    }
  }

  /** The process has returned: nothing else changes. */
  lemma FinishKeeps(w: World, id: string, result: CommandResult, signed: string -> Time)
    requires ReadyFor(w, id, signed)
    ensures var w' := w.(events := w.events + [Finished(id, result)]);
      ReadyFor(w', id, signed) && Honest(w', id, result)
  {
    var e := Finished(id, result);
    FoldLast(w.events, e);
    EventKeepsHistory(w.events, e, signed);
    NewEventRemembered(w.store.mem, w.events, e, w.clock);
    NewEventRemembered(w.store.disk, w.events, e, w.clock);
  }

  /** From the return of the process on: store its result and report. */
  lemma ReturnKeeps(w: World, id: string, expiry: Time, result: CommandResult, o: SaveOutcome, env: Environment,
        signed: string -> Time)
    requires ReadyFor(w, id, signed)
    ensures var w1 := w.(events := w.events + [Finished(id, result)]);
      var (store, status) := Complete(w1.store, id, expiry, w1.clock, result, o);
      var w2 := w1.(store := store);
      && Safe(w2, signed)
      && (status == AlreadyStored ==> HasStoredResult(EntryOf(w.store.mem, id)))
      && (status == Done ==>
            var (w', flow) := Flush(w2, env);
            Outcome(w', flow, signed) && (flow != Dead ==> w'.up == w.up))
  {
    FinishKeeps(w, id, result, signed);
    var w1 := w.(events := w.events + [Finished(id, result)]);
    CompleteKeeps(w1, id, expiry, result, o, signed);
    var (store, status) := Complete(w1.store, id, expiry, w1.clock, result, o);
    if status == Done {
      FlushKeeps(w1.(store := store), env, signed);
    }
  }

  lemma RunProcessKeeps(w: World, id: string, nonce: string, expiry: Time, envelope: Envelope, admittedAt: Time,
        env: Environment, signed: string -> Time)
    requires Live(w, signed) && w.store.mem == w.store.disk && Settled(w.store.mem, {id})
    requires id in w.store.mem && w.store.mem[id].state.Executing? && w.store.mem[id].expiry == expiry
    requires NonceKey(nonce) in w.store.mem && w.store.mem[NonceKey(nonce)].expiry == expiry
    requires w.store.mem[id].result.None? && Fresh(w, id, nonce, expiry, signed)
    ensures var (w', flow) := RunProcess(w, id, nonce, expiry, envelope, admittedAt, env);
      Outcome(w', flow, signed) && (flow != Dead ==> w'.up == w.up)
  {
    StartKeeps(w, id, nonce, expiry, envelope, admittedAt, signed);
    var w1 := w.(events := w.events + [Started(id, nonce, envelope, expiry, admittedAt, w.clock)]);
    var c := env(w1.step);
    var w2 := Tick(w1, c);
    TickKeeps(w1, c, signed);
    if c.run.Some? {
      ReturnKeeps(w2, id, expiry, c.run.value, c.save, env, signed);
    }
  }

  /** The entry of a command that has been reserved, and its replay key. */
  ghost predicate IsReserved(m: Journal, id: string, nonce: string, expiry: Time) {
    && id in m && m[id] == Entry(expiry, nonce, Reserved, None)
    && NonceKey(nonce) in m && m[NonceKey(nonce)].expiry == expiry && NonceKey(nonce) != id
  }

  lemma MarkKeeps(w: World, id: string, nonce: string, expiry: Time, o: SaveOutcome, signed: string -> Time)
    requires Live(w, signed) && w.store.mem == w.store.disk && Settled(w.store.mem, {id})
    requires IsReserved(w.store.mem, id, nonce, expiry) && Fresh(w, id, nonce, expiry, signed)
    ensures var (store, status) := Mark(w.store, id, o);
      var w1 := w.(store := store);
      && Safe(w1, signed) && status != Rejected && status != AlreadyStored
      && (status == SaveFailed ==> ReadyFor(w1, id, signed))
      && (status == Done ==>
            && Live(w1, signed) && store.mem == store.disk && Settled(store.mem, {id})
            && id in store.mem && store.mem[id] == Entry(expiry, nonce, Executing, None)
            && NonceKey(nonce) in store.mem && store.mem[NonceKey(nonce)].expiry == expiry)
  {
    MarkRemembers(w.store.mem, id, w.events, w.clock);
  }

  lemma ExecuteReservedKeeps(w: World, id: string, nonce: string, expiry: Time, envelope: Envelope, admittedAt: Time,
        env: Environment, signed: string -> Time)
    requires Live(w, signed) && w.store.mem == w.store.disk && Settled(w.store.mem, {id})
    requires IsReserved(w.store.mem, id, nonce, expiry) && Fresh(w, id, nonce, expiry, signed)
    ensures var (w', flow) := ExecuteReserved(w, id, nonce, expiry, envelope, admittedAt, env);
      Outcome(w', flow, signed) && (flow != Dead ==> w'.up == w.up)
  {
    var c := env(w.step);
    var w1 := Tick(w, c);
    TickKeeps(w, c, signed);
    MarkKeeps(w1, id, nonce, expiry, c.save, signed);
    var (store, status) := Mark(w1.store, id, c.save);
    var w2 := w1.(store := store);
    if status == Done {
      RunProcessKeeps(w2, id, nonce, expiry, envelope, admittedAt, env, signed);
      assert ExecuteReserved(w, id, nonce, expiry, envelope, admittedAt, env) == RunProcess(w2, id, nonce, expiry, envelope, admittedAt, env);
    } else if status == SaveFailed {
      NeverStarted(w2.events, id);
      QueueResultKeeps(w2, id, expiry, NOT_MARKED, env, signed);
    }
  }

  lemma ReserveKeeps(w: World, id: string, nonce: string, expiry: Time, o: SaveOutcome, signed: string -> Time)
    requires AtRest(w, signed) && !IsNonceKey(id)
    requires id !in w.store.mem && NonceKey(nonce) !in w.store.mem
    ensures var (store, status) := Reserve(w.store, id, nonce, expiry, o);
      var w1 := w.(store := store);
      && Safe(w1, signed) && status != Rejected && status != AlreadyStored
      && (status == SaveFailed ==> ReadyFor(w1, id, signed))
      && (status == Done ==>
            && Live(w1, signed) && store.mem == store.disk && Settled(store.mem, {id})
            && IsReserved(store.mem, id, nonce, expiry))
  {
    ReservationRemembers(w.store.mem, id, nonce, expiry, w.events, w.clock);
    assert IsNonceKey(NonceKey(nonce));
  }

  lemma ExecuteKeeps(w: World, id: string, nonce: string, expiry: Time, envelope: Envelope, save: SaveOutcome,
        env: Environment, signed: string -> Time)
    requires AtRest(w, signed) && Fresh(w, id, nonce, expiry, signed)
    requires id !in w.store.mem && NonceKey(nonce) !in w.store.mem
    ensures var (w', flow) := Execute(w, id, nonce, expiry, envelope, save, env);
      Outcome(w', flow, signed) && (flow != Dead ==> w'.up == w.up)
  {
    ReserveKeeps(w, id, nonce, expiry, save, signed);
    var (store, status) := Reserve(w.store, id, nonce, expiry, save);
    var w1 := w.(store := store);
    if status == Done {
      ExecuteReservedKeeps(w1, id, nonce, expiry, envelope, w1.clock, env, signed);
      assert Execute(w, id, nonce, expiry, envelope, save, env) == ExecuteReserved(w1, id, nonce, expiry, envelope, w1.clock, env);
    } else if status == SaveFailed {
      NeverStarted(w1.events, id);
      QueueResultKeeps(w1, id, expiry, NOT_RESERVED, env, signed);
    }
  }

  /** The assumptions on commands that verify: no ID looks like a replay key, and one signed expiry per ID. */
  ghost predicate Lawful(cmd: Command, signed: string -> Time) {
    cmd.authentic ==>
      !IsNonceKey(cmd.id) && (cmd.expiresAt.Some? ==> cmd.expiresAt.value == signed(cmd.id))
  }

  lemma ProcessCommandKeeps(w: World, cmd: Command, env: Environment, signed: string -> Time)
    requires AtRest(w, signed) && Lawful(cmd, signed)
    ensures var (w', flow) := ProcessCommand(w, cmd, env);
      Outcome(w', flow, signed) && (flow != Dead ==> w'.up == w.up)
  {
    var c := env(w.step);
    var w1 := Tick(w, c);
    TickKeeps(w, c, signed);
    match Gate(w1.store.mem, cmd, w1.clock)
    case Refuse(expiry, result) =>
      RestIsHonest(w1, cmd.id, result, signed);
      QueueResultKeeps(w1, cmd.id, expiry, result, env, signed);
    case Replay => RedeliveredKeeps(w1, cmd.id, c.save, env, signed);
    case Admit(expiry) =>
      AdmittedIsFresh(w1, cmd, signed);
      ExecuteKeeps(w1, cmd.id, cmd.nonce, expiry, cmd.envelope, c.save, env, signed);
  }

  lemma {:induction false} ProcessBatchKeeps(w: World, commands: seq<Command>, first: Flow, env: Environment,
        signed: string -> Time)
    requires AtRest(w, signed) && forall i :: 0 <= i < |commands| ==> Lawful(commands[i], signed)
    ensures var (w', end) := ProcessBatch(w, commands, first, env);
      match end
      case Drained(_) => AtRest(w', signed) && w'.up == w.up
      case Returned(flow) => (flow == Fatal || flow == Dead) && Outcome(w', flow, signed)
    decreases |commands|
  {
    if commands != [] {
      ProcessCommandKeeps(w, commands[0], env, signed);
      var (w1, flow) := ProcessCommand(w, commands[0], env);
      if flow != Fatal && flow != Dead {
        TickKeeps(w1, env(w1.step), signed);
        ProcessBatchKeeps(Tick(w1, env(w1.step)), commands[1..], First(first, flow), env, signed);
      }
    }
  }

  lemma PruneAndSaveKeeps(w: World, o: SaveOutcome, signed: string -> Time)
    requires AtRest(w, signed)
    ensures var (store, status) := PruneAndSave(w.store, w.clock, o);
      var w' := RecordDrop(w.(store := store), w.store.disk);
      Safe(w', signed) && (status == Done ==> AtRest(w', signed)) && status != Rejected && status != AlreadyStored
  {
    var s := w.store;
    var kept := Pruned(s.mem, s.mem.Keys, w.clock);
    var (store, status) := PruneAndSave(s, w.clock, o);
    var gone := s.disk.Keys - store.disk.Keys;
    EventKeepsHistory(w.events, Dropped(gone), signed);
    if kept != s.mem && o.Renamed() {
      PrunedRemembers(s, kept, gone, w.events, w.clock);
    } else {
      assert gone == {};
      UnchangedRemembers(s.disk, w.events, w.clock);
      UnchangedRemembers(s.mem, w.events, w.clock);
    }
  }

  lemma PruneStepKeeps(w: World, env: Environment, signed: string -> Time)
    requires AtRest(w, signed)
    ensures var (w', flow) := PruneStep(w, env);
      Outcome(w', flow, signed) && (flow != Dead ==> w'.up == w.up)
  {
    var c := env(w.step);
    TickKeeps(w, c, signed);
    PruneAndSaveKeeps(Tick(w, c), c.save, signed);
  }

  lemma UnchangedRemembers(m: Journal, events: seq<Event>, clock: Time)
    requires Remembers(m, events, clock)
    ensures Remembers(m, events + [Dropped({})], clock)
  {
    FoldLast(events, Dropped({}));
    forall i | 0 <= i < |events + [Dropped({})]| && (events + [Dropped({})])[i].Started?
      ensures Guarded(m, (events + [Dropped({})])[i], clock)
    {
      assert (events + [Dropped({})])[i] == events[i];
    }
  }

  lemma LoadSessionKeeps(w: World, env: Environment, signed: string -> Time)
    requires Invariant(w, signed) && !w.up
    ensures Invariant(LoadSession(w, env), signed)
  {
    var c := env(w.step);
    var w1 := Tick(w, c);
    TickKeeps(w, c, signed);
    var read := Store(w1.store.disk, w1.store.disk, NoWrite);
    RecoveredRemembers(read.mem, w1.events, w1.clock, signed);
    var (store, status) := Recover(read, c.save);
    if status == Done {
      PruneStepKeeps(w1.(store := store), env, signed);
    }
  }

  lemma HandleAnswerKeeps(w: World, commands: seq<Command>, monitoring: Flow, routed: bool, env: Environment,
        signed: string -> Time)
    requires AtRest(w, signed) && forall i :: 0 <= i < |commands| ==> Lawful(commands[i], signed)
    ensures var (w', flow) := HandleAnswer(w, commands, monitoring, routed, env);
      Safe(w', signed) && (flow == Fine || flow == ReportError ==> AtRest(w', signed))
  {
    FlushKeeps(w, env, signed);
    var (w1, flushed) := Flush(w, env);
    var first := if flushed == Fine then monitoring else flushed;
    if flushed != Dead && routed && commands != [] {
      ProcessBatchKeeps(w1, commands, first, env, signed);
      var (w2, end) := ProcessBatch(w1, commands, first, env);
      if end.Drained? {
        FlushKeeps(w2, env, signed);
      }
    }
  }

  ghost predicate LawfulActivity(a: Activity, signed: string -> Time) {
    a.Beats? && a.beat.Answered? ==>
      var commands := Judged(a.beat.deliveries, a.beat.trust);
      forall i :: 0 <= i < |commands| ==> Lawful(commands[i], signed)
  }

  lemma BeatenKeeps(w: World, beat: Beat, env: Environment, signed: string -> Time)
    requires AtRest(w, signed) && LawfulActivity(Beats(beat), signed)
    ensures var (w', flow) := Beaten(w, beat, env);
      Safe(w', signed) && (flow == Fine || flow == ReportError ==> AtRest(w', signed))
  {
    if beat.Answered? {
      HandleAnswerKeeps(w, Judged(beat.deliveries, beat.trust), beat.monitoring, beat.routed, env, signed);
    }
  }

  lemma CheckInKeeps(w: World, beat: Beat, env: Environment, signed: string -> Time)
    requires AtRest(w, signed) && LawfulActivity(Beats(beat), signed)
    ensures var (w', flow) := CheckIn(w, beat, env);
      Safe(w', signed) && (flow == Fine || flow == ReportError ==> AtRest(w', signed))
  {
    if !beat.Abandoned? {
      PruneStepKeeps(w, env, signed);
      var (w1, flow) := PruneStep(w, env);
      if flow == Fine {
        BeatenKeeps(w1, beat, env, signed);
      }
    }
  }

  lemma ActKeeps(w: World, a: Activity, env: Environment, signed: string -> Time)
    requires Invariant(w, signed) && LawfulActivity(a, signed)
    ensures Invariant(Act(w, a, env), signed)
  {
    match a
    case PowerLoss =>
    case Boot =>
      if !w.up {
        LoadSessionKeeps(w, env, signed);
      }
    case Beats(beat) =>
      if w.up {
        CheckInKeeps(w, beat, env, signed);
      }
  }

  // ---------------------------------------------------------------------------------------------
  // The theorems
  // ---------------------------------------------------------------------------------------------

  ghost predicate LawfulRun(activities: seq<Activity>, signed: string -> Time) {
    forall i :: 0 <= i < |activities| ==> LawfulActivity(activities[i], signed)
  }

  lemma {:induction false} RunKeepsInvariant(disk: Journal, clock: Time, activities: seq<Activity>, env: Environment,
        signed: string -> Time)
    requires clock > ZERO_TIME && WellFormed(disk)
    requires LawfulRun(activities, signed)
    ensures Invariant(Run(FirstBoot(disk, clock), activities, env), signed)
    decreases |activities|
  {
    if activities != [] {
      var n := |activities| - 1;
      RunKeepsInvariant(disk, clock, activities[..n], env, signed);
      ActKeeps(Run(FirstBoot(disk, clock), activities[..n], env), activities[n], env, signed);
    }
  }

  ghost predicate Initial(disk: Journal, clock: Time) {
    clock > ZERO_TIME && WellFormed(disk)
  }

  function RunEvents(disk: Journal, clock: Time, activities: seq<Activity>, env: Environment): seq<Event> {
    Run(FirstBoot(disk, clock), activities, env).events
  }

  /**
   At-most-once execution.  Over every run, no command ID is started twice: not across save failures,
   crashes or restarts, and not after its entry is pruned.  Within the signed window of a started
   command no other command with its nonce is started.
   */
  lemma AtMostOnce(disk: Journal, clock: Time, activities: seq<Activity>, env: Environment, signed: string -> Time)
    requires Initial(disk, clock) && LawfulRun(activities, signed)
    ensures var events := RunEvents(disk, clock, activities, env);
      forall i, j :: 0 <= i < j < |events| && events[i].Started? && events[j].Started? ==>
        && events[i].id != events[j].id
        && (events[i].nonce == events[j].nonce ==> events[i].expiry < events[j].at)
  {
    RunKeepsInvariant(disk, clock, activities, env, signed);
  }

  /** Two uploads for one ID with no pruning of that ID from the file between them. */
  ghost predicate SameEntryUploads(events: seq<Event>, i: int, j: int)
    requires 0 <= i < j < |events|
  {
    && events[i].Uploaded? && events[j].Uploaded? && events[i].id == events[j].id
    && forall k :: i < k < j && events[k].Dropped? ==> events[i].id !in events[k].ids
  }

  lemma {:induction false} LastUploadStays(events: seq<Event>, i: nat, j: nat)
    requires i < j <= |events| && events[i].Uploaded?
    requires UploadsAgree(events)
    requires forall k :: i < k < j && events[k].Dropped? ==> events[i].id !in events[k].ids
    ensures events[i].id in LastUpload(events[..j]) && LastUpload(events[..j])[events[i].id] == events[i].result
    decreases j - i
  {
    assert events[..j] == events[..j - 1] + [events[j - 1]];
    FoldLast(events[..j - 1], events[j - 1]);
    if i < j - 1 {
      LastUploadStays(events, i, j - 1);
    }
  }

  /**
   The outbox never lies and never changes its mind.  Every upload carries what the file holds, at
   that moment, as the retained result of that ID; and as long as the file has not dropped the ID in
   between, any two uploads for it are identical.
   */
  lemma UploadsAreDurableAndIdentical(disk: Journal, clock: Time, activities: seq<Activity>, env: Environment,
        signed: string -> Time)
    requires Initial(disk, clock) && LawfulRun(activities, signed)
    ensures var events := RunEvents(disk, clock, activities, env);
      && (forall i :: 0 <= i < |events| && events[i].Uploaded? ==> HoldsResult(events[i].onDisk, events[i].result))
      && (forall i, j :: 0 <= i < j < |events| && SameEntryUploads(events, i, j) ==>
            events[i].result == events[j].result)
  {
    RunKeepsInvariant(disk, clock, activities, env, signed);
    var events := RunEvents(disk, clock, activities, env);
    forall i, j | 0 <= i < j < |events| && SameEntryUploads(events, i, j)
      ensures events[i].result == events[j].result
    {
      LastUploadStays(events, i, j);
    }
  }

  /**
   Over every run an upload is in the file as result_pending, except exactly when the last save of the session
   that took effect was the acknowledgement of that very ID and its save reported failure: then memory was
   rolled back and the file already calls the result acknowledged.
   */
  lemma UploadsArePendingOnDisk(disk: Journal, clock: Time, activities: seq<Activity>, env: Environment,
        signed: string -> Time, i: nat)
    requires Initial(disk, clock) && LawfulRun(activities, signed)
    requires i < |RunEvents(disk, clock, activities, env)| && RunEvents(disk, clock, activities, env)[i].Uploaded?
    ensures var e := RunEvents(disk, clock, activities, env)[i];
      && HoldsResult(e.onDisk, e.result)
      && (e.onDisk.value.state.ResultPending? <==> e.wrote != LateAcknowledgement(e.id))
  {
    RunKeepsInvariant(disk, clock, activities, env, signed);
    assert DurableUpload(RunEvents(disk, clock, activities, env)[i]);
  }

  /** What the process of a command returned between two points of a history. */
  ghost predicate Returned(events: seq<Event>, i: int, j: int, id: string, result: CommandResult)
    requires 0 <= i <= j <= |events|
  {
    exists k :: i <= k < j && events[k] == Finished(id, result)
  }

  lemma {:induction false} FinishesStay(events: seq<Event>, i: nat, j: nat)
    requires i < j <= |events| && events[i].Started?
    requires forall k :: i < k < j && events[k].Dropped? ==> events[i].id !in events[k].ids
    requires forall k :: i < k < j && events[k].Started? ==> events[k].id != events[i].id
    ensures var known := Finishes(events[..j]);
      && events[i].id in known
      && forall r :: r in known[events[i].id] ==> Returned(events, i, j, events[i].id, r)
    decreases j - i
  {
    var id := events[i].id;
    assert events[..j] == events[..j - 1] + [events[j - 1]];
    FoldLast(events[..j - 1], events[j - 1]);
    if i < j - 1 {
      FinishesStay(events, i, j - 1);
      var before, known := Finishes(events[..j - 1]), Finishes(events[..j]);
      assert id in before && id in known;
      forall r | r in known[id]
        ensures Returned(events, i, j, id, r)
      {
        if r in before[id] {
          var k :| i <= k < j - 1 && events[k] == Finished(id, r);
          assert events[k] == Finished(id, r);
        } else {
          assert events[j - 1] == Finished(id, r);
        }
      }
    }
  }

  /**
   What is reported is what happened.  As long as the file has not dropped the ID of a started command,
   every upload for it carries the result its process returned after that start, or the
   unknown-outcome record; never a refusal, and never another command's output.
   */
  lemma UploadsAreGenuine(disk: Journal, clock: Time, activities: seq<Activity>, env: Environment,
        signed: string -> Time, i: nat, j: nat)
    requires Initial(disk, clock) && LawfulRun(activities, signed)
    requires var events := RunEvents(disk, clock, activities, env);
      && i < j < |events| && events[i].Started? && events[j].Uploaded? && events[j].id == events[i].id
      && forall k :: i < k < j && events[k].Dropped? ==> events[i].id !in events[k].ids
    ensures var events := RunEvents(disk, clock, activities, env);
      events[j].result == UNKNOWN_OUTCOME || Returned(events, i, j, events[i].id, events[j].result)
  {
    RunKeepsInvariant(disk, clock, activities, env, signed);
    var events := RunEvents(disk, clock, activities, env);
    FinishesStay(events, i, j);
  }

  lemma {:induction false} OutstandingStays(events: seq<Event>, i: nat, j: nat)
    requires i < j <= |events| && events[i].Started?
    requires forall k :: i < k < j ==> events[k] != ServerAccepted(events[i].id)
    ensures events[i].id in Outstanding(events[..j])
    decreases j - i
  {
    assert events[..j] == events[..j - 1] + [events[j - 1]];
    FoldLast(events[..j - 1], events[j - 1]);
    if i < j - 1 {
      OutstandingStays(events, i, j - 1);
    }
  }

  /**
   Nothing that ran is forgotten.  Until the server accepts its result, a started command is in the
   file as executing or with its result, however long past its expiry; and whenever the agent is
   up and between activities, that result is in the outbox.
   */
  lemma StartedCommandsAreRetained(disk: Journal, clock: Time, activities: seq<Activity>, env: Environment,
        signed: string -> Time, i: nat)
    requires Initial(disk, clock) && LawfulRun(activities, signed)
    requires var events := RunEvents(disk, clock, activities, env);
      && i < |events| && events[i].Started?
      && forall k :: i < k < |events| ==> events[k] != ServerAccepted(events[i].id)
    ensures var w := Run(FirstBoot(disk, clock), activities, env);
      var id := w.events[i].id;
      && id in w.store.disk && (w.store.disk[id].state.Executing? || w.store.disk[id].state.ResultPending?)
      && (w.up ==> exists n :: 0 <= n < |Outbox(w.store.mem)| && Outbox(w.store.mem)[n].commandID == id)
  {
    RunKeepsInvariant(disk, clock, activities, env, signed);
    var w := Run(FirstBoot(disk, clock), activities, env);
    assert w.events[..|w.events|] == w.events;
    OutstandingStays(w.events, i, |w.events|);
    var id := w.events[i].id;
    if w.up {
      assert IsPending(w.store.mem, id);
      var ids := Lex.SortedSeq(PendingIDs(w.store.mem));
      assert id in Elems(ids);
      var n :| 0 <= n < |ids| && ids[n] == id;
      assert Outbox(w.store.mem)[n].commandID == id;
    }
  }

  // ---------------------------------------------------------------------------------------------
  // Sharpness
  // ---------------------------------------------------------------------------------------------

  lemma OutboxOfOne(m: Journal, id: string)
    requires PendingIDs(m) == {id}
    ensures Outbox(m) == [PendingResult(id, m[id].result.value)]
  {
    Lex.SortedSeqUnique([id], {id});
  }

  /** A journal with one pending result, as a stop before its upload leaves it. */
  function OnePending(id: string, result: CommandResult): Journal {
    map[id := Entry(9, "n", ResultPending, Some(result))]
  }

  /** Every upload is confirmed, and every save takes effect and reports failure. */
  function LateSaves(): Environment {
    _ => Choice(0, FailedAfterRename, Accepted, None, false)
  }

  lemma BootWithOnePending(id: string, result: CommandResult)
    requires !IsNonceKey(id)
    ensures var m := OnePending(id, result);
      Run(FirstBoot(m, 3), [Boot], LateSaves()) == World(Store(m, m, NoWrite), true, 3, 2, [Dropped({})])
  {
    var m := OnePending(id, result);
    assert [Boot][..0] == [];
    assert Run(FirstBoot(m, 3), [], LateSaves()) == FirstBoot(m, 3);
    assert !NeedsRecovery(m, m.Keys);
    assert Pruned(m, m.Keys, 3) == m;
    assert m.Keys - m.Keys == {};
  }

  /** The first flush of a check-in: the result is uploaded, and the acknowledgement takes effect too late. */
  lemma LateFlush(w: World, id: string, result: CommandResult)
    requires w.store == Store(OnePending(id, result), OnePending(id, result), NoWrite) && !IsNonceKey(id)
    ensures var m := OnePending(id, result);
      var (w', flow) := Flush(w, LateSaves());
      && flow == Fatal && w'.up == w.up && w'.clock == w.clock
      && w'.store == Store(m, m[id := m[id].(state := Acknowledged)], LateAcknowledgement(id))
      && w'.events == w.events + [Uploaded(id, result, Some(m[id]), NoWrite), ServerAccepted(id)]
  {
    var m := OnePending(id, result);
    assert PendingIDs(m) == {id};
    OutboxOfOne(m, id);
  }

  /** The next flush uploads a result that the file calls acknowledged. */
  lemma FlushAfterALateOne(w: World, id: string, result: CommandResult)
    requires !IsNonceKey(id)
    requires w.store.mem == OnePending(id, result) && OnDisk(w, id) == Some(w.store.mem[id].(state := Acknowledged))
    ensures var e := Uploaded(id, result, OnDisk(w, id), w.store.wrote);
      w.events + [e] <= Flush(w, LateSaves()).0.events && Flush(w, LateSaves()).0.up == w.up
  {
    assert PendingIDs(w.store.mem) == {id};
    OutboxOfOne(w.store.mem, id);
  }

  /** Nothing can be pruned from one pending result. */
  lemma PruneOnePending(w: World, id: string, result: CommandResult)
    requires w.store.mem == OnePending(id, result)
    ensures var (w', flow) := PruneStep(w, LateSaves());
      flow == Fine && w'.store == w.store && w'.clock == w.clock && w'.up == w.up && w'.events == w.events + [Dropped({})]
  {
    assert Pruned(w.store.mem, w.store.mem.Keys, w.clock) == w.store.mem;
    assert w.store.disk.Keys - w.store.disk.Keys == {};
  }

  /** An upload of a result that the file calls acknowledged. */
  ghost predicate AcknowledgedUpload(e: Event, id: string, result: CommandResult) {
    e.Uploaded? && e.id == id && e.result == result && e.onDisk.Some? && e.onDisk.value.state.Acknowledged?
  }

  lemma FirstBeat(w: World, id: string, result: CommandResult)
    requires w.store == Store(OnePending(id, result), OnePending(id, result), NoWrite) && !IsNonceKey(id)
    ensures var m := OnePending(id, result);
      var w1 := PruneStep(w, LateSaves()).0;
      var (w2, flow) := Flush(w1, LateSaves());
      && PruneStep(w, LateSaves()).1 == Fine && flow == Fatal && w2.up == w.up && w2.clock == w.clock
      && w2.store == Store(m, m[id := m[id].(state := Acknowledged)], LateAcknowledgement(id))
      && |w2.events| == |w.events| + 3
  {
    PruneOnePending(w, id, result);
    LateFlush(PruneStep(w, LateSaves()).0, id, result);
  }

  /** A command with this ID that passes the gates before the replay check. */
  predicate Redelivers(cmd: Command, id: string, now: Time) {
    cmd.id == id && cmd.forThisAgent && cmd.keyKnown && cmd.authentic && Window(cmd.issuedAt, cmd.expiresAt, now).Some?
  }

  lemma RedeliveryAfterALateFlush(w: World, id: string, result: CommandResult, cmd: Command)
    requires !IsNonceKey(id) && Redelivers(cmd, id, w.clock)
    requires w.store.mem == OnePending(id, result) && OnDisk(w, id) == Some(w.store.mem[id].(state := Acknowledged))
    ensures var e := Uploaded(id, result, OnDisk(w, id), w.store.wrote);
      w.events + [e] <= ProcessCommand(w, cmd, LateSaves()).0.events
  {
    var env := LateSaves();
    var w1 := Tick(w, env(w.step));
    assert Gate(w1.store.mem, cmd, w1.clock) == Replay;
    assert !Requeueable(w1.store.mem, id);
    assert ProcessCommand(w, cmd, env) == Flush(w1, env);
    FlushAfterALateOne(w1, id, result);
  }

  lemma SecondUploadOfTheBeat(w: World, id: string, result: CommandResult, cmd: Command)
    requires w.store == Store(OnePending(id, result), OnePending(id, result), NoWrite)
    requires !IsNonceKey(id) && Redelivers(cmd, id, w.clock)
    ensures var w' := HandleAnswer(PruneStep(w, LateSaves()).0, [cmd], Fine, true, LateSaves()).0;
      |w'.events| >= |w.events| + 4 && AcknowledgedUpload(w'.events[|w.events| + 3], id, result)
  {
    var env := LateSaves();
    FirstBeat(w, id, result);
    var w1 := PruneStep(w, env).0;
    var w2 := Flush(w1, env).0;
    RedeliveryAfterALateFlush(w2, id, result, cmd);
    BatchGrows(w2, cmd, Fatal, env);
    HandleAnswerGrows(w1, [cmd], Fine, env);
    var e := Uploaded(id, result, OnDisk(w2, id), w2.store.wrote);
    assert (w2.events + [e])[|w.events| + 3] == e;
    assert w2.events + [e] <= HandleAnswer(w1, [cmd], Fine, true, env).0.events;
  }

  /** A check-in that brings one delivery and whose routes and keys are taken over. */
  lemma RoutedBeat(w: World, d: Delivery, trust: Trust, env: Environment)
    requires w.up && PruneStep(w, env).1 == Fine
    ensures Act(w, Beats(Answered([d], trust, Fine, true)), env).events
      == HandleAnswer(PruneStep(w, env).0, Judged([d], trust), Fine, true, env).0.events
  {
  }

  /**
   The exception is reachable, and in two ways, because the first flush of a check-in only remembers that an
   acknowledgement could not be saved.  A command that the heartbeat delivers again makes the same check-in
   upload a result that the file calls acknowledged.
   */
  lemma LateAcknowledgementIsReuploaded(id: string, result: CommandResult, d: Delivery, trust: Trust)
    requires !IsNonceKey(id) && Redelivers(Judge(d, trust), id, 3)
    ensures var w := Run(FirstBoot(OnePending(id, result), 3), [Boot, Beats(Answered([d], trust, Fine, true))], LateSaves());
      |w.events| >= 5 && AcknowledgedUpload(w.events[4], id, result)
  {
    var m, env, beat := OnePending(id, result), LateSaves(), Answered([d], trust, Fine, true);
    var run := [Boot, Beats(beat)];
    assert run[..1] == [Boot];
    BootWithOnePending(id, result);
    var w, cmd := Run(FirstBoot(m, 3), [Boot], env), Judge(d, trust);
    assert Judged([d], trust) == [cmd];
    FirstBeat(w, id, result);
    SecondUploadOfTheBeat(w, id, result, cmd);
    RoutedBeat(w, d, trust, env);
    assert Run(FirstBoot(m, 3), run, env) == Act(w, Beats(beat), env);
  }

  /** A check-in whose routes and keys cannot be taken over: prune, flush, and an ordinary error. */
  lemma UnroutedBeat(w: World, trust: Trust, env: Environment)
    requires w.up && PruneStep(w, env).1 == Fine && Flush(PruneStep(w, env).0, env).1 != Dead
    ensures Act(w, Beats(Answered([], trust, Fine, false)), env) == Flush(PruneStep(w, env).0, env).0
  {
    var beat := Answered([], trust, Fine, false);
    assert Beaten(PruneStep(w, env).0, beat, env).1 == ReportError;
  }

  lemma SecondBeatUploadsAgain(w: World, id: string, result: CommandResult, trust: Trust)
    requires !IsNonceKey(id) && w.up
    requires w.store.mem == OnePending(id, result) && OnDisk(w, id) == Some(w.store.mem[id].(state := Acknowledged))
    ensures var w' := Act(w, Beats(Answered([], trust, Fine, false)), LateSaves());
      w'.up && |w'.events| >= |w.events| + 2 && AcknowledgedUpload(w'.events[|w.events| + 1], id, result)
  {
    var env := LateSaves();
    PruneOnePending(w, id, result);
    var w1 := PruneStep(w, env).0;
    FlushAfterALateOne(w1, id, result);
    assert Flush(w1, env).1 == Fatal by {
      assert PendingIDs(w1.store.mem) == {id};
      OutboxOfOne(w1.store.mem, id);
    }
    UnroutedBeat(w, trust, env);
    var e := Uploaded(id, result, OnDisk(w1, id), w1.store.wrote);
    assert (w1.events + [e])[|w.events| + 1] == e;
  }

  /**
   An error while routes and keys are taken over replaces the remembered one.  The agent then stays up with a
   file ahead of memory, and its next check-in uploads the acknowledged result again.
   */
  lemma LateAcknowledgementOutlivesTheCheckIn(id: string, result: CommandResult, trust: Trust)
    requires !IsNonceKey(id)
    ensures var beat := Beats(Answered([], trust, Fine, false));
      var w := Run(FirstBoot(OnePending(id, result), 3), [Boot, beat, beat], LateSaves());
      w.up && |w.events| >= 6 && AcknowledgedUpload(w.events[5], id, result)
  {
    var m, env, beat := OnePending(id, result), LateSaves(), Beats(Answered([], trust, Fine, false));
    var run := [Boot, beat, beat];
    assert run[..2][..1] == [Boot] && run[..2][1] == beat;
    BootWithOnePending(id, result);
    var w := Run(FirstBoot(m, 3), [Boot], env);
    FirstBeat(w, id, result);
    UnroutedBeat(w, trust, env);
    var w2 := Act(w, beat, env);
    assert Run(FirstBoot(m, 3), run[..2], env) == w2;
    SecondBeatUploadsAgain(w2, id, result, trust);
  }

  /** Pending in memory, acknowledged in the file. */
  ghost predicate RunsAhead(s: Store, id: string) {
    IsPending(s.mem, id) && id in s.disk && s.disk[id].state.Acknowledged?
  }

  /**
   The step behind it, exactly.  An acknowledgement that the process survives leaves the ID pending in memory
   and acknowledged in the file precisely when its save failed after the rename, or failed before it and an
   earlier attempt had failed after it.
   */
  lemma FileRunsAheadExactlyAfterALateFailure(s: Store, id: string, o: SaveOutcome)
    requires Synced(s) && IsPending(s.mem, id) && !o.Dies()
    ensures var (t, _) := Ack(s, id, o);
      Synced(t) && (RunsAhead(t, id) <==> o.FailedAfterRename? || (o.FailedBeforeRename? && s.wrote == LateAcknowledgement(id)))
  {
  }

  /**
   Why IDs must not look like replay keys: recovery and the outbox skip such a key, so a command
   filed under one would lose its result in a crash.
   */
  lemma NonceShapedIDsAreSkipped(m: Journal, wrote: LastWrite, id: string, o: SaveOutcome)
    requires m.Keys == {id} && IsNonceKey(id)
    ensures Recover(Store(m, m, wrote), o) == (Store(m, m, wrote), Done) && Outbox(m) == []
  {
    assert PendingIDs(m) == {};
  }

  lemma {:induction false} FlushItemsGrows(w: World, items: seq<PendingResult>, failed: bool, env: Environment)
    ensures w.events <= FlushItems(w, items, failed, env).0.events
    decreases |items|
  {
    if items != [] {
      var c, p := env(w.step), items[0];
      var w1 := Tick(w, c);
      match c.upload
      case NotConfirmed(reached) => FlushItemsGrows(Sent(w1, p, reached), items[1..], true, env);
      case Accepted =>
        var w2 := Sent(w1, p, true);
        var (store, status) := Ack(w2.store, p.commandID, c.save);
        if status == Done {
          FlushItemsGrows(w2.(store := store), items[1..], failed, env);
        }
      case _ =>
    }
  }

  lemma BatchGrows(w: World, cmd: Command, first: Flow, env: Environment)
    ensures ProcessCommand(w, cmd, env).0.events <= ProcessBatch(w, [cmd], first, env).0.events
    ensures ProcessCommand(w, cmd, env).0.up == ProcessBatch(w, [cmd], first, env).0.up
  {
    assert [cmd][1..] == [];
  }

  lemma HandleAnswerGrows(w: World, commands: seq<Command>, monitoring: Flow, env: Environment)
    requires commands != [] && Flush(w, env).1 != Dead
    ensures var (w1, flushed) := Flush(w, env);
      var first := if flushed == Fine then monitoring else flushed;
      ProcessBatch(w1, commands, first, env).0.events <= HandleAnswer(w, commands, monitoring, true, env).0.events
  {
    var (w1, flushed) := Flush(w, env);
    var first := if flushed == Fine then monitoring else flushed;
    var w2 := ProcessBatch(w1, commands, first, env).0;
    FlushItemsGrows(w2, Outbox(w2.store.mem), false, env);
  }

  /** Every upload is confirmed and every save works. */
  ghost predicate Smooth(env: Environment) {
    forall n: nat :: env(n).upload.Accepted? && env(n).save.Saved?
  }

  ghost predicate Reported(events: seq<Event>, from: nat, p: PendingResult) {
    exists i :: from <= i < |events| && events[i].Uploaded? && events[i].id == p.commandID && events[i].result == p.result
  }

  lemma AckTakesOneAway(s: Store, id: string)
    requires IsPending(s.mem, id)
    ensures var (t, status) := Ack(s, id, Saved);
      status == Done && PendingIDs(t.mem) == PendingIDs(s.mem) - {id}
      && forall k :: k != id && IsPending(s.mem, k) ==> IsPending(t.mem, k) && t.mem[k] == s.mem[k]
  {
  }

  lemma {:induction false} FlushItemsDelivers(w: World, items: seq<PendingResult>, env: Environment)
    requires Smooth(env) && Deliverable(w.store.mem, items)
    ensures var (w', flow) := FlushItems(w, items, false, env);
      && flow == Fine && w.events <= w'.events
      && PendingIDs(w'.store.mem) == PendingIDs(w.store.mem) - (set i | 0 <= i < |items| :: items[i].commandID)
      && forall i :: 0 <= i < |items| ==> Reported(w'.events, |w.events|, items[i])
    decreases |items|
  {
    if items != [] {
      var c, p := env(w.step), items[0];
      var w1 := Sent(Tick(w, c), p, true);
      AckTakesOneAway(w1.store, p.commandID);
      var (store, status) := Ack(w1.store, p.commandID, c.save);
      var w2 := w1.(store := store);
      RestDeliverable(w.store.mem, store.mem, items);
      FlushItemsDelivers(w2, items[1..], env);
      var w3 := FlushItems(w2, items[1..], false, env).0;
      assert w3.events[|w.events|] == w2.events[|w.events|];
      assert Reported(w3.events, |w.events|, items[0]);
      forall i | 1 <= i < |items|
        ensures Reported(w3.events, |w.events|, items[i])
      {
        assert Reported(w3.events, |w2.events|, items[1..][i - 1]);
      }
      assert (set i | 0 <= i < |items| :: items[i].commandID)
          == {p.commandID} + (set i | 0 <= i < |items[1..]| :: items[1..][i].commandID);
    }
  }

  /** One smooth flush reports everything that was pending and leaves an empty outbox. */
  lemma SmoothFlushEmptiesTheOutbox(w: World, env: Environment)
    requires Smooth(env)
    ensures var (w', flow) := Flush(w, env);
      && flow == Fine && Outbox(w'.store.mem) == []
      && forall i :: 0 <= i < |Outbox(w.store.mem)| ==> Reported(w'.events, |w.events|, Outbox(w.store.mem)[i])
  {
    var m := w.store.mem;
    OutboxDeliverable(m);
    FlushItemsDelivers(w, Outbox(m), env);
    var ids := Lex.SortedSeq(PendingIDs(m));
    forall id | id in PendingIDs(m)
      ensures id in (set i | 0 <= i < |Outbox(m)| :: Outbox(m)[i].commandID)
    {
      assert id in Elems(ids);
      var n :| 0 <= n < |ids| && ids[n] == id;
      assert Outbox(m)[n].commandID == id;
    }
  }

  lemma RunProcessStarts(w: World, id: string, nonce: string, expiry: Time, envelope: Envelope, admittedAt: Time,
        env: Environment)
    ensures w.events + [Started(id, nonce, envelope, expiry, admittedAt, w.clock)] <= RunProcess(w, id, nonce, expiry, envelope, admittedAt, env).0.events
  {
    var w1 := w.(events := w.events + [Started(id, nonce, envelope, expiry, admittedAt, w.clock)]);
    var c := env(w1.step);
    var w2 := Tick(w1, c);
    if c.run.Some? {
      var w3 := w2.(events := w2.events + [Finished(id, c.run.value)]);
      var (store, _) := Complete(w3.store, id, expiry, w3.clock, c.run.value, c.save);
      FlushItemsGrows(w3.(store := store), Outbox(store.mem), false, env);
    }
  }

  /** With a working save, a reserved command is marked and its process starts. */
  lemma ReservedCommandStarts(w: World, id: string, nonce: string, expiry: Time, envelope: Envelope, admittedAt: Time,
        env: Environment)
    requires id in w.store.mem && w.store.mem[id].state.Reserved? && env(w.step).save.Saved?
    ensures w.events + [Started(id, nonce, envelope, expiry, admittedAt, w.clock + env(w.step).elapsed)]
      <= ExecuteReserved(w, id, nonce, expiry, envelope, admittedAt, env).0.events
  {
    var w1 := Tick(w, env(w.step));
    var (store, status) := Mark(w1.store, id, env(w.step).save);
    var w2 := w1.(store := store);
    assert status == Done && w2.clock == w.clock + env(w.step).elapsed && w2.events == w.events;
    assert ExecuteReserved(w, id, nonce, expiry, envelope, admittedAt, env) == RunProcess(w2, id, nonce, expiry, envelope, admittedAt, env);
    RunProcessStarts(w2, id, nonce, expiry, envelope, admittedAt, env);
  }

  /** With a working save, a command whose keys are free is reserved. */
  lemma FreeCommandIsReserved(w: World, id: string, nonce: string, expiry: Time, envelope: Envelope,
        save: SaveOutcome, env: Environment)
    requires id !in w.store.mem && NonceKey(nonce) !in w.store.mem && !IsNonceKey(id) && save.Saved?
    ensures var (store, status) := Reserve(w.store, id, nonce, expiry, save);
      && status == Done && id in store.mem && store.mem[id].state.Reserved?
      && Execute(w, id, nonce, expiry, envelope, save, env) == ExecuteReserved(w.(store := store), id, nonce, expiry, envelope, w.clock, env)
  {
    assert IsNonceKey(NonceKey(nonce));
  }

  lemma AdmittedExecutes(w: World, cmd: Command, env: Environment)
    requires Gate(w.store.mem, cmd, w.clock + env(w.step).elapsed).Admit?
    ensures cmd.id !in w.store.mem && NonceKey(cmd.nonce) !in w.store.mem && cmd.expiresAt.Some?
    ensures var c := env(w.step);
      ProcessCommand(w, cmd, env) == Execute(Tick(w, c), cmd.id, cmd.nonce, cmd.expiresAt.value, cmd.envelope, c.save, env)
  {
  }

  /** The protocol is not safe by doing nothing: with working saves, an admitted command starts. */
  lemma AdmittedCommandStarts(w: World, cmd: Command, env: Environment)
    requires !IsNonceKey(cmd.id)
    requires Gate(w.store.mem, cmd, w.clock + env(w.step).elapsed).Admit?
    requires env(w.step).save.Saved? && env(w.step + 1).save.Saved?
    ensures
      var admittedAt := w.clock + env(w.step).elapsed;
      var at := admittedAt + env(w.step + 1).elapsed;
      w.events + [Started(cmd.id, cmd.nonce, cmd.envelope, cmd.expiresAt.value, admittedAt, at)] <= ProcessCommand(w, cmd, env).0.events
  {
    AdmittedExecutes(w, cmd, env);
    var c := env(w.step);
    var w1 := Tick(w, c);
    var expiry := cmd.expiresAt.value;
    FreeCommandIsReserved(w1, cmd.id, cmd.nonce, expiry, cmd.envelope, c.save, env);
    var (store, _) := Reserve(w1.store, cmd.id, cmd.nonce, expiry, c.save);
    ReservedCommandStarts(w1.(store := store), cmd.id, cmd.nonce, expiry, cmd.envelope, w1.clock, env);
  }
}
