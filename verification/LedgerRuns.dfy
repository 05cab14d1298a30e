/**
 * Concurrent use of one ledger file.  A run is any interleaving of events of any number of
 * clients: a call is admitted, then makes up to five attempts, each of which is one atomic
 * transaction or is refused by a busy database.  Failpoints and signers are part of the
 * requests; other failures are part of the weather.
 */
module LedgerRuns {
  import opened Wrappers
  import opened Json
  import opened LedgerRecords
  import opened LedgerTransaction
  import opened LedgerChain
  import opened LedgerHistory

  const MAX_CONTENTION_ATTEMPTS := 5

  datatype Weather = Busy | Broken | Clear(now: string, sidecarsSecure: bool)

  datatype Call = Trying(req: Request, adm: Admitted, attempts: nat) | Finished(outcome: Outcome)

  datatype World = World(rows: seq<Row>, calls: map<nat, Call>)

  datatype Event = Invoke(client: nat, req: Request) | Attempt(client: nat, weather: Weather)

  const EMPTY_WORLD := World([], map[])

  function Next(p: Ports, w: World, event: Event): World {
    match event
    case Invoke(client, req) =>
      if client in w.calls && w.calls[client].Trying? then w
      else (match Admit(p, req)
            case Err(failure) => w.(calls := w.calls[client := Finished(Raised(failure))])
            case Ok(adm) => w.(calls := w.calls[client := Trying(req, adm, 0)]))
    case Attempt(client, weather) =>
      if client !in w.calls || !w.calls[client].Trying? then w
      else
        var call := w.calls[client];
        match weather
        case Busy =>
          if call.attempts + 1 < MAX_CONTENTION_ATTEMPTS
          then w.(calls := w.calls[client := call.(attempts := call.attempts + 1)])
          else w.(calls := w.calls[client := Finished(Returned(BUSY_RETRY_EXHAUSTED, None, 0))])
        case Broken => w.(calls := w.calls[client := Finished(Raised(DatabaseBroken))])
        case Clear(now, secure) =>
          var s := Transact(p, w.rows, call.req, call.adm, now, secure);
          World(s.rows, w.calls[client := Finished(s.outcome)])
  }

  /** A client that is not in a call may start one: it tries at once if it is admitted, and else ends. */
  lemma InvokeStarts(p: Ports, w: World, client: nat, req: Request)
    requires client in w.calls ==> w.calls[client].Finished?
    ensures var next := Next(p, w, Invoke(client, req));
      && next.rows == w.rows && client in next.calls
      && (forall other :: other in w.calls && other != client ==>
            other in next.calls && next.calls[other] == w.calls[other])
      && match Admit(p, req)
         case Ok(adm) => next.calls[client] == Trying(req, adm, 0)
         case Err(failure) => next.calls[client] == Finished(Raised(failure))
  {
  }

  function Run(p: Ports, w: World, events: seq<Event>): World
    decreases |events|
  {
    if events == [] then w else Run(p, Next(p, w, events[0]), events[1..])
  }

  /** The event is a transaction that commits a row. */
  ghost predicate Committing(p: Ports, w: World, event: Event) {
    && event.Attempt? && event.weather.Clear?
    && event.client in w.calls && w.calls[event.client].Trying?
    && var call := w.calls[event.client];
       Commits(Transact(p, w.rows, call.req, call.adm, event.weather.now, event.weather.sidecarsSecure).outcome)
  }

  /** The entry that a committing event seals. */
  function SealedBy(p: Ports, w: World, event: Event): Result<Entry, Failure>
    requires event.Attempt? && event.weather.Clear? && event.client in w.calls && w.calls[event.client].Trying?
  {
    var call := w.calls[event.client];
    Seal(p, call.req.signer, Draft(call.req, call.adm, DurableHead(w.rows), event.weather.now))
  }

  // ----- the invariant of every run ---------------------------------------------------

  ghost predicate AdmittedCall(p: Ports, call: Call) {
    call.Trying? ==> Admit(p, call.req) == Ok(call.adm) && call.attempts < MAX_CONTENTION_ATTEMPTS
  }

  ghost predicate CallsAdmitted(p: Ports, calls: map<nat, Call>) {
    forall c :: c in calls ==> AdmittedCall(p, calls[c])
  }

  ghost predicate Inv(p: Ports, w: World) {
    History(p, w.rows) && CallsAdmitted(p, w.calls)
  }

  /** A commit appends the row that was asked for, with all that the invariant wants of it. */
  lemma CommitAppends(p: Ports, rows: seq<Row>, req: Request, adm: Admitted, now: string, secure: bool)
      returns (row: Row)
    requires FaithfulStorage(p) && History(p, rows) && Admit(p, req) == Ok(adm)
    requires Commits(Transact(p, rows, req, adm, now, secure).outcome)
    ensures Transact(p, rows, req, adm, now, secure).rows == rows + [row]
    ensures History(p, rows + [row])
  {
    var all := Transact(p, rows, req, adm, now, secure).rows;
    EffectIsAllOrNothing(p, rows, req, adm, now, secure);
    row := all[|rows|];
    assert all == rows + [row];
    var e := CommittedRow(p, rows, req, adm, now, secure);
    SealedIsDigested(p, req.signer, Draft(req, adm, DurableHead(rows), now), e, row);
    RowExtends(p, rows, req, adm, e, row);
  }

  lemma RowExtends(p: Ports, rows: seq<Row>, req: Request, adm: Admitted, e: Entry, row: Row)
    requires FaithfulStorage(p) && History(p, rows) && Admit(p, req) == Ok(adm) && EntryToRow(p, e) == Some(row)
    requires Fresh(rows, req) && req.expectedGeneration == DurableHead(rows).generation
    requires RowFor(row, req, adm, DurableHead(rows)) && !HashTaken(rows, row.entryHash) && Digested(p, row)
    ensures History(p, rows + [row])
  {
    StoredDocuments(p, req, adm, e, row);
    HeadGeneration(rows);
    ExtendHistory(p, rows, row);
  }

  lemma TransactKeepsHistory(p: Ports, rows: seq<Row>, req: Request, adm: Admitted, now: string, secure: bool)
    requires FaithfulStorage(p) && History(p, rows) && Admit(p, req) == Ok(adm)
    ensures History(p, Transact(p, rows, req, adm, now, secure).rows)
  {
    if Commits(Transact(p, rows, req, adm, now, secure).outcome) {
      var _ := CommitAppends(p, rows, req, adm, now, secure);
    } else {
      EffectIsAllOrNothing(p, rows, req, adm, now, secure);
    }
  }

  /** An event changes the state of its own client's call and of no other. */
  lemma NextKeepsCalls(p: Ports, w: World, event: Event)
    requires CallsAdmitted(p, w.calls)
    ensures CallsAdmitted(p, Next(p, w, event).calls)
  {
    var calls, client := Next(p, w, event).calls, event.client;
    assert client in w.calls ==> AdmittedCall(p, w.calls[client]);
    assert client in calls ==> AdmittedCall(p, calls[client]);
    forall c | c in calls ensures AdmittedCall(p, calls[c]) {
      if c != client { assert calls[c] == w.calls[c]; }
    }
  }

  /** Where the rows of the next state come from. */
  lemma NextRows(p: Ports, w: World, event: Event)
    ensures Next(p, w, event).rows ==
      if event.Attempt? && event.weather.Clear? && event.client in w.calls && w.calls[event.client].Trying? then
        Transact(p, w.rows, w.calls[event.client].req, w.calls[event.client].adm, event.weather.now,
                 event.weather.sidecarsSecure).rows
      else w.rows
  {
  }

  lemma NextKeepsHistory(p: Ports, w: World, event: Event)
    requires FaithfulStorage(p) && Inv(p, w)
    ensures History(p, Next(p, w, event).rows)
  {
    NextRows(p, w, event);
    if event.Attempt? && event.weather.Clear? && event.client in w.calls && w.calls[event.client].Trying? {
      var call := w.calls[event.client];
      assert AdmittedCall(p, call);
      TransactKeepsHistory(p, w.rows, call.req, call.adm, event.weather.now, event.weather.sidecarsSecure);
    }
  }

  lemma NextKeepsInv(p: Ports, w: World, event: Event)
    requires FaithfulStorage(p) && Inv(p, w)
    ensures Inv(p, Next(p, w, event))
  {
    NextKeepsCalls(p, w, event);
    NextKeepsHistory(p, w, event);
  }

  lemma {:induction false} RunKeepsInv(p: Ports, w: World, events: seq<Event>)
    requires FaithfulStorage(p) && Inv(p, w)
    ensures Inv(p, Run(p, w, events))
    decreases |events|
  {
    if events != [] {
      NextKeepsInv(p, w, events[0]);
      RunKeepsInv(p, Next(p, w, events[0]), events[1..]);
    }
  }

  /** Every ledger that any run reaches is linked, duplicate-free and documented. */
  lemma ReachableHistory(p: Ports, events: seq<Event>)
    requires FaithfulStorage(p)
    ensures History(p, Run(p, EMPTY_WORLD, events).rows)
  {
    RunKeepsInv(p, EMPTY_WORLD, events);
  }

  // ----- append only ------------------------------------------------------------------

  lemma NextAppendsAtMostOne(p: Ports, w: World, event: Event)
    ensures var rows := Next(p, w, event).rows;
      if Committing(p, w, event) then |rows| == |w.rows| + 1 && rows[..|w.rows|] == w.rows else rows == w.rows
  {
    if event.Attempt? && event.weather.Clear? && event.client in w.calls && w.calls[event.client].Trying? {
      var call := w.calls[event.client];
      EffectIsAllOrNothing(p, w.rows, call.req, call.adm, event.weather.now, event.weather.sidecarsSecure);
    }
  }

  lemma {:induction false} RunAppendsOnly(p: Ports, w: World, events: seq<Event>)
    ensures w.rows <= Run(p, w, events).rows
    decreases |events|
  {
    if events != [] {
      NextAppendsAtMostOne(p, w, events[0]);
      var w1 := Next(p, w, events[0]);
      RunAppendsOnly(p, w1, events[1..]);
      assert w.rows == w1.rows[..|w.rows|];
    }
  }

  // ----- exactly once -----------------------------------------------------------------

  /**
   * Exactly once.  After a row is in the ledger, whatever happens next and whatever generation
   * the caller names, a call with its key and its request hash is answered REPLAYED with that
   * very entry, a call with its key and another hash is refused, and neither adds a row.
   */
  lemma ExactlyOnce(p: Ports, w: World, i: nat, events: seq<Event>, req: Request, adm: Admitted)
    requires FaithfulStorage(p) && Inv(p, w)
    requires i < |w.rows| && req.idempotencyKey == w.rows[i].facts.idempotencyKey
    ensures RowToEntry(p, w.rows[i]).Some?
    ensures Answers(p, Run(p, w, events).rows, req, adm,
      if adm.requestHash == w.rows[i].facts.requestHash
      then Returned(REPLAYED, RowToEntry(p, w.rows[i]), i + 1)
      else Returned(IDEMPOTENCY_CONFLICT, None, i + 1))
  {
    RunKeepsInv(p, w, events);
    RunAppendsOnly(p, w, events);
    StoredRowAnswers(p, w.rows, Run(p, w, events).rows, i, req, adm);
  }

  lemma StoredRowAnswers(p: Ports, before: seq<Row>, rows: seq<Row>, i: nat, req: Request, adm: Admitted)
    requires History(p, before) && History(p, rows) && before <= rows
    requires i < |before| && req.idempotencyKey == before[i].facts.idempotencyKey
    ensures RowToEntry(p, before[i]).Some?
    ensures Answers(p, rows, req, adm,
      if adm.requestHash == before[i].facts.requestHash
      then Returned(REPLAYED, RowToEntry(p, before[i]), i + 1)
      else Returned(IDEMPOTENCY_CONFLICT, None, i + 1))
  {
    assert rows[i] == before[i] && Documented(p, before[i]) && LinkedAt(before, i);
    FenceAnswers(p, rows, i, req, adm);
  }

  /** The row that a committing event leaves at the end of the ledger. */
  lemma CommittingAppends(p: Ports, w: World, event: Event) returns (row: Row)
    requires Committing(p, w, event)
    ensures Next(p, w, event).rows == w.rows + [row]
    ensures RowFor(row, w.calls[event.client].req, w.calls[event.client].adm, DurableHead(w.rows))
  {
    var call := w.calls[event.client];
    EffectIsAllOrNothing(p, w.rows, call.req, call.adm, event.weather.now, event.weather.sidecarsSecure);
    row := Next(p, w, event).rows[|w.rows|];
  }

  /** The entry of that row. */
  lemma CommittingSeals(p: Ports, w: World, event: Event, row: Row) returns (e: Entry)
    requires Committing(p, w, event) && Next(p, w, event).rows == w.rows + [row]
    ensures SealedBy(p, w, event) == Ok(e) && EntryToRow(p, e) == Some(row)
  {
    var call := w.calls[event.client];
    e := CommittedRow(p, w.rows, call.req, call.adm, event.weather.now, event.weather.sidecarsSecure);
    assert row == Next(p, w, event).rows[|w.rows|];
  }

  /**
   * The same from the caller's side: a transaction that committed (also when its caller saw
   * UNKNOWN_EFFECT or an exception after the commit) is replayed to every later identical call.
   */
  lemma UnknownEffectIsReplayed(p: Ports, w: World, event: Event, events: seq<Event>, again: Request, adm: Admitted)
      returns (row: Row)
    requires FaithfulStorage(p) && Inv(p, w) && Committing(p, w, event)
    requires again.idempotencyKey == w.calls[event.client].req.idempotencyKey
    requires adm.requestHash == w.calls[event.client].adm.requestHash
    ensures RowFor(row, w.calls[event.client].req, w.calls[event.client].adm, DurableHead(w.rows))
    ensures w.rows + [row] <= Run(p, Next(p, w, event), events).rows && RowToEntry(p, row).Some?
    ensures Answers(p, Run(p, Next(p, w, event), events).rows, again, adm,
                    Returned(REPLAYED, RowToEntry(p, row), |w.rows| + 1))
  {
    row := CommittingAppends(p, w, event);
    NextKeepsInv(p, w, event);
    var w1 := Next(p, w, event);
    ExactlyOnce(p, w1, |w.rows|, events, again, adm);
    RunAppendsOnly(p, w1, events);
  }

  // ----- compare-and-swap over runs ---------------------------------------------------

  /** At most one request is ever appended for each expected generation, and it commits the next one. */
  lemma OneRowPerGeneration(p: Ports, events: seq<Event>, i: nat, j: nat)
    requires FaithfulStorage(p)
    requires i < |Run(p, EMPTY_WORLD, events).rows| && j < |Run(p, EMPTY_WORLD, events).rows|
    ensures var rows := Run(p, EMPTY_WORLD, events).rows;
      && rows[i].facts.committedGeneration == rows[i].carried.expectedGeneration + 1
      && (rows[i].carried.expectedGeneration == rows[j].carried.expectedGeneration ==> i == j)
  {
    ReachableHistory(p, events);
    var rows := Run(p, EMPTY_WORLD, events).rows;
    assert LinkedAt(rows, i) && LinkedAt(rows, j);
  }

  /**
   * Once some request has been appended for a generation, every other fresh request that names
   * it, however much later, is answered STALE_GENERATION with the current generation.
   */
  lemma LaterNamerIsStale(p: Ports, w: World, i: nat, events: seq<Event>, req: Request, adm: Admitted)
    requires FaithfulStorage(p) && Inv(p, w) && i < |w.rows|
    requires Fresh(Run(p, w, events).rows, req) && req.expectedGeneration == w.rows[i].carried.expectedGeneration
    ensures Answers(p, Run(p, w, events).rows, req, adm, Returned(STALE_GENERATION, None, |Run(p, w, events).rows|))
  {
    RunKeepsInv(p, w, events);
    RunAppendsOnly(p, w, events);
    assert LinkedAt(w.rows, i);
    StaleAnswers(p, Run(p, w, events).rows, req, adm);
  }

  // ----- every reachable ledger verifies ----------------------------------------------

  /** The commit of `event` stores a sound entry under the expected ledger id. */
  ghost predicate SoundCommit(p: Ports, w: World, event: Event, expectedLedger: Option<string>)
    requires Committing(p, w, event)
  {
    var req := w.calls[event.client].req;
    && SealedBy(p, w, event).Ok? && SoundEntry(req.signer, SealedBy(p, w, event).value)
    && (expectedLedger.Some? ==> req.ledgerId == expectedLedger.value)
  }

  /** One commit keeps the chain clean exactly when it is sound. */
  lemma CommitIsCleanIff(p: Ports, w: World, event: Event, expectedLedger: Option<string>)
    requires FaithfulStorage(p) && CollisionFree(p) && Inv(p, w) && Committing(p, w, event)
    ensures Clean(p, Next(p, w, event).rows, expectedLedger) <==>
      Clean(p, w.rows, expectedLedger) && SoundCommit(p, w, event, expectedLedger)
  {
    var call := w.calls[event.client];
    var row := CommittingAppends(p, w, event);
    var e := CommittingSeals(p, w, event, row);
    NextKeepsHistory(p, w, event);
    ExtendClean(p, w.rows, row, expectedLedger);
    AppendedRowIsCleanIff(p, w.rows, call.req.signer, Draft(call.req, call.adm, DurableHead(w.rows), event.weather.now),
                          e, row, expectedLedger);
  }

  ghost predicate AllCommitsSound(p: Ports, w: World, events: seq<Event>, expectedLedger: Option<string>)
    decreases |events|
  {
    events == [] ||
    (&& (Committing(p, w, events[0]) ==> SoundCommit(p, w, events[0], expectedLedger))
     && AllCommitsSound(p, Next(p, w, events[0]), events[1..], expectedLedger))
  }

  lemma NextIsCleanIff(p: Ports, w: World, event: Event, expectedLedger: Option<string>)
    requires FaithfulStorage(p) && CollisionFree(p) && Inv(p, w)
    ensures Clean(p, Next(p, w, event).rows, expectedLedger) <==>
      Clean(p, w.rows, expectedLedger) && (Committing(p, w, event) ==> SoundCommit(p, w, event, expectedLedger))
  {
    if Committing(p, w, event) {
      CommitIsCleanIff(p, w, event, expectedLedger);
    } else {
      NextAppendsAtMostOne(p, w, event);
    }
  }

  lemma {:induction false} RunIsCleanIff(p: Ports, w: World, events: seq<Event>, expectedLedger: Option<string>)
    requires FaithfulStorage(p) && CollisionFree(p) && Inv(p, w)
    ensures Clean(p, Run(p, w, events).rows, expectedLedger) <==>
      Clean(p, w.rows, expectedLedger) && AllCommitsSound(p, w, events, expectedLedger)
    decreases |events|
  {
    if events != [] {
      NextIsCleanIff(p, w, events[0], expectedLedger);
      NextKeepsInv(p, w, events[0]);
      RunIsCleanIff(p, Next(p, w, events[0]), events[1..], expectedLedger);
    }
  }

  /**
   * Every ledger that any interleaving reaches passes `verify_chain` exactly when every commit
   * of the run was sound: a disposition that is a string, signer metadata that does not fool
   * the comparison, and the expected ledger id when one is given.
   */
  lemma ReachableVerifiesIff(p: Ports, events: seq<Event>, expectedLedger: Option<string>)
    requires FaithfulStorage(p) && CollisionFree(p)
    ensures Clean(p, Run(p, EMPTY_WORLD, events).rows, expectedLedger) <==>
      AllCommitsSound(p, EMPTY_WORLD, events, expectedLedger)
  {
    RunIsCleanIff(p, EMPTY_WORLD, events, expectedLedger);
  }

  /** Without a signer, and with string dispositions, every reachable ledger verifies. */
  ghost predicate Unsigned(p: Ports, event: Event) {
    event.Invoke? ==>
      event.req.signer.None? && (Admit(p, event.req).Ok? ==> Admit(p, event.req).value.disposition.JStr?)
  }

  ghost predicate CallsUnsigned(calls: map<nat, Call>) {
    forall c :: c in calls && calls[c].Trying? ==> calls[c].req.signer.None? && calls[c].adm.disposition.JStr?
  }

  lemma {:induction false} UnsignedRunsAreSound(p: Ports, w: World, events: seq<Event>)
    requires CallsUnsigned(w.calls) && forall k :: 0 <= k < |events| ==> Unsigned(p, events[k])
    ensures AllCommitsSound(p, w, events, None)
    decreases |events|
  {
    if events != [] {
      var event := events[0];
      if Committing(p, w, event) {
        var call := w.calls[event.client];
        var e := CommittedRow(p, w.rows, call.req, call.adm, event.weather.now, event.weather.sidecarsSecure);
        SealKeepsDraft(p, call.req.signer, Draft(call.req, call.adm, DurableHead(w.rows), event.weather.now));
      }
      assert Unsigned(p, event);
      UnsignedRunsAreSound(p, Next(p, w, event), events[1..]);
    }
  }

  // ----- ledgers that do not verify ---------------------------------------------------

  /** One client, one call, one quiet attempt on an empty ledger. */
  function OneCall(req: Request, now: string): seq<Event> {
    [Invoke(0, req), Attempt(0, Clear(now, true))]
  }

  function FirstDraft(req: Request, adm: Admitted, now: string): Entry {
    Draft(req, adm, DurableHead([]), now)
  }

  lemma FirstAttemptCommits(p: Ports, req: Request, adm: Admitted, now: string, e: Entry)
    requires req.expectedGeneration == 0 && req.failpoint == NoFailpoint
    requires Seal(p, req.signer, FirstDraft(req, adm, now)) == Ok(e) && EntryToRow(p, e).Some?
    ensures Transact(p, [], req, adm, now, true)
      == Step([EntryToRow(p, e).value], Returned(APPENDED, Some(e), e.facts.committedGeneration))
  {
  }

  lemma RunOfTwo(p: Ports, w: World, a: Event, b: Event)
    ensures Run(p, w, [a, b]) == Next(p, Next(p, w, a), b)
  {
    var w1 := Next(p, w, a);
    assert [a, b][1..] == [b] && [b][1..] == [];
    assert Run(p, w1, [b]) == Run(p, Next(p, w1, b), []);
  }

  lemma ServedAttempt(p: Ports, w: World, client: nat, now: string, secure: bool, s: Step)
    requires client in w.calls && w.calls[client].Trying?
    requires Transact(p, w.rows, w.calls[client].req, w.calls[client].adm, now, secure) == s
    ensures Next(p, w, Attempt(client, Clear(now, secure))) == World(s.rows, w.calls[client := Finished(s.outcome)])
    ensures Committing(p, w, Attempt(client, Clear(now, secure))) <==> Commits(s.outcome)
  {
  }

  /** The call commits, and its commit is sound exactly when its entry is. */
  lemma OneCallCommits(p: Ports, req: Request, adm: Admitted, now: string, e: Entry)
    requires Admit(p, req) == Ok(adm) && req.expectedGeneration == 0 && req.failpoint == NoFailpoint
    requires Seal(p, req.signer, FirstDraft(req, adm, now)) == Ok(e) && EntryToRow(p, e).Some?
    ensures Run(p, EMPTY_WORLD, OneCall(req, now)).rows == [EntryToRow(p, e).value]
    ensures AllCommitsSound(p, EMPTY_WORLD, OneCall(req, now), None) <==> SoundEntry(req.signer, e)
  {
    FirstAttemptCommits(p, req, adm, now, e);
    var admitted, attempt := World([], map[0 := Trying(req, adm, 0)]), Attempt(0, Clear(now, true));
    ServedAttempt(p, admitted, 0, now, true, Transact(p, [], req, adm, now, true));
    RunOfTwo(p, EMPTY_WORLD, Invoke(0, req), attempt);
    assert SealedBy(p, admitted, attempt) == Ok(e);
    AttemptIsSoundIff(p, admitted, attempt);
    var events := OneCall(req, now);
    assert events[0] == Invoke(0, req) && events[1..] == [attempt];
  }

  lemma AttemptIsSoundIff(p: Ports, w: World, attempt: Event)
    requires Committing(p, w, attempt)
    ensures AllCommitsSound(p, w, [attempt], None) <==> SoundCommit(p, w, attempt, None)
  {
    assert [attempt][1..] == [];
  }

  /**
   * Any signer whose answer Python takes for the declared metadata although it differs, or that
   * declares and returns nothing (`InconsistentMetadataExists` names one of each): its first
   * entry is stored and does not verify.
   */
  lemma InconsistentSignerDoesNotVerify(p: Ports, req: Request, adm: Admitted, now: string, signed: Signed)
    requires FaithfulStorage(p) && CollisionFree(p) && Admit(p, req) == Ok(adm)
    requires req.expectedGeneration == 0 && req.failpoint == NoFailpoint
    requires adm.disposition.JStr? && Canonical(JArr(adm.claimCeiling))
    requires req.signer.Some? && forall digest :: req.signer.value.sign(digest) == Some(signed)
    requires req.signer.value.declared.JObj? && Canonical(req.signer.value.declared) && Canonical(signed.metadata)
    requires !ConsistentMetadata(req.signer.value.declared, signed.metadata)
    ensures var rows := Run(p, EMPTY_WORLD, OneCall(req, now)).rows; |rows| == 1 && !Clean(p, rows, None)
  {
    var e := Seal(p, req.signer, FirstDraft(req, adm, now)).value;
    OneCallCommits(p, req, adm, now, e);
    ReachableVerifiesIff(p, OneCall(req, now), None);
  }

  /** A receipt whose disposition is a whole number: the entry is stored as text and does not verify. */
  lemma NumericDispositionDoesNotVerify(p: Ports, req: Request, adm: Admitted, now: string)
    requires FaithfulStorage(p) && CollisionFree(p) && Admit(p, req) == Ok(adm)
    requires req.expectedGeneration == 0 && req.failpoint == NoFailpoint && req.signer.None?
    requires adm.disposition.JInt? && Canonical(JArr(adm.claimCeiling))
    ensures var rows := Run(p, EMPTY_WORLD, OneCall(req, now)).rows; |rows| == 1 && !Clean(p, rows, None)
  {
    var e := Seal(p, req.signer, FirstDraft(req, adm, now)).value;
    OneCallCommits(p, req, adm, now, e);
    ReachableVerifiesIff(p, OneCall(req, now), None);
  }
}
