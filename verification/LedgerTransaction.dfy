/**
 * One attempt of `append_or_replay` between BEGIN IMMEDIATE and its COMMIT or ROLLBACK: the
 * idempotency fence, the request-id check, the generation compare-and-swap, the signature,
 * the insert and the three failpoints.  The write lock makes an attempt one atomic step.
 */
module LedgerTransaction {
  import opened Wrappers
  import opened Json
  import opened LedgerRecords

  datatype Status = APPENDED | REPLAYED | STALE_GENERATION | IDEMPOTENCY_CONFLICT | BUSY_RETRY_EXHAUSTED

  datatype Outcome =
    | Returned(status: Status, entry: Option<Entry>, generation: int)
    | Raised(failure: Failure)

  datatype Step = Step(rows: seq<Row>, outcome: Outcome)

  // ----- look-ups ---------------------------------------------------------------------

  function FindKey(rows: seq<Row>, key: string): (i: Option<nat>)
    ensures i.Some? ==> i.value < |rows| && rows[i.value].facts.idempotencyKey == key
    ensures i.None? <==> forall k :: 0 <= k < |rows| ==> rows[k].facts.idempotencyKey != key
  {
    if rows == [] then None
    else if rows[0].facts.idempotencyKey == key then Some(0)
    else match FindKey(rows[1..], key) case None => None case Some(i) => Some(i + 1)
  }

  function FindRequest(rows: seq<Row>, requestId: string): (i: Option<nat>)
    ensures i.Some? ==> i.value < |rows| && rows[i.value].facts.requestId == requestId
    ensures i.None? <==> forall k :: 0 <= k < |rows| ==> rows[k].facts.requestId != requestId
  {
    if rows == [] then None
    else if rows[0].facts.requestId == requestId then Some(0)
    else match FindRequest(rows[1..], requestId) case None => None case Some(i) => Some(i + 1)
  }

  datatype Head = Head(sequence: int, generation: int, hash: string)

  /** The newest row, or the genesis values of an empty ledger. */
  function DurableHead(rows: seq<Row>): Head {
    if rows == [] then Head(0, 0, GENESIS)
    else var last := rows[|rows| - 1]; Head(last.facts.sequence, last.facts.committedGeneration, last.entryHash)
  }

  // ----- sealing ----------------------------------------------------------------------

  function DeclaredMetadata(s: Signer): Json {
    if s.declared.JObj? then s.declared else EMPTY_OBJECT
  }

  /** Python's `meta or None`. */
  function OrNone(metadata: Json): Json {
    if metadata == EMPTY_OBJECT then JNull else metadata
  }

  /** The metadata that goes into the final entry hash. */
  function HashedMetadata(declared: Json, returned: Json): Json {
    if PyEqual(returned, declared) then OrNone(declared) else returned
  }

  function SignatureDigest(p: Ports, e: Entry, preliminaryHash: string): string {
    p.signDigest(SignDomain(e.facts.ledgerId, e.facts.sequence, e.facts.committedGeneration, preliminaryHash,
      e.claimCeiling))
  }

  /** The entry before signing and hashing: the hash and the signer columns are still empty. */
  function Draft(req: Request, adm: Admitted, head: Head, now: string): Entry {
    Entry(Facts(req.ledgerId, head.sequence + 1, head.generation + 1, req.requestId, req.idempotencyKey,
      adm.requestHash,
                adm.envelopeHash, adm.receiptHash, req.sourceSnapshotHash, head.hash),
          adm.disposition, adm.claimCeiling, JNull,
          Carried(req.expectedGeneration, req.attempt, req.envelopeBytes, req.receiptBytes, None, None, None, now), "")
  }

  /** Lines 561-636: sign when there is a signer, and fix the entry hash. */
  function Seal(p: Ports, signer: Option<Signer>, draft: Entry): Result<Entry, Failure> {
    match signer
    case None =>
      (match EntryHash(p, draft)
       case None => Err(NotCanonical)
       case Some(hash) => Ok(draft.(entryHash := hash)))
    case Some(s) =>
      var declared := DeclaredMetadata(s);
      match EntryHash(p, draft.(signerMetadata := OrNone(declared)))
      case None => Err(NotCanonical)
      case Some(preliminary) =>
        match s.sign(SignatureDigest(p, draft, preliminary))
        case None => Err(SignerRaised)
        case Some(signed) =>
          match EntryHash(p, draft.(signerMetadata := HashedMetadata(declared, signed.metadata)))
          case None => Err(NotCanonical)
          case Some(hash) =>
            Ok(draft.(entryHash := hash, signerMetadata := signed.metadata, carried := draft.carried.(
              signerAlgorithm := Some(signed.algorithm), signerKeyId := Some(signed.keyId),
              signature := Some(signed.signature))))
  }

  /** The UNIQUE constraint on `entry_hash`. */
  predicate HashTaken(rows: seq<Row>, hash: string) {
    exists i :: 0 <= i < |rows| && rows[i].entryHash == hash
  }

  /** Lines 638-728, after the entry is sealed: insert, commit, answer. */
  function InsertAndCommit(p: Ports, rows: seq<Row>, failpoint: Failpoint, entry: Entry, sidecarsSecure: bool): Step {
    if failpoint == BeforeWrite then Step(rows, Raised(FailpointBeforeWrite)) else
    match EntryToRow(p, entry)
    case None => Step(rows, Raised(ConstraintViolated))
    case Some(row) =>
      if HashTaken(rows, row.entryHash) then Step(rows, Raised(ConstraintViolated))
      else if failpoint == BeforeCommit then Step(rows, Raised(FailpointBeforeCommit))
      else if !sidecarsSecure then Step(rows + [row], Raised(SidecarInsecure))
      else if failpoint == BeforeResponse then Step(rows + [row], Raised(UnknownEffect))
      else Step(rows + [row], Returned(APPENDED, Some(entry), entry.facts.committedGeneration))
  }

  /** The whole attempt. */
  function Transact(p: Ports, rows: seq<Row>, req: Request, adm: Admitted, now: string, sidecarsSecure: bool): Step {
    match FindKey(rows, req.idempotencyKey)
    case Some(i) =>
      (match RowToEntry(p, rows[i])
       case None => Step(rows, Raised(CorruptRow))
       case Some(stored) =>
         if rows[i].facts.requestHash != adm.requestHash
         then Step(rows, Returned(IDEMPOTENCY_CONFLICT, None, stored.facts.committedGeneration))
         else Step(rows, Returned(REPLAYED, Some(stored), stored.facts.committedGeneration)))
    case None =>
      if FindRequest(rows, req.requestId).Some? then Step(rows, Returned(IDEMPOTENCY_CONFLICT, None, 0))
      else if req.expectedGeneration != DurableHead(rows).generation
      then Step(rows, Returned(STALE_GENERATION, None, DurableHead(rows).generation))
      else
        match Seal(p, req.signer, Draft(req, adm, DurableHead(rows), now))
        case Err(failure) => Step(rows, Raised(failure))
        case Ok(entry) => InsertAndCommit(p, rows, req.failpoint, entry, sidecarsSecure)
  }

  // ----- what one attempt promises ----------------------------------------------------

  /** The row set changes only by a commit, and a commit adds one row at the end. */
  predicate Commits(o: Outcome) {
    match o
    case Returned(status, _, _) => status == APPENDED
    case Raised(failure) => failure == UnknownEffect || failure == SidecarInsecure
  }

  /** `row` is the entry that `req` asked for, at the position after `head`. */
  ghost predicate RowFor(row: Row, req: Request, adm: Admitted, head: Head) {
    && row.facts == Facts(req.ledgerId, head.sequence + 1, head.generation + 1, req.requestId, req.idempotencyKey,
                          adm.requestHash, adm.envelopeHash, adm.receiptHash, req.sourceSnapshotHash, head.hash)
    && row.carried.expectedGeneration == req.expectedGeneration
    && row.carried.attempt == req.attempt
    && row.carried.envelopeBytes == req.envelopeBytes
    && row.carried.receiptBytes == req.receiptBytes
  }

  /** Fresh: neither the key nor the request id is in the ledger. */
  ghost predicate Fresh(rows: seq<Row>, req: Request) {
    FindKey(rows, req.idempotencyKey).None? && FindRequest(rows, req.requestId).None?
  }

  /** Sealing fills in the hash and the signer columns and touches nothing else. */
  lemma SealKeepsDraft(p: Ports, signer: Option<Signer>, draft: Entry)
    ensures Seal(p, signer, draft).Ok? ==>
      var e := Seal(p, signer, draft).value;
      e == draft.(entryHash := e.entryHash, signerMetadata := e.signerMetadata, carried := draft.carried.(
        signerAlgorithm := e.carried.signerAlgorithm, signerKeyId := e.carried.signerKeyId,
        signature := e.carried.signature))
  {
  }

  lemma InsertIsAllOrNothing(p: Ports, rows: seq<Row>, failpoint: Failpoint, entry: Entry, sidecarsSecure: bool)
    ensures var s := InsertAndCommit(p, rows, failpoint, entry, sidecarsSecure);
      if Commits(s.outcome)
      then
        && EntryToRow(p, entry).Some? && s.rows == rows + [EntryToRow(p, entry).value]
        && !HashTaken(rows, entry.entryHash)
      else s.rows == rows
  {
  }

  /** Only an attempt that passes the fence and the generation check gets as far as the insert. */
  lemma CommitPassesChecks(p: Ports, rows: seq<Row>, req: Request, adm: Admitted, now: string, sidecarsSecure: bool)
      returns (e: Entry)
    requires Commits(Transact(p, rows, req, adm, now, sidecarsSecure).outcome)
    ensures Fresh(rows, req) && req.expectedGeneration == DurableHead(rows).generation
    ensures Seal(p, req.signer, Draft(req, adm, DurableHead(rows), now)) == Ok(e)
    ensures Transact(p, rows, req, adm, now, sidecarsSecure) ==
      InsertAndCommit(p, rows, req.failpoint, e, sidecarsSecure)
  {
    e := Seal(p, req.signer, Draft(req, adm, DurableHead(rows), now)).value;
  }

  /**
   * The effect of an attempt is all or nothing: an outcome other than APPENDED or one of the
   * two after-commit exceptions leaves the rows alone, and those three add exactly the row
   * that was asked for, with a fresh key, a fresh request id, a fresh hash and the generation
   * that the caller named.
   */
  lemma EffectIsAllOrNothing(p: Ports, rows: seq<Row>, req: Request, adm: Admitted, now: string, sidecarsSecure: bool)
    ensures var s := Transact(p, rows, req, adm, now, sidecarsSecure);
      if Commits(s.outcome) then
        && Fresh(rows, req)
        && req.expectedGeneration == DurableHead(rows).generation
        && |s.rows| == |rows| + 1 && s.rows[..|rows|] == rows
        && RowFor(s.rows[|rows|], req, adm, DurableHead(rows))
        && !HashTaken(rows, s.rows[|rows|].entryHash)
      else s.rows == rows
  {
    if Commits(Transact(p, rows, req, adm, now, sidecarsSecure).outcome) {
      var e := CommitPassesChecks(p, rows, req, adm, now, sidecarsSecure);
      SealKeepsDraft(p, req.signer, Draft(req, adm, DurableHead(rows), now));
      InsertIsAllOrNothing(p, rows, req.failpoint, e, sidecarsSecure);
    } else if Fresh(rows, req) && Seal(p, req.signer, Draft(req, adm, DurableHead(rows), now)).Ok? {
      var e := Seal(p, req.signer, Draft(req, adm, DurableHead(rows), now)).value;
      InsertIsAllOrNothing(p, rows, req.failpoint, e, sidecarsSecure);
    }
  }

  /** A committed row is the stored form of the sealed entry. */
  lemma CommittedRow(p: Ports, rows: seq<Row>, req: Request, adm: Admitted, now: string, secure: bool)
      returns (e: Entry)
    requires Commits(Transact(p, rows, req, adm, now, secure).outcome)
    ensures var s := Transact(p, rows, req, adm, now, secure);
      && Seal(p, req.signer, Draft(req, adm, DurableHead(rows), now)) == Ok(e)
      && |s.rows| == |rows| + 1 && EntryToRow(p, e) == Some(s.rows[|rows|])
  {
    e := CommitPassesChecks(p, rows, req, adm, now, secure);
    InsertIsAllOrNothing(p, rows, req.failpoint, e, secure);
  }

  /**
   * The generation compare-and-swap.  Of the attempts with a fresh key and request id, exactly
   * those that name the current generation get past the check.
   */
  lemma CompareAndSwap(p: Ports, rows: seq<Row>, req: Request, adm: Admitted, now: string, sidecarsSecure: bool)
    requires Fresh(rows, req)
    ensures var o := Transact(p, rows, req, adm, now, sidecarsSecure).outcome;
      req.expectedGeneration != DurableHead(rows).generation <==>
      o == Returned(STALE_GENERATION, None, DurableHead(rows).generation)
  {
  }

  lemma InsertReportsEntry(p: Ports, rows: seq<Row>, failpoint: Failpoint, e: Entry, sidecarsSecure: bool)
    ensures var o := InsertAndCommit(p, rows, failpoint, e, sidecarsSecure).outcome;
      o.Returned? ==> o == Returned(APPENDED, Some(e), e.facts.committedGeneration)
  {
  }

  /** The entry that APPENDED reports is the one that any later read of its row gives. */
  lemma AppendedEntryIsStored(p: Ports, rows: seq<Row>, req: Request, adm: Admitted, now: string, secure: bool)
    requires FaithfulStorage(p) && adm.disposition.JStr?
    requires Commits(Transact(p, rows, req, adm, now, secure).outcome)
    requires Transact(p, rows, req, adm, now, secure).outcome.Returned?
    ensures var s := Transact(p, rows, req, adm, now, secure);
      s.outcome.entry.Some? && |s.rows| == |rows| + 1 && RowToEntry(p, s.rows[|rows|]) == s.outcome.entry
  {
    var e := CommittedRow(p, rows, req, adm, now, secure);
    var _ := CommitPassesChecks(p, rows, req, adm, now, secure);
    SealKeepsDraft(p, req.signer, Draft(req, adm, DurableHead(rows), now));
    StorageRoundTrip(p, e);
    InsertReportsEntry(p, rows, req.failpoint, e, secure);
  }
}
