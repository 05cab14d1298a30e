/**
 * The invariant of a ledger file, row by row: what one appended row keeps, what the
 * idempotency fence answers from then on, and when the row recomputes to its own hash.
 */
module LedgerHistory {
  import opened Wrappers
  import opened Json
  import opened LedgerRecords
  import opened LedgerTransaction
  import opened LedgerChain

  /** The i-th row has sequence and generation i, answers a call for generation i - 1, and links back. */
  ghost predicate LinkedAt(rows: seq<Row>, i: nat)
    requires i < |rows|
  {
    && rows[i].facts.sequence == i + 1
    && rows[i].facts.committedGeneration == i + 1
    && rows[i].carried.expectedGeneration == i
    && rows[i].facts.previousEntryHash == HashBefore(rows, i)
  }

  ghost predicate Linked(rows: seq<Row>) {
    forall i :: 0 <= i < |rows| ==> LinkedAt(rows, i)
  }

  ghost predicate Differ(r: Row, s: Row) {
    && r.facts.idempotencyKey != s.facts.idempotencyKey
    && r.facts.requestId != s.facts.requestId
    && r.entryHash != s.entryHash
  }

  ghost predicate Distinct(rows: seq<Row>) {
    forall i, j :: 0 <= i < j < |rows| ==> Differ(rows[i], rows[j])
  }

  /** The row loads, and its stored documents match its stored document hashes. */
  ghost predicate Documented(p: Ports, row: Row) {
    match RowToEntry(p, row)
    case None => false
    case Some(e) => EnvelopeDefect(p, e).None? && ReceiptDefect(p, e).None?
  }

  /** The row's hash is the digest of a payload with the row's facts. */
  ghost predicate Digested(p: Ports, row: Row) {
    exists h :: Hashable(h) && h.facts == row.facts && p.entryDigest(h) == row.entryHash
  }

  ghost predicate AllDigested(p: Ports, rows: seq<Row>) {
    forall i :: 0 <= i < |rows| ==> Digested(p, rows[i])
  }

  ghost predicate AllDocumented(p: Ports, rows: seq<Row>) {
    forall i :: 0 <= i < |rows| ==> Documented(p, rows[i])
  }

  ghost predicate History(p: Ports, rows: seq<Row>) {
    Linked(rows) && Distinct(rows) && AllDocumented(p, rows) && AllDigested(p, rows)
  }

  // ----- appending one row ------------------------------------------------------------

  lemma ExtendHistory(p: Ports, rows: seq<Row>, row: Row)
    requires History(p, rows) && Documented(p, row) && Digested(p, row)
    requires row.facts.sequence == row.facts.committedGeneration == |rows| + 1 &&
      row.carried.expectedGeneration == |rows|
    requires row.facts.previousEntryHash == HashBefore(rows, |rows|)
    requires FindKey(rows, row.facts.idempotencyKey).None? && FindRequest(rows, row.facts.requestId).None?
    requires !HashTaken(rows, row.entryHash)
    ensures History(p, rows + [row])
  {
    ExtendLinked(rows, row);
    ExtendDistinct(rows, row);
    ExtendDocumented(p, rows, row);
    ExtendDigested(p, rows, row);
  }

  lemma ExtendDocumented(p: Ports, rows: seq<Row>, row: Row)
    requires AllDocumented(p, rows) && Documented(p, row)
    ensures AllDocumented(p, rows + [row])
  {
  }

  lemma ExtendDigested(p: Ports, rows: seq<Row>, row: Row)
    requires AllDigested(p, rows) && Digested(p, row)
    ensures AllDigested(p, rows + [row])
  {
  }

  lemma ExtendLinked(rows: seq<Row>, row: Row)
    requires Linked(rows)
    requires row.facts.sequence == row.facts.committedGeneration == |rows| + 1
    requires row.carried.expectedGeneration == |rows| && row.facts.previousEntryHash == HashBefore(rows, |rows|)
    ensures Linked(rows + [row])
  {
    var all, n := rows + [row], |rows|;
    forall i | 0 <= i < |all| ensures LinkedAt(all, i) {
      if i < n { assert LinkedAt(rows, i); }
    }
  }

  lemma ExtendDistinct(rows: seq<Row>, row: Row)
    requires Distinct(rows) && !HashTaken(rows, row.entryHash)
    requires FindKey(rows, row.facts.idempotencyKey).None? && FindRequest(rows, row.facts.requestId).None?
    ensures Distinct(rows + [row])
  {
    var all, n := rows + [row], |rows|;
    forall i, j | 0 <= i < j < |all| ensures Differ(all[i], all[j]) {
      if j < n { assert Differ(rows[i], rows[j]); }
    }
  }

  lemma ExtendClean(p: Ports, rows: seq<Row>, row: Row, expectedLedger: Option<string>)
    ensures Clean(p, rows + [row], expectedLedger) <==>
      Clean(p, rows, expectedLedger) && DefectAt(p, rows + [row], |rows|, expectedLedger).None?
  {
    var all := rows + [row];
    assert all[..|rows|] == rows;
    PrefixKeepsChecks(p, all, |rows|, expectedLedger);
  }

  lemma AdmittedDocuments(p: Ports, req: Request, adm: Admitted, e: Entry)
    requires Admit(p, req) == Ok(adm)
    requires e.carried.envelopeBytes == req.envelopeBytes && e.facts.envelopeHash == adm.envelopeHash
    requires e.carried.receiptBytes == req.receiptBytes && e.facts.receiptHash == adm.receiptHash
    ensures EnvelopeDefect(p, e).None? && ReceiptDefect(p, e).None?
  {
  }

  lemma StoredDocuments(p: Ports, req: Request, adm: Admitted, e: Entry, row: Row)
    requires FaithfulStorage(p) && Admit(p, req) == Ok(adm) && EntryToRow(p, e) == Some(row)
    requires e.carried.envelopeBytes == req.envelopeBytes && e.facts.envelopeHash == adm.envelopeHash
    requires e.carried.receiptBytes == req.receiptBytes && e.facts.receiptHash == adm.receiptHash
    ensures Documented(p, row)
  {
    StorageRoundTrip(p, e);
    AdmittedDocuments(p, req, adm, RowToEntry(p, row).value);
  }

  /** The generation of a linked ledger is its length. */
  lemma HeadGeneration(rows: seq<Row>)
    requires Linked(rows)
    ensures DurableHead(rows).generation == DurableHead(rows).sequence == |rows|
    ensures DurableHead(rows).hash == HashBefore(rows, |rows|)
  {
    if rows != [] { assert LinkedAt(rows, |rows| - 1); }
  }

  // ----- the idempotency fence --------------------------------------------------------

  /** In a duplicate-free ledger the fence finds the row of a key, wherever it is. */
  lemma {:induction false} FenceFindsRow(rows: seq<Row>, i: nat)
    requires Distinct(rows) && i < |rows|
    ensures FindKey(rows, rows[i].facts.idempotencyKey) == Some(i)
  {
    var j := FindKey(rows, rows[i].facts.idempotencyKey).value;
    assert j < i ==> Differ(rows[j], rows[i]);
    assert i < j ==> Differ(rows[i], rows[j]);
  }

  /** Every attempt of the call, at any time of day, has this outcome and changes nothing. */
  ghost predicate Answers(p: Ports, rows: seq<Row>, req: Request, adm: Admitted, outcome: Outcome) {
    forall now, secure :: Transact(p, rows, req, adm, now, secure) == Step(rows, outcome)
  }

  /** The answer of the fence for a key that is in the ledger. */
  function FenceAnswer(p: Ports, row: Row, adm: Admitted): Outcome {
    if adm.requestHash == row.facts.requestHash
    then Returned(REPLAYED, RowToEntry(p, row), row.facts.committedGeneration)
    else Returned(IDEMPOTENCY_CONFLICT, None, row.facts.committedGeneration)
  }

  lemma FenceAnswers(p: Ports, rows: seq<Row>, i: nat, req: Request, adm: Admitted)
    requires History(p, rows) && i < |rows| && req.idempotencyKey == rows[i].facts.idempotencyKey
    ensures Answers(p, rows, req, adm, FenceAnswer(p, rows[i], adm))
  {
    FenceFindsRow(rows, i);
    assert Documented(p, rows[i]) && LinkedAt(rows, i);
  }

  /** A fresh call that names a past generation. */
  lemma StaleAnswers(p: Ports, rows: seq<Row>, req: Request, adm: Admitted)
    requires Linked(rows) && Fresh(rows, req) && req.expectedGeneration != |rows|
    ensures Answers(p, rows, req, adm, Returned(STALE_GENERATION, None, |rows|))
  {
    HeadGeneration(rows);
  }

  // ----- when a stored row verifies ---------------------------------------------------

  /** The signer's answer does not fool Python's `!=` on the declared and the returned metadata. */
  ghost predicate ConsistentMetadata(declared: Json, returned: Json) {
    PyEqual(returned, declared) ==> returned == declared && declared != EMPTY_OBJECT
  }

  /** What is hashed is what is stored exactly for consistent metadata. */
  lemma HashedIsStoredIff(declared: Json, returned: Json)
    requires declared.JObj?
    ensures HashedMetadata(declared, returned) == returned <==> ConsistentMetadata(declared, returned)
  {
  }

  /** A caller can check this of the sealed entry before it is stored. */
  ghost predicate SoundEntry(signer: Option<Signer>, e: Entry) {
    && e.disposition.JStr?
    && (signer.Some? ==> ConsistentMetadata(DeclaredMetadata(signer.value), e.signerMetadata))
  }

  lemma SealedHash(p: Ports, signer: Option<Signer>, draft: Entry, e: Entry) returns (hashed: Entry)
    requires Seal(p, signer, draft) == Ok(e) && draft.signerMetadata == JNull
    ensures EntryHash(p, hashed) == Some(e.entryHash)
    ensures hashed == e.(signerMetadata := hashed.signerMetadata)
    ensures hashed.signerMetadata == e.signerMetadata <==>
      (signer.Some? ==> ConsistentMetadata(DeclaredMetadata(signer.value), e.signerMetadata))
  {
    match signer
    case None => hashed := e;
      assert Payload(hashed) == Payload(draft);
    case Some(s) =>
      var metadata := HashedMetadata(DeclaredMetadata(s), e.signerMetadata);
      hashed := e.(signerMetadata := metadata);
      assert Payload(hashed) == Payload(draft.(signerMetadata := metadata));
      HashedIsStoredIff(DeclaredMetadata(s), e.signerMetadata);
  }

  lemma SealedIsDigested(p: Ports, signer: Option<Signer>, draft: Entry, e: Entry, row: Row)
    requires Seal(p, signer, draft) == Ok(e) && draft.signerMetadata == JNull && EntryToRow(p, e) == Some(row)
    ensures Digested(p, row)
  {
    var hashed := SealedHash(p, signer, draft, e);
    var h := Payload(hashed);
    assert Hashable(h) && h.facts == row.facts && p.entryDigest(h) == row.entryHash;
  }

  /** The hash of the next entry is not yet in the ledger, as its payload has a new sequence. */
  lemma NextHashIsFree(p: Ports, rows: seq<Row>, signer: Option<Signer>, draft: Entry, e: Entry)
    requires History(p, rows) && CollisionFree(p)
    requires Seal(p, signer, draft) == Ok(e) && draft.signerMetadata == JNull && draft.facts.sequence == |rows| + 1
    ensures !HashTaken(rows, e.entryHash)
  {
    var hashed := SealedHash(p, signer, draft, e);
    SealKeepsDraft(p, signer, draft);
    forall i | 0 <= i < |rows| ensures rows[i].entryHash != e.entryHash {
      assert LinkedAt(rows, i) && Digested(p, rows[i]);
      var h :| Hashable(h) && h.facts == rows[i].facts && p.entryDigest(h) == rows[i].entryHash;
      assert !Collides(p, h, Payload(hashed));
    }
  }

  /** The stored row recomputes to its stored hash exactly when the entry was sound. */
  lemma StoredHashIff(p: Ports, signer: Option<Signer>, draft: Entry, e: Entry, row: Row)
    requires FaithfulStorage(p) && CollisionFree(p)
    requires Seal(p, signer, draft) == Ok(e) && draft.signerMetadata == JNull && EntryToRow(p, e) == Some(row)
    ensures RowToEntry(p, row).Some?
    ensures EntryHash(p, RowToEntry(p, row).value) == Some(e.entryHash) <==> SoundEntry(signer, e)
  {
    StorageRoundTrip(p, e);
    var loaded := RowToEntry(p, row).value;
    var hashed := SealedHash(p, signer, draft, e);
    if EntryHash(p, loaded) == Some(e.entryHash) {
      assert !Collides(p, Payload(loaded), Payload(hashed));
    }
  }

  lemma LoadKeepsFacts(p: Ports, row: Row)
    requires RowToEntry(p, row).Some?
    ensures RowToEntry(p, row).value.facts == row.facts && RowToEntry(p, row).value.entryHash == row.entryHash
  {
  }

  /** A documented row in its place fails only the hash check or the ledger id check. */
  lemma DefectIff(p: Ports, row: Row, sequence: int, lastGeneration: int, previousHash: string,
      expectedLedger: Option<string>)
    requires Documented(p, row) && row.facts.sequence == sequence
    requires row.facts.committedGeneration > lastGeneration && row.facts.previousEntryHash == previousHash
    ensures Defect(p, row, sequence, lastGeneration, previousHash, expectedLedger).None? <==>
      EntryHash(p, RowToEntry(p, row).value) == Some(row.entryHash)
      && (expectedLedger.Some? ==> row.facts.ledgerId == expectedLedger.value)
  {
    LoadKeepsFacts(p, row);
  }

  lemma LastRowIsInPlace(p: Ports, rows: seq<Row>)
    requires History(p, rows) && rows != []
    ensures var n := |rows| - 1; var row := rows[n];
      && Documented(p, row) && row.facts.sequence == n + 1
      && row.facts.committedGeneration > GenerationBefore(rows, n) && row.facts.previousEntryHash == HashBefore(rows, n)
  {
    var n := |rows| - 1;
    assert LinkedAt(rows, n) && (n > 0 ==> LinkedAt(rows, n - 1));
  }

  /** The chain check of a sealed row that stands in its place. */
  lemma SealedRowIsCleanIff(p: Ports, signer: Option<Signer>, draft: Entry, e: Entry, row: Row, sequence: int,
                            lastGeneration: int, previousHash: string, expectedLedger: Option<string>)
    requires FaithfulStorage(p) && CollisionFree(p)
    requires Seal(p, signer, draft) == Ok(e) && draft.signerMetadata == JNull && EntryToRow(p, e) == Some(row)
    requires Documented(p, row) && row.facts.sequence == sequence
    requires row.facts.committedGeneration > lastGeneration && row.facts.previousEntryHash == previousHash
    ensures Defect(p, row, sequence, lastGeneration, previousHash, expectedLedger).None? <==>
      SoundEntry(signer, e) && (expectedLedger.Some? ==> row.facts.ledgerId == expectedLedger.value)
  {
    StoredHashIff(p, signer, draft, e, row);
    DefectIff(p, row, sequence, lastGeneration, previousHash, expectedLedger);
  }

  /** The chain check of a row that has just been appended. */
  lemma AppendedRowIsCleanIff(p: Ports, rows: seq<Row>, signer: Option<Signer>, draft: Entry, e: Entry, row: Row,
                              expectedLedger: Option<string>)
    requires FaithfulStorage(p) && CollisionFree(p) && History(p, rows + [row])
    requires Seal(p, signer, draft) == Ok(e) && draft.signerMetadata == JNull && EntryToRow(p, e) == Some(row)
    ensures DefectAt(p, rows + [row], |rows|, expectedLedger).None? <==>
      SoundEntry(signer, e) && (expectedLedger.Some? ==> row.facts.ledgerId == expectedLedger.value)
  {
    var all, n := rows + [row], |rows|;
    LastRowIsInPlace(p, all);
    SealedRowIsCleanIff(p, signer, draft, e, row, n + 1, GenerationBefore(all, n), HashBefore(all, n), expectedLedger);
  }

  /**
   * Two signers whose entries do not verify: one declares no metadata and returns an empty
   * object, one declares the number 1 and returns `true`, which Python calls equal.
   */
  lemma InconsistentMetadataExists()
    ensures !ConsistentMetadata(EMPTY_OBJECT, EMPTY_OBJECT) && Canonical(EMPTY_OBJECT)
    ensures Canonical(JObj(map["version" := JInt(1)])) && Canonical(JObj(map["version" := JBool(true)]))
    ensures !ConsistentMetadata(JObj(map["version" := JInt(1)]), JObj(map["version" := JBool(true)]))
  {
    var declared, returned := JObj(map["version" := JInt(1)]), JObj(map["version" := JBool(true)]);
    assert Number(JInt(1)) == Number(JBool(true));
    assert PyEqual(returned.members["version"], declared.members["version"]);
    assert PyEqual(returned, declared);
    assert returned.members["version"] != declared.members["version"];
  }
}
