/**
 * The two checkers of the ledger, `verify_chain` and `verify_external_anchor`, and what their
 * answers are worth: tamper evidence down to a hash collision, and the part that only an
 * external anchor can see.
 */
module LedgerChain {
  import opened Wrappers
  import opened Json
  import opened LedgerRecords

  datatype Verdict =
    | VALID
    | EMPTY
    | LEDGER_ID_MISMATCH
    | SEQUENCE_GAP
    | GENERATION_NON_MONOTONIC
    | PREVIOUS_HASH_MISMATCH
    | ENVELOPE_TAMPERED
    | ENVELOPE_CORRUPT
    | RECEIPT_TAMPERED
    | RECEIPT_CORRUPT
    | ENTRY_HASH_MISMATCH
    | CHECKER_RAISED  // an exception that verify_chain does not catch

  // ----- one row ----------------------------------------------------------------------

  /** Lines 859-883: the stored envelope bytes against the stored envelope hash. */
  function EnvelopeDefect(p: Ports, e: Entry): Option<Verdict> {
    match p.decode(e.carried.envelopeBytes)
    case None => Some(ENVELOPE_CORRUPT)
    case Some(env) =>
      if !Canonical(env) then Some(ENVELOPE_CORRUPT)
      else if p.digest(env) != e.facts.envelopeHash then Some(ENVELOPE_TAMPERED)
      else None
  }

  /** Lines 885-909: the stored receipt bytes against the stored receipt hash. */
  function ReceiptDefect(p: Ports, e: Entry): Option<Verdict> {
    match p.decode(e.carried.receiptBytes)
    case None => Some(RECEIPT_CORRUPT)
    case Some(rec) =>
      if !rec.JObj? then Some(RECEIPT_CORRUPT)
      else if Get(rec, "receipt_hash") != Some(JStr(e.facts.receiptHash)) then Some(RECEIPT_TAMPERED)
      else None
  }

  /** The first check that `row` fails after a prefix that ended in `lastGeneration` and `previousHash`. */
  function Defect(p: Ports, row: Row, expectedSequence: int, lastGeneration: int, previousHash: string,
                  expectedLedger: Option<string>): Option<Verdict>
  {
    match RowToEntry(p, row)
    case None => Some(CHECKER_RAISED)
    case Some(e) =>
      if expectedLedger.Some? && e.facts.ledgerId != expectedLedger.value then Some(LEDGER_ID_MISMATCH)
      else if e.facts.sequence != expectedSequence then Some(SEQUENCE_GAP)
      else if e.facts.committedGeneration <= lastGeneration then Some(GENERATION_NON_MONOTONIC)
      else if e.facts.previousEntryHash != previousHash then Some(PREVIOUS_HASH_MISMATCH)
      else if EnvelopeDefect(p, e).Some? then EnvelopeDefect(p, e)
      else if ReceiptDefect(p, e).Some? then ReceiptDefect(p, e)
      else match EntryHash(p, e)
        case None => Some(CHECKER_RAISED)
        case Some(hash) => if hash != e.entryHash then Some(ENTRY_HASH_MISMATCH) else None
  }

  function GenerationBefore(rows: seq<Row>, i: nat): int
    requires i <= |rows|
  {
    if i == 0 then 0 else rows[i - 1].facts.committedGeneration
  }

  function HashBefore(rows: seq<Row>, i: nat): string
    requires i <= |rows|
  {
    if i == 0 then GENESIS else rows[i - 1].entryHash
  }

  function DefectAt(p: Ports, rows: seq<Row>, i: nat, expectedLedger: Option<string>): Option<Verdict>
    requires i < |rows|
  {
    Defect(p, rows[i], i + 1, GenerationBefore(rows, i), HashBefore(rows, i), expectedLedger)
  }

  /** Every row passes every check: what VALID or EMPTY means. */
  ghost predicate Clean(p: Ports, rows: seq<Row>, expectedLedger: Option<string>) {
    forall i :: 0 <= i < |rows| ==> DefectAt(p, rows, i, expectedLedger).None?
  }

  // ----- what stands behind a verdict -------------------------------------------------

  /** The claim ceiling and the signer metadata that a row's text columns hold. */
  ghost predicate Holds(p: Ports, row: Row, claims: seq<Json>, metadata: Json) {
    && p.loads(row.claimCeilingText).Some? && p.tupleOf(p.loads(row.claimCeilingText).value) == Some(claims)
    && if row.signerMetadataText == None || row.signerMetadataText == Some("") then metadata == JNull
       else p.loads(row.signerMetadataText.value) == Some(metadata)
  }

  ghost predicate Loads(p: Ports, row: Row) {
    exists claims, metadata :: Holds(p, row, claims, metadata)
  }

  predicate InLedger(row: Row, expectedLedger: Option<string>) {
    expectedLedger == None || expectedLedger == Some(row.facts.ledgerId)
  }

  predicate Rises(rows: seq<Row>, i: nat)
    requires i < |rows|
  {
    rows[i].facts.committedGeneration > if i == 0 then 0 else rows[i - 1].facts.committedGeneration
  }

  predicate LinksBack(rows: seq<Row>, i: nat)
    requires i < |rows|
  {
    rows[i].facts.previousEntryHash == if i == 0 then GENESIS else rows[i - 1].entryHash
  }

  /** The envelope bytes decode to a document that can be hashed. */
  ghost predicate EnvelopeReads(p: Ports, row: Row) {
    p.decode(row.carried.envelopeBytes).Some? && Canonical(p.decode(row.carried.envelopeBytes).value)
  }

  /** They decode to the very document whose digest is stored. */
  ghost predicate EnvelopeIsStored(p: Ports, row: Row) {
    exists document :: p.decode(row.carried.envelopeBytes) == Some(document) && Canonical(document)
                       && p.digest(document) == row.facts.envelopeHash
  }

  /** The receipt bytes decode to an object. */
  ghost predicate ReceiptReads(p: Ports, row: Row) {
    p.decode(row.carried.receiptBytes).Some? && p.decode(row.carried.receiptBytes).value.JObj?
  }

  /** They decode to an object that carries the stored receipt hash. */
  ghost predicate ReceiptIsStored(p: Ports, row: Row) {
    exists members :: p.decode(row.carried.receiptBytes) == Some(JObj(members))
                      && "receipt_hash" in members && members["receipt_hash"] == JStr(row.facts.receiptHash)
  }

  function PayloadOf(row: Row, claims: seq<Json>, metadata: Json): HashedFields {
    HashedFields(ENTRY_SCHEMA, row.facts, JStr(row.disposition), claims, metadata)
  }

  /** The loaded fields can be hashed. */
  ghost predicate CanBeHashed(p: Ports, row: Row) {
    exists claims, metadata :: Holds(p, row, claims, metadata)
      && (forall k :: 0 <= k < |claims| ==> Canonical(claims[k])) && Canonical(metadata)
  }

  /** And their digest is the stored entry hash. */
  ghost predicate Recomputes(p: Ports, row: Row) {
    exists claims, metadata :: Holds(p, row, claims, metadata)
      && (forall k :: 0 <= k < |claims| ==> Canonical(claims[k])) && Canonical(metadata)
      && p.entryDigest(PayloadOf(row, claims, metadata)) == row.entryHash
  }

  /** What the checker asks of a row, in its order. */
  datatype Checks = Checks(
    loads: bool, inLedger: bool, sequenced: bool, rises: bool, linked: bool, envelopeReads: bool, envelopeStored: bool,
    receiptReads: bool, receiptStored: bool, hashable: bool, recomputes: bool)

  ghost function ChecksOf(p: Ports, rows: seq<Row>, i: nat, expectedLedger: Option<string>): Checks
    requires i < |rows|
  {
    var row := rows[i];
    Checks(Loads(p, row), InLedger(row, expectedLedger),
           row.facts.sequence == i + 1, Rises(rows, i), LinksBack(rows, i),
           EnvelopeReads(p, row), EnvelopeIsStored(p, row), ReceiptReads(p, row), ReceiptIsStored(p, row),
           CanBeHashed(p, row), Recomputes(p, row))
  }

  /** The row stands: it loads, is in its place, and its documents and its hash are the stored ones. */
  ghost predicate Stands(p: Ports, rows: seq<Row>, i: nat, expectedLedger: Option<string>)
    requires i < |rows|
  {
    && Loads(p, rows[i])
    && InLedger(rows[i], expectedLedger)
    && rows[i].facts.sequence == i + 1
    && Rises(rows, i)
    && LinksBack(rows, i)
    && EnvelopeIsStored(p, rows[i])
    && ReceiptIsStored(p, rows[i])
    && Recomputes(p, rows[i])
  }

  /** What fails first in a row with this verdict: everything asked before holds, this does not. */
  predicate FailsOn(c: Checks, verdict: Verdict) {
    var located := c.loads && c.inLedger && c.sequenced;
    var placed := located && c.rises && c.linked;
    var documented := placed && c.envelopeStored && c.receiptStored;
    match verdict
    case LEDGER_ID_MISMATCH => c.loads && !c.inLedger
    case SEQUENCE_GAP => c.loads && c.inLedger && !c.sequenced
    case GENERATION_NON_MONOTONIC => located && !c.rises
    case PREVIOUS_HASH_MISMATCH => located && c.rises && !c.linked
    case ENVELOPE_CORRUPT => placed && !c.envelopeReads
    case ENVELOPE_TAMPERED => placed && c.envelopeReads && !c.envelopeStored
    case RECEIPT_CORRUPT => placed && c.envelopeStored && !c.receiptReads
    case RECEIPT_TAMPERED => placed && c.envelopeStored && c.receiptReads && !c.receiptStored
    case ENTRY_HASH_MISMATCH => documented && c.hashable && !c.recomputes
    case CHECKER_RAISED => !c.loads || (documented && !c.hashable)
    case VALID => false
    case EMPTY => false
  }

  lemma LoadIff(p: Ports, row: Row)
    ensures RowToEntry(p, row).Some? <==> Loads(p, row)
    ensures forall claims, metadata :: Holds(p, row, claims, metadata) ==>
      RowToEntry(p, row) == Some(Entry(row.facts, JStr(row.disposition), claims, metadata, row.carried, row.entryHash))
  {
    if RowToEntry(p, row).Some? {
      var e := RowToEntry(p, row).value;
      assert Holds(p, row, e.claimCeiling, e.signerMetadata);
    }
  }

  lemma DocumentsIff(p: Ports, e: Entry, row: Row)
    requires e.facts == row.facts && e.carried == row.carried
    ensures EnvelopeDefect(p, e) ==
      if !EnvelopeReads(p, row) then Some(ENVELOPE_CORRUPT)
      else if !EnvelopeIsStored(p, row) then Some(ENVELOPE_TAMPERED) else None
    ensures ReceiptDefect(p, e) ==
      if !ReceiptReads(p, row) then Some(RECEIPT_CORRUPT)
      else if !ReceiptIsStored(p, row) then Some(RECEIPT_TAMPERED) else None
  {
    assert ReceiptReads(p, row) ==>
      p.decode(row.carried.receiptBytes) == Some(JObj(p.decode(row.carried.receiptBytes).value.members));
  }

  lemma RecomputesIff(p: Ports, row: Row, claims: seq<Json>, metadata: Json, e: Entry)
    requires Holds(p, row, claims, metadata)
    requires e == Entry(row.facts, JStr(row.disposition), claims, metadata, row.carried, row.entryHash)
    ensures EntryHash(p, e).Some? <==> CanBeHashed(p, row)
    ensures EntryHash(p, e) == Some(row.entryHash) <==> Recomputes(p, row)
  {
    LoadIff(p, row);
    assert Payload(e) == PayloadOf(row, claims, metadata);
    assert Canonical(JArr(claims)) <==> forall k :: 0 <= k < |claims| ==> Canonical(claims[k]);
  }

  /** The checker, as a cascade over what it asks. */
  function FirstFailure(c: Checks): Option<Verdict> {
    if !c.loads then Some(CHECKER_RAISED)
    else if !c.inLedger then Some(LEDGER_ID_MISMATCH)
    else if !c.sequenced then Some(SEQUENCE_GAP)
    else if !c.rises then Some(GENERATION_NON_MONOTONIC)
    else if !c.linked then Some(PREVIOUS_HASH_MISMATCH)
    else if !c.envelopeReads then Some(ENVELOPE_CORRUPT)
    else if !c.envelopeStored then Some(ENVELOPE_TAMPERED)
    else if !c.receiptReads then Some(RECEIPT_CORRUPT)
    else if !c.receiptStored then Some(RECEIPT_TAMPERED)
    else if !c.hashable then Some(CHECKER_RAISED)
    else if !c.recomputes then Some(ENTRY_HASH_MISMATCH)
    else None
  }

  lemma DefectIsFirstFailure(p: Ports, rows: seq<Row>, i: nat, expectedLedger: Option<string>)
    requires i < |rows|
    ensures DefectAt(p, rows, i, expectedLedger) == FirstFailure(ChecksOf(p, rows, i, expectedLedger))
  {
    LoadIff(p, rows[i]);
    if Loads(p, rows[i]) {
      var claims, metadata :| Holds(p, rows[i], claims, metadata);
      var e := RowToEntry(p, rows[i]).value;
      DocumentsIff(p, e, rows[i]);
      RecomputesIff(p, rows[i], claims, metadata, e);
    }
  }

  lemma FirstFailureIff(c: Checks, v: Verdict)
    requires (c.envelopeStored ==> c.envelopeReads) && (c.receiptStored ==> c.receiptReads) &&
      (c.recomputes ==> c.hashable)
    ensures FirstFailure(c) == Some(v) <==> FailsOn(c, v)
  {
  }

  /** The verdict on a row names what fails in it first; without a verdict the row stands. */
  lemma VerdictIff(p: Ports, rows: seq<Row>, i: nat, expectedLedger: Option<string>, v: Verdict)
    requires i < |rows|
    ensures DefectAt(p, rows, i, expectedLedger).None? <==> Stands(p, rows, i, expectedLedger)
    ensures DefectAt(p, rows, i, expectedLedger) == Some(v) <==> FailsOn(ChecksOf(p, rows, i, expectedLedger), v)
  {
    DefectIsFirstFailure(p, rows, i, expectedLedger);
    StoredReads(p, rows[i]);
    FirstFailureIff(ChecksOf(p, rows, i, expectedLedger), v);
  }

  lemma StoredReads(p: Ports, row: Row)
    ensures EnvelopeIsStored(p, row) ==> EnvelopeReads(p, row)
    ensures ReceiptIsStored(p, row) ==> ReceiptReads(p, row)
    ensures Recomputes(p, row) ==> CanBeHashed(p, row)
  {
  }

  // ----- the chain --------------------------------------------------------------------

  datatype Report = Report(verdict: Verdict, entriesCount: nat, headSequence: int, headGeneration: int,
    headHash: Option<string>)

  /** The first `n` rows stand. */
  ghost predicate AllStand(p: Ports, rows: seq<Row>, n: nat, expectedLedger: Option<string>)
    requires n <= |rows|
  {
    forall i :: 0 <= i < n ==> Stands(p, rows, i, expectedLedger)
  }

  /** All rows before the `i`-th stand, and that one fails first on `verdict`. */
  ghost predicate FallsFirst(p: Ports, rows: seq<Row>, i: nat, expectedLedger: Option<string>, verdict: Verdict) {
    && i < |rows|
    && AllStand(p, rows, i, expectedLedger)
    && forall k :: i <= k <= i ==> FailsOn(ChecksOf(p, rows, k, expectedLedger), verdict)
  }

  /** Passing the checks is standing. */
  lemma CleanIff(p: Ports, rows: seq<Row>, expectedLedger: Option<string>)
    ensures Clean(p, rows, expectedLedger) <==> AllStand(p, rows, |rows|, expectedLedger)
  {
    forall i | 0 <= i < |rows|
      ensures DefectAt(p, rows, i, expectedLedger).None? <==> Stands(p, rows, i, expectedLedger)
    {
      VerdictIff(p, rows, i, expectedLedger, VALID);
    }
  }

  /** The checks of one row, which the loop makes in this order. */
  method CheckRow(p: Ports, rows: seq<Row>, i: nat, expectedSequence: int, lastGeneration: int, previousHash: string,
                  expectedLedger: Option<string>) returns (defect: Option<Verdict>)
    requires i < |rows| && AllStand(p, rows, i, expectedLedger)
    requires expectedSequence == i + 1
    requires lastGeneration == GenerationBefore(rows, i) && previousHash == HashBefore(rows, i)
    ensures defect.None? ==> AllStand(p, rows, i + 1, expectedLedger)
    ensures defect.Some? ==>
      && defect.value != VALID && defect.value != EMPTY
      && FallsFirst(p, rows, i, expectedLedger, defect.value) && !AllStand(p, rows, |rows|, expectedLedger)
  {
    defect := Defect(p, rows[i], expectedSequence, lastGeneration, previousHash, expectedLedger);
    VerdictIff(p, rows, i, expectedLedger, if defect.Some? then defect.value else VALID);
  }

  /**
   * `verify_chain`: VALID for exactly the non-empty ledgers all of whose rows stand, and otherwise
   * what fails first in the first row that does not.
   */
  method VerifyChain(p: Ports, rows: seq<Row>, expectedLedger: Option<string>) returns (report: Report)
    ensures report.entriesCount == |rows|
    ensures report.verdict == EMPTY <==> rows == []
    ensures report.verdict == EMPTY ==> report == Report(EMPTY, 0, 0, 0, None)
    ensures report.verdict == VALID <==> rows != [] && AllStand(p, rows, |rows|, expectedLedger)
    ensures report.verdict == VALID ==>
      var head := rows[|rows| - 1];
      report == Report(VALID, |rows|, |rows|, head.facts.committedGeneration, Some(head.entryHash))
    ensures report.verdict != VALID && report.verdict != EMPTY ==>
      exists i: nat :: FallsFirst(p, rows, i, expectedLedger, report.verdict)
        && report.headSequence == rows[i].facts.sequence && report.headGeneration == rows[i].facts.committedGeneration
        && report.headHash == Some(rows[i].entryHash)
  {
    if rows == [] {
      return Report(EMPTY, 0, 0, 0, None);
    }
    var expectedSequence := 1;
    var previousHash := GENESIS;
    var lastGeneration := 0;
    var lastHash: Option<string> := None;
    for i := 0 to |rows|
      invariant expectedSequence == i + 1
      invariant previousHash == HashBefore(rows, i) && lastGeneration == GenerationBefore(rows, i)
      invariant i > 0 ==> lastHash == Some(previousHash)
      invariant AllStand(p, rows, i, expectedLedger)
    {
      var defect := CheckRow(p, rows, i, expectedSequence, lastGeneration, previousHash, expectedLedger);
      if defect.Some? {
        return Report(defect.value, |rows|, rows[i].facts.sequence, rows[i].facts.committedGeneration,
                      Some(rows[i].entryHash));
      }
      expectedSequence := expectedSequence + 1;
      previousHash := rows[i].entryHash;
      lastGeneration := rows[i].facts.committedGeneration;
      lastHash := Some(rows[i].entryHash);
    }
    return Report(VALID, |rows|, expectedSequence - 1, lastGeneration, lastHash);
  }

  /** A check looks only at the rows up to its own. */
  lemma PrefixKeepsChecks(p: Ports, rows: seq<Row>, n: nat, expectedLedger: Option<string>)
    requires n <= |rows|
    ensures forall i :: 0 <= i < n ==> DefectAt(p, rows[..n], i, expectedLedger) == DefectAt(p, rows, i, expectedLedger)
  {
  }

  // ----- tamper evidence --------------------------------------------------------------

  /** Both ledgers load, have one length, and agree on the 14 hashed fields of every entry. */
  ghost predicate Agree(p: Ports, a: seq<Row>, b: seq<Row>) {
    && |a| == |b|
    && forall i :: 0 <= i < |a| ==> AgreeAt(p, a[i], b[i])
  }

  /** The fields of an entry that are hashed; the fourteenth is the schema, which is a constant. */
  predicate SameHashedFields(e: Entry, f: Entry) {
    && e.facts.ledgerId == f.facts.ledgerId
    && e.facts.sequence == f.facts.sequence
    && e.facts.committedGeneration == f.facts.committedGeneration
    && e.facts.requestId == f.facts.requestId
    && e.facts.idempotencyKey == f.facts.idempotencyKey
    && e.facts.requestHash == f.facts.requestHash
    && e.facts.envelopeHash == f.facts.envelopeHash
    && e.facts.receiptHash == f.facts.receiptHash
    && e.disposition == f.disposition
    && e.claimCeiling == f.claimCeiling
    && e.facts.sourceSnapshotHash == f.facts.sourceSnapshotHash
    && e.facts.previousEntryHash == f.facts.previousEntryHash
    && e.signerMetadata == f.signerMetadata
  }

  ghost predicate AgreeAt(p: Ports, r: Row, s: Row) {
    match (RowToEntry(p, r), RowToEntry(p, s))
    case (Some(e), Some(f)) => SameHashedFields(e, f) && e.entryHash == f.entryHash
    case _ => false
  }

  /** What a passed row check says about the row, in terms of its loaded entry. */
  lemma CleanRow(p: Ports, rows: seq<Row>, i: nat, expectedLedger: Option<string>)
    requires i < |rows| && DefectAt(p, rows, i, expectedLedger).None?
    ensures RowToEntry(p, rows[i]).Some?
    ensures var e := RowToEntry(p, rows[i]).value;
      && e.facts.sequence == i + 1 && rows[i].facts.sequence == i + 1
      && e.facts.previousEntryHash == HashBefore(rows, i)
      && Hashable(Payload(e)) && p.entryDigest(Payload(e)) == e.entryHash == rows[i].entryHash
  {
  }

  /** A cut tail is invisible to the chain check: every prefix of a clean ledger is clean. */
  lemma PrefixIsClean(p: Ports, rows: seq<Row>, n: nat, expectedLedger: Option<string>)
    requires n <= |rows| && Clean(p, rows, expectedLedger)
    ensures Clean(p, rows[..n], expectedLedger)
  {
    PrefixKeepsChecks(p, rows, n, expectedLedger);
  }

  /** One link back: equal hashes of two clean rows mean equal payloads, or a collision. */
  lemma EqualHashesLinkBack(p: Ports, a: seq<Row>, m: nat, b: seq<Row>, n: nat, lidA: Option<string>,
      lidB: Option<string>)
      returns (x: HashedFields, y: HashedFields)
    requires m < |a| && n < |b| && DefectAt(p, a, m, lidA).None? && DefectAt(p, b, n, lidB).None?
    requires a[m].entryHash == b[n].entryHash
    ensures Collides(p, x, y) || (AgreeAt(p, a[m], b[n]) && m == n && HashBefore(a, m) == HashBefore(b, n))
  {
    CleanRow(p, a, m, lidA);
    CleanRow(p, b, n, lidB);
    var e, f := RowToEntry(p, a[m]).value, RowToEntry(p, b[n]).value;
    x, y := Payload(e), Payload(f);
  }

  lemma {:induction false} AgreeDownFrom(p: Ports, a: seq<Row>, b: seq<Row>, n: nat, lidA: Option<string>,
      lidB: Option<string>)
      returns (x: HashedFields, y: HashedFields)
    requires n < |a| && n < |b| && Clean(p, a, lidA) && Clean(p, b, lidB)
    requires a[n].entryHash == b[n].entryHash
    ensures Collides(p, x, y) || forall i :: 0 <= i <= n ==> AgreeAt(p, a[i], b[i])
  {
    x, y := EqualHashesLinkBack(p, a, n, b, n, lidA, lidB);
    if n > 0 && !Collides(p, x, y) {
      x, y := AgreeDownFrom(p, a, b, n - 1, lidA, lidB);
    }
  }

  /**
   * The head hash fixes the chain.  Two clean chains with one head hash agree on every hashed
   * field of every entry, or else two different payloads with one digest can be exhibited.
   */
  lemma HeadHashFixesChain(p: Ports, a: seq<Row>, b: seq<Row>, lidA: Option<string>, lidB: Option<string>)
      returns (x: HashedFields, y: HashedFields)
    requires a != [] && b != [] && Clean(p, a, lidA) && Clean(p, b, lidB)
    requires a[|a| - 1].entryHash == b[|b| - 1].entryHash
    ensures Agree(p, a, b) || Collides(p, x, y)
  {
    x, y := EqualHashesLinkBack(p, a, |a| - 1, b, |b| - 1, lidA, lidB);
    if !Collides(p, x, y) {
      x, y := AgreeDownFrom(p, a, b, |a| - 1, lidA, lidB);
    }
  }

  /**
   * Tamper evidence: under a collision-free digest, a chain that `verify_chain` calls VALID
   * cannot differ in any hashed field, at any position, from the VALID chain whose head hash
   * was written down.
   */
  lemma TamperEvidence(p: Ports, original: seq<Row>, found: seq<Row>, lidA: Option<string>, lidB: Option<string>)
    requires CollisionFree(p)
    requires original != [] && found != [] && Clean(p, original, lidA)
    requires original[|original| - 1].entryHash == found[|found| - 1].entryHash
    requires !Agree(p, original, found)
    ensures !Clean(p, found, lidB)
  {
    if Clean(p, found, lidB) {
      var x, y := HeadHashFixesChain(p, original, found, lidA, lidB);
    }
  }

  // ----- the external anchor ----------------------------------------------------------

  datatype AnchorReport = AnchorReport(status: string, headHash: Option<string>)

  /** The value that is anchored, with its constant domain and schema left out. */
  datatype Anchored = Anchored(ledgerId: string, generation: int, sequence: int, entryHash: string)

  /** `ledgerId` overrides the stored id unless it is empty. */
  function AnchorPayload(row: Row, ledgerId: Option<string>): Anchored {
    var target := if ledgerId.Some? && ledgerId.value != "" then ledgerId.value else row.facts.ledgerId;
    Anchored(target, row.facts.committedGeneration, row.facts.sequence, row.entryHash)
  }

  /** `verify_external_anchor`, with the verifier port already applied to the anchor. */
  function VerifyAnchor(verifier: Option<Anchored -> string>, rows: seq<Row>, ledgerId: Option<string>): AnchorReport {
    if verifier.None? || rows == [] then AnchorReport("ANCHOR_UNAVAILABLE", None)
    else
      var head := rows[|rows| - 1];
      var status := verifier.value(AnchorPayload(head, ledgerId));
      AnchorReport(if status in {"VERIFIED", "ANCHOR_UNAVAILABLE", "UNVERIFIABLE"} then status else "UNVERIFIABLE",
                   Some(head.entryHash))
  }

  /**
   * What the answers are: unavailable without a verifier or an entry; otherwise the verifier's own
   * answer about the head row under the given or the stored ledger id, and UNVERIFIABLE for an
   * answer that is none of the three.
   */
  lemma AnchorAnswers(verifier: Anchored -> string, rows: seq<Row>, ledgerId: Option<string>)
    ensures VerifyAnchor(None, rows, ledgerId) == AnchorReport("ANCHOR_UNAVAILABLE", None)
    ensures VerifyAnchor(Some(verifier), [], ledgerId) == AnchorReport("ANCHOR_UNAVAILABLE", None)
    ensures rows != [] ==>
      var head, report := rows[|rows| - 1], VerifyAnchor(Some(verifier), rows, ledgerId);
      var id := if ledgerId == None || ledgerId == Some("") then head.facts.ledgerId else ledgerId.value;
      var answer := verifier(Anchored(id, head.facts.committedGeneration, head.facts.sequence, head.entryHash));
      && report.headHash == Some(head.entryHash)
      && (report.status == "VERIFIED" <==> answer == "VERIFIED")
      && (report.status == "ANCHOR_UNAVAILABLE" <==> answer == "ANCHOR_UNAVAILABLE")
      && (report.status == "UNVERIFIABLE" <==> answer != "VERIFIED" && answer != "ANCHOR_UNAVAILABLE")
  {
    assert "VERIFIED"[0] == 'V' && "ANCHOR_UNAVAILABLE"[0] == 'A' && "UNVERIFIABLE"[0] == 'U';
  }

  /** The verifier says VERIFIED for the payload that was anchored and for no other. */
  ghost predicate AcceptsOnly(verifier: Anchored -> string, anchored: Anchored) {
    forall payload :: verifier(payload) == "VERIFIED" ==> payload == anchored
  }

  /**
   * VALID plus VERIFIED: the ledger found has the length and the hashed fields of the ledger
   * at anchoring time (or a digest collision).  In particular no tail has been cut.
   */
  lemma AnchorFixesLedger(p: Ports, anchoredRows: seq<Row>, rows: seq<Row>, verifier: Anchored -> string,
                          ledgerAt: Option<string>, ledgerId: Option<string>, lidA: Option<string>,
                            lidB: Option<string>)
      returns (x: HashedFields, y: HashedFields)
    requires anchoredRows != [] && Clean(p, anchoredRows, lidA) && Clean(p, rows, lidB)
    requires AcceptsOnly(verifier, AnchorPayload(anchoredRows[|anchoredRows| - 1], ledgerAt))
    requires VerifyAnchor(Some(verifier), rows, ledgerId).status == "VERIFIED"
    ensures Agree(p, anchoredRows, rows) || Collides(p, x, y)
  {
    var last, head := anchoredRows[|anchoredRows| - 1], rows[|rows| - 1];
    x, y := HeadHashFixesChain(p, anchoredRows, rows, lidA, lidB);
  }

  /** A proper prefix of the anchored ledger is never VERIFIED, although the chain check passes it. */
  lemma AnchorSeesCutTail(p: Ports, anchoredRows: seq<Row>, n: nat, verifier: Anchored -> string,
                          ledgerAt: Option<string>, ledgerId: Option<string>, lid: Option<string>)
    requires n < |anchoredRows| && Clean(p, anchoredRows, lid)
    requires AcceptsOnly(verifier, AnchorPayload(anchoredRows[|anchoredRows| - 1], ledgerAt))
    ensures Clean(p, anchoredRows[..n], lid)
    ensures VerifyAnchor(Some(verifier), anchoredRows[..n], ledgerId).status != "VERIFIED"
  {
    PrefixIsClean(p, anchoredRows, n, lid);
    var last := anchoredRows[|anchoredRows| - 1];
    if VerifyAnchor(Some(verifier), anchoredRows[..n], ledgerId).status == "VERIFIED" {
      CleanRow(p, anchoredRows, n - 1, lid);
      CleanRow(p, anchoredRows, |anchoredRows| - 1, lid);
    }
  }
}
