/**
 * What an attempt answers, in terms of the request and the rows: which calls are appended, with
 * which entry, and what every other call gets.
 */
module LedgerProgress {
  import opened Wrappers
  import opened Json
  import opened LedgerRecords
  import opened LedgerTransaction
  import opened LedgerChain
  import opened LedgerHistory
  import opened LedgerRuns

  // ----- the entry that a request asks for --------------------------------------------

  function PreviousHash(rows: seq<Row>): string {
    if rows == [] then GENESIS else rows[|rows| - 1].entryHash
  }

  /** The facts of the row after `rows`, in a ledger whose generation is its length. */
  function FactsAfter(rows: seq<Row>, req: Request, adm: Admitted): Facts {
    Facts(req.ledgerId, |rows| + 1, |rows| + 1, req.requestId, req.idempotencyKey, adm.requestHash, adm.envelopeHash,
          adm.receiptHash, req.sourceSnapshotHash, PreviousHash(rows))
  }

  function HashAfter(p: Ports, rows: seq<Row>, req: Request, adm: Admitted, metadata: Json): string {
    p.entryDigest(HashedFields(ENTRY_SCHEMA, FactsAfter(rows, req, adm), adm.disposition, adm.claimCeiling, metadata))
  }

  /** What the signer declares; anything but an object counts as an empty one. */
  function Declared(s: Signer): Json {
    if s.declared.JObj? then s.declared else JObj(map[])
  }

  function NoneIfEmpty(metadata: Json): Json {
    if metadata == JObj(map[]) then JNull else metadata
  }

  /** The digest that the signer is asked to sign. */
  function AskedDigest(p: Ports, rows: seq<Row>, req: Request, adm: Admitted, declared: Json): string {
    p.signDigest(SignDomain(req.ledgerId, |rows| + 1, |rows| + 1, HashAfter(p, rows, req, adm, NoneIfEmpty(declared)),
                            adm.claimCeiling))
  }

  /** The payload can be hashed, and the signer, if there is one, answers `signed`, which can be hashed as well. */
  ghost predicate Seals(p: Ports, rows: seq<Row>, req: Request, adm: Admitted, signed: Option<Signed>) {
    && Canonical(adm.disposition) && (forall i :: 0 <= i < |adm.claimCeiling| ==> Canonical(adm.claimCeiling[i]))
    && match req.signer
       case None => signed == None
       case Some(s) =>
         && Canonical(Declared(s)) && signed.Some? && s.sign(AskedDigest(p, rows, req, adm, Declared(s))) == signed
         && (PyEqual(signed.value.metadata, Declared(s)) || Canonical(signed.value.metadata))
  }

  /** The metadata under the hash: the declared one, unless the signer returned another. */
  function MetadataHashed(signer: Option<Signer>, signed: Option<Signed>): Json {
    if signer.None? || signed.None? then JNull
    else if PyEqual(signed.value.metadata, Declared(signer.value)) then NoneIfEmpty(Declared(signer.value))
    else signed.value.metadata
  }

  function EntryAfter(p: Ports, rows: seq<Row>, req: Request, adm: Admitted, now: string,
      signed: Option<Signed>): Entry {
    var carried :=
      Carried(req.expectedGeneration, req.attempt, req.envelopeBytes, req.receiptBytes, None, None, None, now);
    Entry(FactsAfter(rows, req, adm), adm.disposition, adm.claimCeiling,
          if signed.None? then JNull else signed.value.metadata,
          if signed.None? then carried
          else carried.(signerAlgorithm := Some(signed.value.algorithm), signerKeyId := Some(signed.value.keyId),
                        signature := Some(signed.value.signature)),
          HashAfter(p, rows, req, adm, MetadataHashed(req.signer, signed)))
  }

  /** Sealing succeeds exactly for the requests that can be sealed, with exactly that entry. */
  lemma SealsIff(p: Ports, rows: seq<Row>, req: Request, adm: Admitted, now: string, e: Entry)
    requires Linked(rows)
    ensures Seal(p, req.signer, Draft(req, adm, DurableHead(rows), now)) == Ok(e) <==>
      exists signed :: Seals(p, rows, req, adm, signed) && e == EntryAfter(p, rows, req, adm, now, signed)
  {
    HeadGeneration(rows);
    var draft := Draft(req, adm, DurableHead(rows), now);
    assert draft.facts == FactsAfter(rows, req, adm);
    if Seal(p, req.signer, draft) == Ok(e) {
      var signed := SealedAnswer(p, rows, req, adm, now, e);
    }
    if exists signed :: Seals(p, rows, req, adm, signed) && e == EntryAfter(p, rows, req, adm, now, signed) {
      var signed :| Seals(p, rows, req, adm, signed) && e == EntryAfter(p, rows, req, adm, now, signed);
      SealsToEntry(p, rows, req, adm, now, signed);
    }
  }

  lemma DraftAfter(p: Ports, rows: seq<Row>, req: Request, adm: Admitted, now: string, metadata: Json)
    requires Linked(rows)
    ensures var draft := Draft(req, adm, DurableHead(rows), now);
      && draft.facts == FactsAfter(rows, req, adm)
      && EntryHash(p, draft.(signerMetadata := metadata)) ==
           if Canonical(adm.disposition) && Canonical(JArr(adm.claimCeiling)) && Canonical(metadata)
           then Some(HashAfter(p, rows, req, adm, metadata)) else None
  {
    HeadGeneration(rows);
  }

  lemma SealsToEntry(p: Ports, rows: seq<Row>, req: Request, adm: Admitted, now: string, signed: Option<Signed>)
    requires Linked(rows) && Seals(p, rows, req, adm, signed)
    ensures Seal(p, req.signer, Draft(req, adm, DurableHead(rows), now)) ==
      Ok(EntryAfter(p, rows, req, adm, now, signed))
  {
    DraftAfter(p, rows, req, adm, now, JNull);
    match req.signer
    case None =>
    case Some(s) =>
      DraftAfter(p, rows, req, adm, now, NoneIfEmpty(Declared(s)));
      DraftAfter(p, rows, req, adm, now, MetadataHashed(req.signer, signed));
  }

  lemma SealedAnswer(p: Ports, rows: seq<Row>, req: Request, adm: Admitted, now: string, e: Entry)
      returns (signed: Option<Signed>)
    requires Linked(rows) && Seal(p, req.signer, Draft(req, adm, DurableHead(rows), now)) == Ok(e)
    ensures Seals(p, rows, req, adm, signed) && e == EntryAfter(p, rows, req, adm, now, signed)
  {
    DraftAfter(p, rows, req, adm, now, JNull);
    match req.signer
    case None => signed := None;
    case Some(s) =>
      DraftAfter(p, rows, req, adm, now, NoneIfEmpty(Declared(s)));
      signed := s.sign(AskedDigest(p, rows, req, adm, Declared(s)));
      DraftAfter(p, rows, req, adm, now, MetadataHashed(req.signer, signed));
  }

  // ----- which calls are appended -----------------------------------------------------

  ghost predicate KeyIsFree(rows: seq<Row>, key: string) {
    forall i :: 0 <= i < |rows| ==> rows[i].facts.idempotencyKey != key
  }

  ghost predicate RequestIsFree(rows: seq<Row>, requestId: string) {
    forall i :: 0 <= i < |rows| ==> rows[i].facts.requestId != requestId
  }

  /** What the text column takes: a string, a whole number or a truth value. */
  predicate Storable(disposition: Json) {
    disposition.JStr? || disposition.JInt? || disposition.JBool?
  }

  /** No row carries the hash of the entry that is asked for. */
  ghost predicate HashIsFree(p: Ports, rows: seq<Row>, req: Request, adm: Admitted, signed: Option<Signed>) {
    forall i :: 0 <= i < |rows| ==>
      rows[i].entryHash != HashAfter(p, rows, req, adm, MetadataHashed(req.signer, signed))
  }

  /** A fresh call that names the current generation and whose entry can be sealed and stored. */
  ghost predicate MayAppend(p: Ports, rows: seq<Row>, req: Request, adm: Admitted) {
    && KeyIsFree(rows, req.idempotencyKey) && RequestIsFree(rows, req.requestId) && req.expectedGeneration == |rows|
    && Storable(adm.disposition)
    && exists signed :: Seals(p, rows, req, adm, signed) && HashIsFree(p, rows, req, adm, signed)
  }

  /** Unless the digest collides, the hash is always free: no entry above a row can have the hash of that row. */
  lemma HashStaysFree(p: Ports, rows: seq<Row>, req: Request, adm: Admitted, signed: Option<Signed>)
    requires CollisionFree(p) && History(p, rows) && Seals(p, rows, req, adm, signed)
    ensures HashIsFree(p, rows, req, adm, signed)
  {
    SealsToEntry(p, rows, req, adm, "", signed);
    HeadGeneration(rows);
    var draft := Draft(req, adm, DurableHead(rows), "");
    NextHashIsFree(p, rows, req.signer, draft, EntryAfter(p, rows, req, adm, "", signed));
  }

  /** What such a call does and answers, failpoint by failpoint. */
  function Appended(p: Ports, rows: seq<Row>, req: Request, e: Entry, row: Row, secure: bool): Step {
    match req.failpoint
    case BeforeWrite => Step(rows, Raised(FailpointBeforeWrite))
    case BeforeCommit => Step(rows, Raised(FailpointBeforeCommit))
    case BeforeResponse => Step(rows + [row], Raised(if secure then UnknownEffect else SidecarInsecure))
    case NoFailpoint =>
      Step(rows + [row], if secure then Returned(APPENDED, Some(e), |rows| + 1) else Raised(SidecarInsecure))
  }

  /**
   * Progress: on every linked ledger, of any length, a call that may append does.  Its
   * row is the stored form of the entry that was asked for.
   */
  lemma MayAppendAppends(p: Ports, rows: seq<Row>, req: Request, adm: Admitted, now: string, secure: bool)
      returns (signed: Option<Signed>, row: Row)
    requires Linked(rows) && MayAppend(p, rows, req, adm)
    ensures Seals(p, rows, req, adm, signed) && HashIsFree(p, rows, req, adm, signed)
    ensures var e := EntryAfter(p, rows, req, adm, now, signed);
      && EntryToRow(p, e) == Some(row)
      && Transact(p, rows, req, adm, now, secure) == Appended(p, rows, req, e, row, secure)
  {
    signed :| Seals(p, rows, req, adm, signed) && HashIsFree(p, rows, req, adm, signed);
    SealsToEntry(p, rows, req, adm, now, signed);
    HeadGeneration(rows);
    var e := EntryAfter(p, rows, req, adm, now, signed);
    row := EntryToRow(p, e).value;
    SealedStep(p, rows, req, adm, now, secure, e, row);
  }

  lemma SealedStep(p: Ports, rows: seq<Row>, req: Request, adm: Admitted, now: string, secure: bool, e: Entry, row: Row)
    requires Linked(rows) && KeyIsFree(rows, req.idempotencyKey) && RequestIsFree(rows, req.requestId)
    requires req.expectedGeneration == |rows| && e.facts.committedGeneration == |rows| + 1
    requires Seal(p, req.signer, Draft(req, adm, DurableHead(rows), now)) == Ok(e)
    requires EntryToRow(p, e) == Some(row) && !HashTaken(rows, e.entryHash)
    ensures Transact(p, rows, req, adm, now, secure) == Appended(p, rows, req, e, row, secure)
  {
    HeadGeneration(rows);
  }

  /** A request id that is bound to another key is a conflict without an entry, whatever else holds. */
  lemma TakenRequestAnswers(p: Ports, rows: seq<Row>, req: Request, adm: Admitted)
    requires KeyIsFree(rows, req.idempotencyKey) && !RequestIsFree(rows, req.requestId)
    ensures Answers(p, rows, req, adm, Returned(IDEMPOTENCY_CONFLICT, None, 0))
  {
  }

  /** A fresh call on the current generation that cannot be sealed or stored raises, and changes nothing. */
  lemma UnsealableRaises(p: Ports, rows: seq<Row>, req: Request, adm: Admitted, now: string, secure: bool)
    requires Linked(rows) && KeyIsFree(rows, req.idempotencyKey) && RequestIsFree(rows, req.requestId)
    requires req.expectedGeneration == |rows| && !MayAppend(p, rows, req, adm)
    ensures var s := Transact(p, rows, req, adm, now, secure);
      s.outcome.Raised? && s.rows == rows && !Commits(s.outcome)
  {
    HeadGeneration(rows);
    var sealed := Seal(p, req.signer, Draft(req, adm, DurableHead(rows), now));
    if sealed.Ok? {
      SealsIff(p, rows, req, adm, now, sealed.value);
      var signed :| Seals(p, rows, req, adm, signed) && sealed.value == EntryAfter(p, rows, req, adm, now, signed);
      assert !Storable(sealed.value.disposition) || !HashIsFree(p, rows, req, adm, signed);
    }
  }

  /** The answer APPENDED, on every ledger of the invariant: exactly for these requests. */
  lemma AppendedIff(p: Ports, rows: seq<Row>, req: Request, adm: Admitted, now: string, secure: bool)
    requires History(p, rows)
    ensures var o := Transact(p, rows, req, adm, now, secure).outcome;
      o.Returned? && o.status == APPENDED <==> MayAppend(p, rows, req, adm) && req.failpoint == NoFailpoint && secure
  {
    if MayAppend(p, rows, req, adm) {
      var signed, row := MayAppendAppends(p, rows, req, adm, now, secure);
    } else if !KeyIsFree(rows, req.idempotencyKey) {
      KnownKeyAnswers(p, rows, req, adm, now, secure);
    } else if !RequestIsFree(rows, req.requestId) {
      TakenRequestAnswers(p, rows, req, adm);
    } else if req.expectedGeneration != |rows| {
      StaleAnswers(p, rows, req, adm);
    } else {
      UnsealableRaises(p, rows, req, adm, now, secure);
    }
  }

  lemma KnownKeyAnswers(p: Ports, rows: seq<Row>, req: Request, adm: Admitted, now: string, secure: bool)
    requires History(p, rows) && !KeyIsFree(rows, req.idempotencyKey)
    ensures var o := Transact(p, rows, req, adm, now, secure).outcome;
      o.Returned? && o.status in {REPLAYED, IDEMPOTENCY_CONFLICT}
  {
    var i :| 0 <= i < |rows| && rows[i].facts.idempotencyKey == req.idempotencyKey;
    FenceAnswers(p, rows, i, req, adm);
  }

  lemma NextAppendsIff(p: Ports, w: World, client: nat, now: string, secure: bool)
    requires History(p, w.rows) && client in w.calls && w.calls[client].Trying?
    ensures var call, next := w.calls[client], Next(p, w, Attempt(client, Clear(now, secure)));
      && client in next.calls && next.calls[client].Finished?
      && (next.calls[client].outcome.Returned? && next.calls[client].outcome.status == APPENDED <==>
            MayAppend(p, w.rows, call.req, call.adm) && call.req.failpoint == NoFailpoint && secure)
  {
    var call := w.calls[client];
    AppendedIff(p, w.rows, call.req, call.adm, now, secure);
    ServedAttempt(p, w, client, now, secure, Transact(p, w.rows, call.req, call.adm, now, secure));
  }

  /** The same in every state that any interleaving of any number of clients reaches. */
  lemma RunAppendsIff(p: Ports, events: seq<Event>, client: nat, now: string, secure: bool)
    requires FaithfulStorage(p)
    requires var w := Run(p, EMPTY_WORLD, events); client in w.calls && w.calls[client].Trying?
    ensures var w := Run(p, EMPTY_WORLD, events);
      var call, next := w.calls[client], Next(p, w, Attempt(client, Clear(now, secure)));
      && client in next.calls && next.calls[client].Finished?
      && (next.calls[client].outcome.Returned? && next.calls[client].outcome.status == APPENDED <==>
            MayAppend(p, w.rows, call.req, call.adm) && call.req.failpoint == NoFailpoint && secure)
  {
    ReachableHistory(p, events);
    NextAppendsIff(p, Run(p, EMPTY_WORLD, events), client, now, secure);
  }
}
