/**
 * The records of the certification ledger and the pure functions over them: the admission of
 * a request, the hashed payload of an entry, and the passage from a stored row to an entry.
 */
module LedgerRecords {
  import opened Wrappers
  import opened Json

  newtype Byte = x: int | 0 <= x < 256
  type Bytes = seq<Byte>

  const ENTRY_SCHEMA := "nexus.ledger-entry.v1"
  const ENVELOPE_SCHEMA := "nexus.evidence.identity-envelope.v1"
  const RECEIPT_SCHEMA := "nexus.certification_receipt.v1-experimental"
  const DIGEST_DIGITS: nat := 64
  const GENESIS := "sha256:" + Zeros(DIGEST_DIGITS)

  function Zeros(n: nat): (s: string)
    ensures |s| == n && forall i :: 0 <= i < n ==> s[i] == '0'
  {
    if n == 0 then "" else "0" + Zeros(n - 1)
  }

  /** The hash that the first entry links to looks like a digest of 64 zeros. */
  lemma GenesisIsZeros()
    ensures |GENESIS| == 71 && GENESIS[..7] == "sha256:" && forall i :: 7 <= i < 71 ==> GENESIS[i] == '0'
  {
  }

  /**
   * Everything the ledger takes from foreign code.  No law is assumed of a port except where
   * a lemma names `FaithfulStorage` or mentions a collision of `entryDigest`.  The four
   * digests are SHA-256 over the canonical JSON (or the text) of their arguments.
   */
  datatype Ports = Ports(
    decode: Bytes -> Option<Json>,           // UTF-8 then json.loads
    dumps: Json -> string,                   // json.dumps, for a text column
    loads: string -> Option<Json>,           // json.loads of a text column
    tupleOf: Json -> Option<seq<Json>>,      // tuple(value); None where Python raises
    digest: Json -> string,                  // _hash of a document
    entryDigest: HashedFields -> string,     // _hash of the payload of an entry
    signDigest: SignDomain -> string,        // the digest handed to the signer
    digestText: string -> string             // sha256 of a request given as text
  )

  /** A text column gives back the value that was dumped into it. */
  ghost predicate FaithfulStorage(p: Ports) {
    && (forall j :: p.loads(p.dumps(j)) == Some(j) && p.dumps(j) != "")
    && (forall items :: p.tupleOf(JArr(items)) == Some(items))
  }

  /** Two different payloads with one digest: a break of SHA-256. */
  ghost predicate Collides(p: Ports, x: HashedFields, y: HashedFields) {
    Hashable(x) && Hashable(y) && x != y && p.entryDigest(x) == p.entryDigest(y)
  }

  ghost predicate CollisionFree(p: Ports) {
    forall x, y :: !Collides(p, x, y)
  }

  datatype Failpoint = NoFailpoint | BeforeWrite | BeforeCommit | BeforeResponse

  datatype Signed = Signed(algorithm: string, keyId: string, metadata: Json, signature: Bytes)

  /** `declared` is the `public_metadata` attribute; `sign` gives `None` where the port raises. */
  datatype Signer = Signer(declared: Json, sign: string -> Option<Signed>)

  datatype RequestBody = Text(text: string) | Document(json: Json)

  datatype Request = Request(
    ledgerId: string,
    requestId: string,
    idempotencyKey: string,
    expectedGeneration: int,
    attempt: int,
    body: RequestBody,
    envelopeBytes: Bytes,
    receiptBytes: Bytes,
    sourceSnapshotHash: string,
    signer: Option<Signer>,
    failpoint: Failpoint
  )

  /** The columns that are hashed as they are stored. */
  datatype Facts = Facts(
    ledgerId: string,
    sequence: int,
    committedGeneration: int,
    requestId: string,
    idempotencyKey: string,
    requestHash: string,
    envelopeHash: string,
    receiptHash: string,
    sourceSnapshotHash: string,
    previousEntryHash: string
  )

  /** The columns outside the hash. */
  datatype Carried = Carried(
    expectedGeneration: int,
    attempt: int,
    envelopeBytes: Bytes,
    receiptBytes: Bytes,
    signerAlgorithm: Option<string>,
    signerKeyId: Option<string>,
    signature: Option<Bytes>,
    createdAt: string
  )

  /** One row of the `ledger_entries` table; three hashed fields are stored as text. */
  datatype Row = Row(
    facts: Facts,
    disposition: string,
    claimCeilingText: string,
    signerMetadataText: Option<string>,
    carried: Carried,
    entryHash: string
  )

  /** A ledger entry in memory.  `signerMetadata` is `JNull` for Python's `None`. */
  datatype Entry = Entry(
    facts: Facts,
    disposition: Json,
    claimCeiling: seq<Json>,
    signerMetadata: Json,
    carried: Carried,
    entryHash: string
  )

  // ----- hashes -----------------------------------------------------------------------

  /** The 14 values that `compute_entry_hash` hashes: the schema, the facts and three more. */
  datatype HashedFields = HashedFields(
    schema: string,
    facts: Facts,
    disposition: Json,
    claimCeiling: seq<Json>,
    signerMetadata: Json
  )

  datatype SignDomain = SignDomain(
    ledgerId: string,
    sequence: int,
    committedGeneration: int,
    preliminaryHash: string,
    claimCeiling: seq<Json>
  )

  function Payload(e: Entry): HashedFields {
    HashedFields(ENTRY_SCHEMA, e.facts, e.disposition, e.claimCeiling, e.signerMetadata)
  }

  predicate Hashable(h: HashedFields) {
    Canonical(h.disposition) && Canonical(JArr(h.claimCeiling)) && Canonical(h.signerMetadata)
  }

  /** `compute_entry_hash`; `None` where `canonical_json` raises TypeError. */
  function EntryHash(p: Ports, e: Entry): Option<string> {
    if Hashable(Payload(e)) then Some(p.entryDigest(Payload(e))) else None
  }

  predicate LooksLikeDigest(text: string) {
    "sha256:" <= text && |text| == 71
  }

  /** `compute_canonical_request_hash`; `None` where `canonical_json` raises TypeError. */
  function RequestHash(p: Ports, body: RequestBody): Option<string> {
    match body
    case Text(text) => Some(if LooksLikeDigest(text) then text else p.digestText(text))
    case Document(json) => if Canonical(json) then Some(p.digest(json)) else None
  }

  // ----- admission --------------------------------------------------------------------

  datatype Failure =
    | MalformedEnvelope
    | MalformedReceipt
    | NotCanonical
    | SignerRaised
    | CorruptRow
    | ConstraintViolated
    | FailpointBeforeWrite
    | FailpointBeforeCommit
    | UnknownEffect
    | SidecarInsecure
    | DatabaseBroken

  /** What `append_or_replay` has computed before it opens the database. */
  datatype Admitted = Admitted(
    requestHash: string,
    envelopeHash: string,
    receiptHash: string,
    disposition: Json,
    claimCeiling: seq<Json>
  )

  function AdmitEnvelope(p: Ports, bytes: Bytes): Option<string> {
    match p.decode(bytes)
    case None => None
    case Some(env) =>
      if Get(env, "schema") == Some(JStr(ENVELOPE_SCHEMA)) && Canonical(env) then Some(p.digest(env)) else None
  }

  function AdmitReceipt(p: Ports, bytes: Bytes): Option<(string, Json, seq<Json>)> {
    match p.decode(bytes)
    case None => None
    case Some(rec) =>
      if Get(rec, "receipt_schema") != Some(JStr(RECEIPT_SCHEMA)) then None else
      match (Get(rec, "receipt_hash"), Get(rec, "certification"), Get(rec, "claim_ceiling"))
      case (Some(JStr(hash)), Some(certification), Some(ceiling)) =>
        if hash == "" then None else
        (match (Get(certification, "disposition"), p.tupleOf(ceiling))
         case (Some(disposition), Some(claims)) => Some((hash, disposition, claims))
         case _ => None)
      case _ => None
  }

  function Admit(p: Ports, req: Request): Result<Admitted, Failure> {
    match RequestHash(p, req.body)
    case None => Err(NotCanonical)
    case Some(requestHash) =>
      match AdmitEnvelope(p, req.envelopeBytes)
      case None => Err(MalformedEnvelope)
      case Some(envelopeHash) =>
        match AdmitReceipt(p, req.receiptBytes)
        case None => Err(MalformedReceipt)
        case Some((receiptHash, disposition, claims)) =>
          Ok(Admitted(requestHash, envelopeHash, receiptHash, disposition, claims))
  }

  /** The request hash that a body stands for: itself when it is a digest already. */
  ghost predicate HashesTo(p: Ports, body: RequestBody, hash: string) {
    match body
    case Text(text) => hash == if |text| == 71 && text[..7] == "sha256:" then text else p.digestText(text)
    case Document(document) => Canonical(document) && hash == p.digest(document)
  }

  /** The bytes are an identity envelope with this hash. */
  ghost predicate IsEnvelope(p: Ports, bytes: Bytes, hash: string) {
    exists members :: p.decode(bytes) == Some(JObj(members))
      && "schema" in members && members["schema"] == JStr("nexus.evidence.identity-envelope.v1")
      && Canonical(JObj(members)) && hash == p.digest(JObj(members))
  }

  /** The bytes are a certification receipt with these values. */
  ghost predicate IsReceipt(p: Ports, bytes: Bytes, hash: string, disposition: Json, claims: seq<Json>) {
    exists members :: p.decode(bytes) == Some(JObj(members)) && ReceiptHolds(p, members, hash, disposition, claims)
  }

  predicate ReceiptHolds(p: Ports, members: map<string, Json>, hash: string, disposition: Json, claims: seq<Json>) {
    && "receipt_schema" in members
    && members["receipt_schema"] == JStr("nexus.certification_receipt.v1-experimental")
    && hash != "" && "receipt_hash" in members && members["receipt_hash"] == JStr(hash)
    && "certification" in members && members["certification"].JObj?
    && "disposition" in members["certification"].members
    && members["certification"].members["disposition"] == disposition
    && "claim_ceiling" in members && p.tupleOf(members["claim_ceiling"]) == Some(claims)
  }

  lemma RequestHashIff(p: Ports, body: RequestBody, hash: string)
    ensures RequestHash(p, body) == Some(hash) <==> HashesTo(p, body, hash)
  {
  }

  lemma EnvelopeIff(p: Ports, bytes: Bytes, hash: string)
    ensures AdmitEnvelope(p, bytes) == Some(hash) <==> IsEnvelope(p, bytes, hash)
  {
    if AdmitEnvelope(p, bytes) == Some(hash) {
      assert p.decode(bytes) == Some(JObj(p.decode(bytes).value.members));
    }
  }

  lemma ReceiptIff(p: Ports, bytes: Bytes, hash: string, disposition: Json, claims: seq<Json>)
    ensures AdmitReceipt(p, bytes) == Some((hash, disposition, claims)) <==>
      IsReceipt(p, bytes, hash, disposition, claims)
  {
    if AdmitReceipt(p, bytes) == Some((hash, disposition, claims)) {
      var members := p.decode(bytes).value.members;
      assert p.decode(bytes) == Some(JObj(members)) && ReceiptHolds(p, members, hash, disposition, claims);
    }
    if IsReceipt(p, bytes, hash, disposition, claims) {
      var members :| p.decode(bytes) == Some(JObj(members)) && ReceiptHolds(p, members, hash, disposition, claims);
      assert Get(JObj(members), "receipt_hash") == Some(JStr(hash));
    }
  }

  /** A request is admitted exactly with a request hash, an identity envelope and a certification receipt. */
  lemma AdmittedIff(p: Ports, req: Request, adm: Admitted)
    ensures Admit(p, req) == Ok(adm) <==>
      && HashesTo(p, req.body, adm.requestHash)
      && IsEnvelope(p, req.envelopeBytes, adm.envelopeHash)
      && IsReceipt(p, req.receiptBytes, adm.receiptHash, adm.disposition, adm.claimCeiling)
  {
    RequestHashIff(p, req.body, adm.requestHash);
    EnvelopeIff(p, req.envelopeBytes, adm.envelopeHash);
    ReceiptIff(p, req.receiptBytes, adm.receiptHash, adm.disposition, adm.claimCeiling);
  }

  /** Otherwise the first of the three that is missing is the error. */
  lemma RefusedIff(p: Ports, req: Request)
    ensures Admit(p, req) == Err(NotCanonical) <==> forall hash :: !HashesTo(p, req.body, hash)
    ensures Admit(p, req) == Err(MalformedEnvelope) <==>
      (exists hash :: HashesTo(p, req.body, hash)) && forall hash :: !IsEnvelope(p, req.envelopeBytes, hash)
  {
    forall hash ensures RequestHash(p, req.body) == Some(hash) <==> HashesTo(p, req.body, hash) {
      RequestHashIff(p, req.body, hash);
    }
    forall hash ensures AdmitEnvelope(p, req.envelopeBytes) == Some(hash) <==> IsEnvelope(p, req.envelopeBytes, hash) {
      EnvelopeIff(p, req.envelopeBytes, hash);
    }
    if RequestHash(p, req.body).Some? { assert HashesTo(p, req.body, RequestHash(p, req.body).value); }
    if AdmitEnvelope(p, req.envelopeBytes).Some? {
      assert IsEnvelope(p, req.envelopeBytes, AdmitEnvelope(p, req.envelopeBytes).value);
    }
  }

  // ----- storage ----------------------------------------------------------------------

  /** What the TEXT NOT NULL column keeps of a disposition; `None` where the insert fails. */
  function DispositionColumn(p: Ports, j: Json): Option<string> {
    match j
    case JStr(s) => Some(s)
    case JInt(_) => Some(p.dumps(j))
    case JBool(b) => Some(p.dumps(JInt(if b then 1 else 0)))
    case _ => None
  }

  /** A string is kept; a whole number or a truth value is kept as the text of the number that it equals. */
  lemma DispositionIff(p: Ports, j: Json, text: string)
    ensures DispositionColumn(p, j) == Some(text) <==>
      j == JStr(text) || ((j.JInt? || j.JBool?) && exists n :: PyEqual(JInt(n), j) && text == p.dumps(JInt(n)))
  {
    match j
    case JInt(n) => assert PyEqual(JInt(n), j);
    case JBool(b) => assert PyEqual(JInt(if b then 1 else 0), j);
    case _ =>
  }

  function MetadataColumn(p: Ports, metadata: Json): Option<string> {
    if metadata == JNull then None else Some(p.dumps(metadata))
  }

  function EntryToRow(p: Ports, e: Entry): Option<Row> {
    match DispositionColumn(p, e.disposition)
    case None => None
    case Some(disposition) =>
      Some(Row(e.facts, disposition, p.dumps(JArr(e.claimCeiling)), MetadataColumn(p, e.signerMetadata), e.carried,
               e.entryHash))
  }

  /** `_row_to_entry`; `None` where a JSON column does not load. */
  function RowToEntry(p: Ports, r: Row): Option<Entry> {
    var metadata :=
      if r.signerMetadataText.None? || r.signerMetadataText.value == "" then Some(JNull)
      else p.loads(r.signerMetadataText.value);
    var claims := match p.loads(r.claimCeilingText) case None => None case Some(j) => p.tupleOf(j);
    if metadata.None? || claims.None? then None else
    Some(Entry(r.facts, JStr(r.disposition), claims.value, metadata.value, r.carried, r.entryHash))
  }

  /**
   * Storing an entry and reading it back loses nothing except the type of a disposition that
   * is not a string: the column turns it into text.
   */
  lemma StorageRoundTrip(p: Ports, e: Entry)
    requires FaithfulStorage(p)
    ensures match EntryToRow(p, e)
      case None => e.disposition.JNull? || e.disposition.JArr? || e.disposition.JObj? || e.disposition.JFloat?
      case Some(row) =>
        && RowToEntry(p, row).Some?
        && RowToEntry(p, row).value == e.(disposition := JStr(row.disposition))
        && (RowToEntry(p, row) == Some(e) <==> e.disposition.JStr?)
  {
    if EntryToRow(p, e).Some? {
      assert p.loads(p.dumps(JArr(e.claimCeiling))) == Some(JArr(e.claimCeiling));
      assert p.loads(p.dumps(e.signerMetadata)) == Some(e.signerMetadata);
    }
  }
}
