/**
 * The ledger file as an object: `append_or_replay` with its bounded busy retry, the reader by
 * request id, and the agreement of the retry loop with the runs of `LedgerRuns`.
 */
module LedgerFile {
  import opened Wrappers
  import opened LedgerRecords
  import opened LedgerTransaction
  import opened LedgerChain
  import opened LedgerHistory
  import opened LedgerProgress
  import opened LedgerRuns

  /** The first attempt, from `k` on, that the database does not refuse as busy. */
  function FirstServed(weather: nat -> Weather, k: nat): (i: Option<nat>)
    ensures i.Some? ==> k <= i.value < MAX_CONTENTION_ATTEMPTS && weather(i.value) != Busy
    ensures i.Some? ==> forall j :: k <= j < i.value ==> weather(j) == Busy
    ensures i.None? ==> forall j :: k <= j < MAX_CONTENTION_ATTEMPTS ==> weather(j) == Busy
    decreases MAX_CONTENTION_ATTEMPTS - k
  {
    if k >= MAX_CONTENTION_ATTEMPTS then None
    else if weather(k) != Busy then Some(k)
    else FirstServed(weather, k + 1)
  }

  /** What an admitted call does and answers from its `k`-th attempt on, left alone with the file. */
  function Served(p: Ports, rows: seq<Row>, req: Request, adm: Admitted, weather: nat -> Weather, k: nat): Step {
    match FirstServed(weather, k)
    case None => Step(rows, Returned(BUSY_RETRY_EXHAUSTED, None, 0))
    case Some(i) =>
      match weather(i)
      case Clear(now, secure) => Transact(p, rows, req, adm, now, secure)
      case _ => Step(rows, Raised(DatabaseBroken))
  }

  /** All five attempts find the database busy. */
  ghost predicate IsBusyThroughout(weather: nat -> Weather) {
    forall k :: 0 <= k < 5 ==> weather(k) == Busy
  }

  ghost predicate IsFirstServed(weather: nat -> Weather, i: nat) {
    i < 5 && weather(i) != Busy && forall k :: 0 <= k < i ==> weather(k) == Busy
  }

  /** The first attempt that is not refused as busy finds a working database with secure sidecars. */
  ghost predicate IsServedQuietly(weather: nat -> Weather) {
    exists i: nat :: IsFirstServed(weather, i) && weather(i).Clear? && weather(i).sidecarsSecure
  }

  predicate IsAppended(o: Outcome) {
    o.Returned? && o.status == APPENDED
  }

  lemma FirstServedIff(weather: nat -> Weather, i: nat)
    ensures FirstServed(weather, 0) == Some(i) <==> IsFirstServed(weather, i)
    ensures FirstServed(weather, 0) == None <==> IsBusyThroughout(weather)
  {
  }

  lemma NeverBusyInside(p: Ports, rows: seq<Row>, req: Request, adm: Admitted, now: string, secure: bool)
    ensures var o := Transact(p, rows, req, adm, now, secure).outcome;
      !(o.Returned? && o.status == BUSY_RETRY_EXHAUSTED)
  {
  }

  lemma ServedBusyIff(p: Ports, rows: seq<Row>, req: Request, adm: Admitted, weather: nat -> Weather)
    ensures Served(p, rows, req, adm, weather, 0).outcome == Returned(BUSY_RETRY_EXHAUSTED, None, 0)
      <==> IsBusyThroughout(weather)
  {
    FirstServedIff(weather, 0);
    match FirstServed(weather, 0)
    case None =>
    case Some(i) =>
      match weather(i)
      case Clear(now, secure) => NeverBusyInside(p, rows, req, adm, now, secure);
      case _ =>
  }

  lemma ServedAppendedIff(p: Ports, rows: seq<Row>, req: Request, adm: Admitted, weather: nat -> Weather)
    requires History(p, rows)
    ensures IsAppended(Served(p, rows, req, adm, weather, 0).outcome) <==>
      IsServedQuietly(weather) && MayAppend(p, rows, req, adm) && req.failpoint == NoFailpoint
  {
    match FirstServed(weather, 0)
    case None =>
      FirstServedIff(weather, 0);
      assert IsServedQuietly(weather) ==> exists i: nat :: IsFirstServed(weather, i);
    case Some(i) =>
      FirstServedIff(weather, i);
      assert forall j: nat :: IsFirstServed(weather, j) ==> j == i;
      match weather(i)
      case Clear(now, secure) => AppendedIff(p, rows, req, adm, now, secure);
      case _ =>
  }

  class LedgerFile {
    const p: Ports
    var rows: seq<Row>

    constructor (p: Ports)
      ensures this.p == p && rows == []
    {
      this.p := p;
      rows := [];
    }

    /** The attempts of an admitted call: the one that is served decides, everything before it leaves the file alone. */
    method Attempt(req: Request, adm: Admitted, weather: nat -> Weather) returns (outcome: Outcome)
      modifies this`rows
      ensures Step(rows, outcome) == Served(p, old(rows), req, adm, weather, 0)
      ensures Commits(outcome) ==> |rows| == |old(rows)| + 1 && old(rows) <= rows
      ensures !Commits(outcome) ==> rows == old(rows)
    {
      var attempts := 0;
      while attempts < MAX_CONTENTION_ATTEMPTS
        invariant attempts <= MAX_CONTENTION_ATTEMPTS && rows == old(rows)
        invariant FirstServed(weather, attempts) == FirstServed(weather, 0)
      {
        match weather(attempts) {
          case Busy =>
          case Broken => return Raised(DatabaseBroken);
          case Clear(now, secure) =>
            EffectIsAllOrNothing(p, rows, req, adm, now, secure);
            var step := Transact(p, rows, req, adm, now, secure);
            rows := step.rows;
            return step.outcome;
        }
        attempts := attempts + 1;
      }
      return Returned(BUSY_RETRY_EXHAUSTED, None, 0);
    }

    /**
     * Admission before the database is touched, then at most five attempts.  The answer is
     * BUSY_RETRY_EXHAUSTED exactly when all five find the database busy, and APPENDED exactly
     * when one is served quietly and the request may append.
     */
    method AppendOrReplay(req: Request, weather: nat -> Weather) returns (outcome: Outcome)
      modifies this`rows
      ensures match Admit(p, req)
        case Err(failure) => rows == old(rows) && outcome == Raised(failure)
        case Ok(adm) => Step(rows, outcome) == Served(p, old(rows), req, adm, weather, 0)
      ensures outcome == Returned(BUSY_RETRY_EXHAUSTED, None, 0) <==> Admit(p, req).Ok? && IsBusyThroughout(weather)
      ensures History(p, old(rows)) && Admit(p, req).Ok? ==>
        (IsAppended(outcome) <==>
           IsServedQuietly(weather) && MayAppend(p, old(rows), req, Admit(p, req).value) &&
             req.failpoint == NoFailpoint)
      ensures Commits(outcome) ==> |rows| == |old(rows)| + 1 && old(rows) <= rows
      ensures !Commits(outcome) ==> rows == old(rows)
    {
      var admission := Admit(p, req);
      if admission.Err? {
        return Raised(admission.error);
      }
      ServedBusyIff(p, rows, req, admission.value, weather);
      if History(p, rows) {
        ServedAppendedIff(p, rows, req, admission.value, weather);
      }
      outcome := Attempt(req, admission.value, weather);
    }

    /** `get_by_request_id`: the stored entry of that request; `None` inside where its row does not load. */
    method GetByRequestId(requestId: string) returns (found: bool, entry: Option<Entry>)
      ensures found <==> exists i :: 0 <= i < |rows| && rows[i].facts.requestId == requestId
      ensures found ==>
        exists i :: 0 <= i < |rows| && rows[i].facts.requestId == requestId && entry == RowToEntry(p, rows[i])
      ensures !found ==> entry == None
    {
      match FindRequest(rows, requestId)
      case None => return false, None;
      case Some(i) => return true, RowToEntry(p, rows[i]);
    }

    /** `verify_chain` on this file. */
    method Verify(expectedLedger: Option<string>) returns (report: Report)
      ensures report.verdict in {VALID, EMPTY} <==> Clean(p, rows, expectedLedger)
      ensures report.verdict == EMPTY <==> rows == []
    {
      report := VerifyChain(p, rows, expectedLedger);
      CleanIff(p, rows, expectedLedger);
    }
  }

  // ----- the loop is a run ------------------------------------------------------------

  function Attempts(client: nat, weather: nat -> Weather, k: nat): (events: seq<Event>)
    ensures |events| == if k < MAX_CONTENTION_ATTEMPTS then MAX_CONTENTION_ATTEMPTS - k else 0
    decreases MAX_CONTENTION_ATTEMPTS - k
  {
    if k >= MAX_CONTENTION_ATTEMPTS then [] else [Attempt(client, weather(k))] + Attempts(client, weather, k + 1)
  }

  /** A finished call ignores further attempts of its client. */
  lemma {:induction false} FinishedStaysFinished(p: Ports, w: World, client: nat, weather: nat -> Weather, k: nat)
    requires client in w.calls && w.calls[client].Finished?
    ensures Run(p, w, Attempts(client, weather, k)) == w
    decreases MAX_CONTENTION_ATTEMPTS - k
  {
    if k < MAX_CONTENTION_ATTEMPTS {
      var events := Attempts(client, weather, k);
      assert events[0] == Attempt(client, weather(k)) && events[1..] == Attempts(client, weather, k + 1);
      FinishedStaysFinished(p, w, client, weather, k + 1);
    }
  }

  /** What one attempt of a client that is still trying makes of its call. */
  lemma NextAttempt(p: Ports, w: World, client: nat, weather: Weather)
    requires client in w.calls && w.calls[client].Trying?
    ensures var call, w1 := w.calls[client], Next(p, w, Attempt(client, weather));
      match weather
      case Busy => w1 == World(w.rows, w.calls[client :=
        if call.attempts + 1 < MAX_CONTENTION_ATTEMPTS then call.(attempts := call.attempts + 1)
        else Finished(Returned(BUSY_RETRY_EXHAUSTED, None, 0))])
      case Broken => w1 == World(w.rows, w.calls[client := Finished(Raised(DatabaseBroken))])
      case Clear(now, secure) =>
        var s := Transact(p, w.rows, call.req, call.adm, now, secure);
        w1 == World(s.rows, w.calls[client := Finished(s.outcome)])
  {
  }

  lemma NextServes(p: Ports, w: World, client: nat, weather: nat -> Weather, k: nat)
    requires client in w.calls && w.calls[client].Trying? && w.calls[client].attempts == k < MAX_CONTENTION_ATTEMPTS
    ensures var call, w1 := w.calls[client], Next(p, w, Attempt(client, weather(k)));
      var s, t := Served(p, w.rows, call.req, call.adm, weather, k),
        Served(p, w.rows, call.req, call.adm, weather, k + 1);
      if weather(k) == Busy && k + 1 < MAX_CONTENTION_ATTEMPTS then
        w1 == World(w.rows, w.calls[client := call.(attempts := k + 1)]) && s == t
      else w1 == World(s.rows, w.calls[client := Finished(s.outcome)])
  {
    NextAttempt(p, w, client, weather(k));
  }

  /** The retry loop of one client is the run of its attempts: same rows, same answer. */
  lemma {:induction false} LoopIsRun(p: Ports, w: World, client: nat, weather: nat -> Weather, k: nat)
    requires client in w.calls && w.calls[client].Trying? && w.calls[client].attempts == k < MAX_CONTENTION_ATTEMPTS
    ensures var s := Served(p, w.rows, w.calls[client].req, w.calls[client].adm, weather, k);
      Run(p, w, Attempts(client, weather, k)) == World(s.rows, w.calls[client := Finished(s.outcome)])
    decreases MAX_CONTENTION_ATTEMPTS - k
  {
    NextServes(p, w, client, weather, k);
    var events, w1 := Attempts(client, weather, k), Next(p, w, Attempt(client, weather(k)));
    assert events[0] == Attempt(client, weather(k)) && events[1..] == Attempts(client, weather, k + 1);
    if w1.calls[client].Finished? {
      FinishedStaysFinished(p, w1, client, weather, k + 1);
    } else {
      LoopIsRun(p, w1, client, weather, k + 1);
    }
  }
}
