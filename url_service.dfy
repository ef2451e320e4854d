/** Model of backend/src/services/urlService.ts: creating a short URL (two
    guards, then a bounded insert-and-retry loop) and resolving a short code.

    The random generator and the database's own faults are outside the
    model's control, so a request sees them as two oracles indexed by call
    number: `codes(k)` is the code the k-th call of generateShortCode returns
    during the request (`codes(0)` is the call before the loop) and
    `faults(k)` says whether the k-th INSERT fails for a reason other than
    the UNIQUE constraint. */
module Services {
  import opened Wrappers
  import opened Validation
  import opened Database

  /** How many inserts a request tries before giving up. */
  const MaxAttempts: nat := 10

  const InvalidUrlFormat: string := "Invalid URL format"
  const DomainBlocked: string := "This domain is blocked and cannot be shortened"
  const GenerationFailed: string := "Failed to generate unique short code"

  /** The object createShortUrl returns: `shortCode` and an optional `error`. */
  datatype Response = Response(shortCode: string, error: Option<string>)

  /** createShortUrl either returns a response or rethrows the database
      error of a failed insert that was not a UNIQUE violation. */
  datatype Outcome = Returned(response: Response) | Threw

  /** The outcome of a request that stored its long URL under `shortCode`. */
  function Created(shortCode: string): Outcome {
    Returned(Response(shortCode, None))
  }

  /** The outcome of a request rejected with `message`: no code. */
  function Rejected(message: string): Outcome {
    Returned(Response("", Some(message)))
  }

  predicate Succeeded(o: Outcome) {
    o.Returned? && o.response.error.None?
  }

  /** A request as a whole: its outcome, the table's rows afterwards, and how
      many inserts it issued. */
  datatype Run = Run(outcome: Outcome, rows: map<string, string>, inserts: nat)

  /** The first `n` codes the generator hands out during a request, in order. */
  function Generated(codes: nat -> string, n: nat): (s: seq<string>)
    ensures |s| == n
  {
    if n == 0 then [] else Generated(codes, n - 1) + [codes(n - 1)]
  }

  /** The k-th entry of `Generated` is the k-th generated code. */
  lemma {:induction false} GeneratedAt(codes: nat -> string, n: nat, k: nat)
    requires k < n
    ensures Generated(codes, n)[k] == codes(k)
  {
    if k < n - 1 {
      GeneratedAt(codes, n - 1, k);
    }
  }

  /** Extending the generated prefix by one code extends any log ending
      with it by that code. */
  lemma LogGrowsByNextCode(log: seq<string>, codes: nat -> string, n: nat)
    ensures log + Generated(codes, n + 1) == (log + Generated(codes, n)) + [codes(n)]
  {
  }

  /** Insert number `i` of a request hits the UNIQUE constraint. */
  predicate Collides(rows: map<string, string>, codes: nat -> string, faults: nat -> bool, i: nat) {
    InsertOutcome(rows, codes(i), faults(i)).Duplicate?
  }

  /** The retry loop from the point where `attempts` inserts have collided;
      `inserts` counts the inserts issued from there on. A collision leaves
      the table as it was, so every insert of the loop meets the same `rows`. */
  function RetryLoop(rows: map<string, string>, longUrl: string, codes: nat -> string,
                     faults: nat -> bool, attempts: nat): (run: Run)
    requires attempts <= MaxAttempts
    ensures attempts + run.inserts <= MaxAttempts
    ensures Succeeded(run.outcome) ==>
              && run.inserts > 0
              && var code := codes(attempts + run.inserts - 1);
              && run.outcome == Created(code)
              && code !in rows
              && run.rows == rows[code := longUrl]
    ensures !Succeeded(run.outcome) ==> run.rows == rows
    ensures run.outcome == Rejected(GenerationFailed) ==> attempts + run.inserts == MaxAttempts
    ensures run.outcome.Returned? && !Succeeded(run.outcome) ==> run.outcome == Rejected(GenerationFailed)
    decreases MaxAttempts - attempts
  {
    if attempts == MaxAttempts then
      Run(Rejected(GenerationFailed), rows, 0)
    else
      var code := codes(attempts);
      match InsertOutcome(rows, code, faults(attempts))
      case Ok => Run(Created(code), rows[code := longUrl], 1)
      case Other => Run(Threw, rows, 1)
      case Duplicate =>
        var rest := RetryLoop(rows, longUrl, codes, faults, attempts + 1);
        Run(rest.outcome, rest.rows, rest.inserts + 1)
  }

  /** createShortUrl on a table holding `rows`: the validity guard, then the
      blocked-domain guard, then the retry loop. */
  function CreateShortUrlSpec(rows: map<string, string>, longUrl: string, parse: UrlParser,
                              codes: nat -> string, faults: nat -> bool): (run: Run)
    ensures !IsValidUrl(parse, longUrl) ==> run == Run(Rejected(InvalidUrlFormat), rows, 0)
    ensures IsValidUrl(parse, longUrl) && IsBlockedDomain(parse, longUrl) ==>
              run == Run(Rejected(DomainBlocked), rows, 0)
  {
    if !IsValidUrl(parse, longUrl) then Run(Rejected(InvalidUrlFormat), rows, 0)
    else if IsBlockedDomain(parse, longUrl) then Run(Rejected(DomainBlocked), rows, 0)
    else RetryLoop(rows, longUrl, codes, faults, 0)
  }

  /** Proof step: unfolds one colliding turn of `RetryLoop`, which changes
      nothing and hands over to the next turn. */
  lemma CollisionMovesOn(rows: map<string, string>, longUrl: string, codes: nat -> string,
                         faults: nat -> bool, attempts: nat)
    requires attempts < MaxAttempts
    requires Collides(rows, codes, faults, attempts)
    ensures var rest := RetryLoop(rows, longUrl, codes, faults, attempts + 1);
            RetryLoop(rows, longUrl, codes, faults, attempts) == Run(rest.outcome, rest.rows, rest.inserts + 1)
  {
  }

  /** The request gives up exactly when all ten inserts collide. */
  lemma {:induction false} ExhaustedIffAllCollide(rows: map<string, string>, longUrl: string,
                                                 codes: nat -> string, faults: nat -> bool, attempts: nat)
    requires attempts <= MaxAttempts
    ensures RetryLoop(rows, longUrl, codes, faults, attempts).outcome == Rejected(GenerationFailed)
            <==> forall i :: attempts <= i < MaxAttempts ==> Collides(rows, codes, faults, i)
    decreases MaxAttempts - attempts
  {
    if attempts < MaxAttempts {
      var run := RetryLoop(rows, longUrl, codes, faults, attempts);
      if Collides(rows, codes, faults, attempts) {
        CollisionMovesOn(rows, longUrl, codes, faults, attempts);
        ExhaustedIffAllCollide(rows, longUrl, codes, faults, attempts + 1);
        assert (forall i :: attempts <= i < MaxAttempts ==> Collides(rows, codes, faults, i))
               <==> (forall i :: attempts + 1 <= i < MaxAttempts ==> Collides(rows, codes, faults, i));
      } else {
        assert run.outcome == Threw || run.outcome == Created(codes(attempts));
      }
    }
  }

  /** The first insert that does not collide decides the request: if it
      faulted the error propagates, otherwise its code is stored; either
      way no further insert is issued. */
  lemma {:induction false} FirstNonCollisionDecides(rows: map<string, string>, longUrl: string,
                                                   codes: nat -> string, faults: nat -> bool,
                                                   attempts: nat, k: nat)
    requires attempts <= k < MaxAttempts
    requires forall i :: attempts <= i < k ==> Collides(rows, codes, faults, i)
    requires !Collides(rows, codes, faults, k)
    ensures var run := RetryLoop(rows, longUrl, codes, faults, attempts);
            && run.inserts == k - attempts + 1
            && (faults(k) ==> run.outcome == Threw && run.rows == rows)
            && (!faults(k) ==> run.outcome == Created(codes(k)) && run.rows == rows[codes(k) := longUrl])
    decreases k - attempts
  {
    if attempts < k {
      CollisionMovesOn(rows, longUrl, codes, faults, attempts);
      FirstNonCollisionDecides(rows, longUrl, codes, faults, attempts + 1, k);
    }
  }

  /** A valid, unblocked URL is stored under the first generated code that is
      new to the table, provided the database does not fault. */
  lemma StoredUnderFirstFreshCode(rows: map<string, string>, longUrl: string, parse: UrlParser,
                                  codes: nat -> string, faults: nat -> bool, k: nat)
    requires IsValidUrl(parse, longUrl) && !IsBlockedDomain(parse, longUrl)
    requires k < MaxAttempts
    requires forall i :: 0 <= i <= k ==> !faults(i)
    requires forall i :: 0 <= i < k ==> codes(i) in rows
    requires codes(k) !in rows
    ensures var run := CreateShortUrlSpec(rows, longUrl, parse, codes, faults);
            && run.outcome == Created(codes(k))
            && run.rows == rows[codes(k) := longUrl]
            && run.inserts == k + 1
  {
    forall i | 0 <= i < k
      ensures Collides(rows, codes, faults, i)
    {
    }
    FirstNonCollisionDecides(rows, longUrl, codes, faults, 0, k);
  }

  /** A request that collides on all ten inserts gives up after exactly ten
      inserts and stores nothing. */
  lemma AllCollisionsExhaust(rows: map<string, string>, longUrl: string, parse: UrlParser,
                             codes: nat -> string, faults: nat -> bool)
    requires IsValidUrl(parse, longUrl) && !IsBlockedDomain(parse, longUrl)
    requires forall i :: 0 <= i < MaxAttempts ==> !faults(i) && codes(i) in rows
    ensures var run := CreateShortUrlSpec(rows, longUrl, parse, codes, faults);
            && run.outcome == Rejected(GenerationFailed)
            && run.rows == rows
            && run.inserts == MaxAttempts
  {
    forall i | 0 <= i < MaxAttempts
      ensures Collides(rows, codes, faults, i)
    {
    }
    ExhaustedIffAllCollide(rows, longUrl, codes, faults, 0);
  }

  /** Every request issues at most ten inserts, and a request that did not
      store its URL leaves the table unchanged. */
  lemma AttemptsBoundedAndFailuresStoreNothing(rows: map<string, string>, longUrl: string,
                                                parse: UrlParser, codes: nat -> string,
                                                faults: nat -> bool)
    ensures var run := CreateShortUrlSpec(rows, longUrl, parse, codes, faults);
            && run.inserts <= MaxAttempts
            && (!Succeeded(run.outcome) ==> run.rows == rows)
  {
  }

  /** Round trip: after a request succeeds with code `c`, looking `c` up in
      the new table gives back the long URL exactly as it was submitted, the
      code was new before, and every earlier row is untouched. Only URLs
      that pass both guards are ever stored. */
  lemma RoundTrip(rows: map<string, string>, longUrl: string, parse: UrlParser,
                  codes: nat -> string, faults: nat -> bool)
    ensures var run := CreateShortUrlSpec(rows, longUrl, parse, codes, faults);
            Succeeded(run.outcome) ==>
              && var c := run.outcome.response.shortCode;
              && c !in rows
              && c in run.rows && run.rows[c] == longUrl
              && (forall other :: other in rows ==> other in run.rows && run.rows[other] == rows[other])
              && parse(longUrl).Some?
              && parse(longUrl).value.protocol in AllowedProtocols
              && parse(longUrl).value.hostname !in BlockedHostnames
  {
  }

  /** If every code the generator hands out has the generated shape, so has
      every code a request stores: five alphabet characters and a '5'. */
  lemma {:induction false} StoredCodeHasGeneratedShape(rows: map<string, string>, longUrl: string,
                                                      parse: UrlParser, codes: nat -> string,
                                                      faults: nat -> bool)
    requires forall k: nat :: IsGeneratedShape(codes(k))
    ensures var run := CreateShortUrlSpec(rows, longUrl, parse, codes, faults);
            Succeeded(run.outcome) ==> IsGeneratedShape(run.outcome.response.shortCode)
  {
    var run := CreateShortUrlSpec(rows, longUrl, parse, codes, faults);
    if Succeeded(run.outcome) {
      assert run == RetryLoop(rows, longUrl, codes, faults, 0);
      assert IsGeneratedShape(codes(run.inserts - 1));
    }
  }

  /** The shortening service, holding the database handle it works on. */
  class UrlService {
    const db: UrlTable

    constructor (db: UrlTable)
      ensures this.db == db
    {
      this.db := db;
    }

    /** createShortUrl: reject an invalid URL, then a blocked domain; then
        hand the URL to the retry loop. */
    method CreateShortUrl(longUrl: string, parse: UrlParser, codes: nat -> string, faults: nat -> bool)
      returns (result: Outcome)
      modifies db
      ensures var run := CreateShortUrlSpec(old(db.rows), longUrl, parse, codes, faults);
              && result == run.outcome
              && db.rows == run.rows
              && db.insertLog == old(db.insertLog) + Generated(codes, run.inserts)
    {
      if !IsValidUrl(parse, longUrl) {
        return Rejected(InvalidUrlFormat);
      }
      if IsBlockedDomain(parse, longUrl) {
        return Rejected(DomainBlocked);
      }
      result := InsertWithRetry(longUrl, codes, faults);
    }

    /** The loop of createShortUrl: insert the current generated code; on a
        UNIQUE violation generate a new one and try again, at most ten
        times. Any other insert failure is rethrown at once. */
    method InsertWithRetry(longUrl: string, codes: nat -> string, faults: nat -> bool)
      returns (result: Outcome)
      modifies db
      ensures var run := RetryLoop(old(db.rows), longUrl, codes, faults, 0);
              && result == run.outcome
              && db.rows == run.rows
              && db.insertLog == old(db.insertLog) + Generated(codes, run.inserts)
    {
      ghost var rows := db.rows;
      var shortCode := codes(0);
      var attempts := 0;
      while attempts < MaxAttempts
        invariant 0 <= attempts <= MaxAttempts
        invariant shortCode == codes(attempts)
        invariant db.rows == rows
        invariant db.insertLog == old(db.insertLog) + Generated(codes, attempts)
        invariant forall i :: 0 <= i < attempts ==> Collides(rows, codes, faults, i)
        decreases MaxAttempts - attempts
      {
        var inserted := db.Insert(shortCode, longUrl, faults(attempts));
        LogGrowsByNextCode(old(db.insertLog), codes, attempts);
        if inserted == Duplicate {
          shortCode := codes(attempts + 1);
          attempts := attempts + 1;
        } else {
          FirstNonCollisionDecides(rows, longUrl, codes, faults, 0, attempts);
          if inserted == Ok {
            return Created(shortCode);
          }
          return Threw;
        }
      }
      ExhaustedIffAllCollide(rows, longUrl, codes, faults, 0);
      return Rejected(GenerationFailed);
    }

    /** getLongUrl: the long URL stored under exactly this code, or null. */
    method GetLongUrl(shortCode: string) returns (longUrl: Option<string>)
      ensures longUrl.Some? <==> shortCode in db.rows
      ensures longUrl.Some? ==> longUrl.value == db.rows[shortCode]
    {
      var result := db.SelectLongUrl(shortCode);
      if |result| > 0 {
        longUrl := Some(result[0]);
      } else {
        longUrl := None;
      }
    }
  }

  /** A client of the service: shortening a URL and then resolving the code
      it got back yields the URL as it was submitted. */
  method ShortenThenResolve(service: UrlService, longUrl: string, parse: UrlParser,
                            codes: nat -> string, faults: nat -> bool)
    returns (outcome: Outcome, resolved: Option<string>)
    modifies service.db
    ensures Succeeded(outcome) ==> resolved == Some(longUrl)
  {
    outcome := service.CreateShortUrl(longUrl, parse, codes, faults);
    resolved := None;
    if Succeeded(outcome) {
      RoundTrip(old(service.db.rows), longUrl, parse, codes, faults);
      resolved := service.GetLongUrl(outcome.response.shortCode);
    }
  }
}
