/** Ticket numbering: every office keeps one counter per day, and a new
    ticket takes the counter's next value, written as four digits. The
    counter update is an optimistic read-increment-save retried up to
    five times when another worker created the same counter first. */
module TicketSequence {
  import opened Common
  import opened QueueData

  /** What saving the counter document does on one attempt: it is stored;
      another worker inserted the same counter first (its stored value
      becomes visible, and the attempt is retried); or any other failure. */
  datatype SaveOutcome = Saved | Collided(stored: nat) | Failed

  datatype CounterError = OfficeRequired | CounterFailure | AttemptsExhausted

  const MaxAttempts: nat := 5

  /** The name of an office's counter document for one date. */
  function CounterKey(office: string, date: string): string
  {
    office + "-" + date
  }

  /** Dates are always written `YYYY-MM-DD`, so a counter name determines
      its office and its date: two offices, or two days, never share a counter. */
  lemma CounterKeyInjective(o1: string, d1: string, o2: string, d2: string)
    requires |d1| == |d2|
    requires CounterKey(o1, d1) == CounterKey(o2, d2)
    ensures o1 == o2 && d1 == d2
  {
    var k := CounterKey(o1, d1);
    assert |o1| == |o2|;
    assert o1 == k[..|o1|] == o2;
    assert d1 == k[|o1| + 1..] == d2;
  }

  /** The value an attempt tries to store: one more than the counter's
      current value, or 1 for a counter that does not exist yet. */
  function Claim(counters: map<string, nat>, key: string): nat
  {
    if key in counters then counters[key] + 1 else 1
  }

  /** The outcome of attempt `i`; attempts beyond the given list succeed. */
  function OutcomeAt(outcomes: seq<SaveOutcome>, i: nat): SaveOutcome
  {
    if i < |outcomes| then outcomes[i] else Saved
  }

  /** The attempts from `attempt` on: the sequence number obtained (or the
      error) and the counters table afterwards. */
  function Attempts(counters: map<string, nat>, key: string, outcomes: seq<SaveOutcome>, attempt: nat)
    : (r: (Result<nat, CounterError>, map<string, nat>))
    decreases MaxAttempts - attempt
  {
    if attempt >= MaxAttempts then (Err(AttemptsExhausted), counters)
    else match OutcomeAt(outcomes, attempt)
      case Saved => (Ok(Claim(counters, key)), counters[key := Claim(counters, key)])
      case Collided(v) => Attempts(counters[key := v], key, outcomes, attempt + 1)
      case Failed => (Err(CounterFailure), counters)
  }

  /** `get_next_ticket_sequence_orm`: the retry loop over the counter of
      the office for `today`. */
  method NextTicketSequence(db: QueueDb, office: string, today: string, outcomes: seq<SaveOutcome>)
    returns (r: Result<nat, CounterError>)
    modifies db`counters
    ensures office == "" ==> r == Err(OfficeRequired) && db.counters == old(db.counters)
    ensures office != "" ==> (r, db.counters) == Attempts(old(db.counters), CounterKey(office, today), outcomes, 0)
  {
    if office == "" {
      return Err(OfficeRequired);
    }
    var key := CounterKey(office, today);
    var attempt := 0;
    while attempt < MaxAttempts
      invariant 0 <= attempt <= MaxAttempts
      invariant Attempts(db.counters, key, outcomes, attempt) == Attempts(old(db.counters), key, outcomes, 0)
      decreases MaxAttempts - attempt
    {
      var newNumber := if key in db.counters then db.counters[key] + 1 else 1;
      var outcome := if attempt < |outcomes| then outcomes[attempt] else Saved;
      match outcome {
        case Saved =>
          db.counters := db.counters[key := newNumber];
          return Ok(newNumber);
        case Collided(v) =>
          // the other worker's row is what the next attempt loads
          db.counters := db.counters[key := v];
        case Failed =>
          return Err(CounterFailure);
      }
      attempt := attempt + 1;
    }
    return Err(AttemptsExhausted);
  }

  // ---------------------------------------------------------------------
  // Properties of the counter protocol

  /** A number obtained is at least 1 and is what the counter now holds. */
  lemma {:induction false} ObtainedNumberIsStored(counters: map<string, nat>, key: string, outcomes: seq<SaveOutcome>, attempt: nat)
    ensures var r := Attempts(counters, key, outcomes, attempt);
            r.0.Ok? ==> r.0.value >= 1 && key in r.1 && r.1[key] == r.0.value
    decreases MaxAttempts - attempt
  {
    if attempt < MaxAttempts && OutcomeAt(outcomes, attempt).Collided? {
      ObtainedNumberIsStored(counters[key := OutcomeAt(outcomes, attempt).stored], key, outcomes, attempt + 1);
    }
  }

  /** Only the counter of this office and date is written; every other counter keeps its value. */
  lemma {:induction false} OtherCountersUntouched(counters: map<string, nat>, key: string, outcomes: seq<SaveOutcome>, attempt: nat)
    ensures var r := Attempts(counters, key, outcomes, attempt);
            r.1.Keys <= counters.Keys + {key}
            && forall k :: k in counters && k != key ==> k in r.1 && r.1[k] == counters[k]
    decreases MaxAttempts - attempt
  {
    if attempt < MaxAttempts && OutcomeAt(outcomes, attempt).Collided? {
      OtherCountersUntouched(counters[key := OutcomeAt(outcomes, attempt).stored], key, outcomes, attempt + 1);
    }
  }

  /** The loop gives up only when every remaining attempt collided. */
  lemma {:induction false} ExhaustedOnlyAfterCollisions(counters: map<string, nat>, key: string, outcomes: seq<SaveOutcome>, attempt: nat)
    requires Attempts(counters, key, outcomes, attempt).0 == Err(AttemptsExhausted)
    ensures forall i :: attempt <= i < MaxAttempts ==> OutcomeAt(outcomes, i).Collided?
    decreases MaxAttempts - attempt
  {
    if attempt < MaxAttempts {
      ExhaustedOnlyAfterCollisions(counters[key := OutcomeAt(outcomes, attempt).stored], key, outcomes, attempt + 1);
    }
  }

  /** When every remaining attempt collides, the loop gives up with an
      error and obtains no number. */
  lemma {:induction false} CollisionsExhaust(counters: map<string, nat>, key: string, outcomes: seq<SaveOutcome>, attempt: nat)
    requires forall i :: attempt <= i < MaxAttempts ==> OutcomeAt(outcomes, i).Collided?
    ensures Attempts(counters, key, outcomes, attempt).0 == Err(AttemptsExhausted)
    decreases MaxAttempts - attempt
  {
    if attempt < MaxAttempts {
      CollisionsExhaust(counters[key := OutcomeAt(outcomes, attempt).stored], key, outcomes, attempt + 1);
    }
  }

  /** Any failure other than a collision stops the loop at once: the result
      is the counter error, and the outcomes after that attempt play no part. */
  lemma {:induction false} FailureStopsAtOnce(counters: map<string, nat>, key: string, outcomes: seq<SaveOutcome>,
                                              attempt: nat, i: nat, rest: seq<SaveOutcome>)
    requires attempt <= i < MaxAttempts
    requires forall j :: attempt <= j < i ==> OutcomeAt(outcomes, j).Collided?
    requires OutcomeAt(outcomes, i) == Failed
    ensures i < |outcomes|
    ensures Attempts(counters, key, outcomes, attempt).0 == Err(CounterFailure)
    ensures Attempts(counters, key, outcomes, attempt) == Attempts(counters, key, outcomes[..i + 1] + rest, attempt)
    decreases MaxAttempts - attempt
  {
    var cut := outcomes[..i + 1] + rest;
    assert OutcomeAt(cut, attempt) == OutcomeAt(outcomes, attempt);
    if attempt < i {
      FailureStopsAtOnce(counters[key := OutcomeAt(outcomes, attempt).stored], key, outcomes, attempt + 1, i, rest);
    }
  }

  /** Only the first five outcomes matter: whatever the list holds from the
      sixth attempt on never changes the result or the counters. */
  lemma {:induction false} LaterOutcomesIgnored(counters: map<string, nat>, key: string, outcomes: seq<SaveOutcome>,
                                                attempt: nat, rest: seq<SaveOutcome>)
    requires |outcomes| >= MaxAttempts
    ensures Attempts(counters, key, outcomes, attempt) == Attempts(counters, key, outcomes[..MaxAttempts] + rest, attempt)
    decreases MaxAttempts - attempt
  {
    if attempt < MaxAttempts {
      var cut := outcomes[..MaxAttempts] + rest;
      assert OutcomeAt(cut, attempt) == OutcomeAt(outcomes, attempt);
      match OutcomeAt(outcomes, attempt)
      case Collided(v) => LaterOutcomesIgnored(counters[key := v], key, outcomes, attempt + 1, rest);
      case _ =>
    }
  }

  /** The counters table as this worker last loaded it: every row another
      worker committed during the attempts is there, and none of this
      worker's own writes. */
  function Observed(counters: map<string, nat>, key: string, outcomes: seq<SaveOutcome>, attempt: nat)
    : (seen: map<string, nat>)
    ensures seen.Keys <= counters.Keys + {key}
    ensures forall k :: k in counters && k != key ==> k in seen && seen[k] == counters[k]
    decreases MaxAttempts - attempt
  {
    if attempt >= MaxAttempts then counters
    else match OutcomeAt(outcomes, attempt)
      case Collided(v) => Observed(counters[key := v], key, outcomes, attempt + 1)
      case _ => counters
  }

  /** The loop's only own write is the number it obtains: on success the
      counters are what it last loaded with the counter set to that number;
      on an error they are what it last loaded. */
  lemma {:induction false} OnlyTheClaimIsWritten(counters: map<string, nat>, key: string, outcomes: seq<SaveOutcome>, attempt: nat)
    ensures var a := Attempts(counters, key, outcomes, attempt);
            var seen := Observed(counters, key, outcomes, attempt);
            (a.0.Ok? ==> a.1 == seen[key := a.0.value]) && (a.0.Err? ==> a.1 == seen)
    decreases MaxAttempts - attempt
  {
    if attempt < MaxAttempts && OutcomeAt(outcomes, attempt).Collided? {
      OnlyTheClaimIsWritten(counters[key := OutcomeAt(outcomes, attempt).stored], key, outcomes, attempt + 1);
    }
  }

  /** Without interference the first attempt stores and returns the next value. */
  lemma QuietAttempt(counters: map<string, nat>, key: string)
    ensures Attempts(counters, key, [], 0) == (Ok(Claim(counters, key)), counters[key := Claim(counters, key)])
  {
  }

  /** After a collision the value obtained is one more than what the other worker stored. */
  lemma CollisionThenSave(counters: map<string, nat>, key: string, v: nat)
    ensures Attempts(counters, key, [Collided(v), Saved], 0).0 == Ok(v + 1)
  {
    assert OutcomeAt([Collided(v), Saved], 0) == Collided(v);
    assert OutcomeAt([Collided(v), Saved], 1) == Saved;
  }

  /** The numbers `n` tickets in a row obtain from a quiet counter, and the counters afterwards. */
  function IssueQuietly(counters: map<string, nat>, key: string, n: nat): (r: (seq<nat>, map<string, nat>))
  {
    if n == 0 then ([], counters)
    else
      var previous := IssueQuietly(counters, key, n - 1);
      var attempt := Attempts(previous.1, key, [], 0);
      match attempt.0
      case Ok(v) => (previous.0 + [v], attempt.1)
      case Err(_) => (previous.0, attempt.1)
  }

  /** The counter value an office starts the day from. */
  function Base(counters: map<string, nat>, key: string): nat
  {
    if key in counters then counters[key] else 0
  }

  /** Successive tickets of one office on one day are numbered consecutively:
      the first gets one more than the stored counter (1 on a fresh day), each
      next one more again, and the counter ends at the last number issued. */
  lemma {:induction false} QuietNumbersAreConsecutive(counters: map<string, nat>, key: string, n: nat)
    ensures var r := IssueQuietly(counters, key, n);
            |r.0| == n
            && (forall i :: 0 <= i < n ==> r.0[i] == Base(counters, key) + i + 1)
            && (n > 0 ==> r.1 == counters[key := Base(counters, key) + n])
            && (n == 0 ==> r.1 == counters)
  {
    if n > 0 {
      QuietNumbersAreConsecutive(counters, key, n - 1);
      var previous := IssueQuietly(counters, key, n - 1);
      QuietAttempt(previous.1, key);
      assert Claim(previous.1, key) == Base(counters, key) + n;
    }
  }

  // ---------------------------------------------------------------------
  // The printed ticket number

  /** `str(n).zfill(4)`. */
  function TicketNumber(n: nat): string
  {
    ZFill(Decimal(n), 4)
  }

  /** A ticket number is at least four digits, exactly four below 10000,
      and reads back as the sequence number it was made from. */
  lemma TicketNumberRoundTrip(n: nat)
    ensures var s := TicketNumber(n);
            |s| >= 4 && (n < 10000 <==> |s| == 4)
            && AllDigits(s) && ParseDecimal(s) == n
  {
    var d := Decimal(n);
    DecimalRoundTrip(n);
    var s := TicketNumber(n);
    if |d| < 4 {
      assert s == Zeros(4 - |d|) + d;
      LeadingZerosDoNotCount(4 - |d|, d);
    }
    DecimalWidth(n);
  }

  /** `Decimal(n)` has at most four digits exactly when `n < 10000`. */
  lemma {:induction false} DecimalWidth(n: nat)
    ensures |Decimal(n)| <= 4 <==> n < 10000
    decreases n
  {
    if n >= 10 {
      DecimalWidth(n / 10);
      assert |Decimal(n)| == |Decimal(n / 10)| + 1;
      if n / 10 >= 10 {
        DecimalWidth(n / 100);
        if n / 100 >= 10 {
          DecimalWidth(n / 1000);
        }
      }
    }
  }

  /** Distinct sequence numbers give distinct ticket numbers, so padding never
      makes two tickets of one office and day look alike. */
  lemma TicketNumberInjective(m: nat, n: nat)
    requires TicketNumber(m) == TicketNumber(n)
    ensures m == n
  {
    TicketNumberRoundTrip(m);
    TicketNumberRoundTrip(n);
  }

  /** `before_insert`: a ticket without a number takes the next number of
      its office's counter for `today`; a ticket that already has one keeps
      it and the counters are not touched. */
  method BeforeInsert(db: QueueDb, t: Ticket, today: string, outcomes: seq<SaveOutcome>)
    returns (r: Result<Ticket, CounterError>)
    modifies db`counters
    ensures t.ticketNumber != "" ==> r == Ok(t) && db.counters == old(db.counters)
    ensures t.ticketNumber == "" && t.office == "" ==> r == Err(OfficeRequired) && db.counters == old(db.counters)
    ensures t.ticketNumber == "" && t.office != "" ==>
              var a := Attempts(old(db.counters), CounterKey(t.office, today), outcomes, 0);
              db.counters == a.1
              && (a.0.Ok? ==> r == Ok(t.(ticketNumber := TicketNumber(a.0.value))))
              && (a.0.Err? ==> r == Err(a.0.error))
  {
    if t.ticketNumber != "" {
      return Ok(t);
    }
    var next := NextTicketSequence(db, t.office, today, outcomes);
    match next {
      case Ok(n) => r := Ok(t.(ticketNumber := TicketNumber(n)));
      case Err(e) => r := Err(e);
    }
  }
}
