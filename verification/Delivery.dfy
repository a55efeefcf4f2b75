/** One webhook delivery: posts with retries, and the audit row it leaves behind. */
module Delivery {
  import opened Decimal

  const MAX_RETRIES: nat := 3
  const MAX_ERROR: nat := 512

  /** The result of one POST: a transport error, or the receiver's status. */
  datatype Outcome = PostError(message: string) | Responded(status: int)

  datatype RowStatus = Pending | Delivered | Failed

  /** One write to the delivery row. */
  datatype Record = Record(status: RowStatus, attempts: nat, lastStatus: Option<int>, lastError: Option<string>)

  function StatusOf(o: Outcome): Option<int> {
    if o.Responded? then Some(o.status) else None
  }

  predicate Success(o: Outcome) { o.Responded? && 200 <= o.status < 300 }

  /** Transport failures and 5xx are tried again; anything else is the receiver's answer. */
  predicate Retryable(o: Outcome) { o.PostError? || o.status >= 500 }

  /** The error column: null when empty, cut to its width. */
  function ErrorColumn(message: string): Option<string> {
    if message == "" then None else Some(if |message| > MAX_ERROR then message[..MAX_ERROR] else message)
  }

  /** Nothing for no error; otherwise the text, or its first 512 characters when it is longer. */
  lemma ErrorColumnKeeps(message: string)
    ensures ErrorColumn(message).None? <==> message == ""
    ensures message != "" ==>
              ErrorColumn(message).value <= message
              && |ErrorColumn(message).value| == if |message| > 512 then 512 else |message|
  {
  }

  /** The error text of a failed post. */
  function ErrorText(o: Outcome): string {
    if o.PostError? then o.message else "receiver answered status=" + FormatInt(o.status)
  }

  /** Pending records with non-decreasing attempts, then exactly one terminal record. */
  ghost predicate IsTrail(records: seq<Record>) {
    && records != []
    && (forall i :: 0 <= i < |records| - 1 ==> records[i].status == Pending)
    && records[|records| - 1].status != Pending
    && (forall i, j :: 0 <= i < j < |records| ==> records[i].attempts <= records[j].attempts)
  }

  /** The posts made are a prefix of the receiver's behaviour that stops for a reason. */
  ghost predicate PostsMade(posts: nat -> Outcome, naps: nat -> bool, made: seq<Outcome>) {
    && 1 <= |made| <= MAX_RETRIES + 1
    && (forall i :: 0 <= i < |made| ==> made[i] == posts(i))
    // Only retryable outcomes are retried, each after a completed back-off.
    && (forall i :: 0 <= i < |made| - 1 ==> Retryable(made[i]))
    && (forall i :: 0 < i < |made| ==> naps(i))
    // It stops at an answer below 500, at the retry limit or at a cancelled back-off.
    && (|made| <= MAX_RETRIES && Retryable(made[|made| - 1]) ==> !naps(|made|))
  }

  /** One pending record per failed retryable post, then the verdict on the last post. */
  ghost predicate Audits(made: seq<Outcome>, records: seq<Record>)
    requires made != []
  {
    var last := made[|made| - 1];
    && |records| == |made| + (if Retryable(last) then 1 else 0)
    && (forall i :: 0 <= i < |records| - 1 ==> records[i] == PendingRecord(made, i))
    && Verdict(made, records[|records| - 1])
  }

  function PendingRecord(made: seq<Outcome>, i: nat): Record
    requires i < |made|
  {
    Record(Pending, i + 1, StatusOf(made[i]), ErrorColumn(ErrorText(made[i])))
  }

  /** Every post so far was retryable, and has its pending record. */
  ghost predicate Retried(posts: nat -> Outcome, naps: nat -> bool, made: seq<Outcome>, records: seq<Record>) {
    && |records| == |made| <= MAX_RETRIES + 1
    && (forall i :: 0 <= i < |made| ==> made[i] == posts(i) && Retryable(made[i]))
    && (forall i :: 0 < i < |made| ==> naps(i))
    && (forall i :: 0 <= i < |records| ==> records[i] == PendingRecord(made, i))
  }

  /** One more retryable post, recorded as pending. */
  lemma RetriedMore(posts: nat -> Outcome, naps: nat -> bool, made: seq<Outcome>, records: seq<Record>)
    requires Retried(posts, naps, made, records) && |made| <= MAX_RETRIES
    requires Retryable(posts(|made|)) && (made != [] ==> naps(|made|))
    ensures var m := made + [posts(|made|)]; Retried(posts, naps, m, records + [PendingRecord(m, |made|)])
  {
    var m := made + [posts(|made|)];
    forall i | 0 <= i < |records| ensures records[i] == PendingRecord(m, i) {
      assert records[i] == PendingRecord(made, i);
    }
  }

  ghost predicate Verdict(made: seq<Outcome>, r: Record)
    requires made != []
  {
    var last := made[|made| - 1];
    && r.attempts == |made| && r.lastStatus == StatusOf(last)
    && r.status == (if Success(last) then Delivered else Failed)
    && r.lastError == (if Success(last) then None
                       else if Retryable(last) && |made| <= MAX_RETRIES then ErrorColumn(SHUTDOWN_ERROR)
                       else ErrorColumn(ErrorText(last)))
  }

  /** The delivery ends after a retryable post: no attempts or no back-off left. */
  lemma EndsRetryable(posts: nat -> Outcome, naps: nat -> bool, made: seq<Outcome>, records: seq<Record>, r: Record)
    requires Retried(posts, naps, made, records) && made != [] && Verdict(made, r)
    requires |made| == MAX_RETRIES + 1 || !naps(|made|)
    ensures PostsMade(posts, naps, made) && Audits(made, records + [r]) && IsTrail(records + [r])
  {
    forall i | 0 <= i < |records| ensures records[i] == PendingRecord(made, i) {
    }
  }

  /** Attempts that count up by one to a terminal record form a trail. */
  lemma CountedTrail(records: seq<Record>)
    requires records != [] && records[|records| - 1].status != Pending && records[|records| - 1].attempts >= |records| - 1
    requires forall i :: 0 <= i < |records| - 1 ==> records[i].status == Pending && records[i].attempts == i + 1
    ensures IsTrail(records)
  {
  }

  lemma StopsAnswered(posts: nat -> Outcome, naps: nat -> bool, made: seq<Outcome>, records: seq<Record>)
    requires Retried(posts, naps, made, records) && |made| <= MAX_RETRIES
    requires !Retryable(posts(|made|)) && (made != [] ==> naps(|made|))
    ensures PostsMade(posts, naps, made + [posts(|made|)])
  {
    var m := made + [posts(|made|)];
    forall i | 0 <= i < |m| ensures m[i] == posts(i) && (i < |made| ==> Retryable(m[i])) && (0 < i ==> naps(i)) {
    }
  }

  /** The delivery ends with an answer that is not tried again. */
  lemma EndsAnswered(posts: nat -> Outcome, naps: nat -> bool, made: seq<Outcome>, records: seq<Record>, r: Record)
    requires Retried(posts, naps, made, records) && |made| <= MAX_RETRIES
    requires !Retryable(posts(|made|)) && (made != [] ==> naps(|made|))
    requires Verdict(made + [posts(|made|)], r)
    ensures var m := made + [posts(|made|)];
      PostsMade(posts, naps, m) && Audits(m, records + [r]) && IsTrail(records + [r])
  {
    var m := made + [posts(|made|)];
    assert Audits(m, records + [r]) by {
      forall i | 0 <= i < |records| ensures records[i] == PendingRecord(m, i) {
        assert records[i] == PendingRecord(made, i);
      }
    }
    CountedTrail(records + [r]);
    StopsAnswered(posts, naps, made, records);
  }

  const SHUTDOWN_ERROR := "shutdown before retry"
  const ENCODING_ERROR := "encoding payload: "

  /**
   The retry loop. posts(i) is the receiver's outcome of the i-th post and naps(i) tells whether
   the back-off before it runs to its end; encodes tells whether the payload can be encoded.
   */
  method Deliver(encodes: bool, encodeError: string, posts: nat -> Outcome, naps: nat -> bool)
    returns (records: seq<Record>, made: seq<Outcome>)
    ensures IsTrail(records)
    ensures !encodes ==> made == [] && records == [Record(Failed, 0, None, ErrorColumn(ENCODING_ERROR + encodeError))]
    ensures encodes ==> PostsMade(posts, naps, made) && Audits(made, records)
    // In the receiver's terms: 1 to 4 posts, a 2xx delivers, anything else below 500 fails at once.
    ensures encodes ==> 1 <= |made| <= 4 && records[|records| - 1].attempts == |made|
    ensures records[|records| - 1].status == Delivered <==>
              made != [] && made[|made| - 1].Responded? && 200 <= made[|made| - 1].status < 300
    ensures forall i :: 0 <= i < |made| - 1 ==> made[i].PostError? || made[i].status >= 500
    ensures encodes && |made| < 4 && (made[|made| - 1].PostError? || made[|made| - 1].status >= 500) ==> !naps(|made|)
  {
    records, made := [], [];
    if !encodes {
      records := [Record(Failed, 0, None, ErrorColumn(ENCODING_ERROR + encodeError))];
      return;
    }
    var lastStatus: Option<int> := None;
    var lastErr := [];
    var attempts := 0;
    var attempt := 0;
    while attempt <= MAX_RETRIES
      invariant 0 <= attempt <= MAX_RETRIES + 1 && attempts == attempt == |made|
      invariant Retried(posts, naps, made, records)
      invariant made != [] ==> lastStatus == StatusOf(made[|made| - 1]) && lastErr == ErrorText(made[|made| - 1])
    {
      if attempt > 0 && !naps(attempt) {
        lastErr := SHUTDOWN_ERROR;
        break;
      }
      attempts := attempts + 1;
      var outcome := posts(attempt);
      ghost var before := made;
      made := made + [outcome];
      match outcome {
        case PostError(message) =>
          lastErr := message;
          lastStatus := None;
          RetriedMore(posts, naps, before, records);
          records := records + [Record(Pending, attempts, None, ErrorColumn(lastErr))];
        case Responded(status) =>
          lastStatus := Some(status);
          if 200 <= status < 300 {
            var verdict := Record(Delivered, attempts, lastStatus, None);
            EndsAnswered(posts, naps, before, records, verdict);
            records := records + [verdict];
            return;
          }
          lastErr := ErrorText(outcome);
          if status < 500 {
            var verdict := Record(Failed, attempts, lastStatus, ErrorColumn(lastErr));
            EndsAnswered(posts, naps, before, records, verdict);
            records := records + [verdict];
            return;
          }
          RetriedMore(posts, naps, before, records);
          records := records + [Record(Pending, attempts, lastStatus, ErrorColumn(lastErr))];
      }
      attempt := attempt + 1;
    }
    var verdict := Record(Failed, attempts, lastStatus, ErrorColumn(lastErr));
    EndsRetryable(posts, naps, made, records, verdict);
    records := records + [verdict];
  }
}
