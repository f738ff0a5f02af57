/**
 * The `job_data` record and the bookkeeping `handle_result` does on it:
 * which response-class counter a code lands in (decided, as the source
 * does, on the decimal text of the code) and how many bytes are added.
 */
module JobStats {
  import opened Wrappers

  /** The `job_data` dictionary, one field per key. */
  datatype JobData = JobData(
    ident: string,
    url: string,
    startedAt: real,
    suppressIgnoreReports: bool,
    concurrency: int,
    bytesDownloaded: nat,
    itemsQueued: nat,
    itemsDownloaded: nat,
    delayMin: int,
    delayMax: int,
    r1xx: nat,
    r2xx: nat,
    r3xx: nat,
    r4xx: nat,
    r5xx: nat,
    runk: nat)

  /** `job_data` as built at start-up, from the contents of `id`, `start_url` and `concurrency`. */
  function InitialJobData(ident: string, url: string, startedAt: real, concurrency: int): JobData {
    JobData(ident, url, startedAt, true, concurrency, 0, 0, 0, 0, 0, 0, 0, 0, 0, 0, 0)
  }

  /**
   * From one value of the record to a later one: the identity fields are
   * the same and no counter went down.
   */
  predicate Advances(before: JobData, after: JobData) {
    && after.ident == before.ident && after.url == before.url
    && after.startedAt == before.startedAt && after.concurrency == before.concurrency
    && after.delayMin == before.delayMin && after.delayMax == before.delayMax
    && after.bytesDownloaded >= before.bytesDownloaded
    && after.itemsQueued >= before.itemsQueued && after.itemsDownloaded >= before.itemsDownloaded
    && after.r1xx >= before.r1xx && after.r2xx >= before.r2xx && after.r3xx >= before.r3xx
    && after.r4xx >= before.r4xx && after.r5xx >= before.r5xx && after.runk >= before.runk
  }

  /** The buckets `r1xx` .. `r5xx` and `runk`. */
  datatype ResponseClass = R1xx | R2xx | R3xx | R4xx | R5xx | Runk

  function ClassCount(job: JobData, c: ResponseClass): nat {
    match c
    case R1xx => job.r1xx
    case R2xx => job.r2xx
    case R3xx => job.r3xx
    case R4xx => job.r4xx
    case R5xx => job.r5xx
    case Runk => job.runk
  }

  /**
   * Adds one to the counter of bucket `c`: that bucket goes up by one,
   * every other bucket and every other field stay as they were.
   */
  function Bump(job: JobData, c: ResponseClass): (j: JobData)
    ensures forall d :: ClassCount(j, d) == ClassCount(job, d) + (if d == c then 1 else 0)
    ensures Advances(job, j)
    ensures j.bytesDownloaded == job.bytesDownloaded && j.itemsQueued == job.itemsQueued
    ensures j.itemsDownloaded == job.itemsDownloaded && j.suppressIgnoreReports == job.suppressIgnoreReports
  {
    match c
    case R1xx => job.(r1xx := job.r1xx + 1)
    case R2xx => job.(r2xx := job.r2xx + 1)
    case R3xx => job.(r3xx := job.r3xx + 1)
    case R4xx => job.(r4xx := job.r4xx + 1)
    case R5xx => job.(r5xx := job.r5xx + 1)
    case Runk => job.(runk := job.runk + 1)
  }

  function DigitChar(d: nat): char
    requires d < 10
  {
    ('0' as int + d) as char
  }

  /** Python's `str(n)` for a non-negative integer. */
  function NatToString(n: nat): string {
    if n < 10 then [DigitChar(n)] else NatToString(n / 10) + [DigitChar(n % 10)]
  }

  /** Python's `str(c)` for an integer. */
  function IntToString(c: int): string {
    if c < 0 then "-" + NatToString(-c) else NatToString(c)
  }

  /**
   * The bucket named by the text of a code: `r<d>xx` when the text has three
   * characters and its first is one of 1..5, `runk` otherwise.
   */
  function ClassOfCodeText(s: string): ResponseClass {
    if |s| == 3 && s[0] in "12345" then
      match s[0]
      case '1' => R1xx
      case '2' => R2xx
      case '3' => R3xx
      case '4' => R4xx
      case _ => R5xx
    else Runk
  }

  /**
   * The bucket `handle_result` bumps for a `response_code` entry: none when
   * the entry is absent or zero (Python treats 0 as false), otherwise the
   * bucket of `str(code)`.
   */
  function Bucket(code: Option<int>): Option<ResponseClass> {
    if code.None? || code.value == 0 then None else Some(ClassOfCodeText(IntToString(code.value)))
  }

  /** The bucket of a leading digit 1..5. */
  function DigitClass(d: int): ResponseClass {
    if d == 1 then R1xx else if d == 2 then R2xx else if d == 3 then R3xx
    else if d == 4 then R4xx else if d == 5 then R5xx else Runk
  }

  /** Decimal text of a natural number has three characters exactly for 100..999, and then leads with n / 100. */
  lemma {:induction false} NatToStringThreeDigits(n: nat)
    ensures |NatToString(n)| >= 1
    ensures n < 100 ==> |NatToString(n)| < 3
    ensures n >= 1000 ==> |NatToString(n)| > 3
    ensures 100 <= n < 1000 ==> |NatToString(n)| == 3 && NatToString(n)[0] == DigitChar(n / 100)
  {
    if n >= 10 {
      NatToStringThreeDigits(n / 10);
      if 100 <= n < 1000 {
        assert NatToString(n / 10) == NatToString(n / 10 / 10) + [DigitChar(n / 10 % 10)];
        assert n / 10 / 10 == n / 100;
      }
    }
  }

  /**
   * Reading the bucket off the decimal text is the same as the range test:
   * a non-zero code lands in `r<d>xx` for 100 <= code <= 599 (d its
   * leading digit) and in `runk` otherwise, negative codes included.
   */
  lemma BucketByRange(code: int)
    ensures Bucket(Some(code)) ==
      if code == 0 then None
      else if 100 <= code <= 599 then Some(DigitClass(code / 100))
      else Some(Runk)
  {
    if code < 0 {
      assert IntToString(code)[0] == '-';
    } else if code != 0 {
      NatToStringThreeDigits(code);
      if 100 <= code < 1000 {
        var d := code / 100;
        var s := IntToString(code);
        assert s[0] == DigitChar(d);
        assert s[0] in "12345" <==> 1 <= d <= 5 by {
          assert "12345" == [DigitChar(1), DigitChar(2), DigitChar(3), DigitChar(4), DigitChar(5)];
        }
      }
    }
  }

  /** What the fetch reported: `response_code`, `response_message` and the body's `content_size`, each possibly absent. */
  datatype HttpInfo = HttpInfo(responseCode: Option<int>, responseMessage: Option<string>, contentSize: Option<nat>)

  /** The `http_info` that `handle_error` leaves at its default, `{}`. */
  const NoHttpInfo: HttpInfo := HttpInfo(None, None, None)

  /** The counters after one result: the code's bucket, then the body size. */
  function Tally(job: JobData, http: HttpInfo): JobData {
    var counted := match Bucket(http.responseCode)
      case None => job
      case Some(c) => Bump(job, c);
    match http.contentSize
    case None => counted
    case Some(size) => counted.(bytesDownloaded := counted.bytesDownloaded + size)
  }

  /**
   * One result bumps exactly the bucket of its code (none for an absent or
   * zero code), adds the body size when there is a body, and changes no
   * other field.
   */
  lemma TallyEffect(job: JobData, http: HttpInfo)
    ensures forall d :: ClassCount(Tally(job, http), d) == ClassCount(job, d) + (if Bucket(http.responseCode) == Some(d) then 1 else 0)
    ensures Tally(job, http).bytesDownloaded == job.bytesDownloaded + (if http.contentSize.Some? then http.contentSize.value else 0)
    ensures Advances(job, Tally(job, http))
    ensures Tally(job, http).itemsQueued == job.itemsQueued && Tally(job, http).itemsDownloaded == job.itemsDownloaded
    ensures Tally(job, http).suppressIgnoreReports == job.suppressIgnoreReports
  {
  }

  /** A non-zero code lands in exactly one bucket; the range decides which. */
  lemma TallyNonZeroCode(job: JobData, code: int, http: HttpInfo)
    requires http.responseCode == Some(code) && code != 0
    ensures var c := if 100 <= code <= 599 then DigitClass(code / 100) else Runk;
      ClassCount(Tally(job, http), c) == ClassCount(job, c) + 1 &&
      forall d :: d != c ==> ClassCount(Tally(job, http), d) == ClassCount(job, d)
  {
    BucketByRange(code);
    TallyEffect(job, http);
  }
}
