// The OpenAQ client: one rate-limited, retried request, and the paginated fetch built on it.
module Client {
  import opened Join
  import opened Json
  import opened Pagination
  import opened Ratelimit
  import opened Wrappers

  /** A response header read as a number, if it is there and is one. */
  datatype HeaderValue = Missing | Unusable | Number(value: real)

  datatype Body = NotJson | Decoded(json: Json)

  /** What one HTTP attempt comes to: no response at all, or a response read at some wall-clock time. */
  datatype Exchange =
    | NoResponse
    | Response(status: int, retryAfter: HeaderValue, rateReset: HeaderValue, wallClock: real, body: Body)

  /** What the ingest asks for: the locations of the ingested providers, and one sensor's records of a window. */
  datatype Endpoint = Locations | Measurements(sensor: int, from: Instant, to: Instant)

  datatype Query = Query(endpoint: Endpoint, page: nat)

  const EPOCH_THRESHOLD := 1000000000.0
  const MAX_PAGE_SIZE := 1000

  /** The delay one header suggests; large numbers are Unix timestamps, non-positive delays are no hint. */
  function Hint(header: HeaderValue, wallClock: real): Option<real> {
    if !header.Number? then None
    else
      var delay := if header.value >= EPOCH_THRESHOLD then header.value - wallClock else header.value;
      if delay > 0.0 then Some(delay) else None
  }

  function FirstHint(headers: seq<HeaderValue>, wallClock: real): (hint: Option<real>)
    ensures hint.Some? ==> hint.value > 0.0
    ensures hint.None? <==> forall i :: 0 <= i < |headers| ==> Hint(headers[i], wallClock).None?
  {
    if headers == [] then None
    else if Hint(headers[0], wallClock).Some? then Hint(headers[0], wallClock)
    else FirstHint(headers[1..], wallClock)
  }

  /** Tries the headers in order until one holds a usable delay. */
  method ParseRetryAfter(headers: seq<HeaderValue>, wallClock: real) returns (hint: Option<real>)
    ensures hint == FirstHint(headers, wallClock)
  {
    for i := 0 to |headers|
      invariant FirstHint(headers[i..], wallClock) == FirstHint(headers, wallClock)
    {
      if headers[i].Number? {
        var value := headers[i].value;
        if value >= EPOCH_THRESHOLD {
          value := value - wallClock;
        }
        if value > 0.0 {
          return Some(value);
        }
      }
    }
    hint := None;
  }

  predicate Retryable(e: ApiError) {
    e.TransportError? || e.ServerError? || e.RateLimitError? || e.InvalidJsonResponse?
  }

  predicate IsServerError(x: Exchange) {
    x.Response? && 500 <= x.status < 600
  }

  /** What is worth another attempt: no response, a rate limit, a server error, or a body that is not JSON. */
  predicate Transient(x: Exchange) {
    || x.NoResponse? || x.status == 429 || IsServerError(x)
    || (!(400 <= x.status < 600) && x.body.NotJson?)
  }

  /** The header suggests this delay: seconds, or a Unix timestamp when it is large. */
  predicate Suggests(header: HeaderValue, wallClock: real, delay: real) {
    && header.Number? && delay > 0.0
    && delay == if header.value >= 1000000000.0 then header.value - wallClock else header.value
  }

  /** The delay a rate-limited response asks for: its Retry-After, or its reset time when that suggests none. */
  ghost predicate AsksFor(x: Exchange, delay: real) {
    && x.Response? && x.status == 429
    && (Suggests(x.retryAfter, x.wallClock, delay) ||
        (Suggests(x.rateReset, x.wallClock, delay) && forall d :: !Suggests(x.retryAfter, x.wallClock, d)))
  }

  /** The response carries a page: its results array, an explicit null standing for an empty one. */
  predicate Carries(x: Exchange, page: Page) {
    && x.Response? && !(400 <= x.status < 600)
    && x.body.Decoded? && x.body.json.Obj? && "results" in x.body.json.fields
    && (x.body.json.fields["results"] == Arr(page) || (x.body.json.fields["results"] == Null && page == []))
  }

  /** The decoded envelope of an attempt, or the error it raises. */
  function Decode(x: Exchange): (r: Result<map<string, Json>, ApiError>)
    ensures r.Failure? && Retryable(r.error) <==> Transient(x)
    ensures r.Failure? && r.error.ServerError? <==> IsServerError(x)
    ensures r.Success? ==> x.Response? && !(400 <= x.status < 600) && x.body == Decoded(Obj(r.value))
  {
    if x.NoResponse? then Failure(TransportError)
    else if x.status == 429 then Failure(RateLimitError(FirstHint([x.retryAfter, x.rateReset], x.wallClock)))
    else if x.status == 401 || x.status == 403 then Failure(AuthError)
    else if 500 <= x.status < 600 then Failure(ServerError(x.status))
    else if 400 <= x.status < 500 then Failure(RequestError(x.status))
    else if x.body.NotJson? then Failure(InvalidJsonResponse)
    else if !x.body.json.Obj? then Failure(ResponseError)
    else Success(x.body.json.fields)
  }

  /** Which error each outcome of an attempt raises. */
  lemma DecodeRaises(x: Exchange, status: int)
    ensures Decode(x) == Failure(TransportError) <==> x.NoResponse?
    ensures Decode(x) == Failure(AuthError) <==> x.Response? && x.status in {401, 403}
    ensures Decode(x) == Failure(ServerError(status)) <==> x.Response? && 500 <= x.status < 600 && status == x.status
    ensures Decode(x) == Failure(RequestError(status)) <==>
      x.Response? && 400 <= x.status < 500 && x.status !in {401, 403, 429} && status == x.status
    ensures Decode(x) == Failure(InvalidJsonResponse) <==>
      x.Response? && !(400 <= x.status < 600) && x.body.NotJson?
    ensures Decode(x) == Failure(ResponseError) <==>
      x.Response? && !(400 <= x.status < 600) && x.body.Decoded? && !x.body.json.Obj?
  {
  }

  lemma HintIsSuggested(header: HeaderValue, wallClock: real, delay: real)
    ensures Hint(header, wallClock) == Some(delay) <==> Suggests(header, wallClock, delay)
    ensures Hint(header, wallClock).None? <==> forall d :: !Suggests(header, wallClock, d)
  {
    if Hint(header, wallClock).Some? {
      assert Suggests(header, wallClock, Hint(header, wallClock).value);
    }
  }

  lemma FirstOfTwo(a: HeaderValue, b: HeaderValue, wallClock: real)
    ensures FirstHint([a, b], wallClock) == if Hint(a, wallClock).Some? then Hint(a, wallClock) else Hint(b, wallClock)
  {
    assert [a, b][1..] == [b] && [b][1..] == [];
    assert FirstHint([b], wallClock) == Hint(b, wallClock);
  }

  /** A rate-limited attempt reports exactly the delay its response asks for, and none when it asks for none. */
  lemma HintIsAsked(x: Exchange, delay: real)
    ensures Decode(x) == Failure(RateLimitError(Some(delay))) <==> AsksFor(x, delay)
    ensures Decode(x) == Failure(RateLimitError(None)) ==> !AsksFor(x, delay)
  {
    if x.Response? {
      HintIsSuggested(x.retryAfter, x.wallClock, delay);
      HintIsSuggested(x.rateReset, x.wallClock, delay);
      FirstOfTwo(x.retryAfter, x.rateReset, x.wallClock);
    }
  }

  /** The results array of an envelope; an explicit null is an empty one. */
  function ExtractResults(envelope: map<string, Json>): Answer {
    if "results" !in envelope then Failure(ResponseError)
    else
      match envelope["results"]
      case Null => Success([])
      case Arr(items) => Success(items)
      case _ => Failure(ResponseError)
  }

  function Pow2(n: nat): nat {
    if n == 0 then 1 else 2 * Pow2(n - 1)
  }

  /** The most that n delays under the cap can add up to. */
  function CapBudget(n: nat, cap: real): real {
    if n == 0 then 0.0 else CapBudget(n - 1, cap) + cap
  }

  /** The ceiling of the n-th delay, doubling each time. */
  function Ceiling(n: nat, base: real): real {
    base * Pow2(n) as real
  }

  /** The sum of the doubling ceilings of n delays. */
  function DoublingBudget(n: nat, base: real): real {
    if n == 0 then 0.0 else DoublingBudget(n - 1, base) + Ceiling(n - 1, base)
  }

  lemma OneMoreTerm(a: real, k: real, b: real)
    ensures a * k + b * k == (a + b) * k
  {
  }

  lemma {:induction false} CapBudgetIs(n: nat, cap: real)
    ensures CapBudget(n, cap) == n as real * cap
  {
    if n == 0 {
    } else {
      CapBudgetIs(n - 1, cap);
      OneMoreTerm((n - 1) as real, cap, 1.0);
    }
  }

  lemma {:induction false} DoublingBudgetIs(n: nat, base: real)
    ensures DoublingBudget(n, base) == (Pow2(n) - 1) as real * base
  {
    if n == 0 {
    } else {
      DoublingBudgetIs(n - 1, base);
      OneMoreTerm((Pow2(n - 1) - 1) as real, base, Pow2(n - 1) as real);
    }
  }

  lemma BudgetsInClosedForm(n: nat, base: real, cap: real)
    ensures CapBudget(n, cap) == n as real * cap
    ensures DoublingBudget(n, base) == base * (Pow2(n) - 1) as real
  {
    CapBudgetIs(n, cap);
    DoublingBudgetIs(n, base);
  }

  function Least(a: real, b: real): real {
    if a <= b then a else b
  }

  /** Where a uniform draw falls in its range, from its lower end to its upper one. */
  type Fraction = f: real | 0.0 <= f <= 1.0

  /** A uniform draw from zero to the ceiling. */
  function Uniform(draw: Fraction, ceiling: real): real {
    draw * ceiling
  }

  lemma Shrinks(a: real, b: real)
    requires 0.0 <= a <= 1.0 && b >= 0.0
    ensures 0.0 <= a * b <= b
  {
    assert (1.0 - a) * b >= 0.0;
  }

  lemma DrawIsInRange(draw: Fraction, ceiling: real)
    requires ceiling >= 0.0
    ensures 0.0 <= Uniform(draw, ceiling) <= ceiling
    ensures Uniform(0.0, ceiling) == 0.0 && Uniform(0.5, ceiling) == ceiling / 2.0 && Uniform(1.0, ceiling) == ceiling
  {
    Shrinks(draw, ceiling);
  }

  /**
   * The pause before the retry that follows attempt i of a request: what the response asks for, under the
   * cap, or else a uniform draw from zero to the doubled and capped ceiling.
   */
  ghost predicate PauseFits(x: Exchange, i: nat, draw: Fraction, base: real, cap: real, pause: real) {
    && (forall d :: AsksFor(x, d) ==> pause == Least(d, cap))
    && ((forall d :: !AsksFor(x, d)) ==> pause == Uniform(draw, Least(Ceiling(i, base), cap)))
  }

  lemma TimesNatural(a: real, n: nat)
    requires a >= 0.0
    ensures a * n as real >= 0.0
  {
  }

  lemma CeilingIsNatural(n: nat, base: real)
    requires base >= 0.0
    ensures Ceiling(n, base) >= 0.0
  {
    TimesNatural(base, Pow2(n));
  }

  lemma DrawIsBounded(draw: Fraction, doubled: real, cap: real)
    requires doubled >= 0.0 && cap >= 0.0
    ensures 0.0 <= Uniform(draw, Least(doubled, cap)) <= cap && Uniform(draw, Least(doubled, cap)) <= doubled
  {
    DrawIsInRange(draw, Least(doubled, cap));
  }

  lemma HintIsBounded(x: Exchange, d: real, cap: real)
    requires cap >= 0.0 && AsksFor(x, d)
    ensures 0.0 <= Least(d, cap) <= cap
  {
  }

  /** A pause is never longer than the cap, and one that no response asks for not than the doubled ceiling. */
  lemma PauseIsBounded(x: Exchange, i: nat, draw: Fraction, base: real, cap: real, pause: real)
    requires base >= 0.0 && cap >= 0.0 && PauseFits(x, i, draw, base, cap, pause)
    ensures 0.0 <= pause <= cap
    ensures (forall d :: !AsksFor(x, d)) ==> pause <= Ceiling(i, base)
  {
    if d :| AsksFor(x, d) {
      HintIsBounded(x, d, cap);
    } else {
      CeilingIsNatural(i, base);
      DrawIsBounded(draw, Ceiling(i, base), cap);
    }
  }

  /** The rule for the pauses of one request whose first attempt was `from`. */
  ghost function PauseRule(server: (Query, nat) -> Exchange, query: Query, from: nat, draws: nat -> Fraction,
                           base: real, cap: real): (nat, real) -> bool
  {
    (i: nat, pause: real) => PauseFits(server(query, from + i), i, draws(from + i + 1), base, cap, pause)
  }

  ghost predicate AllFit(rule: (nat, real) -> bool, pauses: seq<real>) {
    forall i :: 0 <= i < |pauses| ==> rule(i, pauses[i])
  }

  function Total(pauses: seq<real>): real {
    if pauses == [] then 0.0 else Total(pauses[..|pauses| - 1]) + pauses[|pauses| - 1]
  }

  lemma TotalGrows(pauses: seq<real>, pause: real)
    ensures Total(pauses + [pause]) == Total(pauses) + pause
  {
    assert (pauses + [pause])[..|pauses|] == pauses;
  }

  lemma SumWithin(slept: real, delay: real, budget: real, more: real, total: real)
    requires slept <= budget && delay <= more && total == budget + more
    ensures slept + delay <= total
  {
  }

  lemma BudgetsStep(n: nat, base: real, cap: real)
    ensures CapBudget(n + 1, cap) == CapBudget(n, cap) + cap
    ensures DoublingBudget(n + 1, base) == DoublingBudget(n, base) + Ceiling(n, base)
  {
  }

  /** Pauses below the cap add up to at most the one budget, pauses below the ceilings to at most the other. */
  lemma {:induction false} PausesWithinBudgets(pauses: seq<real>, base: real, cap: real)
    ensures (forall i :: 0 <= i < |pauses| ==> pauses[i] <= cap) ==> Total(pauses) <= CapBudget(|pauses|, cap)
    ensures (forall i :: 0 <= i < |pauses| ==> pauses[i] <= Ceiling(i, base)) ==>
      Total(pauses) <= DoublingBudget(|pauses|, base)
  {
    if pauses == [] {
    } else {
      var n := |pauses| - 1;
      PausesWithinBudgets(pauses[..n], base, cap);
      BudgetsStep(n, base, cap);
      if pauses[n] <= cap && Total(pauses[..n]) <= CapBudget(n, cap) {
        SumWithin(Total(pauses[..n]), pauses[n], CapBudget(n, cap), cap, CapBudget(n + 1, cap));
      }
      if pauses[n] <= Ceiling(n, base) && Total(pauses[..n]) <= DoublingBudget(n, base) {
        SumWithin(Total(pauses[..n]), pauses[n], DoublingBudget(n, base), Ceiling(n, base),
                  DoublingBudget(n + 1, base));
      }
    }
  }

  /** None of these attempts was answered with a delay to wait. */
  ghost predicate Unasked(server: (Query, nat) -> Exchange, query: Query, from: nat, to: nat) {
    forall n: nat, d :: from <= n < to ==> !AsksFor(server(query, n), d)
  }

  /** The pauses of one request, within the cap each, and within the doubling ceilings when nothing was asked for. */
  lemma RequestWithinBudgets(server: (Query, nat) -> Exchange, query: Query, from: nat, draws: nat -> Fraction,
                             base: real, cap: real, pauses: seq<real>)
    requires base >= 0.0 && cap >= 0.0 && AllFit(PauseRule(server, query, from, draws, base, cap), pauses)
    ensures Total(pauses) <= CapBudget(|pauses|, cap)
    ensures Unasked(server, query, from, from + |pauses|) ==> Total(pauses) <= DoublingBudget(|pauses|, base)
  {
    forall i | 0 <= i < |pauses|
      ensures pauses[i] <= cap
      ensures Unasked(server, query, from, from + |pauses|) ==> pauses[i] <= Ceiling(i, base)
    {
      assert PauseRule(server, query, from, draws, base, cap)(i, pauses[i]);
      PauseIsBounded(server(query, from + i), i, draws(from + i + 1), base, cap, pauses[i]);
    }
    PausesWithinBudgets(pauses, base, cap);
  }

  function Successes(pages: seq<Page>): seq<Answer> {
    seq(|pages|, i requires 0 <= i < |pages| => Success(pages[i]))
  }

  /** What the walk keeps between pages: records, keys seen, duplicates found, and the last page. */
  datatype Tally = Tally(records: seq<Json>, keys: set<seq<Json>>, duplicateCount: nat,
                         duplicates: seq<seq<Json>>, previous: Option<Page>)

  function TallyOf(pages: seq<Page>, id: IdentityKey): Tally {
    Tally(Flatten(pages), KeysOnAll(pages, id), |DuplicateKeys(pages, id)|, Sample(DuplicateKeys(pages, id)),
          if pages == [] then None else Some(pages[|pages| - 1]))
  }

  lemma TallyGrows(pages: seq<Page>, page: Page, id: IdentityKey)
    ensures var keys := DuplicateKeys(pages, id) + SeenAgain(page, KeysOnAll(pages, id), id);
      TallyOf(pages + [page], id) ==
        Tally(Flatten(pages) + page, KeysOnAll(pages, id) + KeysOn(page, id), |keys|, Sample(keys), Some(page))
  {
    assert (pages + [page])[..|pages|] == pages;
  }

  /** A walk goes on after a page that is full, well formed and not the same as the one before. */
  lemma WalkGoesOn(pages: seq<Page>, page: Page, pageSize: nat, id: IdentityKey)
    requires Advancing(pages, pageSize, id)
    ensures Advancing(pages + [page], pageSize, id) <==>
      |page| >= pageSize && WellFormed(page, id) && (pages != [] ==> page != pages[|pages| - 1])
  {
    var more := pages + [page];
    assert more[|pages|] == page && (pages != [] ==> more[|pages| - 1] == pages[|pages| - 1]);
    assert forall i :: 0 <= i < |pages| ==> more[i] == pages[i];
  }

  lemma SuccessesGrow(pages: seq<Page>, page: Page)
    ensures Successes(pages + [page]) == Successes(pages) + [Success(page)]
  {
  }

  /** What attempt n yields for a query, as an envelope or an error. */
  function Reply(server: (Query, nat) -> Exchange, query: Query, n: nat): Result<map<string, Json>, ApiError> {
    Decode(server(query, n))
  }

  function PageOf(envelope: Result<map<string, Json>, ApiError>): Answer {
    if envelope.Failure? then Failure(envelope.error) else ExtractResults(envelope.value)
  }

  /** The page that attempt n yields, or the error. */
  function PageAnswer(server: (Query, nat) -> Exchange, query: Query, n: nat): Answer {
    PageOf(Reply(server, query, n))
  }

  /** An attempt yields a page exactly when its response carries it. */
  lemma PageAnswerIff(server: (Query, nat) -> Exchange, query: Query, n: nat, page: Page)
    ensures PageAnswer(server, query, n) == Success(page) <==> Carries(server(query, n), page)
  {
  }

  /** Attempt n failed, and is retried unless it was the last one allowed. */
  predicate Retried(server: (Query, nat) -> Exchange, query: Query, n: nat) {
    Transient(server(query, n))
  }

  /** One request made the attempts `from` to n: it ended at the first that is not retried, or at the last allowed. */
  ghost predicate Tried(server: (Query, nat) -> Exchange, query: Query, from: nat, n: nat, maxAttempts: nat) {
    && from <= n < from + maxAttempts
    && (forall k :: from <= k < n ==> Retried(server, query, k))
    && (Retried(server, query, n) ==> n == from + maxAttempts - 1)
  }

  /** The attempt that the i-th request of a walk began with, when its requests ended at the attempts `at`. */
  function FirstAttempt(from: nat, at: seq<nat>, i: nat): nat
    requires i <= |at|
  {
    if i == 0 then from else at[i - 1] + 1
  }

  /** The i-th answer came of the attempts right after those of the one before it, up to at[i]. */
  ghost predicate InTurn<T>(came: (nat, nat, nat, T) -> bool, answers: seq<T>, from: nat, at: seq<nat>) {
    && |at| == |answers|
    && forall i {:trigger answers[i]} :: 0 <= i < |at| ==> came(i, FirstAttempt(from, at, i), at[i], answers[i])
  }

  lemma InTurnGrows<T>(came: (nat, nat, nat, T) -> bool, answers: seq<T>, from: nat, at: seq<nat>, answer: T, n: nat)
    requires InTurn(came, answers, from, at) && came(|at|, FirstAttempt(from, at, |at|), n, answer)
    ensures InTurn(came, answers + [answer], from, at + [n])
  {
    assert forall i :: 0 <= i <= |at| ==> FirstAttempt(from, at + [n], i) == FirstAttempt(from, at, i);
  }

  /** Page i + 1 of an endpoint was tried from attempt `first` to n, which gave the answer. */
  ghost function PageCame(server: (Query, nat) -> Exchange, endpoint: Endpoint, maxAttempts: nat):
    (nat, nat, nat, Answer) -> bool
  {
    (i: nat, first: nat, n: nat, answer: Answer) =>
      && Tried(server, Query(endpoint, i + 1), first, n, maxAttempts)
      && PageAnswer(server, Query(endpoint, i + 1), n) == answer
  }

  lemma CameInTurn(server: (Query, nat) -> Exchange, endpoint: Endpoint, maxAttempts: nat, answers: seq<Answer>,
                   from: nat, at: seq<nat>, i: nat)
    requires InTurn(PageCame(server, endpoint, maxAttempts), answers, from, at) && i < |answers|
    ensures |at| == |answers|
    ensures Tried(server, Query(endpoint, i + 1), FirstAttempt(from, at, i), at[i], maxAttempts)
    ensures PageAnswer(server, Query(endpoint, i + 1), at[i]) == answers[i]
  {
    assert PageCame(server, endpoint, maxAttempts)(i, FirstAttempt(from, at, i), at[i], answers[i]);
  }

  lemma PageComes(server: (Query, nat) -> Exchange, endpoint: Endpoint, maxAttempts: nat, answers: seq<Answer>,
                  from: nat, at: seq<nat>, n: nat)
    requires InTurn(PageCame(server, endpoint, maxAttempts), answers, from, at)
    requires Tried(server, Query(endpoint, |at| + 1), FirstAttempt(from, at, |at|), n, maxAttempts)
    ensures InTurn(PageCame(server, endpoint, maxAttempts),
                   answers + [PageAnswer(server, Query(endpoint, |at| + 1), n)], from, at + [n])
  {
    InTurnGrows(PageCame(server, endpoint, maxAttempts), answers, from, at,
                PageAnswer(server, Query(endpoint, |at| + 1), n), n);
  }

  /** The settings a walk depends on. */
  datatype Settings = Settings(pageSize: nat, maxPages: nat, maxAttempts: nat)

  /** One paginated fetch: full pages and then the last answer, the attempts they took, and its result. */
  datatype Walk = Walk(result: Result<FetchResult, ApiError>, pages: seq<Page>, last: Answer, from: nat, at: seq<nat>) {
    /** The attempt that whatever comes after the walk begins with. */
    function Next(): nat {
      FirstAttempt(from, at, |at|)
    }

    function Answers(): seq<Answer> {
      Successes(pages) + [last]
    }

    /** The pages whose records a successful walk returns. */
    function Returned(): seq<Page> {
      if last.Success? && last.value != [] then pages + [last.value] else pages
    }

    predicate MetServerError() {
      result.Failure? && result.error.ServerError?
    }
  }

  /** The walk stopped exactly where it must, its answers are the server's, and its result is theirs. */
  ghost predicate WalkedBy(server: (Query, nat) -> Exchange, settings: Settings, endpoint: Endpoint, id: IdentityKey,
                           walk: Walk)
  {
    && CompleteWalk(walk.pages, walk.last, settings.pageSize, settings.maxPages, id)
    && walk.result == Conclude(walk.pages, walk.last, settings.pageSize, id)
    && InTurn(PageCame(server, endpoint, settings.maxAttempts), walk.Answers(), walk.from, walk.at)
  }

  lemma ResultIsReturned(server: (Query, nat) -> Exchange, settings: Settings, endpoint: Endpoint, id: IdentityKey,
                         walk: Walk)
    requires WalkedBy(server, settings, endpoint, id, walk) && walk.result.Success?
    ensures walk.result == Success(Fetched(walk.Returned(), |walk.pages| + 1, id))
  {
  }

  ghost predicate ServesChunk(server: (Query, nat) -> Exchange, endpoint: Endpoint, data: seq<Json>, pageSize: nat,
                              i: nat, n: nat)
  {
    var x := server(Query(endpoint, i + 1), n);
    forall page :: Carries(x, page) ==> page == Chunk(data, i, pageSize)
  }

  /** A server that answers, when it answers, with the chunks of a dataset. */
  ghost predicate ServesChunks(server: (Query, nat) -> Exchange, endpoint: Endpoint, data: seq<Json>, pageSize: nat) {
    forall i: nat, n: nat :: ServesChunk(server, endpoint, data, pageSize, i, n)
  }

  lemma ChunkAnswered(server: (Query, nat) -> Exchange, endpoint: Endpoint, data: seq<Json>, pageSize: nat, i: nat,
                      n: nat)
    requires ServesChunks(server, endpoint, data, pageSize) && PageAnswer(server, Query(endpoint, i + 1), n).Success?
    ensures PageAnswer(server, Query(endpoint, i + 1), n).value == Chunk(data, i, pageSize)
  {
    assert ServesChunk(server, endpoint, data, pageSize, i, n);
    PageAnswerIff(server, Query(endpoint, i + 1), n, PageAnswer(server, Query(endpoint, i + 1), n).value);
  }

  lemma WalkSawChunk(server: (Query, nat) -> Exchange, settings: Settings, endpoint: Endpoint, id: IdentityKey,
                     walk: Walk, data: seq<Json>, i: nat)
    requires WalkedBy(server, settings, endpoint, id, walk) && i <= |walk.pages| && walk.last.Success?
    requires ServesChunks(server, endpoint, data, settings.pageSize)
    ensures walk.Answers()[i] == Success(Chunk(data, i, settings.pageSize))
  {
    CameInTurn(server, endpoint, settings.maxAttempts, walk.Answers(), walk.from, walk.at, i);
    ChunkAnswered(server, endpoint, data, settings.pageSize, i, walk.at[i]);
  }

  lemma WalkSawChunks(server: (Query, nat) -> Exchange, settings: Settings, endpoint: Endpoint, id: IdentityKey,
                      walk: Walk, data: seq<Json>)
    requires WalkedBy(server, settings, endpoint, id, walk) && walk.last.Success?
    requires ServesChunks(server, endpoint, data, settings.pageSize)
    ensures SawChunks(data, walk.pages, walk.last.value, settings.pageSize)
  {
    forall i | 0 <= i < |walk.pages| ensures walk.pages[i] == Chunk(data, i, settings.pageSize) {
      WalkSawChunk(server, settings, endpoint, id, walk, data, i);
    }
    WalkSawChunk(server, settings, endpoint, id, walk, data, |walk.pages|);
  }

  /** What a walk against a chunking server comes to, once its last request is answered. */
  ghost predicate FetchesDataset(settings: Settings, id: IdentityKey, walk: Walk, data: seq<Json>) {
    && (walk.result.Success? <==> walk.last.Success? && Fetchable(data, settings.pageSize, settings.maxPages, id))
    && (walk.result.Success? ==>
          walk.result.value.records == data && walk.result.value.pagesFetched == |data| / settings.pageSize + 1)
  }

  lemma WalkFetchesDataset(server: (Query, nat) -> Exchange, settings: Settings, endpoint: Endpoint, id: IdentityKey,
                           walk: Walk, data: seq<Json>)
    requires settings.pageSize >= 1 && WalkedBy(server, settings, endpoint, id, walk)
    requires ServesChunks(server, endpoint, data, settings.pageSize)
    ensures FetchesDataset(settings, id, walk, data)
  {
    if walk.last.Success? {
      WalkSawChunks(server, settings, endpoint, id, walk, data);
      PaginationIsComplete(data, walk.pages, walk.last.value, settings.pageSize, settings.maxPages, id);
    }
  }

  /** Attempt n yields a page, after failures that are retried, and within the attempts that start with `first`. */
  ghost predicate RecoversAt(server: (Query, nat) -> Exchange, query: Query, first: nat, n: nat, maxAttempts: nat) {
    && first <= n < first + maxAttempts
    && (forall k :: first <= k < n ==> Retried(server, query, k))
    && exists page :: Carries(server(query, n), page)
  }

  ghost predicate Recovers(server: (Query, nat) -> Exchange, query: Query, first: nat, maxAttempts: nat) {
    exists n: nat :: RecoversAt(server, query, first, n, maxAttempts)
  }

  /** A server whose failures pass: whenever a page is asked for, one of the attempts allowed yields it. */
  ghost predicate AlwaysRecovers(server: (Query, nat) -> Exchange, endpoint: Endpoint, maxAttempts: nat) {
    forall page: nat, first: nat :: page > 0 ==> Recovers(server, Query(endpoint, page), first, maxAttempts)
  }

  /** Retrying makes such failures invisible: the request ends at the attempt that yields the page. */
  lemma TriedRecovers(server: (Query, nat) -> Exchange, query: Query, first: nat, n: nat, maxAttempts: nat)
    requires Tried(server, query, first, n, maxAttempts) && Recovers(server, query, first, maxAttempts)
    ensures PageAnswer(server, query, n).Success?
  {
    var yielded: nat :| RecoversAt(server, query, first, yielded, maxAttempts);
    var page :| Carries(server(query, yielded), page);
    PageAnswerIff(server, query, yielded, page);
    assert !Retried(server, query, yielded);
    assert n < yielded ==> Retried(server, query, n);
  }

  lemma WalkIsAnswered(server: (Query, nat) -> Exchange, settings: Settings, endpoint: Endpoint, id: IdentityKey,
                       walk: Walk)
    requires WalkedBy(server, settings, endpoint, id, walk)
    requires AlwaysRecovers(server, endpoint, settings.maxAttempts)
    ensures walk.last.Success?
  {
    var page := |walk.pages|;
    var first := FirstAttempt(walk.from, walk.at, page);
    CameInTurn(server, endpoint, settings.maxAttempts, walk.Answers(), walk.from, walk.at, page);
    assert walk.Answers()[page] == walk.last;
    assert Recovers(server, Query(endpoint, page + 1), first, settings.maxAttempts);
    TriedRecovers(server, Query(endpoint, page + 1), first, walk.at[page], settings.maxAttempts);
  }

  lemma ServerErrorAnswer(server: (Query, nat) -> Exchange, query: Query, n: nat)
    ensures var answer := PageAnswer(server, query, n);
      answer.Failure? && answer.error.ServerError? <==> IsServerError(server(query, n))
    ensures IsServerError(server(query, n)) ==> Retried(server, query, n)
  {
  }

  lemma LastAnswerDecides(server: (Query, nat) -> Exchange, settings: Settings, endpoint: Endpoint, id: IdentityKey,
                          walk: Walk)
    requires WalkedBy(server, settings, endpoint, id, walk)
    ensures walk.MetServerError() <==> walk.last.Failure? && walk.last.error.ServerError?
    ensures |walk.at| == |walk.pages| + 1 && walk.Answers()[|walk.pages|] == walk.last
  {
  }

  /** The last attempt for the walk's last page met a server error. */
  ghost predicate EndedOnServerError(server: (Query, nat) -> Exchange, endpoint: Endpoint, walk: Walk) {
    && |walk.at| == |walk.pages| + 1
    && IsServerError(server(Query(endpoint, |walk.pages| + 1), walk.at[|walk.pages|]))
  }

  /** The walk's last page used up its attempts, and every one of them failed retryably. */
  ghost predicate UsedUpAttempts(server: (Query, nat) -> Exchange, endpoint: Endpoint, maxAttempts: nat, walk: Walk) {
    && |walk.at| == |walk.pages| + 1
    && var first, n := FirstAttempt(walk.from, walk.at, |walk.pages|), walk.at[|walk.pages|];
       var query := Query(endpoint, |walk.pages| + 1);
       n == first + maxAttempts - 1 && forall k :: first <= k <= n ==> Retried(server, query, k)
  }

  lemma TriedToTheEnd(server: (Query, nat) -> Exchange, query: Query, first: nat, n: nat, maxAttempts: nat)
    requires Tried(server, query, first, n, maxAttempts) && Retried(server, query, n)
    ensures n == first + maxAttempts - 1 && forall k :: first <= k <= n ==> Retried(server, query, k)
  {
  }

  /**
   * A walk raises a server error exactly when the last attempt for its last page met one; that
   * page's request had then used up its attempts, every one of which failed retryably.
   */
  lemma ServerErrorIsPersistent(server: (Query, nat) -> Exchange, settings: Settings, endpoint: Endpoint,
                                id: IdentityKey, walk: Walk)
    requires WalkedBy(server, settings, endpoint, id, walk)
    ensures walk.MetServerError() <==> EndedOnServerError(server, endpoint, walk)
    ensures walk.MetServerError() ==> UsedUpAttempts(server, endpoint, settings.maxAttempts, walk)
  {
    var page := |walk.pages|;
    var query := Query(endpoint, page + 1);
    LastAnswerDecides(server, settings, endpoint, id, walk);
    CameInTurn(server, endpoint, settings.maxAttempts, walk.Answers(), walk.from, walk.at, page);
    ServerErrorAnswer(server, query, walk.at[page]);
    if walk.MetServerError() {
      TriedToTheEnd(server, query, FirstAttempt(walk.from, walk.at, page), walk.at[page], settings.maxAttempts);
    }
  }

  lemma MorePages(n: nat, maxAttempts: nat)
    ensures (n + 1) * maxAttempts == n * maxAttempts + maxAttempts
  {
  }

  /** What the backoff computes from an attempt's error fits what its response asks for. */
  lemma DelayFits(x: Exchange, attempt: nat, draw: Fraction, base: real, cap: real, delay: real)
    requires Decode(x).Failure?
    requires var error := Decode(x).error;
      if error.RateLimitError? && error.retryAfter.Some? then delay == Least(error.retryAfter.value, cap)
      else delay == Uniform(draw, Least(Ceiling(attempt, base), cap))
    ensures PauseFits(x, attempt, draw, base, cap, delay)
  {
    var error := Decode(x).error;
    forall d ensures AsksFor(x, d) <==> error == RateLimitError(Some(d)) {
      HintIsAsked(x, d);
    }
    if error.RateLimitError? && error.retryAfter.Some? {
      assert AsksFor(x, error.retryAfter.value);
    }
  }

  class OpenAQClient {
    // The API and the network, as an arbitrary script: what the n-th attempt ever made comes to.
    const server: (Query, nat) -> Exchange
    const maxAttempts: int
    const backoffBase: real
    const backoffCap: real
    // The random generator, as an arbitrary script: where a draw falls when that many attempts have been made.
    const draws: nat -> Fraction
    const pageSize: int
    const maxPages: int
    const limiter: SlidingWindowLimiter
    const clock: Clock
    var attempts: nat
    // Total time slept between retries.
    ghost var retrySlept: real

    static predicate ConfigOk(maxAttempts: int, backoffBase: real, backoffCap: real, pageSize: int, maxPages: int) {
      1 <= pageSize <= MAX_PAGE_SIZE && maxAttempts >= 1 && maxPages >= 1 && backoffBase >= 0.0 && backoffCap >= 0.0
    }

    function Config(): Settings
      requires pageSize >= 0 && maxPages >= 0 && maxAttempts >= 0
    {
      Settings(pageSize, maxPages, maxAttempts)
    }

    ghost predicate Valid()
      reads this, limiter, clock
    {
      && ConfigOk(maxAttempts, backoffBase, backoffCap, pageSize, maxPages)
      && limiter.Valid()
      && limiter.asOf <= clock.now
    }

    constructor (server: (Query, nat) -> Exchange, maxAttempts: int, backoffBase: real, backoffCap: real,
                 draws: nat -> Fraction, pageSize: int, maxPages: int, limiter: SlidingWindowLimiter, clock: Clock)
      requires ConfigOk(maxAttempts, backoffBase, backoffCap, pageSize, maxPages)
      requires limiter.Valid() && limiter.asOf <= clock.now
      ensures Valid() && attempts == 0 && retrySlept == 0.0
      ensures this.server == server && this.maxAttempts == maxAttempts && this.pageSize == pageSize
      ensures this.maxPages == maxPages && this.backoffBase == backoffBase && this.backoffCap == backoffCap
      ensures this.draws == draws && this.limiter == limiter && this.clock == clock
    {
      this.server, this.maxAttempts, this.pageSize, this.maxPages := server, maxAttempts, pageSize, maxPages;
      this.backoffBase, this.backoffCap, this.draws := backoffBase, backoffCap, draws;
      this.limiter, this.clock := limiter, clock;
      attempts, retrySlept := 0, 0.0;
    }

    /** Construction as callers see it: an empty key or an unusable setting is refused. */
    static method Create(apiKey: string, timeout: real, server: (Query, nat) -> Exchange, maxAttempts: int,
                         backoffBase: real, backoffCap: real, draws: nat -> Fraction, pageSize: int, maxPages: int,
                         limiter: SlidingWindowLimiter, clock: Clock)
      returns (r: Option<OpenAQClient>)
      requires limiter.Valid() && limiter.asOf <= clock.now
      ensures r.Some? <==>
        && apiKey != "" && timeout > 0.0
        && 1 <= pageSize <= 1000 && maxAttempts >= 1 && maxPages >= 1 && backoffBase >= 0.0 && backoffCap >= 0.0
      ensures r.Some? ==> r.value.Valid() && r.value.limiter == limiter && r.value.clock == clock
      ensures r.Some? ==> r.value.server == server && r.value.attempts == 0
      ensures r.Some? ==> r.value.maxAttempts == maxAttempts && r.value.maxPages == maxPages
      ensures r.Some? ==> r.value.pageSize == pageSize && r.value.draws == draws
      ensures r.Some? ==> r.value.backoffBase == backoffBase && r.value.backoffCap == backoffCap
    {
      if apiKey == "" || timeout <= 0.0 || !ConfigOk(maxAttempts, backoffBase, backoffCap, pageSize, maxPages) {
        return None;
      }
      var client := new OpenAQClient(server, maxAttempts, backoffBase, backoffCap, draws, pageSize, maxPages, limiter,
                                     clock);
      r := Some(client);
    }

    /** One paced HTTP attempt. */
    method Attempt(query: Query) returns (r: Result<map<string, Json>, ApiError>)
      requires Valid()
      modifies this, limiter, clock
      ensures Valid()
      ensures attempts == old(attempts) + 1 && retrySlept == old(retrySlept)
      ensures limiter.history == old(limiter.history) + [clock.now]
      ensures clock.now >= old(clock.now) && clock.sleeps >= old(clock.sleeps)
      ensures r == Reply(server, query, old(attempts))
    {
      var _, _ := limiter.Acquire(clock);
      r := Decode(server(query, attempts));
      attempts := attempts + 1;
    }

    /** The server's hint, or a uniform draw below the doubled ceiling; never above the cap. */
    method BackoffDelay(attempt: nat, error: ApiError) returns (delay: real)
      requires backoffBase >= 0.0 && backoffCap >= 0.0
      requires error.RateLimitError? && error.retryAfter.Some? ==> error.retryAfter.value > 0.0
      ensures error.RateLimitError? && error.retryAfter.Some? ==> delay == Least(error.retryAfter.value, backoffCap)
      ensures !(error.RateLimitError? && error.retryAfter.Some?) ==>
        delay == Uniform(draws(attempts), Least(Ceiling(attempt, backoffBase), backoffCap))
      ensures 0.0 <= delay <= backoffCap
    {
      if error.RateLimitError? && error.retryAfter.Some? {
        delay := if error.retryAfter.value <= backoffCap then error.retryAfter.value else backoffCap;
      } else {
        var doubled := Ceiling(attempt, backoffBase);
        CeilingIsNatural(attempt, backoffBase);
        DrawIsBounded(draws(attempts), doubled, backoffCap);
        delay := Uniform(draws(attempts), Least(doubled, backoffCap));
      }
    }

    /** Sleeps before a retry, once, for the server's hint or the backoff; the limiter and the API are left alone. */
    method Pause(attempt: nat, ghost x: Exchange, error: ApiError) returns (ghost delay: real)
      requires Valid() && Decode(x) == Failure(error)
      modifies this`retrySlept, clock
      ensures Valid()
      ensures PauseFits(x, attempt, draws(attempts), backoffBase, backoffCap, delay)
      ensures retrySlept == old(retrySlept) + delay
      ensures clock.sleeps == old(clock.sleeps) + 1 && clock.now >= old(clock.now) + delay
      ensures clock.exact ==> clock.now == old(clock.now) + delay
    {
      var wait := BackoffDelay(attempt, error);
      clock.Sleep(wait);
      retrySlept := retrySlept + wait;
      DelayFits(x, attempt, draws(attempts), backoffBase, backoffCap, wait);
      delay := wait;
    }

    /** The pause after the last attempt of a request, added to the `pauses` before it. */
    method PauseAfter(ghost query: Query, ghost from: nat, error: ApiError, attempt: nat, ghost pauses: seq<real>)
      returns (ghost more: seq<real>, ghost delay: real)
      requires Valid() && attempts == from + attempt + 1 && |pauses| == attempt
      requires Reply(server, query, from + attempt) == Failure(error)
      requires AllFit(PauseRule(server, query, from, draws, backoffBase, backoffCap), pauses)
      modifies this`retrySlept, clock
      ensures Valid()
      ensures |more| == attempt + 1 && AllFit(PauseRule(server, query, from, draws, backoffBase, backoffCap), more)
      ensures Total(more) == Total(pauses) + delay && retrySlept == old(retrySlept) + delay
      ensures clock.now >= old(clock.now) + delay && clock.sleeps == old(clock.sleeps) + 1
    {
      delay := Pause(attempt, server(query, from + attempt), error);
      TotalGrows(pauses, delay);
      more := pauses + [delay];
      assert PauseRule(server, query, from, draws, backoffBase, backoffCap)(attempt, delay);
    }

    /**
     * One API request. It ends at the first attempt that succeeds or fails beyond retry, or at
     * the last one allowed, and answers with that attempt's outcome; so the loop never runs out
     * without a result. Every attempt takes exactly one slot of the limiter, and before each retry
     * it sleeps once: `pauses` are how long.
     */
    method Request(query: Query) returns (r: Result<map<string, Json>, ApiError>, ghost pauses: seq<real>)
      requires Valid()
      modifies this, limiter, clock
      ensures Valid()
      ensures old(attempts) < attempts <= old(attempts) + maxAttempts
      ensures |limiter.history| == |old(limiter.history)| + (attempts - old(attempts))
      ensures r == Reply(server, query, attempts - 1)
      ensures Tried(server, query, old(attempts), attempts - 1, maxAttempts)
      ensures |pauses| == attempts - old(attempts) - 1
      ensures AllFit(PauseRule(server, query, old(attempts), draws, backoffBase, backoffCap), pauses)
      ensures retrySlept == old(retrySlept) + Total(pauses)
      ensures clock.now >= old(clock.now) + Total(pauses) && clock.sleeps >= old(clock.sleeps) + |pauses|
    {
      var attempt := 0;
      pauses := [];
      ghost var slept, delay := 0.0, 0.0;
      while true
        invariant 0 <= attempt < maxAttempts
        invariant Valid()
        invariant attempts == old(attempts) + attempt
        invariant |limiter.history| == |old(limiter.history)| + attempt
        invariant forall n :: old(attempts) <= n < attempts ==> Retried(server, query, n)
        invariant |pauses| == attempt
        invariant AllFit(PauseRule(server, query, old(attempts), draws, backoffBase, backoffCap), pauses)
        invariant slept == Total(pauses) && retrySlept == old(retrySlept) + slept
        invariant clock.now >= old(clock.now) + slept && clock.sleeps >= old(clock.sleeps) + attempt
        decreases maxAttempts - attempt
      {
        r := Attempt(query);
        if r.Success? || !Retryable(r.error) || attempt == maxAttempts - 1 {
          return;
        }
        pauses, delay := PauseAfter(query, old(attempts), r.error, attempt, pauses);
        slept := slept + delay;
        attempt := attempt + 1;
      }
    }

    /** Requests the next page and extracts its records; the answers so far came from the attempts `at`. */
    method FetchPage(endpoint: Endpoint, page: nat, ghost answers: seq<Answer>, ghost from: nat, ghost at: seq<nat>)
      returns (answer: Answer)
      requires Valid() && InTurn(PageCame(server, endpoint, maxAttempts), answers, from, at)
      requires page == |answers| + 1 && attempts == FirstAttempt(from, at, |at|)
      modifies this, limiter, clock
      ensures old(attempts) < attempts <= old(attempts) + maxAttempts
      ensures Valid() && InTurn(PageCame(server, endpoint, maxAttempts), answers + [answer], from, at + [attempts - 1])
      ensures |limiter.history| == |old(limiter.history)| + (attempts - old(attempts))
    {
      var envelope, _ := Request(Query(endpoint, page));
      answer := PageOf(envelope);
      PageComes(server, endpoint, maxAttempts, answers, from, at, attempts - 1);
    }

    /** Counts the records of one page whose key was seen on an earlier page, sampling the first few. */
    method CountRepeats(results: Page, seen: set<seq<Json>>, count: nat, sample: seq<seq<Json>>, id: IdentityKey,
                     ghost before: seq<seq<Json>>)
      returns (count': nat, sample': seq<seq<Json>>)
      requires count == |before| && sample == Sample(before)
      ensures count' == |before + SeenAgain(results, seen, id)|
      ensures sample' == Sample(before + SeenAgain(results, seen, id))
    {
      count', sample' := count, sample;
      for i := 0 to |results|
        invariant count' == |before + SeenAgain(results[..i], seen, id)|
        invariant sample' == Sample(before + SeenAgain(results[..i], seen, id))
      {
        assert results[..i + 1][..i] == results[..i];
        var key := id(results[i]);
        if key.Tracked? && key.key in seen {
          count' := count' + 1;
          if |sample'| < MAX_DUPLICATE_SAMPLE {
            sample' := sample' + [key.key];
          }
        }
      }
      assert results[..|results|] == results;
    }

    /** Takes in one page: what the walk returns or raises because of it, or None to go on. */
    method TakePage(results: Page, page: nat, tally: Tally, id: IdentityKey, ghost pages: seq<Page>)
      returns (stop: Option<Result<FetchResult, ApiError>>, tally': Tally)
      requires pageSize >= 1
      requires page == |pages| + 1 <= maxPages && Advancing(pages, pageSize, id) && tally == TallyOf(pages, id)
      ensures stop.Some? ==>
        && CompleteWalk(pages, Success(results), pageSize, maxPages, id)
        && stop.value == Conclude(pages, Success(results), pageSize, id)
      ensures stop.None? ==>
        page < maxPages && Advancing(pages + [results], pageSize, id) && tally' == TallyOf(pages + [results], id)
    {
      WalkGoesOn(pages, results, pageSize, id);
      TallyGrows(pages, results, id);
      tally' := tally;
      if results == [] {
        return Some(Success(FetchResult(tally.records, page, tally.duplicateCount, tally.duplicates))), tally';
      }
      if tally.previous == Some(results) {
        return Some(Failure(ResponseError)), tally';
      }
      if !WellFormed(results, id) {
        return Some(Failure(MalformedRecord)), tally';
      }
      var count, sample := CountRepeats(results, tally.keys, tally.duplicateCount, tally.duplicates, id,
                                        DuplicateKeys(pages, id));
      tally' := Tally(tally.records + results, tally.keys + KeysOn(results, id), count, sample, Some(results));
      if |results| < pageSize {
        return Some(Success(FetchResult(tally'.records, page, count, sample))), tally';
      }
      if page == maxPages {
        return Some(Failure(ResponseError)), tally';
      }
      stop := None;
    }

    /**
     * Fetches page after page, full pages and then a last answer. The walk stops exactly where it
     * must, made exactly the attempts that retrying demands, and its result is its answers'.
     */
    method Paginate(endpoint: Endpoint, id: IdentityKey)
      returns (r: Result<FetchResult, ApiError>, ghost walk: Walk)
      requires Valid()
      modifies this, limiter, clock
      ensures Valid()
      ensures WalkedBy(server, Config(), endpoint, id, walk) && walk.result == r
      ensures walk.from == old(attempts) && walk.Next() == attempts
      ensures |limiter.history| == |old(limiter.history)| + (attempts - old(attempts))
      ensures |walk.at| <= attempts - old(attempts) <= |walk.at| * maxAttempts
    {
      var tally := Tally([], {}, 0, [], None);
      var page := 1;
      ghost var pages: seq<Page>, at: seq<nat> := [], [];
      while true
        invariant Valid()
        invariant 1 <= page == |pages| + 1 <= maxPages
        invariant Advancing(pages, pageSize, id) && tally == TallyOf(pages, id)
        invariant InTurn(PageCame(server, endpoint, maxAttempts), Successes(pages), old(attempts), at)
        invariant attempts == FirstAttempt(old(attempts), at, |at|)
        invariant |limiter.history| == |old(limiter.history)| + (attempts - old(attempts))
        invariant |pages| <= attempts - old(attempts) <= |pages| * maxAttempts
        decreases maxPages - page
      {
        var answer := FetchPage(endpoint, page, Successes(pages), old(attempts), at);
        at := at + [attempts - 1];
        MorePages(|pages|, maxAttempts);
        if answer.Failure? {
          r := Failure(answer.error);
          return r, Walk(r, pages, answer, old(attempts), at);
        }
        var stop;
        stop, tally := TakePage(answer.value, page, tally, id, pages);
        if stop.Some? {
          return stop.value, Walk(stop.value, pages, answer, old(attempts), at);
        }
        SuccessesGrow(pages, answer.value);
        pages := pages + [answer.value];
        page := page + 1;
      }
    }

    /** The locations of the ingested providers; against a chunking server, all of them. */
    method ListLocations() returns (r: Result<FetchResult, ApiError>, ghost walk: Walk)
      requires Valid()
      modifies this, limiter, clock
      ensures Valid()
      ensures WalkedBy(server, Config(), Locations, LocationIdentity, walk) && walk.result == r
      ensures walk.from == old(attempts) && walk.Next() == attempts
      ensures forall data :: ServesChunks(server, Locations, data, pageSize) ==>
        FetchesDataset(Config(), LocationIdentity, walk, data)
    {
      r, walk := Paginate(Locations, LocationIdentity);
      forall data | ServesChunks(server, Locations, data, pageSize)
        ensures FetchesDataset(Config(), LocationIdentity, walk, data)
      {
        WalkFetchesDataset(server, Config(), Locations, LocationIdentity, walk, data);
      }
    }

    /** One sensor's records of a window; against a chunking server, all of them. */
    method ListMeasurements(sensor: int, from: Instant, to: Instant)
      returns (r: Result<FetchResult, ApiError>, ghost walk: Walk)
      requires Valid()
      modifies this, limiter, clock
      ensures Valid()
      ensures WalkedBy(server, Config(), Measurements(sensor, from, to), MeasurementIdentity, walk) && walk.result == r
      ensures walk.from == old(attempts) && walk.Next() == attempts
      ensures forall data :: ServesChunks(server, Measurements(sensor, from, to), data, pageSize) ==>
        FetchesDataset(Config(), MeasurementIdentity, walk, data)
    {
      var endpoint := Measurements(sensor, from, to);
      r, walk := Paginate(endpoint, MeasurementIdentity);
      forall data | ServesChunks(server, endpoint, data, pageSize)
        ensures FetchesDataset(Config(), MeasurementIdentity, walk, data)
      {
        WalkFetchesDataset(server, Config(), endpoint, MeasurementIdentity, walk, data);
      }
    }
  }
}
