// Walking a paginated endpoint: when the walk stops, what it returns, and which keys repeat across pages.
module Pagination {
  import opened ApiRecords
  import opened Json
  import opened Wrappers

  datatype ApiError =
    | TransportError
    | ServerError(status: int)
    | RateLimitError(retryAfter: Option<real>)
    | InvalidJsonResponse
    | AuthError
    | RequestError(status: int)
    | ResponseError
    | MalformedRecord  // a Python attribute or type error on a record of unexpected shape

  /** A record's key for duplicate detection; Untracked is Python's None. */
  datatype Identity = Malformed | Untracked | Tracked(key: seq<Json>)

  type IdentityKey = Json -> Identity

  function KeyOf(parts: seq<Json>): Identity {
    if Null in parts then Untracked
    else if forall i :: 0 <= i < |parts| ==> Hashable(parts[i]) then Tracked(parts)
    else Malformed
  }

  function LocationIdentity(record: Json): Identity {
    if record.Obj? then KeyOf([Get(record.fields, "id")]) else Malformed
  }

  /** Start time and parameter ID; each level may be missing or falsy, but not another type. */
  function MeasurementIdentity(record: Json): Identity {
    if !record.Obj? then Malformed
    else
      match OrEmpty(Get(record.fields, "period"))
      case None => Malformed
      case Some(period) =>
        match OrEmpty(Get(period, "datetimeFrom"))
        case None => Malformed
        case Some(datetimeFrom) =>
          match OrEmpty(Get(record.fields, "parameter"))
          case None => Malformed
          case Some(parameter) => KeyOf([Get(datetimeFrom, "utc"), Get(parameter, "id")])
  }

  /** A location is tracked by its id; no id, or null, means it is not. */
  lemma LocationIdentityIs(record: Json, key: seq<Json>)
    ensures LocationIdentity(record) == Tracked(key) <==>
      |key| == 1 && Field(record, "id", key[0]) && key[0] != Null && !key[0].Arr? && !key[0].Obj?
    ensures LocationIdentity(record).Malformed? <==>
      !record.Obj? || ("id" in record.fields && (record.fields["id"].Arr? || record.fields["id"].Obj?))
  {
    if record.Obj? {
      var id := Get(record.fields, "id");
      assert [id][0] == id;
    }
  }

  lemma KeyOfPair(a: Json, b: Json, key: seq<Json>)
    ensures KeyOf([a, b]) == Tracked(key) <==>
      key == [a, b] && a != Null && b != Null && !a.Arr? && !a.Obj? && !b.Arr? && !b.Obj?
    ensures KeyOf([a, b]).Malformed? <==> a != Null && b != Null && (a.Arr? || a.Obj? || b.Arr? || b.Obj?)
  {
    assert [a, b][0] == a && [a, b][1] == b;
  }

  /** A period, its start or a parameter of a type that has no fields. */
  predicate Misshapen(record: Json) {
    || !record.Obj?
    || ("parameter" in record.fields && NotMapping(record.fields["parameter"]))
    || ("period" in record.fields &&
        var period := record.fields["period"];
        NotMapping(period) ||
        (period.Obj? && "datetimeFrom" in period.fields && NotMapping(period.fields["datetimeFrom"])))
  }

  predicate Unhashable(start: Json, id: Json) {
    start != Null && id != Null && (start.Arr? || start.Obj? || id.Arr? || id.Obj?)
  }

  /** A measurement is tracked by its start time and parameter ID, when it has both. */
  lemma MeasurementIdentityIs(record: Json, key: seq<Json>)
    ensures MeasurementIdentity(record) == Tracked(key) <==>
      && !Misshapen(record) && |key| == 2 && HasStart(record, key[0]) && HasParameter(record, key[1])
      && forall i :: 0 <= i < 2 ==> key[i] != Null && !key[i].Arr? && !key[i].Obj?
    ensures MeasurementIdentity(record).Malformed? <==>
      || Misshapen(record)
      || exists start, id :: HasStart(record, start) && HasParameter(record, id) && Unhashable(start, id)
  {
    if record.Obj? {
      var period, parameter := Get(record.fields, "period"), Get(record.fields, "parameter");
      TruthyIff(period);
      TruthyIff(parameter);
      if !NotMapping(period) && !NotMapping(parameter) {
        var from := Get(OrEmpty(period).value, "datetimeFrom");
        TruthyIff(from);
        if !NotMapping(from) {
          var start, id := Get(OrEmpty(from).value, "utc"), Get(OrEmpty(parameter).value, "id");
          KeyOfPair(start, id, key);
          assert start != Null ==> HasStart(record, start);
          assert id != Null ==> HasParameter(record, id);
        }
      }
    }
  }

  const MAX_DUPLICATE_SAMPLE := 20

  datatype FetchResult = FetchResult(records: seq<Json>, pagesFetched: nat, duplicateCount: nat,
                                     duplicateSample: seq<seq<Json>>)

  type Page = seq<Json>
  type Answer = Result<Page, ApiError>

  predicate WellFormed(page: Page, id: IdentityKey) {
    forall i :: 0 <= i < |page| ==> !id(page[i]).Malformed?
  }

  function Flatten(pages: seq<Page>): seq<Json> {
    if pages == [] then [] else Flatten(pages[..|pages| - 1]) + pages[|pages| - 1]
  }

  function KeysOn(page: Page, id: IdentityKey): set<seq<Json>> {
    set r | r in page && id(r).Tracked? :: id(r).key
  }

  function KeysOnAll(pages: seq<Page>, id: IdentityKey): set<seq<Json>> {
    if pages == [] then {} else KeysOnAll(pages[..|pages| - 1], id) + KeysOn(pages[|pages| - 1], id)
  }

  /** The keys of a page that were seen before it, one entry per record. */
  function SeenAgain(page: Page, seen: set<seq<Json>>, id: IdentityKey): seq<seq<Json>> {
    if page == [] then []
    else
      var last := id(page[|page| - 1]);
      SeenAgain(page[..|page| - 1], seen, id) + if last.Tracked? && last.key in seen then [last.key] else []
  }

  function DuplicateKeys(pages: seq<Page>, id: IdentityKey): seq<seq<Json>> {
    if pages == [] then []
    else
      var front := pages[..|pages| - 1];
      DuplicateKeys(front, id) + SeenAgain(pages[|pages| - 1], KeysOnAll(front, id), id)
  }

  /** The first keys reported, at most twenty. */
  function Sample(keys: seq<seq<Json>>): (sample: seq<seq<Json>>)
    ensures sample <= keys && |sample| == if |keys| <= 20 then |keys| else 20
  {
    if |keys| <= MAX_DUPLICATE_SAMPLE then keys else keys[..MAX_DUPLICATE_SAMPLE]
  }

  function Fetched(pages: seq<Page>, pagesFetched: nat, id: IdentityKey): FetchResult {
    FetchResult(Flatten(pages), pagesFetched, |DuplicateKeys(pages, id)|, Sample(DuplicateKeys(pages, id)))
  }

  /** Pages after which the walk goes on: full, well formed, and each different from the one before. */
  ghost predicate Advancing(pages: seq<Page>, pageSize: nat, id: IdentityKey) {
    && (forall i :: 0 <= i < |pages| ==> |pages[i]| >= pageSize && WellFormed(pages[i], id))
    && (forall i, j :: 0 <= i < j < |pages| && j == i + 1 ==> pages[i] != pages[j])
  }

  /** The walk saw `pages`, then `last`, and had no reason to stop before nor to go on after. */
  ghost predicate CompleteWalk(pages: seq<Page>, last: Answer, pageSize: nat, maxPages: nat, id: IdentityKey) {
    && Advancing(pages, pageSize, id)
    && |pages| + 1 <= maxPages
    && (last.Success? && last.value != [] && Advancing(pages + [last.value], pageSize, id) ==> |pages| + 1 == maxPages)
  }

  /** What a complete walk returns or raises. */
  function Conclude(pages: seq<Page>, last: Answer, pageSize: nat, id: IdentityKey): Result<FetchResult, ApiError> {
    match last
    case Failure(e) => Failure(e)
    case Success(page) =>
      if page == [] then Success(Fetched(pages, |pages| + 1, id))
      else if pages != [] && page == pages[|pages| - 1] then Failure(ResponseError)
      else if !WellFormed(page, id) then Failure(MalformedRecord)
      else if |page| < pageSize then Success(Fetched(pages + [page], |pages| + 1, id))
      else Failure(ResponseError)
  }

  /** Why a walk fails: its last answer's error, a repeated page, a record without a readable key, or too many pages. */
  lemma WalkFailures(pages: seq<Page>, last: Answer, pageSize: nat, maxPages: nat, id: IdentityKey)
    requires CompleteWalk(pages, last, pageSize, maxPages, id)
    ensures var r := Conclude(pages, last, pageSize, id);
      if last.Failure? then r == Failure(last.error)
      else if last.value == [] then r.Success?
      else if pages != [] && pages[|pages| - 1] == last.value then r == Failure(ResponseError)
      else if exists i :: 0 <= i < |last.value| && id(last.value[i]).Malformed? then r == Failure(MalformedRecord)
      else if |last.value| >= pageSize then r == Failure(ResponseError) && |pages| + 1 == maxPages
      else r.Success?
  {
    if last.Success? {
      var more := pages + [last.value];
      assert more[|pages|] == last.value;
      assert forall i :: 0 <= i < |pages| ==> more[i] == pages[i];
    }
  }

  // ---- completeness against a server that chunks a dataset

  /** At most n records from position `at`. */
  function Slice(data: seq<Json>, at: nat, n: nat): Page {
    if at >= |data| then [] else if at + n >= |data| then data[at..] else data[at..at + n]
  }

  function Chunk(data: seq<Json>, i: nat, pageSize: nat): Page {
    Slice(data, i * pageSize, pageSize)
  }

  predicate FullChunk(data: seq<Json>, i: nat, pageSize: nat) {
    |Chunk(data, i, pageSize)| >= pageSize
  }

  /** Two neighbouring full chunks that are equal look like pagination that does not advance. */
  ghost predicate RepeatsAFullChunk(data: seq<Json>, pageSize: nat) {
    exists i: nat, j: nat ::
      j == i + 1 && FullChunk(data, j, pageSize) && Chunk(data, i, pageSize) == Chunk(data, j, pageSize)
  }

  lemma TimesMonotone(a: nat, b: nat, c: nat)
    requires a <= b
    ensures a * c <= b * c
  {
    assert b * c == a * c + (b - a) * c;
  }

  lemma WholePages(total: nat, n: nat, pageSize: nat)
    requires pageSize >= 1 && n * pageSize <= total < (n + 1) * pageSize
    ensures total / pageSize == n
  {
    var q, r := total / pageSize, total % pageSize;
    assert total == q * pageSize + r;
    if q < n {
      TimesMonotone(q + 1, n, pageSize);
    } else if q > n {
      TimesMonotone(n + 1, q, pageSize);
    }
  }

  lemma FullChunkFits(data: seq<Json>, i: nat, pageSize: nat)
    requires pageSize >= 1
    ensures FullChunk(data, i, pageSize) <==> (i + 1) * pageSize <= |data|
    ensures FullChunk(data, i, pageSize) ==> Chunk(data, i, pageSize) == data[i * pageSize..(i + 1) * pageSize]
  {
    assert (i + 1) * pageSize == i * pageSize + pageSize;
  }

  lemma JoinSlices<T>(xs: seq<T>, a: nat, b: nat)
    requires a <= b <= |xs|
    ensures xs[..a] + xs[a..b] == xs[..b]
  {
  }

  /** The first n pages' worth of the dataset. */
  function Front(data: seq<Json>, n: nat, pageSize: nat): seq<Json> {
    Slice(data, 0, n * pageSize)
  }

  lemma FrontGrows(data: seq<Json>, n: nat, pageSize: nat)
    requires pageSize >= 1 && FullChunk(data, n, pageSize)
    ensures Front(data, n + 1, pageSize) == Front(data, n, pageSize) + Chunk(data, n, pageSize)
    ensures (n + 1) * pageSize <= |data|
  {
    FullChunkFits(data, n, pageSize);
    TimesMonotone(n, n + 1, pageSize);
    JoinSlices(data, n * pageSize, (n + 1) * pageSize);
  }

  /** The pages are the first chunks of the dataset, all of them full. */
  predicate FullChunks(data: seq<Json>, pages: seq<Page>, pageSize: nat) {
    forall i :: 0 <= i < |pages| ==> pages[i] == Chunk(data, i, pageSize) && |pages[i]| >= pageSize
  }

  lemma {:induction false} FullPagesAreData(data: seq<Json>, pages: seq<Page>, pageSize: nat)
    requires pageSize >= 1 && FullChunks(data, pages, pageSize)
    ensures |pages| * pageSize <= |data|
    ensures Flatten(pages) == Front(data, |pages|, pageSize)
  {
    if pages == [] {
    } else {
      var n := |pages| - 1;
      FullPagesAreData(data, pages[..n], pageSize);
      assert pages[n] == Chunk(data, n, pageSize);
      FrontGrows(data, n, pageSize);
    }
  }

  /** What the walk has seen of the dataset when it stops at chunk n. */
  ghost predicate SawChunks(data: seq<Json>, pages: seq<Page>, last: Page, pageSize: nat) {
    && (forall i :: 0 <= i < |pages| ==> pages[i] == Chunk(data, i, pageSize))
    && last == Chunk(data, |pages|, pageSize)
  }

  lemma WellFormedParts(front: seq<Json>, back: seq<Json>, id: IdentityKey)
    ensures WellFormed(front + back, id) <==> WellFormed(front, id) && WellFormed(back, id)
  {
    var all := front + back;
    assert forall i :: 0 <= i < |front| ==> all[i] == front[i];
    assert forall i :: 0 <= i < |back| ==> all[|front| + i] == back[i];
  }

  lemma {:induction false} WellFormedPages(pages: seq<Page>, id: IdentityKey)
    ensures WellFormed(Flatten(pages), id) <==> forall i :: 0 <= i < |pages| ==> WellFormed(pages[i], id)
  {
    if pages == [] {
    } else {
      var n := |pages| - 1;
      WellFormedPages(pages[..n], id);
      WellFormedParts(Flatten(pages[..n]), pages[n], id);
    }
  }

  /** Why a walk could fail on a dataset although every page arrived: too long, repetitive, or malformed. */
  ghost predicate Fetchable(data: seq<Json>, pageSize: nat, maxPages: nat, id: IdentityKey) {
    |data| < pageSize * maxPages && !RepeatsAFullChunk(data, pageSize) && WellFormed(data, id)
  }

  lemma ChunkIsWellFormed(data: seq<Json>, i: nat, pageSize: nat, id: IdentityKey)
    requires WellFormed(data, id)
    ensures WellFormed(Chunk(data, i, pageSize), id)
  {
  }

  lemma RepeatSeen(data: seq<Json>, i: nat, pageSize: nat)
    requires FullChunk(data, i + 1, pageSize) && Chunk(data, i, pageSize) == Chunk(data, i + 1, pageSize)
    ensures RepeatsAFullChunk(data, pageSize)
  {
  }

  lemma TooLong(data: seq<Json>, n: nat, pageSize: nat)
    requires pageSize >= 1 && FullChunk(data, n, pageSize)
    ensures |data| >= pageSize * (n + 1)
  {
    FullChunkFits(data, n, pageSize);
  }

  lemma EndsOnFullChunk(data: seq<Json>, pages: seq<Page>, last: Page, pageSize: nat, maxPages: nat, id: IdentityKey)
    requires pageSize >= 1
    requires CompleteWalk(pages, Success(last), pageSize, maxPages, id) && SawChunks(data, pages, last, pageSize)
    requires |last| >= pageSize
    ensures Conclude(pages, Success(last), pageSize, id).Failure? && !Fetchable(data, pageSize, maxPages, id)
  {
    var n := |pages|;
    WalkFailures(pages, Success(last), pageSize, maxPages, id);
    if n > 0 && pages[n - 1] == last {
      RepeatSeen(data, n - 1, pageSize);
    } else if WellFormed(data, id) {
      ChunkIsWellFormed(data, n, pageSize, id);
      TooLong(data, n, pageSize);
    }
  }

  lemma NoFullChunkRepeats(data: seq<Json>, pages: seq<Page>, pageSize: nat, id: IdentityKey)
    requires pageSize >= 1 && Advancing(pages, pageSize, id)
    requires FullChunks(data, pages, pageSize) && |data| < (|pages| + 1) * pageSize
    ensures !RepeatsAFullChunk(data, pageSize)
  {
    forall i: nat, j: nat | j == i + 1 && FullChunk(data, j, pageSize)
      ensures Chunk(data, i, pageSize) != Chunk(data, j, pageSize)
    {
      FullChunkFits(data, j, pageSize);
      if j >= |pages| {
        TimesMonotone(|pages| + 1, j + 1, pageSize);
      } else {
        assert pages[i] != pages[j];
      }
    }
  }

  lemma CutAt<T>(xs: seq<T>, a: nat)
    requires a <= |xs|
    ensures xs[..a] + xs[a..] == xs
  {
  }

  /** A short chunk that starts inside the dataset is its rest. */
  lemma ShortChunkIsRest(data: seq<Json>, n: nat, pageSize: nat)
    requires pageSize >= 1 && n * pageSize <= |data| && |Chunk(data, n, pageSize)| < pageSize
    ensures Front(data, n, pageSize) + Chunk(data, n, pageSize) == data
    ensures |data| < (n + 1) * pageSize
  {
    var a := n * pageSize;
    assert (n + 1) * pageSize == a + pageSize;
    CutAt(data, a);
  }

  /** A walk that ends on a short chunk has seen the whole dataset. */
  lemma ShortChunkCompletes(data: seq<Json>, pages: seq<Page>, last: Page, pageSize: nat)
    requires pageSize >= 1 && FullChunks(data, pages, pageSize)
    requires last == Chunk(data, |pages|, pageSize) && |last| < pageSize
    ensures data == Flatten(pages) + last
    ensures |data| < (|pages| + 1) * pageSize && |pages| == |data| / pageSize
  {
    FullPagesAreData(data, pages, pageSize);
    ShortChunkIsRest(data, |pages|, pageSize);
    WholePages(|data|, |pages|, pageSize);
  }

  lemma EndsOnShortChunk(data: seq<Json>, pages: seq<Page>, last: Page, pageSize: nat, maxPages: nat, id: IdentityKey)
    requires pageSize >= 1 && |pages| < maxPages
    requires Advancing(pages, pageSize, id) && FullChunks(data, pages, pageSize)
    requires last == Chunk(data, |pages|, pageSize) && |last| < pageSize
    ensures data == Flatten(pages) + last && |pages| == |data| / pageSize
    ensures |data| < pageSize * maxPages && !RepeatsAFullChunk(data, pageSize)
  {
    ShortChunkCompletes(data, pages, last, pageSize);
    TimesMonotone(|pages| + 1, maxPages, pageSize);
    NoFullChunkRepeats(data, pages, pageSize, id);
  }

  lemma AdvancingIsWellFormed(pages: seq<Page>, last: Page, pageSize: nat, id: IdentityKey)
    requires Advancing(pages, pageSize, id)
    ensures WellFormed(Flatten(pages) + last, id) <==> WellFormed(last, id)
  {
    WellFormedPages(pages, id);
    WellFormedParts(Flatten(pages), last, id);
  }

  /**
   * Against a server that chunks a dataset, a walk that gets its answers returns exactly when the
   * dataset is shorter than max_pages pages, repeats no full chunk in a row and is well formed; it
   * then returns the whole dataset, in |data| / page_size + 1 page requests.
   */
  lemma PaginationIsComplete(data: seq<Json>, pages: seq<Page>, last: Page, pageSize: nat, maxPages: nat,
                             id: IdentityKey)
    requires pageSize >= 1
    requires CompleteWalk(pages, Success(last), pageSize, maxPages, id) && SawChunks(data, pages, last, pageSize)
    ensures var r := Conclude(pages, Success(last), pageSize, id);
      && (r.Success? <==> Fetchable(data, pageSize, maxPages, id))
      && (r.Success? ==> r.value.records == data && r.value.pagesFetched == |data| / pageSize + 1)
  {
    if |last| >= pageSize {
      EndsOnFullChunk(data, pages, last, pageSize, maxPages, id);
    } else {
      EndsOnShortChunk(data, pages, last, pageSize, maxPages, id);
      AdvancingIsWellFormed(pages, last, pageSize, id);
      assert (pages + [last])[..|pages|] == pages;
      assert last == [] ==> WellFormed(last, id) && data == Flatten(pages);
    }
  }

  /** A dataset of two equal records, one to a page, is refused however many pages are allowed. */
  lemma EqualPagesAreRefused(record: Json, maxPages: nat, id: IdentityKey)
    requires !id(record).Malformed? && maxPages >= 3
    ensures var data := [record, record];
      && WellFormed(data, id) && |data| < 1 * maxPages && !Fetchable(data, 1, maxPages, id)
      && SawChunks(data, [[record]], [record], 1) && CompleteWalk([[record]], Success([record]), 1, maxPages, id)
      && Conclude([[record]], Success([record]), 1, id) == Failure(ResponseError)
  {
    var data := [record, record];
    assert Chunk(data, 0, 1) == [record] && Chunk(data, 1, 1) == [record];
    assert FullChunk(data, 1, 1);
    var pages: seq<Page> := [[record], [record]];
    assert [[record]] + [[record]] == pages && pages[0] == pages[1];
  }

  // ---- duplicates across pages

  lemma {:induction false} KeysOnAllIn(pages: seq<Page>, id: IdentityKey, k: seq<Json>)
    ensures k in KeysOnAll(pages, id) <==> exists p :: 0 <= p < |pages| && k in KeysOn(pages[p], id)
  {
    if pages == [] {
    } else {
      KeysOnAllIn(pages[..|pages| - 1], id, k);
    }
  }

  /** A record whose key occurs on an earlier page. */
  predicate Repeats(record: Json, earlier: seq<Page>, id: IdentityKey) {
    id(record).Tracked? && id(record).key in KeysOnAll(earlier, id)
  }

  /** The positions (page, record) that repeat a key of an earlier page. */
  function RepeatPositions(pages: seq<Page>, id: IdentityKey): set<(int, int)> {
    set q, i | 0 <= q < |pages| && 0 <= i < |pages[q]| && Repeats(pages[q][i], pages[..q], id) :: (q, i)
  }

  lemma RepeatsWithEmptyPage(front: seq<Page>, id: IdentityKey)
    ensures RepeatPositions(front + [[]], id) == RepeatPositions(front, id)
  {
    assert forall q :: 0 <= q <= |front| ==> (front + [[]])[..q] == front[..q];
  }

  lemma RepeatsWithRecord(front: seq<Page>, page: Page, r: Json, id: IdentityKey)
    ensures RepeatPositions(front + [page + [r]], id) ==
      RepeatPositions(front + [page], id) + if Repeats(r, front, id) then {(|front|, |page|)} else {}
  {
    var longer, shorter := front + [page + [r]], front + [page];
    assert forall q :: 0 <= q <= |front| ==> longer[..q] == shorter[..q];
    assert longer[..|front|] == front;
  }

  /** The duplicate count is the number of records whose key occurs on an earlier page. */
  lemma {:induction false} DuplicateCountIsExact(front: seq<Page>, page: Page, id: IdentityKey)
    ensures |DuplicateKeys(front + [page], id)| == |RepeatPositions(front + [page], id)|
    decreases |front|, |page|
  {
    assert (front + [page])[..|front|] == front;
    if page == [] {
      RepeatsWithEmptyPage(front, id);
      if front != [] {
        DuplicateCountIsExact(front[..|front| - 1], front[|front| - 1], id);
        assert front == front[..|front| - 1] + [front[|front| - 1]];
      }
    } else {
      var shorter, r := page[..|page| - 1], page[|page| - 1];
      assert page == shorter + [r];
      assert (front + [shorter])[..|front|] == front;
      DuplicateCountIsExact(front, shorter, id);
      RepeatsWithRecord(front, shorter, r, id);
      assert (|front|, |shorter|) !in RepeatPositions(front + [shorter], id);
    }
  }

  lemma {:induction false} SeenAgainIn(page: Page, seen: set<seq<Json>>, id: IdentityKey, k: seq<Json>)
    ensures k in SeenAgain(page, seen, id) <==> k in KeysOn(page, id) && k in seen
  {
    if page == [] {
    } else {
      var front, last := page[..|page| - 1], page[|page| - 1];
      SeenAgainIn(front, seen, id, k);
      assert page == front + [last];
    }
  }

  lemma JoinSequences<T>(a: seq<T>, b: seq<T>, c: seq<T>)
    ensures a + (b + c) == a + b + c
  {
  }

  /** Record by record, in order: a key is reported when an earlier page has it, and after all the earlier ones. */
  lemma DuplicateKeysInOrder(front: seq<Page>, page: Page, r: Json, id: IdentityKey)
    ensures DuplicateKeys([], id) == []
    ensures DuplicateKeys(front + [[]], id) == DuplicateKeys(front, id)
    ensures DuplicateKeys(front + [page + [r]], id) ==
      DuplicateKeys(front + [page], id) + if Repeats(r, front, id) then [id(r).key] else []
  {
    assert (front + [[]])[..|front|] == front;
    assert (front + [page])[..|front|] == front;
    assert (front + [page + [r]])[..|front|] == front;
    assert (page + [r])[..|page|] == page;
    var before := DuplicateKeys(front, id);
    JoinSequences(before, SeenAgain(page, KeysOnAll(front, id), id), if Repeats(r, front, id) then [id(r).key] else []);
  }

  ghost predicate OnTwoPages(pages: seq<Page>, id: IdentityKey, k: seq<Json>) {
    exists p, q :: 0 <= p < q < |pages| && k in KeysOn(pages[p], id) && k in KeysOn(pages[q], id)
  }

  lemma OnTwoPagesGrows(front: seq<Page>, page: Page, id: IdentityKey, k: seq<Json>)
    ensures OnTwoPages(front + [page], id, k) <==>
      OnTwoPages(front, id, k) || (k in KeysOn(page, id) && k in KeysOnAll(front, id))
  {
    var pages, n := front + [page], |front|;
    KeysOnAllIn(front, id, k);
    if OnTwoPages(front, id, k) {
      var p, q :| 0 <= p < q < n && k in KeysOn(front[p], id) && k in KeysOn(front[q], id);
      assert pages[p] == front[p] && pages[q] == front[q];
    }
    if k in KeysOn(page, id) && k in KeysOnAll(front, id) {
      var p :| 0 <= p < n && k in KeysOn(front[p], id);
      assert pages[p] == front[p] && pages[n] == page;
    }
  }

  /** A key is reported exactly when two different pages carry it. */
  lemma {:induction false} DuplicateKeyIn(pages: seq<Page>, id: IdentityKey, k: seq<Json>)
    ensures k in DuplicateKeys(pages, id) <==> OnTwoPages(pages, id, k)
  {
    if pages == [] {
    } else {
      var n := |pages| - 1;
      var front := pages[..n];
      DuplicateKeyIn(front, id, k);
      SeenAgainIn(pages[n], KeysOnAll(front, id), id, k);
      assert pages == front + [pages[n]];
      OnTwoPagesGrows(front, pages[n], id, k);
    }
  }

  /** No duplicates are counted exactly when the pages' key sets are pairwise disjoint. */
  lemma NoDuplicatesIffDisjoint(pages: seq<Page>, id: IdentityKey)
    ensures |DuplicateKeys(pages, id)| == 0 <==>
      forall p, q :: 0 <= p < q < |pages| ==> KeysOn(pages[p], id) !! KeysOn(pages[q], id)
  {
    if |DuplicateKeys(pages, id)| > 0 {
      DuplicateKeyIn(pages, id, DuplicateKeys(pages, id)[0]);
    }
    if p, q :| 0 <= p < q < |pages| && !(KeysOn(pages[p], id) !! KeysOn(pages[q], id)) {
      var k :| k in KeysOn(pages[p], id) && k in KeysOn(pages[q], id);
      DuplicateKeyIn(pages, id, k);
    }
  }
}
