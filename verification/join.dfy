// The diff of staged and bronze measurements through a FULL OUTER JOIN on source identity.
module Join {
  import opened Json
  import opened Tables
  import opened Wrappers

  /** Microseconds since the epoch; TIMESTAMP_TZ values compare as instants. */
  type Instant = int

  datatype Key = Key(sensor: int, parameter: int, at: Instant)

  /** The source columns shared by the staging and bronze tables. */
  datatype Measurement = Measurement(key: Key, raw: Json)

  predicate Unique(ms: seq<Measurement>) {
    forall i, j :: 0 <= i < j < |ms| ==> ms[i].key != ms[j].key
  }

  function Keys(ms: seq<Measurement>): set<Key> {
    set m | m in ms :: m.key
  }

  /** The rows as a set; for unique rows, the graph of the map from identity to payload. */
  function Content(ms: seq<Measurement>): set<Measurement> {
    set m | m in ms
  }

  function HasKey(k: Key): Measurement -> bool {
    (m: Measurement) => m.key == k
  }

  /** GROUP BY identity HAVING COUNT(*) > 1. */
  function DuplicatedKeys(ms: seq<Measurement>): set<Key> {
    set m | m in ms && |Filter(HasKey(m.key), ms)| > 1 :: m.key
  }

  datatype Joined =
    | StagedOnly(staged: Measurement)
    | Both(staged: Measurement, bronze: Measurement)
    | BronzeOnly(bronze: Measurement)

  function JoinRow(s: Measurement, bs: seq<Measurement>): seq<Joined> {
    var partners := Filter(HasKey(s.key), bs);
    if partners == [] then [StagedOnly(s)]
    else seq(|partners|, i requires 0 <= i < |partners| => Both(s, partners[i]))
  }

  function LeftJoin(ss: seq<Measurement>, bs: seq<Measurement>): seq<Joined> {
    if ss == [] then []
    else LeftJoin(ss[..|ss| - 1], bs) + JoinRow(ss[|ss| - 1], bs)
  }

  function Unmatched(ss: seq<Measurement>, bs: seq<Measurement>): seq<Joined> {
    if bs == [] then []
    else Unmatched(ss, bs[..|bs| - 1]) + if bs[|bs| - 1].key in Keys(ss) then [] else [BronzeOnly(bs[|bs| - 1])]
  }

  function FullOuterJoin(ss: seq<Measurement>, bs: seq<Measurement>): seq<Joined> {
    LeftJoin(ss, bs) + Unmatched(ss, bs)
  }

  predicate IsNew(j: Joined) { j.StagedOnly? }
  predicate IsMatched(j: Joined) { j.Both? }
  predicate IsChanged(j: Joined) { j.Both? && j.staged.raw != j.bronze.raw }
  predicate IsAbsent(j: Joined) { j.BronzeOnly? }

  /** MIN over the new rows' period starts; NULL when there are none. */
  function OldestNew(js: seq<Joined>): Option<Instant> {
    if js == [] then None
    else
      var last, oldest := js[|js| - 1], OldestNew(js[..|js| - 1]);
      if last.StagedOnly? && (oldest.None? || last.staged.key.at < oldest.value)
      then Some(last.staged.key.at)
      else oldest
  }

  /** The counts the procedure selects and returns. */
  datatype Diff = Diff(newCount: nat, changedCount: nat, absentCount: nat, oldestNew: Option<Instant>) {
    predicate BronzeChanged() {
      newCount + changedCount + absentCount > 0
    }
  }

  function DiffOf(ss: seq<Measurement>, bs: seq<Measurement>): Diff {
    var js := FullOuterJoin(ss, bs);
    Diff(|Filter(IsNew, js)|, |Filter(IsChanged, js)|, |Filter(IsAbsent, js)|, OldestNew(js))
  }

  function MatchedCount(ss: seq<Measurement>, bs: seq<Measurement>): nat {
    |Filter(IsMatched, FullOuterJoin(ss, bs))|
  }

  // ---- uniqueness

  lemma {:induction false} RowsWithKey(ms: seq<Measurement>, k: Key)
    requires Unique(ms)
    ensures |Filter(HasKey(k), ms)| == if k in Keys(ms) then 1 else 0
  {
    if ms == [] {
    } else {
      var front, last := ms[..|ms| - 1], ms[|ms| - 1];
      RowsWithKey(front, k);
      assert Keys(ms) == Keys(front) + {last.key} by {
        assert ms == front + [last];
      }
      assert last.key == k ==> k !in Keys(front);
    }
  }

  lemma RepeatedKey(ms: seq<Measurement>, i: nat, j: nat)
    requires i < j < |ms| && ms[i].key == ms[j].key
    ensures |Filter(HasKey(ms[i].key), ms)| > 1
  {
    var p := HasKey(ms[i].key);
    FilterConcat(p, ms[..j], ms[j..]);
    assert ms == ms[..j] + ms[j..];
    FilterIn(p, ms[..j]);
    FilterIn(p, ms[j..]);
    assert ms[..j][i] in Filter(p, ms[..j]) && ms[j..][0] in Filter(p, ms[j..]);
  }

  /** The database guard: no group has two rows exactly when the identities are unique. */
  lemma GuardIffUnique(ms: seq<Measurement>)
    ensures |DuplicatedKeys(ms)| == 0 <==> Unique(ms)
  {
    if Unique(ms) {
      forall m | m in ms ensures |Filter(HasKey(m.key), ms)| <= 1 {
        RowsWithKey(ms, m.key);
      }
      assert DuplicatedKeys(ms) == {};
    } else {
      var i, j :| 0 <= i < j < |ms| && ms[i].key == ms[j].key;
      RepeatedKey(ms, i, j);
      assert ms[i].key in DuplicatedKeys(ms);
    }
  }

  lemma UniqueConcat(xs: seq<Measurement>, ys: seq<Measurement>)
    requires Unique(xs) && Unique(ys) && forall x, y :: x in xs && y in ys ==> x.key != y.key
    ensures Unique(xs + ys)
  {
    var all := xs + ys;
    forall i, j | 0 <= i < j < |all| ensures all[i].key != all[j].key {
      assert i < |xs| <= j ==> all[i] in xs && all[j] in ys;
    }
  }

  lemma {:induction false} UniqueMultiset(ms: seq<Measurement>, m: Measurement)
    requires Unique(ms)
    ensures multiset(ms)[m] == if m in ms then 1 else 0
  {
    if ms == [] {
    } else {
      var front, last := ms[..|ms| - 1], ms[|ms| - 1];
      assert ms == front + [last];
      UniqueMultiset(front, m);
    }
  }

  /** Unique rows with equal content are the same table. */
  lemma SameContentSameTable(xs: seq<Measurement>, ys: seq<Measurement>)
    requires Unique(xs) && Unique(ys) && Content(xs) == Content(ys)
    ensures multiset(xs) == multiset(ys)
  {
    forall m: Measurement ensures multiset(xs)[m] == multiset(ys)[m] {
      UniqueMultiset(xs, m);
      UniqueMultiset(ys, m);
      assert m in xs <==> m in Content(xs);
      assert m in ys <==> m in Content(ys);
    }
  }

  lemma OccursTwice(ms: seq<Measurement>, i: nat, j: nat)
    requires i < j < |ms| && ms[i] == ms[j]
    ensures multiset(ms)[ms[i]] >= 2
  {
    assert ms == ms[..j] + ms[j..];
    assert ms[..j][i] == ms[i] && ms[j..][0] == ms[j];
    assert multiset(ms) == multiset(ms[..j]) + multiset(ms[j..]);
  }

  /** A table with the same rows as a unique one, in any order, is unique. */
  lemma UniqueMultisets(xs: seq<Measurement>, ys: seq<Measurement>)
    requires Unique(xs) && multiset(xs) == multiset(ys)
    ensures Unique(ys)
  {
    forall i, j | 0 <= i < j < |ys| ensures ys[i].key != ys[j].key {
      if ys[i].key == ys[j].key {
        assert ys[i] in multiset(xs) && ys[j] in multiset(xs);
        var a :| 0 <= a < |xs| && xs[a] == ys[i];
        var b :| 0 <= b < |xs| && xs[b] == ys[j];
        assert a == b;
        UniqueMultiset(xs, ys[i]);
        OccursTwice(ys, i, j);
      }
    }
  }

  lemma SameTableIff(xs: seq<Measurement>, ys: seq<Measurement>)
    requires Unique(xs)
    ensures multiset(xs) == multiset(ys) <==> Content(xs) == Content(ys) && Unique(ys)
  {
    if multiset(xs) == multiset(ys) {
      UniqueMultisets(xs, ys);
      forall m ensures m in Content(xs) <==> m in Content(ys) {
        assert m in xs <==> m in multiset(xs);
        assert m in ys <==> m in multiset(ys);
      }
    } else if Content(xs) == Content(ys) && Unique(ys) {
      SameContentSameTable(xs, ys);
    }
  }

  // ---- what the join contains

  lemma {:induction false} LeftJoinIn(ss: seq<Measurement>, bs: seq<Measurement>, j: Joined)
    ensures j in LeftJoin(ss, bs) <==>
      || (j.StagedOnly? && j.staged in ss && j.staged.key !in Keys(bs))
      || (j.Both? && j.staged in ss && j.bronze in bs && j.staged.key == j.bronze.key)
  {
    if ss == [] {
    } else {
      var front, s := ss[..|ss| - 1], ss[|ss| - 1];
      assert ss == front + [s];
      LeftJoinIn(front, bs, j);
      var partners := Filter(HasKey(s.key), bs);
      FilterIn(HasKey(s.key), bs);
      assert partners == [] <==> s.key !in Keys(bs) by {
        assert partners != [] ==> partners[0] in bs;
      }
      assert j in JoinRow(s, bs) <==>
          || (partners == [] && j == StagedOnly(s))
          || (j.Both? && j.staged == s && j.bronze in partners) by {
        if partners != [] && j.Both? && j.staged == s && j.bronze in partners {
          var i :| 0 <= i < |partners| && partners[i] == j.bronze;
          assert JoinRow(s, bs)[i] == j;
        }
      }
    }
  }

  lemma {:induction false} UnmatchedIn(ss: seq<Measurement>, bs: seq<Measurement>, j: Joined)
    ensures j in Unmatched(ss, bs) <==> j.BronzeOnly? && j.bronze in bs && j.bronze.key !in Keys(ss)
  {
    if bs == [] {
    } else {
      UnmatchedIn(ss, bs[..|bs| - 1], j);
      assert bs == bs[..|bs| - 1] + [bs[|bs| - 1]];
    }
  }

  lemma JoinIn(ss: seq<Measurement>, bs: seq<Measurement>, j: Joined)
    ensures j in FullOuterJoin(ss, bs) <==>
      match j
      case StagedOnly(s) => s in ss && s.key !in Keys(bs)
      case Both(s, b) => s in ss && b in bs && s.key == b.key
      case BronzeOnly(b) => b in bs && b.key !in Keys(ss)
  {
    LeftJoinIn(ss, bs, j);
    UnmatchedIn(ss, bs, j);
  }

  /**
   * The skip preserves meaning: when the staged identities are unique, all three counts
   * are zero exactly when staged and bronze hold the same payload under every identity.
   */
  lemma UnchangedIffSameContent(ss: seq<Measurement>, bs: seq<Measurement>)
    requires Unique(ss)
    ensures !DiffOf(ss, bs).BronzeChanged() <==> Content(ss) == Content(bs)
  {
    var js := FullOuterJoin(ss, bs);
    FilterIn(IsNew, js);
    FilterIn(IsChanged, js);
    FilterIn(IsAbsent, js);
    if !DiffOf(ss, bs).BronzeChanged() {
      forall m ensures m in ss <==> m in bs {
        JoinIn(ss, bs, StagedOnly(m));
        JoinIn(ss, bs, BronzeOnly(m));
        assert StagedOnly(m) !in Filter(IsNew, js) && BronzeOnly(m) !in Filter(IsAbsent, js);
        if m in ss {
          var b :| b in bs && b.key == m.key;
          JoinIn(ss, bs, Both(m, b));
          assert Both(m, b) !in Filter(IsChanged, js);
        } else if m in bs {
          var s :| s in ss && s.key == m.key;
          JoinIn(ss, bs, Both(s, m));
        }
      }
    }
    if Content(ss) == Content(bs) {
      assert forall m :: m in Content(ss) <==> m in ss;
      assert forall m :: m in Content(bs) <==> m in bs;
      forall j | j in js ensures !IsNew(j) && !IsChanged(j) && !IsAbsent(j) {
        JoinIn(ss, bs, j);
      }
      FilterNone(IsNew, js);
      FilterNone(IsChanged, js);
      FilterNone(IsAbsent, js);
    }
  }

  // ---- join accounting

  lemma {:induction false} FilterWeaker<T>(p: T -> bool, q: T -> bool, xs: seq<T>)
    requires forall x :: p(x) ==> q(x)
    ensures |Filter(p, xs)| <= |Filter(q, xs)|
  {
    if xs == [] {
    } else {
      FilterWeaker(p, q, xs[..|xs| - 1]);
    }
  }

  lemma JoinRowCounts(s: Measurement, bs: seq<Measurement>)
    ensures |Filter(IsNew, JoinRow(s, bs))| == if s.key in Keys(bs) then 0 else 1
    ensures |Filter(IsMatched, JoinRow(s, bs))| == |Filter(HasKey(s.key), bs)|
    ensures Filter(IsAbsent, JoinRow(s, bs)) == []
    ensures s.key in Keys(bs) <==> Filter(HasKey(s.key), bs) != []
  {
    var row, partners := JoinRow(s, bs), Filter(HasKey(s.key), bs);
    FilterIn(HasKey(s.key), bs);
    assert partners != [] ==> partners[0] in bs && partners[0].key == s.key;
    if partners == [] {
      FilterOne(IsNew, StagedOnly(s));
      FilterOne(IsMatched, StagedOnly(s));
      FilterOne(IsAbsent, StagedOnly(s));
    } else {
      FilterNone(IsNew, row);
      FilterNone(IsAbsent, row);
      FilterAll(IsMatched, row);
    }
  }

  lemma {:induction false} LeftJoinCounts(ss: seq<Measurement>, bs: seq<Measurement>)
    requires Unique(bs)
    ensures |Filter(IsNew, LeftJoin(ss, bs))| + |Filter(IsMatched, LeftJoin(ss, bs))| == |ss|
    ensures Filter(IsAbsent, LeftJoin(ss, bs)) == []
  {
    if ss == [] {
    } else {
      var front, s := ss[..|ss| - 1], ss[|ss| - 1];
      LeftJoinCounts(front, bs);
      JoinRowCounts(s, bs);
      RowsWithKey(bs, s.key);
      FilterConcat(IsNew, LeftJoin(front, bs), JoinRow(s, bs));
      FilterConcat(IsMatched, LeftJoin(front, bs), JoinRow(s, bs));
      FilterConcat(IsAbsent, LeftJoin(front, bs), JoinRow(s, bs));
    }
  }

  lemma {:induction false} UnmatchedShrinks(ss: seq<Measurement>, s: Measurement, bs: seq<Measurement>)
    requires s.key !in Keys(ss)
    ensures |Unmatched(ss + [s], bs)| == |Unmatched(ss, bs)| - |Filter(HasKey(s.key), bs)|
  {
    assert Keys(ss + [s]) == Keys(ss) + {s.key};
    if bs == [] {
    } else {
      UnmatchedShrinks(ss, s, bs[..|bs| - 1]);
    }
  }

  lemma {:induction false} NothingMatched(bs: seq<Measurement>)
    ensures |Unmatched([], bs)| == |bs|
  {
    if bs == [] {
    } else {
      NothingMatched(bs[..|bs| - 1]);
    }
  }

  lemma {:induction false} UnmatchedCounts(ss: seq<Measurement>, bs: seq<Measurement>)
    requires Unique(ss)
    ensures |Unmatched(ss, bs)| + |Filter(IsMatched, LeftJoin(ss, bs))| == |bs|
  {
    if ss == [] {
      NothingMatched(bs);
    } else {
      var front, s := ss[..|ss| - 1], ss[|ss| - 1];
      assert ss == front + [s];
      UnmatchedCounts(front, bs);
      assert s.key !in Keys(front);
      UnmatchedShrinks(front, s, bs);
      JoinRowCounts(s, bs);
      FilterConcat(IsMatched, LeftJoin(front, bs), JoinRow(s, bs));
    }
  }

  lemma JoinCounts(ss: seq<Measurement>, bs: seq<Measurement>)
    requires Unique(ss) && Unique(bs)
    ensures DiffOf(ss, bs).newCount + MatchedCount(ss, bs) == |ss|
    ensures DiffOf(ss, bs).absentCount + MatchedCount(ss, bs) == |bs|
    ensures DiffOf(ss, bs).changedCount <= MatchedCount(ss, bs)
  {
    var left, right := LeftJoin(ss, bs), Unmatched(ss, bs);
    LeftJoinCounts(ss, bs);
    UnmatchedCounts(ss, bs);
    forall j | j in right ensures j.BronzeOnly? {
      UnmatchedIn(ss, bs, j);
    }
    FilterNone(IsNew, right);
    FilterNone(IsMatched, right);
    FilterAll(IsAbsent, right);
    FilterConcat(IsNew, left, right);
    FilterConcat(IsMatched, left, right);
    FilterConcat(IsAbsent, left, right);
    FilterWeaker(IsChanged, IsMatched, left + right);
  }

  // ---- the counts, exactly

  /** The identities that both sides hold, under different payloads. */
  function ChangedKeys(ss: seq<Measurement>, bs: seq<Measurement>): set<Key> {
    set s, b | s in ss && b in bs && b.key == s.key && b.raw != s.raw :: s.key
  }

  /** Bronze holds the row's identity under a different payload. */
  ghost predicate Corrects(s: Measurement, bs: seq<Measurement>) {
    exists b :: b in bs && b.key == s.key && b.raw != s.raw
  }

  lemma OnlyPartner(s: Measurement, bs: seq<Measurement>)
    requires Unique(bs)
    ensures var partners := Filter(HasKey(s.key), bs);
      if s.key in Keys(bs)
      then |partners| == 1 && forall b :: b in bs && b.key == s.key <==> b == partners[0]
      else partners == []
  {
    var partners := Filter(HasKey(s.key), bs);
    RowsWithKey(bs, s.key);
    FilterIn(HasKey(s.key), bs);
    if s.key in Keys(bs) {
      assert partners[0] in partners;
      forall b | b in bs && b.key == s.key ensures b == partners[0] {
        assert b in partners;
      }
    }
  }

  lemma PartnerOf(s: Measurement, bs: seq<Measurement>)
    requires Unique(bs)
    ensures |Filter(IsNew, JoinRow(s, bs))| == if s.key in Keys(bs) then 0 else 1
    ensures |Filter(IsChanged, JoinRow(s, bs))| == if Corrects(s, bs) then 1 else 0
  {
    OnlyPartner(s, bs);
    JoinRowCounts(s, bs);
    if s.key in Keys(bs) {
      var b := Filter(HasKey(s.key), bs)[0];
      assert JoinRow(s, bs) == [Both(s, b)];
      FilterOne(IsChanged, Both(s, b));
    } else {
      FilterOne(IsChanged, StagedOnly(s));
    }
  }

  lemma KeysGrow(front: seq<Measurement>, s: Measurement)
    ensures Keys(front + [s]) == Keys(front) + {s.key}
  {
  }

  lemma OneMoreOutside<T>(xs: set<T>, ys: set<T>, x: T)
    requires x !in xs
    ensures |(xs + {x}) - ys| == |xs - ys| + if x in ys then 0 else 1
  {
    assert (xs + {x}) - ys == if x in ys then xs - ys else (xs - ys) + {x};
  }

  lemma OneMoreChanged(front: seq<Measurement>, s: Measurement, bs: seq<Measurement>)
    requires s.key !in Keys(front)
    ensures |ChangedKeys(front + [s], bs)| == |ChangedKeys(front, bs)| + if Corrects(s, bs) then 1 else 0
  {
    var more := if Corrects(s, bs) then {s.key} else {};
    forall k ensures k in ChangedKeys(front + [s], bs) <==> k in ChangedKeys(front, bs) || k in more {
      if k in ChangedKeys(front, bs) {
        var f, b :| f in front && b in bs && b.key == f.key == k && b.raw != f.raw;
        assert f in front + [s];
      }
      if Corrects(s, bs) && k == s.key {
        var b :| b in bs && b.key == s.key && b.raw != s.raw;
        assert s in front + [s];
      }
    }
    assert ChangedKeys(front + [s], bs) == ChangedKeys(front, bs) + more;
    assert s.key !in ChangedKeys(front, bs);
  }

  lemma {:induction false} NewIsExact(ss: seq<Measurement>, bs: seq<Measurement>)
    requires Unique(ss) && Unique(bs)
    ensures |Filter(IsNew, LeftJoin(ss, bs))| == |Keys(ss) - Keys(bs)|
  {
    if ss == [] {
    } else {
      var front, s := ss[..|ss| - 1], ss[|ss| - 1];
      assert ss == front + [s];
      NewIsExact(front, bs);
      PartnerOf(s, bs);
      KeysGrow(front, s);
      OneMoreOutside(Keys(front), Keys(bs), s.key);
      FilterConcat(IsNew, LeftJoin(front, bs), JoinRow(s, bs));
    }
  }

  lemma {:induction false} ChangedIsExact(ss: seq<Measurement>, bs: seq<Measurement>)
    requires Unique(ss) && Unique(bs)
    ensures |Filter(IsChanged, LeftJoin(ss, bs))| == |ChangedKeys(ss, bs)|
  {
    if ss == [] {
    } else {
      var front, s := ss[..|ss| - 1], ss[|ss| - 1];
      assert ss == front + [s];
      ChangedIsExact(front, bs);
      PartnerOf(s, bs);
      OneMoreChanged(front, s, bs);
      FilterConcat(IsChanged, LeftJoin(front, bs), JoinRow(s, bs));
    }
  }

  lemma {:induction false} UnmatchedIsExact(ss: seq<Measurement>, bs: seq<Measurement>)
    requires Unique(bs)
    ensures |Unmatched(ss, bs)| == |Keys(bs) - Keys(ss)|
  {
    if bs == [] {
    } else {
      var front, b := bs[..|bs| - 1], bs[|bs| - 1];
      assert bs == front + [b];
      UnmatchedIsExact(ss, front);
      KeysGrow(front, b);
      OneMoreOutside(Keys(front), Keys(ss), b.key);
    }
  }

  /** The absent count is the number of bronze rows without a partner. */
  lemma AbsentCountIs(ss: seq<Measurement>, bs: seq<Measurement>)
    ensures DiffOf(ss, bs).absentCount == |Unmatched(ss, bs)|
  {
    var left, right := LeftJoin(ss, bs), Unmatched(ss, bs);
    FilterConcat(IsAbsent, left, right);
    forall j | j in left ensures !IsAbsent(j) {
      LeftJoinIn(ss, bs, j);
    }
    FilterNone(IsAbsent, left);
    forall j | j in right ensures IsAbsent(j) {
      UnmatchedIn(ss, bs, j);
    }
    FilterAll(IsAbsent, right);
  }

  /**
   * Between unique tables, the counts are those of the identities only staged, staged and held with
   * different payloads, and only held.
   */
  lemma CountsAreExact(ss: seq<Measurement>, bs: seq<Measurement>)
    requires Unique(ss) && Unique(bs)
    ensures DiffOf(ss, bs).newCount == |Keys(ss) - Keys(bs)|
    ensures DiffOf(ss, bs).changedCount == |ChangedKeys(ss, bs)|
    ensures DiffOf(ss, bs).absentCount == |Keys(bs) - Keys(ss)|
  {
    var left, right := LeftJoin(ss, bs), Unmatched(ss, bs);
    NewIsExact(ss, bs);
    ChangedIsExact(ss, bs);
    UnmatchedIsExact(ss, bs);
    AbsentCountIs(ss, bs);
    forall j | j in right ensures j.BronzeOnly? {
      UnmatchedIn(ss, bs, j);
    }
    FilterNone(IsNew, right);
    FilterNone(IsChanged, right);
    FilterConcat(IsNew, left, right);
    FilterConcat(IsChanged, left, right);
  }

  /** Bronze rows of a kind of which nothing is staged are all counted absent. */
  lemma {:induction false} UnstagedIsUnmatched(p: Measurement -> bool, ss: seq<Measurement>, bs: seq<Measurement>)
    requires forall b :: b in bs && p(b) ==> b.key !in Keys(ss)
    ensures |Filter(p, bs)| <= |Unmatched(ss, bs)|
  {
    if bs == [] {
    } else {
      UnstagedIsUnmatched(p, ss, bs[..|bs| - 1]);
      assert bs[|bs| - 1] in bs;
    }
  }

  lemma {:induction false} OldestIsMinimum(js: seq<Joined>)
    ensures OldestNew(js).None? <==> forall j :: j in js ==> !IsNew(j)
    ensures OldestNew(js).Some? ==>
      && (exists j :: j in js && IsNew(j) && j.staged.key.at == OldestNew(js).value)
      && (forall j :: j in js && IsNew(j) ==> OldestNew(js).value <= j.staged.key.at)
  {
    if js == [] {
    } else {
      var front, last := js[..|js| - 1], js[|js| - 1];
      OldestIsMinimum(front);
      assert js == front + [last];
      assert last in js;
    }
  }

  /** The reported oldest period start is the minimum over the new identities, NULL when there is none. */
  lemma OldestNewIsMinimum(ss: seq<Measurement>, bs: seq<Measurement>)
    ensures DiffOf(ss, bs).oldestNew.None? <==> DiffOf(ss, bs).newCount == 0
    ensures DiffOf(ss, bs).oldestNew.Some? ==>
      && (exists s :: s in ss && s.key !in Keys(bs) && s.key.at == DiffOf(ss, bs).oldestNew.value)
      && (forall s :: s in ss && s.key !in Keys(bs) ==> DiffOf(ss, bs).oldestNew.value <= s.key.at)
  {
    var js := FullOuterJoin(ss, bs);
    OldestIsMinimum(js);
    FilterIn(IsNew, js);
    assert Filter(IsNew, js) != [] ==> IsNew(Filter(IsNew, js)[0]) && Filter(IsNew, js)[0] in js;
    forall s | s in ss && s.key !in Keys(bs) ensures StagedOnly(s) in js {
      JoinIn(ss, bs, StagedOnly(s));
    }
    if OldestNew(js).Some? {
      var j :| j in js && IsNew(j) && j.staged.key.at == OldestNew(js).value;
      JoinIn(ss, bs, j);
    }
  }
}
