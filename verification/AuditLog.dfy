/** The audit table and its cursor paging: what one page is, and what a walk over pages adds up to. */
module AuditLog {
  import opened Prelude
  import opened Search

  datatype Row = Row(id: int, ts: string, action: string, user: Option<string>, detail: Option<string>)

  datatype Filter = Filter(action: Option<string>, user: Option<string>, startDate: Option<string>,
                           endDate: Option<string>, search: Option<string>)

  datatype Query = Query(limit: Option<int>, before: Option<int>, after: Option<int>, filter: Filter)

  datatype Result = Result(logs: seq<Row>, hasMore: bool, total: nat)

  /** Present and not the empty string, which JavaScript treats as absent. */
  predicate Given(s: Option<string>) { s.Some? && s.value != "" }

  function Limit(limit: Option<int>): (n: nat)
    ensures 1 <= n <= 200
  {
    var n := if limit.Some? then limit.value else 50;
    if n < 1 then 1 else if n > 200 then 200 else n
  }

  // ---------------------------------------------------------------- the SQL that is issued

  datatype Condition =
    | ActionIs(value: string)
    | UserIs(value: string)
    | TsFrom(value: string)
    | TsTo(value: string)
    | DetailLike(value: string)
    | IdBelow(id: int)
    | IdAbove(id: int)

  /** One WHERE condition; a comparison with NULL does not select. */
  predicate Holds(c: Condition, row: Row) {
    match c
    case ActionIs(v) => row.action == v
    case UserIs(v) => row.user == Some(v)
    case TsFrom(v) => Leq(v, row.ts)
    case TsTo(v) => Leq(row.ts, v)
    case DetailLike(v) => row.detail.Some? && Like(v, row.detail.value)
    case IdBelow(id) => row.id < id
    case IdAbove(id) => row.id > id
  }

  predicate AllHold(conds: seq<Condition>, row: Row) {
    forall i :: 0 <= i < |conds| ==> Holds(conds[i], row)
  }

  function Where(rows: seq<Row>, conds: seq<Condition>): seq<Row> {
    if rows == [] then []
    else Where(rows[..|rows| - 1], conds) + if AllHold(conds, rows[|rows| - 1]) then [rows[|rows| - 1]] else []
  }

  function Reversed(rows: seq<Row>): (r: seq<Row>)
    ensures |r| == |rows| && forall i :: 0 <= i < |r| ==> r[i] == rows[|rows| - 1 - i]
  {
    seq(|rows|, i requires 0 <= i < |rows| => rows[|rows| - 1 - i])
  }

  function Min(a: int, b: int): int { if a < b then a else b }

  /** SELECT ... WHERE conds ORDER BY id ASC|DESC LIMIT limit, on a table kept in id order. */
  function Select(rows: seq<Row>, conds: seq<Condition>, ascending: bool, limit: nat): seq<Row> {
    var found := Where(rows, conds);
    (if ascending then found else Reversed(found))[..Min(limit, |found|)]
  }

  // ---------------------------------------------------------------- what a query means

  /** The row passes the filter part of a query. */
  predicate Keeps(f: Filter, row: Row) {
    && (Given(f.action) ==> row.action == f.action.value)
    && (Given(f.user) ==> row.user == Some(f.user.value))
    && (Given(f.startDate) ==> Leq(FirstInstant(f.startDate.value), row.ts))
    && (Given(f.endDate) ==> Leq(row.ts, LastInstant(f.endDate.value)))
    && (Given(f.search) ==> row.detail.Some? && Like(Pattern(f.search.value), row.detail.value))
  }

  function FirstInstant(d: string): string { if |d| == 10 then d + " 00:00:00" else d }
  function LastInstant(d: string): string { if |d| == 10 then d + " 23:59:59" else d }

  ghost predicate Ascending(rows: seq<Row>) {
    forall i, j :: 0 <= i < j < |rows| ==> rows[i].id < rows[j].id
  }

  /** The rows that pass the filter, in id order. */
  function Matching(rows: seq<Row>, f: Filter): seq<Row> {
    if rows == [] then []
    else Matching(rows[..|rows| - 1], f) + if Keeps(f, rows[|rows| - 1]) then [rows[|rows| - 1]] else []
  }

  /** How many of the first `n` rows of an ascending list have an id below `id`. */
  function BelowAmong(rows: seq<Row>, id: int, n: nat): (k: nat)
    requires n <= |rows|
    ensures k <= n && (k < n ==> rows[k].id >= id) && (k > 0 ==> rows[k - 1].id < id)
  {
    if n == 0 then 0
    else if rows[n - 1].id < id then n
    else BelowAmong(rows, id, n - 1)
  }

  function Below(rows: seq<Row>, id: int): nat {
    BelowAmong(rows, id, |rows|)
  }

  /** The rows on the far side of the cursor. When both cursors are given, `before` decides. */
  function PastCursor(m: seq<Row>, before: Option<int>, after: Option<int>): seq<Row> {
    if before.Some? then m[..Below(m, before.value)]
    else if after.Some? then m[Below(m, after.value + 1)..]
    else m
  }

  /** The first `n` rows in the direction of travel, newest first. */
  function PageOf(found: seq<Row>, isBackward: bool, n: nat): seq<Row> {
    Reversed(if isBackward then found[..Min(n, |found|)] else found[|found| - Min(n, |found|)..])
  }

  /** The answer as a window on the matching rows `m` next to the cursor. */
  function Window(m: seq<Row>, n: nat, before: Option<int>, after: Option<int>): Result {
    var found := PastCursor(m, before, after);
    Result(PageOf(found, after.Some?, n), |found| > n, if before.None? && after.None? then |m| else 0)
  }

  function Answer(rows: seq<Row>, q: Query): Result {
    Window(Matching(rows, q.filter), Limit(q.limit), q.before, q.after)
  }

  class AuditTable {
    var rows: seq<Row>

    ghost predicate Valid()
      reads this
    {
      Ascending(rows)
    }

    constructor ()
      ensures Valid() && rows == []
    {
      rows := [];
    }

    /** INSERT; the id is the AUTOINCREMENT successor of the last one. */
    method Audit(ts: string, action: string, user: Option<string>, detail: Option<string>)
      requires Valid()
      modifies this
      ensures Valid() && |rows| == |old(rows)| + 1 && old(rows) <= rows
      ensures var row := rows[|rows| - 1];
              (row.ts, row.action, row.user, row.detail) == (ts, action, user, detail)
    {
      var id := if rows == [] then 1 else rows[|rows| - 1].id + 1;
      rows := rows + [Row(id, ts, action, user, detail)];
    }

    method FilterConditions(f: Filter) returns (conds: seq<Condition>)
      ensures Where(rows, conds) == Matching(rows, f)
    {
      conds := [];
      if Given(f.action) {
        AllHoldPlus(conds, ActionIs(f.action.value));
        conds := conds + [ActionIs(f.action.value)];
      }
      if Given(f.user) {
        AllHoldPlus(conds, UserIs(f.user.value));
        conds := conds + [UserIs(f.user.value)];
      }
      if Given(f.startDate) {
        var from := if |f.startDate.value| == 10 then f.startDate.value + " 00:00:00" else f.startDate.value;
        AllHoldPlus(conds, TsFrom(from));
        conds := conds + [TsFrom(from)];
      }
      if Given(f.endDate) {
        var to := if |f.endDate.value| == 10 then f.endDate.value + " 23:59:59" else f.endDate.value;
        AllHoldPlus(conds, TsTo(to));
        conds := conds + [TsTo(to)];
      }
      if Given(f.search) {
        var escaped := Escape(f.search.value);
        AllHoldPlus(conds, DetailLike("%" + escaped + "%"));
        conds := conds + [DetailLike("%" + escaped + "%")];
      }
      WhereIsMatching(rows, conds, f);
    }

    method QueryAuditLogs(q: Query) returns (r: Result)
      requires Valid()
      ensures r == Answer(rows, q)
    {
      var limit := Limit(q.limit);
      var filterConditions := FilterConditions(q.filter);
      var dataConditions := filterConditions;
      var isBackward := q.after.Some?;
      if q.before.Some? {
        dataConditions := dataConditions + [IdBelow(q.before.value)];
      } else if q.after.Some? {
        dataConditions := dataConditions + [IdAbove(q.after.value)];
      }
      var fetched := Select(rows, dataConditions, isBackward, limit + 1);
      var hasMore := |fetched| > limit;
      var logs := fetched[..Min(limit, |fetched|)];
      if isBackward {
        logs := Reversed(logs);
      }
      var total := 0;
      if q.before.None? && q.after.None? {
        total := |Where(rows, filterConditions)|;
      }
      r := Result(logs, hasMore, total);
      CursorFinds(rows, filterConditions, q);
      FirstPage(PastCursor(Where(rows, filterConditions), q.before, q.after), isBackward, limit);
    }
  }

  // ---------------------------------------------------------------- the SQL finds a window

  lemma {:induction false} WhereMembers(rows: seq<Row>, conds: seq<Condition>)
    requires Ascending(rows)
    ensures Ascending(Where(rows, conds))
    ensures forall r :: r in Where(rows, conds) ==> r in rows
  {
    if rows != [] {
      var init, last := rows[..|rows| - 1], rows[|rows| - 1];
      WhereMembers(init, conds);
      forall r | r in Where(init, conds) ensures r.id < last.id {
        var i :| 0 <= i < |init| && init[i] == r;
        assert rows[i] == r;
      }
    }
  }

  lemma AllHoldSnoc(conds: seq<Condition>, c: Condition, row: Row)
    ensures AllHold(conds + [c], row) <==> AllHold(conds, row) && Holds(c, row)
  {
    if AllHold(conds + [c], row) {
      assert Holds((conds + [c])[|conds|], row);
      forall i | 0 <= i < |conds| ensures Holds(conds[i], row) {
        assert Holds((conds + [c])[i], row);
      }
    }
  }

  lemma AllHoldPlus(conds: seq<Condition>, c: Condition)
    ensures forall row :: AllHold(conds + [c], row) <==> AllHold(conds, row) && Holds(c, row)
  {
    forall row ensures AllHold(conds + [c], row) <==> AllHold(conds, row) && Holds(c, row) {
      AllHoldSnoc(conds, c, row);
    }
  }

  /** In an ascending list, `Below` splits the ids at the bound. */
  lemma BelowSplits(m: seq<Row>, id: int)
    requires Ascending(m)
    ensures Below(m, id) <= |m|
    ensures forall i :: 0 <= i < |m| ==> (m[i].id < id <==> i < Below(m, id))
  {
  }

  /** Only one place in an ascending list splits the ids at the bound. */
  lemma SplitIsBelow(m: seq<Row>, id: int, n: nat)
    requires Ascending(m) && n <= |m|
    requires (n < |m| ==> m[n].id >= id) && (n > 0 ==> m[n - 1].id < id)
    ensures Below(m, id) == n
  {
    BelowSplits(m, id);
  }

  lemma BelowSnoc(m: seq<Row>, row: Row, id: int)
    requires Ascending(m + [row])
    ensures Below(m + [row], id) == if row.id < id then |m| + 1 else Below(m, id)
    ensures row.id < id ==> Below(m, id) == |m|
  {
    var all := m + [row];
    assert forall i :: 0 <= i < |m| ==> all[i] == m[i] && all[i].id < all[|m|].id;
    if row.id < id {
      SplitIsBelow(all, id, |m| + 1);
      SplitIsBelow(m, id, |m|);
    } else {
      SplitIsBelow(all, id, Below(m, id));
    }
  }

  lemma {:induction false} WhereBelow(rows: seq<Row>, conds: seq<Condition>, id: int)
    requires Ascending(rows)
    ensures Where(rows, conds + [IdBelow(id)]) == Where(rows, conds)[..Below(Where(rows, conds), id)]
  {
    if rows != [] {
      var init, last := rows[..|rows| - 1], rows[|rows| - 1];
      WhereBelow(init, conds, id);
      AllHoldSnoc(conds, IdBelow(id), last);
      WhereMembers(rows, conds);
      var m := Where(init, conds);
      if AllHold(conds, last) {
        BelowSnoc(m, last, id);
        assert Where(rows, conds) == m + [last];
        assert last.id >= id ==> (m + [last])[..Below(m, id)] == m[..Below(m, id)] + [];
      } else {
        assert Where(rows, conds) == m;
      }
    }
  }

  lemma {:induction false} WhereAbove(rows: seq<Row>, conds: seq<Condition>, id: int)
    requires Ascending(rows)
    ensures Where(rows, conds + [IdAbove(id)]) == Where(rows, conds)[Below(Where(rows, conds), id + 1)..]
  {
    if rows != [] {
      var init, last := rows[..|rows| - 1], rows[|rows| - 1];
      WhereAbove(init, conds, id);
      AllHoldSnoc(conds, IdAbove(id), last);
      WhereMembers(rows, conds);
      var m := Where(init, conds);
      if AllHold(conds, last) {
        BelowSnoc(m, last, id + 1);
        assert Where(rows, conds) == m + [last];
        assert last.id > id ==> (m + [last])[Below(m, id + 1)..] == m[Below(m, id + 1)..] + [last];
      } else {
        assert Where(rows, conds) == m;
      }
    }
  }

  lemma CursorFinds(rows: seq<Row>, conds: seq<Condition>, q: Query)
    requires Ascending(rows)
    ensures PastCursor(Where(rows, conds), q.before, q.after)
         == Where(rows, if q.before.Some? then conds + [IdBelow(q.before.value)]
                        else if q.after.Some? then conds + [IdAbove(q.after.value)] else conds)
  {
    if q.before.Some? {
      WhereBelow(rows, conds, q.before.value);
    } else if q.after.Some? {
      WhereAbove(rows, conds, q.after.value);
    }
  }

  /** Fetching one row more than the page holds shows whether there are more. */
  lemma FirstPage(found: seq<Row>, isBackward: bool, limit: nat)
    ensures var fetched := (if isBackward then found else Reversed(found))[..Min(limit + 1, |found|)];
            && (|fetched| > limit <==> |found| > limit)
            && PageOf(found, isBackward, limit)
               == if isBackward then Reversed(fetched[..Min(limit, |fetched|)]) else fetched[..Min(limit, |fetched|)]
  {
    if isBackward {
      assert found[..Min(limit + 1, |found|)][..Min(limit, |found|)] == found[..Min(limit, |found|)];
    } else {
      assert Reversed(found)[..Min(limit + 1, |found|)][..Min(limit, |found|)]
          == Reversed(found[|found| - Min(limit, |found|)..]);
    }
  }

  lemma {:induction false} WhereIsMatching(rows: seq<Row>, conds: seq<Condition>, f: Filter)
    requires forall row :: AllHold(conds, row) <==> Keeps(f, row)
    ensures Where(rows, conds) == Matching(rows, f)
  {
    if rows != [] {
      WhereIsMatching(rows[..|rows| - 1], conds, f);
    }
  }

  // ---------------------------------------------------------------- one page

  lemma {:induction false} MatchingMembers(rows: seq<Row>, f: Filter)
    requires Ascending(rows)
    ensures Ascending(Matching(rows, f))
    ensures forall r :: r in Matching(rows, f) <==> r in rows && Keeps(f, r)
  {
    if rows != [] {
      var init, last := rows[..|rows| - 1], rows[|rows| - 1];
      MatchingMembers(init, f);
      assert rows == init + [last];
      forall r | r in Matching(init, f) ensures r.id < last.id {
        var i :| 0 <= i < |init| && init[i] == r;
        assert rows[i] == r;
      }
    }
  }

  /** The row lies on the far side of the cursor. */
  predicate Beyond(q: Query, row: Row) {
    if q.before.Some? then row.id < q.before.value
    else q.after.Some? ==> row.id > q.after.value
  }

  /** A row the query could have returned. */
  predicate Candidate(rows: seq<Row>, q: Query, row: Row) {
    row in rows && Keeps(q.filter, row) && Beyond(q, row)
  }

  ghost predicate Descending(rows: seq<Row>) {
    forall i, j :: 0 <= i < j < |rows| ==> rows[i].id > rows[j].id
  }

  lemma CandidatesAreFound(rows: seq<Row>, q: Query)
    requires Ascending(rows)
    ensures Ascending(PastCursor(Matching(rows, q.filter), q.before, q.after))
    ensures forall r :: r in PastCursor(Matching(rows, q.filter), q.before, q.after) <==> Candidate(rows, q, r)
  {
    MatchingMembers(rows, q.filter);
    FoundAreBeyond(Matching(rows, q.filter), q);
  }

  lemma FoundAreBeyond(m: seq<Row>, q: Query)
    requires Ascending(m)
    ensures Ascending(PastCursor(m, q.before, q.after))
    ensures forall r :: r in PastCursor(m, q.before, q.after) <==> r in m && Beyond(q, r)
  {
    match q.before {
      case Some(id) => PrefixBelow(m, id);
      case None =>
        if q.after.Some? {
          SuffixAbove(m, q.after.value);
        }
    }
  }

  lemma PrefixBelow(m: seq<Row>, id: int)
    requires Ascending(m)
    ensures Ascending(m[..Below(m, id)])
    ensures forall r :: r in m[..Below(m, id)] <==> r in m && r.id < id
  {
    BelowSplits(m, id);
    var n := Below(m, id);
    forall r | r in m && r.id < id ensures r in m[..n] {
      var i :| 0 <= i < |m| && m[i] == r;
      assert m[..n][i] == r;
    }
  }

  lemma SuffixAbove(m: seq<Row>, id: int)
    requires Ascending(m)
    ensures Ascending(m[Below(m, id + 1)..])
    ensures forall r :: r in m[Below(m, id + 1)..] <==> r in m && r.id > id
  {
    BelowSplits(m, id + 1);
    var n := Below(m, id + 1);
    forall r | r in m && r.id > id ensures r in m[n..] {
      var i :| 0 <= i < |m| && m[i] == r;
      assert m[n..][i - n] == r;
    }
  }

  lemma OnPage(found: seq<Row>, page: seq<Row>, lo: nat, size: nat, i: nat)
    requires lo + size <= |found| && size == |page| && i < |found|
    requires forall j :: 0 <= j < size ==> page[j] == found[lo + size - 1 - j]
    ensures lo <= i < lo + size ==> found[i] in page
  {
    if lo <= i < lo + size {
      assert page[lo + size - 1 - i] == found[i];
    }
  }

  lemma PageOfOrder(found: seq<Row>, isBackward: bool, n: nat)
    requires Ascending(found)
    ensures Descending(PageOf(found, isBackward, n)) && |PageOf(found, isBackward, n)| == Min(n, |found|)
    ensures forall r :: r in PageOf(found, isBackward, n) ==> r in found
    ensures forall r, s :: r in found && r !in PageOf(found, isBackward, n) && s in PageOf(found, isBackward, n)
              ==> if isBackward then r.id > s.id else r.id < s.id
  {
    var page, size := PageOf(found, isBackward, n), Min(n, |found|);
    var lo := if isBackward then 0 else |found| - size;
    assert forall i :: 0 <= i < size ==> page[i] == found[lo + size - 1 - i];
    forall r, s | r in found && r !in page && s in page
      ensures if isBackward then r.id > s.id else r.id < s.id
    {
      var i :| 0 <= i < |found| && found[i] == r;
      var j :| 0 <= j < size && page[j] == s;
      OnPage(found, page, lo, size, i);
    }
  }

  /** A page is the `limit` candidates next to the end it starts from, newest first, and `hasMore`
      says exactly whether a further candidate exists in the direction of travel. */
  lemma PageExactly(rows: seq<Row>, q: Query)
    requires Ascending(rows)
    ensures Descending(Answer(rows, q).logs)
    ensures forall r :: r in Answer(rows, q).logs ==> Candidate(rows, q, r)
    ensures forall r, s :: Candidate(rows, q, r) && r !in Answer(rows, q).logs && s in Answer(rows, q).logs
              ==> if q.after.Some? then r.id > s.id else r.id < s.id
    ensures Answer(rows, q).hasMore <==> exists r :: Candidate(rows, q, r) && r !in Answer(rows, q).logs
    ensures Answer(rows, q).hasMore ==> |Answer(rows, q).logs| == Limit(q.limit)
  {
    var found := PastCursor(Matching(rows, q.filter), q.before, q.after);
    CandidatesAreFound(rows, q);
    PageOfOrder(found, q.after.Some?, Limit(q.limit));
    LeftOverExactly(found, q.after.Some?, Limit(q.limit));
  }

  lemma LeftOverExactly(found: seq<Row>, isBackward: bool, n: nat)
    requires Ascending(found)
    ensures |found| > n <==> exists r :: r in found && r !in PageOf(found, isBackward, n)
  {
    var page, size := PageOf(found, isBackward, n), Min(n, |found|);
    var lo := if isBackward then 0 else |found| - size;
    assert forall i :: 0 <= i < size ==> page[i] == found[lo + size - 1 - i];
    if |found| > n {
      var r := found[if isBackward then size else 0];
      assert r in found && r !in page;
    } else {
      forall r | r in found ensures r in page {
        var i :| 0 <= i < |found| && found[i] == r;
        assert page[size - 1 - i] == r;
      }
    }
  }

  // ---------------------------------------------------------------- pages of a growing table

  lemma {:induction false} MatchingPlus(rows: seq<Row>, more: seq<Row>, f: Filter)
    ensures Matching(rows + more, f) == Matching(rows, f) + Matching(more, f)
  {
    if more == [] {
      assert rows + more == rows;
    } else {
      var init := more[..|more| - 1];
      MatchingPlus(rows, init, f);
      assert (rows + more)[..|rows + more| - 1] == rows + init;
    }
  }

  lemma MatchingGrows(t: seq<Row>, t': seq<Row>, f: Filter)
    requires t <= t' && Ascending(t')
    ensures Matching(t, f) <= Matching(t', f) && Ascending(Matching(t', f))
  {
    MatchingPlus(t, t'[|t|..], f);
    assert t' == t + t'[|t|..];
    MatchingMembers(t', f);
  }

  /** Rows appended later come after every cursor taken from an earlier list. */
  lemma CursorStays(m: seq<Row>, k: nat)
    requires Ascending(m) && k < |m|
    ensures Below(m, m[k].id) == k && Below(m, m[k].id + 1) == k + 1
  {
    SplitIsBelow(m, m[k].id, k);
    SplitIsBelow(m, m[k].id + 1, k + 1);
  }

  function LastId(r: Result): int { if r.logs == [] then 0 else r.logs[|r.logs| - 1].id }
  function FirstId(r: Result): int { if r.logs == [] then 0 else r.logs[0].id }

  /** `logs` holds the up to `n` rows below position `hi` of `m`, newest first. */
  ghost predicate IsPage(m: seq<Row>, hi: nat, n: nat, logs: seq<Row>) {
    hi <= |m| && |logs| == Min(n, hi) && forall i :: 0 <= i < |logs| ==> logs[i] == m[hi - 1 - i]
  }

  lemma PageAfterPage(m: seq<Row>, m': seq<Row>, hi: nat, n: nat, logs: seq<Row>)
    requires m <= m' && hi <= |m| && IsPage(m', hi, n, logs)
    ensures IsPage(m, hi, n, logs)
  {
  }

  lemma OnePage(m: seq<Row>, hi: nat, n: nat, a: seq<Row>, b: seq<Row>)
    requires IsPage(m, hi, n, a) && IsPage(m, hi, n, b)
    ensures a == b
  {
  }

  lemma PageOfPrefix(m: seq<Row>, hi: nat, n: nat)
    requires hi <= |m|
    ensures IsPage(m, hi, n, PageOf(m[..hi], false, n))
  {
  }

  lemma PageOfSuffix(m: seq<Row>, lo: nat, n: nat)
    requires lo + n <= |m|
    ensures IsPage(m, lo + n, n, PageOf(m[lo..], true, n))
  {
  }

  /** What `before` answers when the cursor splits the list at `k`. */
  lemma BeforeAnswers(m: seq<Row>, k: nat, n: nat, cursor: int, page: Result)
    requires Below(m, cursor) == k && page == Window(m, n, Some(cursor), None)
    ensures IsPage(m, k, n, page.logs) && (page.hasMore <==> k > n)
  {
    PageOfPrefix(m, k, n);
  }

  lemma AfterAnswers(m: seq<Row>, k: nat, n: nat, cursor: int, page: Result)
    requires Below(m, cursor + 1) == k && k + n <= |m| && page == Window(m, n, None, Some(cursor))
    ensures IsPage(m, k + n, n, page.logs) && (page.hasMore <==> k + n < |m|)
  {
    PageOfSuffix(m, k, n);
  }

  lemma NoCursorAnswers(m: seq<Row>, n: nat, page: Result)
    requires page == Window(m, n, None, None)
    ensures IsPage(m, |m|, n, page.logs) && (page.hasMore <==> |m| > n)
  {
    PageOfPrefix(m, |m|, n);
    assert m[..|m|] == m;
  }

  /** Asking for what lies before row `k` of an earlier list. */
  lemma ContinuesAt(m: seq<Row>, m': seq<Row>, k: nat, n: nat, cursor: int, page: Result)
    requires m <= m' && Ascending(m') && k < |m| && cursor == m[k].id
    requires page == Window(m', n, Some(cursor), None)
    ensures IsPage(m, k, n, page.logs) && (page.hasMore <==> k > n)
  {
    assert m'[k] == m[k];
    CursorStays(m', k);
    BeforeAnswers(m', k, n, cursor, page);
    PageAfterPage(m, m', k, n, page.logs);
  }

  lemma LastOfPage(m: seq<Row>, hi: nat, n: nat, r: Result)
    requires 1 <= n < hi && IsPage(m, hi, n, r.logs)
    ensures LastId(r) == m[hi - n].id
  {
  }

  // ---------------------------------------------------------------- a walk

  /** Later lists extend earlier ones, all in id order. */
  ghost predicate Growing(ms: seq<seq<Row>>) {
    forall i :: 0 <= i < |ms| ==> Ascending(ms[i]) && ms[0] <= ms[i]
  }

  predicate Follows(m: seq<Row>, n: nat, previous: Result, page: Result) {
    previous.hasMore && page == Window(m, n, Some(LastId(previous)), None)
  }

  /** A client goes on with `before` = the last id it was given as long as there is more. */
  ghost predicate WalkOn(ms: seq<seq<Row>>, n: nat, pages: seq<Result>) {
    && |ms| == |pages| >= 1 && Growing(ms)
    && pages[0] == Window(ms[0], n, None, None)
    && forall i :: 1 <= i < |pages| ==> Follows(ms[i], n, pages[i - 1], pages[i])
  }

  /** The same on the table, which may have grown before each query. */
  ghost predicate IsWalk(limit: Option<int>, f: Filter, tables: seq<seq<Row>>, pages: seq<Result>) {
    && |tables| == |pages| >= 1 && Growing(tables)
    && pages[0] == Answer(tables[0], Query(limit, None, None, f))
    && forall i :: 1 <= i < |pages| ==> Continues(limit, f, tables[i], pages[i - 1], pages[i])
  }

  predicate Continues(limit: Option<int>, f: Filter, table: seq<Row>, previous: Result, page: Result) {
    previous.hasMore && page == Answer(table, Query(limit, Some(LastId(previous)), None, f))
  }

  function Concat(pages: seq<Result>): seq<Row> {
    if pages == [] then [] else Concat(pages[..|pages| - 1]) + pages[|pages| - 1].logs
  }

  function Times(k: nat, n: nat): nat { k * n }

  lemma OneMore(i: nat, n: nat)
    requires i >= 1
    ensures Times(i, n) == Times(i - 1, n) + n
  {
  }

  /** Page `i` of the walk is the one that ends below position `hi`. */
  ghost predicate PageEnds(m: seq<Row>, n: nat, page: Result, hi: nat) {
    IsPage(m, hi, n, page.logs) && (page.hasMore <==> hi > n)
  }

  lemma NextPage(m: seq<Row>, m': seq<Row>, n: nat, hi: nat, previous: Result, page: Result)
    requires m <= m' && Ascending(m') && n >= 1 && PageEnds(m, n, previous, hi)
    requires Follows(m', n, previous, page)
    ensures hi > n && PageEnds(m, n, page, hi - n)
  {
    LastOfPage(m, hi, n, previous);
    ContinuesAt(m, m', hi - n, n, LastId(previous), page);
  }

  lemma WalkStep(ms: seq<seq<Row>>, n: nat, pages: seq<Result>, i: nat, hi: nat)
    requires WalkOn(ms, n, pages) && n >= 1 && 1 <= i < |pages| && PageEnds(ms[0], n, pages[i - 1], hi)
    ensures hi > n && PageEnds(ms[0], n, pages[i], hi - n)
  {
    assert Follows(ms[i], n, pages[i - 1], pages[i]);
    NextPage(ms[0], ms[i], n, hi, pages[i - 1], pages[i]);
  }

  lemma FirstPageEnds(ms: seq<seq<Row>>, n: nat, pages: seq<Result>) returns (hi: nat)
    requires WalkOn(ms, n, pages)
    ensures hi + Times(0, n) == |ms[0]| && PageEnds(ms[0], n, pages[0], hi)
  {
    hi := |ms[0]|;
    NoCursorAnswers(ms[0], n, pages[0]);
  }

  lemma WalkNext(ms: seq<seq<Row>>, n: nat, pages: seq<Result>, i: nat, hi: nat)
    requires WalkOn(ms, n, pages) && n >= 1 && 1 <= i < |pages|
    requires hi + Times(i - 1, n) == |ms[0]| && PageEnds(ms[0], n, pages[i - 1], hi)
    ensures hi > n && hi - n + Times(i, n) == |ms[0]| && PageEnds(ms[0], n, pages[i], hi - n)
  {
    WalkStep(ms, n, pages, i, hi);
    OneMore(i, n);
  }

  /** Page `i` of a walk ends where the first i pages stopped. */
  lemma {:induction false} WalkPage(ms: seq<seq<Row>>, n: nat, pages: seq<Result>, i: nat) returns (hi: nat)
    requires WalkOn(ms, n, pages) && n >= 1 && i < |pages|
    ensures hi + Times(i, n) == |ms[0]| && PageEnds(ms[0], n, pages[i], hi)
  {
    if i == 0 {
      hi := FirstPageEnds(ms, n, pages);
    } else {
      hi := WalkPage(ms, n, pages, i - 1);
      WalkNext(ms, n, pages, i, hi);
      hi := hi - n;
    }
  }

  lemma ConcatSnoc(pages: seq<Result>, k: nat)
    requires 1 <= k <= |pages|
    ensures Concat(pages[..k]) == Concat(pages[..k - 1]) + pages[k - 1].logs
  {
    assert pages[..k][..k - 1] == pages[..k - 1];
  }

  /** Rows gathered from the newest down, and the page that goes on from there. */
  lemma SoFarStep(m: seq<Row>, n: nat, hi: nat, taken: nat, sofar: seq<Row>, page: seq<Row>)
    requires taken + hi == |m| && IsPage(m, hi, n, page) && IsPage(m, |m|, taken, sofar)
    ensures IsPage(m, |m|, taken + n, sofar + page)
  {
  }

  lemma NothingYet(m: seq<Row>, n: nat, pages: seq<Result>)
    requires pages == []
    ensures IsPage(m, |m|, Times(0, n), Concat(pages))
  {
  }

  lemma {:induction false} WalkSoFar(ms: seq<seq<Row>>, n: nat, pages: seq<Result>, k: nat)
    requires WalkOn(ms, n, pages) && n >= 1 && k <= |pages|
    ensures IsPage(ms[0], |ms[0]|, Times(k, n), Concat(pages[..k]))
  {
    if k == 0 {
      NothingYet(ms[0], n, pages[..k]);
    } else {
      WalkSoFar(ms, n, pages, k - 1);
      var hi := WalkPage(ms, n, pages, k - 1);
      var sofar, page, taken := Concat(pages[..k - 1]), pages[k - 1].logs, Times(k - 1, n);
      SoFarStep(ms[0], n, hi, taken, sofar, page);
      ConcatSnoc(pages, k);
      OneMore(k, n);
    }
  }

  lemma PageOfAll(m: seq<Row>, taken: nat, logs: seq<Row>)
    requires IsPage(m, |m|, taken, logs)
    ensures logs == Reversed(m)[..Min(taken, |m|)]
  {
  }

  lemma WalkCollects(ms: seq<seq<Row>>, n: nat, pages: seq<Result>)
    requires WalkOn(ms, n, pages) && n >= 1
    ensures Concat(pages) == Reversed(ms[0])[..Min(Times(|pages|, n), |ms[0]|)]
  {
    WalkSoFar(ms, n, pages, |pages|);
    assert pages[..|pages|] == pages;
    PageOfAll(ms[0], Times(|pages|, n), Concat(pages));
  }

  lemma WalkHasMore(ms: seq<seq<Row>>, n: nat, pages: seq<Result>)
    requires WalkOn(ms, n, pages) && n >= 1
    ensures pages[|pages| - 1].hasMore <==> Times(|pages|, n) < |ms[0]|
    ensures Times(|pages| - 1, n) <= |ms[0]|
  {
    var hi := WalkPage(ms, n, pages, |pages| - 1);
    OneMore(|pages|, n);
  }

  function Lists(tables: seq<seq<Row>>, f: Filter): seq<seq<Row>> {
    seq(|tables|, i requires 0 <= i < |tables| => Matching(tables[i], f))
  }

  lemma WalkOnLists(limit: Option<int>, f: Filter, tables: seq<seq<Row>>, pages: seq<Result>)
    requires IsWalk(limit, f, tables, pages)
    ensures WalkOn(Lists(tables, f), Limit(limit), pages)
  {
    var ms := Lists(tables, f);
    forall i | 0 <= i < |ms| ensures Ascending(ms[i]) && ms[0] <= ms[i] {
      MatchingGrows(tables[0], tables[i], f);
    }
    forall i | 1 <= i < |pages| ensures Follows(ms[i], Limit(limit), pages[i - 1], pages[i]) {
      assert Continues(limit, f, tables[i], pages[i - 1], pages[i]);
    }
  }

  /** After k pages the client has the first k * limit rows, in descending order, of those that
      matched at the first query: no gap, no duplicate and nothing appended since. There is more
      exactly while rows are left, so every walk ends, and then it has all the rows counted in the
      first answer's total. */
  lemma WalkIsWhole(limit: Option<int>, f: Filter, tables: seq<seq<Row>>, pages: seq<Result>)
    requires IsWalk(limit, f, tables, pages)
    ensures Concat(pages) == Reversed(Matching(tables[0], f))[..Min(Times(|pages|, Limit(limit)), |Matching(tables[0], f)|)]
    ensures pages[|pages| - 1].hasMore <==> Times(|pages|, Limit(limit)) < |Matching(tables[0], f)|
    ensures !pages[|pages| - 1].hasMore ==> Concat(pages) == Reversed(Matching(tables[0], f)) && |Concat(pages)| == pages[0].total
  {
    WalkOnLists(limit, f, tables, pages);
    WalkCollects(Lists(tables, f), Limit(limit), pages);
    WalkHasMore(Lists(tables, f), Limit(limit), pages);
    assert Lists(tables, f)[0] == Matching(tables[0], f);
  }

  /** A walk has at most one page more than the first query had matching rows. */
  lemma WalkEnds(limit: Option<int>, f: Filter, tables: seq<seq<Row>>, pages: seq<Result>)
    requires IsWalk(limit, f, tables, pages)
    ensures |pages| <= |Matching(tables[0], f)| + 1
  {
    WalkOnLists(limit, f, tables, pages);
    WalkHasMore(Lists(tables, f), Limit(limit), pages);
    AtLeast(|pages| - 1, Limit(limit));
  }

  lemma AtLeast(k: nat, n: nat)
    requires n >= 1
    ensures k <= Times(k, n)
  {
  }

  // ---------------------------------------------------------------- there and back

  lemma ForwardPage(m: seq<Row>, n: nat, before: Option<int>, page: Result) returns (hi: nat)
    requires page == Window(m, n, before, None)
    ensures IsPage(m, hi, n, page.logs) && (page.hasMore <==> hi > n)
  {
    match before {
      case None =>
        hi := |m|;
        NoCursorAnswers(m, n, page);
      case Some(cursor) =>
        hi := Below(m, cursor);
        BeforeAnswers(m, hi, n, cursor, page);
    }
  }

  /** Asking for what lies after row `k`, when there is a full page of it. */
  lemma ReturnsFrom(m: seq<Row>, k: nat, n: nat, cursor: int, page: Result)
    requires Ascending(m) && k + 1 + n <= |m| && cursor == m[k].id
    requires page == Window(m, n, None, Some(cursor))
    ensures IsPage(m, k + 1 + n, n, page.logs) && (page.hasMore <==> k + 1 + n < |m|)
  {
    CursorStays(m, k);
    AfterAnswers(m, k + 1, n, cursor, page);
  }

  lemma NextAfter(m0: seq<Row>, m1: seq<Row>, n: nat, k: nat, last: int, q: Result)
    requires m0 <= m1 && Ascending(m1) && n >= 1 && 1 <= k < |m0| && last == m0[k].id
    requires q == Window(m1, n, Some(last), None)
    ensures q.logs != [] && FirstId(q) == m0[k - 1].id
  {
    ContinuesAt(m0, m1, k, n, last, q);
  }

  lemma ThereAfter(m0: seq<Row>, m1: seq<Row>, n: nat, hi: nat, p: Result, q: Result)
    requires m0 <= m1 && Ascending(m1) && 1 <= n < hi && IsPage(m0, hi, n, p.logs)
    requires q == Window(m1, n, Some(LastId(p)), None)
    ensures q.logs != [] && FirstId(q) == m0[hi - n - 1].id
  {
    LastOfPage(m0, hi, n, p);
    NextAfter(m0, m1, n, hi - n, LastId(p), q);
  }

  lemma BackAgain(m0: seq<Row>, m2: seq<Row>, n: nat, hi: nat, first: int, p: Result, back: Result)
    requires m0 <= m2 && Ascending(m2) && 1 <= n < hi && IsPage(m0, hi, n, p.logs)
    requires first == m0[hi - n - 1].id && back == Window(m2, n, None, Some(first))
    ensures back.logs == p.logs
  {
    assert m2[hi - n - 1] == m0[hi - n - 1];
    ReturnsFrom(m2, hi - n - 1, n, first, back);
    PageAfterPage(m0, m2, hi, n, back.logs);
    OnePage(m0, hi, n, back.logs, p.logs);
  }

  lemma BackUndoes(m0: seq<Row>, m1: seq<Row>, m2: seq<Row>, n: nat, before: Option<int>, p: Result, q: Result, back: Result)
    requires m0 <= m1 && m0 <= m2 && Ascending(m1) && Ascending(m2) && n >= 1
    requires p == Window(m0, n, before, None) && p.hasMore
    requires q == Window(m1, n, Some(LastId(p)), None)
    requires back == Window(m2, n, None, Some(FirstId(q)))
    ensures q.logs != [] && back.logs == p.logs
  {
    var hi := ForwardPage(m0, n, before, p);
    ThereAfter(m0, m1, n, hi, p, q);
    BackAgain(m0, m2, n, hi, FirstId(q), p, back);
  }

  /** From page P go on to Q, then back with `after` = the first id of Q: P comes back, row for row,
      however many rows were appended in between. */
  lemma BackUndoesNext(t0: seq<Row>, t1: seq<Row>, t2: seq<Row>, limit: Option<int>, before: Option<int>, f: Filter,
                       p: Result, q: Result)
    requires t0 <= t1 <= t2 && Ascending(t1) && Ascending(t2)
    requires p == Answer(t0, Query(limit, before, None, f)) && p.hasMore
    requires q == Answer(t1, Query(limit, Some(LastId(p)), None, f))
    ensures q.logs != [] && Answer(t2, Query(limit, None, Some(FirstId(q)), f)).logs == p.logs
  {
    MatchingGrows(t0, t1, f);
    MatchingGrows(t0, t2, f);
    BackUndoes(Matching(t0, f), Matching(t1, f), Matching(t2, f), Limit(limit), before, p, q,
               Answer(t2, Query(limit, None, Some(FirstId(q)), f)));
  }

  // ---------------------------------------------------------------- dates

  /** Date filters given as a day cover exactly that day and what lies after or before it. */
  lemma DaysAreInclusive(day: string, ts: string)
    requires |day| == 10 && |ts| == 19 && Leq(" 00:00:00", ts[10..]) && Leq(ts[10..], " 23:59:59")
    ensures Leq(FirstInstant(day), ts) <==> Leq(day, ts[..10])
    ensures Leq(ts, LastInstant(day)) <==> Leq(ts[..10], day)
  {
    assert ts == ts[..10] + ts[10..];
    LeqByDay(day, " 00:00:00", ts[..10], ts[10..]);
    LeqByDay(ts[..10], ts[10..], day, " 23:59:59");
  }
}
