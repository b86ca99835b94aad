/** What the answer to an audit query holds, told from the fields of the query and of the rows. */
module AuditObserved {
  import opened Prelude
  import opened Search
  import opened AuditLog

  /** Present, and not the empty text. */
  predicate Asked(s: Option<string>) { s.Some? && |s.value| > 0 }

  /** The same character, or the two cases of one ASCII letter, by code point. */
  predicate SameLetter(a: int, b: int) {
    a == b || (65 <= a <= 90 && b == a + 32) || (65 <= b <= 90 && a == b + 32)
  }

  /** `text` stands in `detail` from position `i` on. */
  predicate StandsAt(text: string, detail: string, i: nat) {
    i + |text| <= |detail| && forall j :: 0 <= j < |text| ==> SameLetter(detail[i + j] as int, text[j] as int)
  }

  predicate Contains(text: string, detail: string) {
    exists i: nat :: i <= |detail| && StandsAt(text, detail, i)
  }

  /** The detail contains the text up to ASCII case; with a backslash in it, it is a pattern. */
  predicate DetailMatches(text: string, row: Row) {
    row.detail.Some? && if '\\' in text then Like("%" + Escape(text) + "%", row.detail.value) else Contains(text, row.detail.value)
  }

  /** The row meets every condition that was asked for. A bound of ten characters is a day. */
  predicate Meets(f: Filter, row: Row) {
    && (Asked(f.action) ==> row.action == f.action.value)
    && (Asked(f.user) ==> row.user.Some? && row.user.value == f.user.value)
    && (Asked(f.startDate) ==> Leq(f.startDate.value + if |f.startDate.value| == 10 then " 00:00:00" else "", row.ts))
    && (Asked(f.endDate) ==> Leq(row.ts, f.endDate.value + if |f.endDate.value| == 10 then " 23:59:59" else ""))
    && (Asked(f.search) ==> DetailMatches(f.search.value, row))
  }

  /** The row lies beyond the cursor; `before` decides when both are given. */
  predicate Beyond(q: Query, row: Row) {
    if q.before.Some? then row.id < q.before.value else q.after.Some? ==> row.id > q.after.value
  }

  /** The requested page size, 50 if none is requested, kept between 1 and 200. */
  predicate PageSize(requested: Option<int>, n: nat) {
    var r := if requested.Some? then requested.value else 50;
    (r < 1 ==> n == 1) && (r > 200 ==> n == 200) && (1 <= r <= 200 ==> n == r)
  }

  lemma DateBounds(s: string)
    ensures FirstInstant(s) == s + (if |s| == 10 then " 00:00:00" else "")
    ensures LastInstant(s) == s + (if |s| == 10 then " 23:59:59" else "")
  {
  }

  lemma FoldIsSameLetter(a: char, b: char)
    ensures Fold(a) == Fold(b) <==> SameLetter(a as int, b as int)
  {
  }

  lemma StandsIsOccurs(text: string, detail: string, i: nat)
    ensures StandsAt(text, detail, i) <==> OccursAt(text, detail, i)
  {
    if i + |text| <= |detail| {
      forall j | 0 <= j < |text|
        ensures Fold(detail[i..i + |text|][j]) == Fold(text[j]) <==> SameLetter(detail[i + j] as int, text[j] as int)
      {
        FoldIsSameLetter(detail[i + j], text[j]);
      }
    }
  }

  lemma ContainsIsOccurs(text: string, detail: string)
    ensures Contains(text, detail) <==> Occurs(text, detail)
  {
    forall i: nat ensures StandsAt(text, detail, i) <==> OccursAt(text, detail, i) {
      StandsIsOccurs(text, detail, i);
    }
  }

  lemma MeetsIsKeeps(f: Filter, row: Row)
    ensures Meets(f, row) <==> Keeps(f, row)
  {
    if Asked(f.startDate) { DateBounds(f.startDate.value); }
    if Asked(f.endDate) { DateBounds(f.endDate.value); }
    if Asked(f.search) && row.detail.Some? && '\\' !in f.search.value { 
      LikeFindsText(f.search.value, row.detail.value);
      ContainsIsOccurs(f.search.value, row.detail.value);
    }
  }

  lemma CandidateIs(rows: seq<Row>, q: Query, row: Row)
    ensures Candidate(rows, q, row) <==> row in rows && Meets(q.filter, row) && Beyond(q, row)
  {
    MeetsIsKeeps(q.filter, row);
  }

  /** Every row of the answer is a row of the table that meets every condition and lies beyond the
      cursor, newest first and at most a page of them. A row of the table that does too is in the answer,
      or there is more and it lies farther on in the direction of travel. */
  lemma AnswerExactly(rows: seq<Row>, q: Query, r: Result) returns (n: nat)
    requires Ascending(rows) && r == Answer(rows, q)
    ensures PageSize(q.limit, n) && |r.logs| <= n && (r.hasMore ==> |r.logs| == n)
    ensures forall i, j :: 0 <= i < j < |r.logs| ==> r.logs[i].id > r.logs[j].id
    ensures forall row :: row in r.logs ==> row in rows && Meets(q.filter, row) && Beyond(q, row)
    ensures forall row :: row in rows && Meets(q.filter, row) && Beyond(q, row) && row !in r.logs
              ==> r.hasMore && forall s :: s in r.logs ==> if q.after.Some? then row.id > s.id else row.id < s.id
    ensures r.hasMore ==> exists row :: row in rows && Meets(q.filter, row) && Beyond(q, row) && row !in r.logs
  {
    n := Limit(q.limit);
    PageExactly(rows, q);
    forall row ensures Candidate(rows, q, row) <==> row in rows && Meets(q.filter, row) && Beyond(q, row) {
      CandidateIs(rows, q, row);
    }
  }

  lemma {:induction false} CountedOnce(rows: seq<Row>)
    requires Ascending(rows)
    ensures |set row | row in rows| == |rows|
  {
    if rows != [] {
      var init, last := rows[..|rows| - 1], rows[|rows| - 1];
      CountedOnce(init);
      assert (set row | row in rows) == (set row | row in init) + {last};
      assert last !in init;
    } else {
      assert (set row | row in rows) == {};
    }
  }

  /** Without a cursor the total is the number of rows that meet the conditions, and else it is 0. */
  lemma TotalExactly(rows: seq<Row>, q: Query, r: Result)
    requires Ascending(rows) && r == Answer(rows, q)
    ensures r.total == if q.before.Some? || q.after.Some? then 0 else |set row | row in rows && Meets(q.filter, row)|
  {
    var m := Matching(rows, q.filter);
    MatchingMembers(rows, q.filter);
    CountedOnce(m);
    forall row ensures row in m <==> row in rows && Meets(q.filter, row) { MeetsIsKeeps(q.filter, row); }
    SameRows(m, rows, q.filter);
  }

  lemma SameRows(m: seq<Row>, rows: seq<Row>, f: Filter)
    requires forall row :: row in m <==> row in rows && Meets(f, row)
    ensures (set row | row in m) == set row | row in rows && Meets(f, row)
  {
  }
}
