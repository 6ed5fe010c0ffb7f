/** The SQLite event history: the writer's insertions and pruning, and the web admin's queries. */
module EventStore {
  import opened Basics
  import opened Events
  import opened Timestamps

  datatype Row = Row(id: nat, ts: string, rec: Record)

  predicate Increasing(rows: seq<Row>) {
    forall i, j :: 0 <= i < j < |rows| ==> rows[i].id < rows[j].id
  }

  function Pruned(rows: seq<Row>, cutoff: string): seq<Row> {
    if rows == [] then []
    else Pruned(rows[..|rows| - 1], cutoff)
         + (if TextLess(rows[|rows| - 1].ts, cutoff) then [] else [rows[|rows| - 1]])
  }

  lemma {:induction false} PrunedHolds(rows: seq<Row>, cutoff: string, r: Row)
    ensures r in Pruned(rows, cutoff) <==> r in rows && !TextLess(r.ts, cutoff)
  {
    if rows != [] {
      var rest, last := rows[..|rows| - 1], rows[|rows| - 1];
      PrunedHolds(rest, cutoff, r);
      assert rows == rest + [last];
    }
  }

  lemma {:induction false} PrunedRows(rows: seq<Row>, cutoff: string)
    requires Increasing(rows)
    ensures Increasing(Pruned(rows, cutoff))
    ensures forall r :: r in Pruned(rows, cutoff) <==> r in rows && !TextLess(r.ts, cutoff)
  {
    forall r
      ensures r in Pruned(rows, cutoff) <==> r in rows && !TextLess(r.ts, cutoff)
    {
      PrunedHolds(rows, cutoff, r);
    }
    if rows != [] {
      var rest, last := rows[..|rows| - 1], rows[|rows| - 1];
      PrunedRows(rest, cutoff);
      assert forall r :: r in rest ==> r.id < last.id;
    }
  }

  /** A prune with retention `days` keeps every event inside the window, and an event it keeps is less
      than one second past it. */
  lemma PruneIsExact(rows: seq<Row>, r: Row, event: DateTime, now: DateTime, cutoff: DateTime, days: int)
    requires Increasing(rows) && r in rows
    requires Timestamps.Valid(event) && Timestamps.Valid(now) && Timestamps.Valid(cutoff) && r.ts == Stamp(event)
    requires Micros(cutoff) == Micros(now) - days * MICROS_PER_DAY
    ensures Micros(now) - Micros(event) <= days * MICROS_PER_DAY ==> r in Pruned(rows, Stamp(cutoff))
    ensures r in Pruned(rows, Stamp(cutoff)) ==> Micros(now) - Micros(event) < days * MICROS_PER_DAY + 1_000_000
  {
    PrunedRows(rows, Stamp(cutoff));
    RetentionIsExact(event, now, cutoff, days);
  }

  /** The writer. `rows` is the table inside its transaction and `committed` what a reader sees: a commit
      that fails leaves the change to the next one that works. `inserted` is every record ever inserted,
      pruned or not. */
  class EventStore {
    const retentionDays: int
    var connected: bool
    var rows: seq<Row>
    var committed: seq<Row>
    var nextId: nat
    ghost var inserted: seq<Record>

    ghost predicate Valid()
      reads this
    {
      Increasing(rows) && Increasing(committed) && forall r :: r in rows ==> r.id < nextId
    }

    constructor (retentionDays: int)
      ensures Valid() && connected && rows == committed == [] && inserted == [] && this.retentionDays == retentionDays
    {
      this.retentionDays := retentionDays;
      connected, rows, committed, nextId, inserted := true, [], [], 0, [];
    }

    /** Best effort: the insertion or its commit may fail. */
    method Log(rec: Record, now: DateTime, fails: bool, commitFails: bool)
      requires Valid() && Timestamps.Valid(now)
      modifies this
      ensures Valid() && connected == old(connected)
      ensures if old(connected) && !fails then
                && inserted == old(inserted) + [rec]
                && rows == old(rows) + [Row(old(nextId), Stamp(now), rec)]
                && nextId == old(nextId) + 1
              else inserted == old(inserted) && rows == old(rows) && nextId == old(nextId)
      ensures committed == if old(connected) && !fails && !commitFails then rows else old(committed)
    {
      if !connected {
        return;
      }
      if !fails {
        rows := rows + [Row(nextId, Stamp(now), rec)];
        nextId := nextId + 1;
        inserted := inserted + [rec];
        if !commitFails {
          committed := rows;
        }
      }
    }

    /** Deletes what is older than `cutoff`, the time `retentionDays` before now. */
    method Prune(cutoff: DateTime, fails: bool, commitFails: bool)
      requires Valid() && Timestamps.Valid(cutoff)
      modifies this`rows, this`committed
      ensures Valid()
      ensures rows == if old(connected) && retentionDays != 0 && !fails then Pruned(old(rows), Stamp(cutoff)) else old(rows)
      ensures committed == if old(connected) && retentionDays != 0 && !fails && !commitFails then rows else old(committed)
    {
      if !connected || retentionDays == 0 {
        return;
      }
      if !fails {
        PrunedRows(rows, Stamp(cutoff));
        rows := Pruned(rows, Stamp(cutoff));
        if !commitFails {
          committed := rows;
        }
      }
    }
  }

  // ----- Queries over a snapshot of the table.

  /** The rows that satisfy `filter`, newest first. */
  function Matching(rows: seq<Row>, filter: Row -> bool): seq<Row> {
    if rows == [] then []
    else (if filter(rows[|rows| - 1]) then [rows[|rows| - 1]] else []) + Matching(rows[..|rows| - 1], filter)
  }

  function Recent(rows: seq<Row>, filter: Row -> bool, limit: nat, offset: nat): seq<Row> {
    var hits := Matching(rows, filter);
    Clip(hits[Min(offset, |hits|)..], limit)
  }

  /** `SELECT COUNT(*)`: each row is looked at once, in no particular order. */
  function Count(rows: seq<Row>, filter: Row -> bool): nat {
    if rows == [] then 0 else (if filter(rows[0]) then 1 else 0) + Count(rows[1..], filter)
  }

  function Pages(total: nat, pageSize: nat): nat
    requires 0 < pageSize
  {
    var pages := (total + pageSize - 1) / pageSize;
    if pages < 1 then 1 else pages
  }

  /** The page that history shows for the page number `page`: a number below 1 means page 1. */
  function Page(rows: seq<Row>, filter: Row -> bool, pageSize: nat, page: int): seq<Row>
    requires 0 < pageSize
  {
    var page := if page < 1 then 1 else page;
    Recent(rows, filter, pageSize, (page - 1) * pageSize)
  }

  function FirstPages(rows: seq<Row>, filter: Row -> bool, pageSize: nat, n: nat): seq<Row>
    requires 0 < pageSize
  {
    if n == 0 then [] else FirstPages(rows, filter, pageSize, n - 1) + Page(rows, filter, pageSize, n)
  }

  lemma {:induction false} MatchingRows(rows: seq<Row>, filter: Row -> bool)
    requires Increasing(rows)
    ensures forall r :: r in Matching(rows, filter) <==> r in rows && filter(r)
    ensures forall i, j :: 0 <= i < j < |Matching(rows, filter)| ==> Matching(rows, filter)[i].id > Matching(rows, filter)[j].id
  {
    if rows != [] {
      var rest, last := rows[..|rows| - 1], rows[|rows| - 1];
      MatchingRows(rest, filter);
      assert rows == rest + [last];
      assert forall r :: r in rest ==> r.id < last.id;
    }
  }

  lemma {:induction false} CountAppend(rows: seq<Row>, last: Row, filter: Row -> bool)
    ensures Count(rows + [last], filter) == Count(rows, filter) + (if filter(last) then 1 else 0)
  {
    if rows == [] {
      assert [] + [last] == [last];
    } else {
      assert (rows + [last])[1..] == rows[1..] + [last];
      CountAppend(rows[1..], last, filter);
    }
  }

  lemma {:induction false} CountIsLength(rows: seq<Row>, filter: Row -> bool)
    ensures Count(rows, filter) == |Matching(rows, filter)|
  {
    if rows != [] {
      CountIsLength(rows[..|rows| - 1], filter);
      CountAppend(rows[..|rows| - 1], rows[|rows| - 1], filter);
      assert rows == rows[..|rows| - 1] + [rows[|rows| - 1]];
    }
  }

  lemma NextPage<T>(s: seq<T>, shown: nat, pageSize: nat)
    ensures Clip(s, shown) + Clip(s[Min(shown, |s|)..], pageSize) == Clip(s, shown + pageSize)
  {
  }

  lemma {:induction false} FirstPagesPrefix(rows: seq<Row>, filter: Row -> bool, pageSize: nat, n: nat)
    requires 0 < pageSize
    ensures FirstPages(rows, filter, pageSize, n) == Clip(Matching(rows, filter), n * pageSize)
  {
    if n > 0 {
      FirstPagesPrefix(rows, filter, pageSize, n - 1);
      assert n * pageSize == (n - 1) * pageSize + pageSize;
      NextPage(Matching(rows, filter), (n - 1) * pageSize, pageSize);
    }
  }

  /** Reading the history page by page shows every matching event exactly once, newest first, and
      nothing after the last page. */
  lemma PagesPartition(rows: seq<Row>, filter: Row -> bool, pageSize: nat)
    requires 0 < pageSize && Increasing(rows)
    ensures var shown := FirstPages(rows, filter, pageSize, Pages(Count(rows, filter), pageSize));
            && |shown| == Count(rows, filter)
            && (forall r :: r in shown <==> r in rows && filter(r))
            && (forall i, j :: 0 <= i < j < |shown| ==> shown[i].id > shown[j].id)
    ensures Pages(Count(rows, filter), pageSize) >= 1
    ensures forall page :: 1 <= page < Pages(Count(rows, filter), pageSize) ==> |Page(rows, filter, pageSize, page)| == pageSize
    ensures Page(rows, filter, pageSize, Pages(Count(rows, filter), pageSize)) == [] ==> Count(rows, filter) == 0
    ensures forall page :: page > Pages(Count(rows, filter), pageSize) ==> Page(rows, filter, pageSize, page) == []
  {
    var total := Count(rows, filter);
    var pages := Pages(total, pageSize);
    CountIsLength(rows, filter);
    MatchingRows(rows, filter);
    FirstPagesPrefix(rows, filter, pageSize, pages);
    EnoughPages(total, pageSize);
    assert FirstPages(rows, filter, pageSize, pages) == Matching(rows, filter);
    forall page | 1 <= page < pages
      ensures |Page(rows, filter, pageSize, page)| == pageSize
    {
      PageSizes(rows, filter, pageSize, page);
    }
    PageSizes(rows, filter, pageSize, pages);
    forall page | page > pages
      ensures Page(rows, filter, pageSize, page) == []
    {
      PastTheEnd(rows, filter, pageSize, page);
    }
  }

  /** What `limit` and `offset` cut out of the matching rows. */
  lemma RecentSize(rows: seq<Row>, filter: Row -> bool, limit: nat, offset: nat)
    ensures |Recent(rows, filter, limit, offset)| == Min(limit, if offset < Count(rows, filter) then Count(rows, filter) - offset else 0)
  {
    CountIsLength(rows, filter);
  }

  lemma PageStart(total: nat, pageSize: nat, page: int) returns (offset: nat)
    requires 0 < pageSize && 1 <= page <= Pages(total, pageSize)
    ensures offset == (page - 1) * pageSize && (page < Pages(total, pageSize) ==> offset + pageSize <= total)
    ensures total > 0 ==> offset < total
  {
    var pages := Pages(total, pageSize);
    NoEmptyPage(total, pageSize);
    Scale(0, page - 1, pageSize);
    Scale(page - 1, pages - 1, pageSize);
    offset := (page - 1) * pageSize;
    if page < pages {
      Scale(page, pages - 1, pageSize);
      assert offset + pageSize == page * pageSize;
    }
  }

  /** Every page before the last is full, and the last shows something unless there is nothing to show. */
  lemma PageSizes(rows: seq<Row>, filter: Row -> bool, pageSize: nat, page: int)
    requires 0 < pageSize && 1 <= page <= Pages(Count(rows, filter), pageSize)
    ensures page < Pages(Count(rows, filter), pageSize) ==> |Page(rows, filter, pageSize, page)| == pageSize
    ensures Page(rows, filter, pageSize, page) == [] ==> Count(rows, filter) == 0
  {
    var offset := PageStart(Count(rows, filter), pageSize, page);
    RecentSize(rows, filter, pageSize, offset);
    assert Page(rows, filter, pageSize, page) == Recent(rows, filter, pageSize, offset);
  }

  lemma PastTheEnd(rows: seq<Row>, filter: Row -> bool, pageSize: nat, page: int)
    requires 0 < pageSize && page > Pages(Count(rows, filter), pageSize)
    ensures Page(rows, filter, pageSize, page) == []
  {
    var total := Count(rows, filter);
    CountIsLength(rows, filter);
    EnoughPages(total, pageSize);
    Scale(Pages(total, pageSize), page - 1, pageSize);
  }

  lemma EnoughPages(total: nat, pageSize: nat)
    requires 0 < pageSize
    ensures Pages(total, pageSize) * pageSize >= total
  {
    var q, r := (total + pageSize - 1) / pageSize, (total + pageSize - 1) % pageSize;
    assert q * pageSize + r == total + pageSize - 1;
  }

  /** The last page begins before the end, unless there is nothing to show. */
  lemma NoEmptyPage(total: nat, pageSize: nat)
    requires 0 < pageSize
    ensures total > 0 ==> (Pages(total, pageSize) - 1) * pageSize < total
    ensures total == 0 ==> Pages(total, pageSize) == 1
  {
    var q, r := (total + pageSize - 1) / pageSize, (total + pageSize - 1) % pageSize;
    assert q * pageSize + r == total + pageSize - 1 && (q - 1) * pageSize == q * pageSize - pageSize;
  }

  lemma Scale(a: int, b: int, c: nat)
    requires a <= b
    ensures a * c <= b * c
  {
  }

  // ----- The denied UIDs offered for enrollment.

  datatype Unknown = Unknown(uid: string, ts: string, hits: nat)

  predicate IsDenial(r: Row) {
    r.rec.kind == ACCESS_DENIED && r.rec.uid.Some?
  }

  predicate AllDenials(rows: seq<Row>) {
    forall i :: 0 <= i < |rows| ==> IsDenial(rows[i])
  }

  predicate DeniedAs(r: Row, uid: string) {
    r.rec.kind == ACCESS_DENIED && r.rec.uid == Some(uid)
  }

  /** The denials of `uid` in the table. */
  function Hits(rows: seq<Row>, uid: string): nat {
    if rows == [] then 0 else (if DeniedAs(rows[0], uid) then 1 else 0) + Hits(rows[1..], uid)
  }

  function Others(denials: seq<Row>, uid: string): (r: seq<Row>)
    ensures |r| <= |denials|
  {
    if denials == [] then []
    else (if DeniedAs(denials[0], uid) then [] else [denials[0]]) + Others(denials[1..], uid)
  }

  /** `MAX(ts)` over the denials of `uid`. */
  function LatestStamp(denials: seq<Row>, uid: string): string {
    if denials == [] then ""
    else
      var rest := LatestStamp(denials[1..], uid);
      if DeniedAs(denials[0], uid) && TextLess(rest, denials[0].ts) then denials[0].ts else rest
  }

  /** One entry for each UID among `denials`, which are newest first, in the order of its newest row. */
  function Groups(denials: seq<Row>): seq<Unknown>
    requires AllDenials(denials)
    decreases |denials|
  {
    if denials == [] then []
    else
      var uid := denials[0].rec.uid.value;
      OthersRows(denials[1..], uid);
      [Unknown(uid, LatestStamp(denials, uid), Hits(denials, uid))] + Groups(Others(denials[1..], uid))
  }

  function UnknownUids(rows: seq<Row>, limit: nat): seq<Unknown>
    requires Increasing(rows)
  {
    MatchingRows(rows, IsDenial);
    Clip(Groups(Matching(rows, IsDenial)), limit)
  }

  predicate Decreasing(rows: seq<Row>) {
    forall i, j :: 0 <= i < j < |rows| ==> rows[i].id > rows[j].id
  }

  lemma {:induction false} OthersRows(denials: seq<Row>, uid: string)
    ensures forall r :: r in Others(denials, uid) <==> r in denials && !DeniedAs(r, uid)
    ensures AllDenials(denials) ==> AllDenials(Others(denials, uid))
  {
    if denials != [] {
      OthersRows(denials[1..], uid);
      assert denials == [denials[0]] + denials[1..];
      assert forall r :: r in denials <==> r == denials[0] || r in denials[1..];
    }
  }

  lemma {:induction false} OthersDecreasing(denials: seq<Row>, uid: string)
    requires Decreasing(denials)
    ensures Decreasing(Others(denials, uid))
  {
    if denials != [] {
      OthersDecreasing(denials[1..], uid);
      OthersRows(denials[1..], uid);
      assert forall r :: r in denials[1..] ==> r.id < denials[0].id;
    }
  }

  lemma {:induction false} OthersHits(denials: seq<Row>, uid: string, other: string)
    ensures |Others(denials, uid)| + Hits(denials, uid) == |denials|
    ensures other != uid ==> Hits(Others(denials, uid), other) == Hits(denials, other)
    ensures other != uid ==> LatestStamp(Others(denials, uid), other) == LatestStamp(denials, other)
  {
    if denials != [] {
      var rest := Others(denials[1..], uid);
      OthersHits(denials[1..], uid, other);
      if DeniedAs(denials[0], uid) {
        assert Others(denials, uid) == rest;
      } else {
        assert ([denials[0]] + rest)[1..] == rest;
      }
    }
  }

  function TotalHits(groups: seq<Unknown>): nat {
    if groups == [] then 0 else groups[0].hits + TotalHits(groups[1..])
  }

  /** Every denial of `later` is older than some denial of `earlier`. */
  ghost predicate DeniedAfter(rows: seq<Row>, earlier: string, later: string) {
    forall r :: r in rows && DeniedAs(r, later) ==> exists q :: q in rows && DeniedAs(q, earlier) && q.id > r.id
  }

  ghost predicate Listed(groups: seq<Unknown>, uid: string) {
    exists i :: 0 <= i < |groups| && groups[i].uid == uid
  }

  ghost predicate Denied(rows: seq<Row>, uid: string) {
    exists r :: r in rows && DeniedAs(r, uid)
  }

  lemma GroupsStep(denials: seq<Row>) returns (uid: string, others: seq<Row>)
    requires denials != [] && AllDenials(denials)
    ensures DeniedAs(denials[0], uid) && AllDenials(others) && |others| < |denials|
    ensures Groups(denials) == [Unknown(uid, LatestStamp(denials, uid), Hits(denials, uid))] + Groups(others)
    ensures others == Others(denials[1..], uid)
    ensures forall r :: r in others <==> r in denials && !DeniedAs(r, uid)
  {
    uid := denials[0].rec.uid.value;
    others := Others(denials[1..], uid);
    OthersRows(denials[1..], uid);
    assert forall r :: r in denials <==> r == denials[0] || r in denials[1..];
  }

  lemma {:induction false} GroupsListed(denials: seq<Row>, u: string)
    requires AllDenials(denials)
    ensures Listed(Groups(denials), u) <==> Denied(denials, u)
    decreases |denials|
  {
    if denials != [] {
      var uid, others := GroupsStep(denials);
      var groups, rest := Groups(denials), Groups(others);
      GroupsListed(others, u);
      if u == uid {
        assert groups[0].uid == u && denials[0] in denials;
      } else {
        assert forall i :: 0 < i < |groups| ==> groups[i] == rest[i - 1];
        if Listed(rest, u) {
          var i :| 0 <= i < |rest| && rest[i].uid == u;
          assert groups[i + 1].uid == u;
        }
        assert Denied(others, u) <==> Denied(denials, u);
      }
    }
  }

  /** Each group counts and dates the denials of its UID. */
  ghost predicate Summarizes(denials: seq<Row>, g: Unknown) {
    g.hits == Hits(denials, g.uid) && g.ts == LatestStamp(denials, g.uid)
  }

  lemma {:induction false} GroupsHits(denials: seq<Row>)
    requires AllDenials(denials)
    ensures forall i :: 0 <= i < |Groups(denials)| ==> Summarizes(denials, Groups(denials)[i])
    ensures TotalHits(Groups(denials)) == |denials|
    decreases |denials|
  {
    if denials != [] {
      var uid, others := GroupsStep(denials);
      var groups, rest := Groups(denials), Groups(others);
      GroupsHits(others);
      OthersHits(denials[1..], uid, uid);
      assert groups[1..] == rest;
      forall i | 0 < i < |groups|
        ensures Summarizes(denials, groups[i])
      {
        var u := rest[i - 1].uid;
        assert Summarizes(others, rest[i - 1]) && groups[i] == rest[i - 1];
        GroupsListed(others, u);
        assert Listed(rest, u);
        OthersHits(denials[1..], uid, u);
      }
    }
  }

  /** The groups are for different UIDs, the most recently denied first. */
  ghost predicate InOrder(denials: seq<Row>, groups: seq<Unknown>) {
    forall i, j :: 0 <= i < j < |groups| ==>
      groups[i].uid != groups[j].uid && DeniedAfter(denials, groups[i].uid, groups[j].uid)
  }

  /** The newest denial goes first: the other groups are of denials of other UIDs that came before it. */
  lemma InOrderCons(denials: seq<Row>, others: seq<Row>, first: Unknown, rest: seq<Unknown>)
    requires denials != [] && Decreasing(denials) && DeniedAs(denials[0], first.uid)
    requires forall r :: r in others <==> r in denials && !DeniedAs(r, first.uid)
    requires InOrder(others, rest) && forall j :: 0 <= j < |rest| ==> Denied(others, rest[j].uid)
    ensures InOrder(denials, [first] + rest)
  {
    var groups := [first] + rest;
    forall i, j | 0 <= i < j < |groups|
      ensures groups[i].uid != groups[j].uid && DeniedAfter(denials, groups[i].uid, groups[j].uid)
    {
      var later := rest[j - 1].uid;
      assert Denied(others, later) && groups[j].uid == later;
      if i == 0 {
        assert denials[0] in denials;
      } else {
        assert DeniedAfter(others, rest[i - 1].uid, later);
        DeniedAfterGrows(others, denials, rest[i - 1].uid, later);
      }
    }
  }

  lemma {:induction false} GroupsOrder(denials: seq<Row>)
    requires AllDenials(denials) && Decreasing(denials)
    ensures InOrder(denials, Groups(denials))
    decreases |denials|
  {
    if denials != [] {
      var uid, others := GroupsStep(denials);
      var rest := Groups(others);
      OthersDecreasing(denials[1..], uid);
      GroupsOrder(others);
      forall j | 0 <= j < |rest|
        ensures Denied(others, rest[j].uid)
      {
        GroupsListed(others, rest[j].uid);
        assert Listed(rest, rest[j].uid);
      }
      InOrderCons(denials, others, Groups(denials)[0], rest);
    }
  }

  lemma DeniedAfterGrows(others: seq<Row>, denials: seq<Row>, earlier: string, later: string)
    requires DeniedAfter(others, earlier, later)
    requires forall r :: r in denials && DeniedAs(r, later) ==> r in others
    requires forall r :: r in others ==> r in denials
    ensures DeniedAfter(denials, earlier, later)
  {
  }

  /** `ts` is the greatest timestamp among the denials of `uid`. */
  ghost predicate IsLatest(rows: seq<Row>, uid: string, ts: string) {
    && (exists r :: r in rows && DeniedAs(r, uid) && r.ts == ts)
    && forall r :: r in rows && DeniedAs(r, uid) ==> !TextLess(ts, r.ts)
  }

  lemma {:induction false} TextTransitive(a: string, b: string, c: string)
    requires TextLess(a, b) && TextLess(b, c)
    ensures TextLess(a, c)
  {
    if a != "" && a[0] == b[0] && b[0] == c[0] {
      TextTransitive(a[1..], b[1..], c[1..]);
    }
  }

  lemma {:induction false} LatestStampIsLatest(denials: seq<Row>, uid: string)
    ensures if Denied(denials, uid) then IsLatest(denials, uid, LatestStamp(denials, uid)) else LatestStamp(denials, uid) == ""
  {
    if denials != [] {
      var first, rest := denials[0], denials[1..];
      var before, latest := LatestStamp(rest, uid), LatestStamp(denials, uid);
      LatestStampIsLatest(rest, uid);
      assert forall r :: r in denials <==> r == first || r in rest;
      if DeniedAs(first, uid) {
        TextIrreflexive(first.ts);
        forall r | r in denials && DeniedAs(r, uid)
          ensures !TextLess(latest, r.ts)
        {
          if r in rest && latest == first.ts && TextLess(latest, r.ts) {
            TextTransitive(before, first.ts, r.ts);
          }
        }
      } else {
        assert Denied(denials, uid) <==> Denied(rest, uid);
      }
    }
  }

  lemma {:induction false} HitsAppend(rows: seq<Row>, more: seq<Row>, uid: string)
    ensures Hits(rows + more, uid) == Hits(rows, uid) + Hits(more, uid)
  {
    if rows == [] {
      assert [] + more == more;
    } else {
      assert (rows + more)[1..] == rows[1..] + more;
      HitsAppend(rows[1..], more, uid);
    }
  }

  lemma {:induction false} HitsOfDenials(rows: seq<Row>, uid: string)
    ensures Hits(Matching(rows, IsDenial), uid) == Hits(rows, uid)
  {
    if rows != [] {
      var rest, last := rows[..|rows| - 1], rows[|rows| - 1];
      HitsOfDenials(rest, uid);
      assert rows == rest + [last];
      HitsAppend(rest, [last], uid);
      HitsAppend(if IsDenial(last) then [last] else [], Matching(rest, IsDenial), uid);
    }
  }

  function DeniedUids(rows: seq<Row>): set<string> {
    set r | r in rows && IsDenial(r) :: r.rec.uid.value
  }

  function Uids(groups: seq<Unknown>): set<string> {
    if groups == [] then {} else {groups[0].uid} + Uids(groups[1..])
  }

  lemma {:induction false} ListedUids(groups: seq<Unknown>, uid: string)
    ensures Listed(groups, uid) <==> uid in Uids(groups)
  {
    if groups != [] {
      var rest := groups[1..];
      ListedUids(rest, uid);
      assert forall i :: 0 < i < |groups| ==> groups[i] == rest[i - 1];
      if i :| 0 <= i < |rest| && rest[i].uid == uid {
        assert groups[i + 1].uid == uid;
      }
    }
  }

  lemma {:induction false} DistinctUids(groups: seq<Unknown>)
    requires forall i, j :: 0 <= i < j < |groups| ==> groups[i].uid != groups[j].uid
    ensures |Uids(groups)| == |groups|
  {
    if groups != [] {
      DistinctUids(groups[1..]);
      ListedUids(groups[1..], groups[0].uid);
    }
  }

  lemma {:induction false} TotalHitsSplit(groups: seq<Unknown>, n: nat)
    requires n <= |groups|
    ensures TotalHits(groups) == TotalHits(groups[..n]) + TotalHits(groups[n..])
  {
    if n > 0 {
      assert groups[..n][1..] == groups[1..][..n - 1] && groups[n..] == groups[1..][n - 1..];
      TotalHitsSplit(groups[1..], n - 1);
    } else {
      assert groups[0..] == groups;
    }
  }

  lemma {:induction false} DeniedHits(rows: seq<Row>, uid: string)
    ensures Hits(rows, uid) > 0 <==> Denied(rows, uid)
  {
    if rows != [] {
      DeniedHits(rows[1..], uid);
      assert rows == [rows[0]] + rows[1..];
      assert forall r :: r in rows <==> r == rows[0] || r in rows[1..];
    }
  }

  /** An entry is for a denied UID and tells the number and the latest timestamp of its denials. */
  ghost predicate EntryOf(rows: seq<Row>, g: Unknown) {
    g.uid in DeniedUids(rows) && g.hits > 0 && g.hits == Hits(rows, g.uid) && IsLatest(rows, g.uid, g.ts)
  }

  /** `groups` is the whole list of denied UIDs. */
  ghost predicate WholeList(rows: seq<Row>, groups: seq<Unknown>) {
    && (forall uid :: Listed(groups, uid) <==> uid in DeniedUids(rows))
    && (forall i :: 0 <= i < |groups| ==> EntryOf(rows, groups[i]))
    && InOrder(rows, groups) && TotalHits(groups) == Count(rows, IsDenial)
  }

  lemma AllGroups(rows: seq<Row>) returns (groups: seq<Unknown>)
    requires Increasing(rows)
    ensures forall limit: nat :: UnknownUids(rows, limit) == Clip(groups, limit)
    ensures WholeList(rows, groups)
  {
    var denials := Matching(rows, IsDenial);
    MatchingRows(rows, IsDenial);
    GroupsHits(denials);
    GroupsOrder(denials);
    CountIsLength(rows, IsDenial);
    groups := Groups(denials);
    forall uid
      ensures Listed(groups, uid) <==> uid in DeniedUids(rows)
    {
      GroupsListed(denials, uid);
    }
    forall i | 0 <= i < |groups|
      ensures EntryOf(rows, groups[i])
    {
      HitsOfDenials(rows, groups[i].uid);
      assert Listed(groups, groups[i].uid) && Summarizes(denials, groups[i]);
      LatestStampIsLatest(denials, groups[i].uid);
      GroupsListed(denials, groups[i].uid);
      DeniedHits(denials, groups[i].uid);
    }
    forall i, j | 0 <= i < j < |groups|
      ensures DeniedAfter(rows, groups[i].uid, groups[j].uid)
    {
      DeniedAfterGrows(denials, rows, groups[i].uid, groups[j].uid);
    }
  }

  lemma WholeListSize(rows: seq<Row>, groups: seq<Unknown>)
    requires InOrder(rows, groups) && forall uid :: Listed(groups, uid) <==> uid in DeniedUids(rows)
    ensures |groups| == |DeniedUids(rows)|
  {
    DistinctUids(groups);
    forall uid
      ensures uid in Uids(groups) <==> uid in DeniedUids(rows)
    {
      ListedUids(groups, uid);
    }
    assert Uids(groups) == DeniedUids(rows);
  }

  lemma LastDeniedFirst(rows: seq<Row>, groups: seq<Unknown>, limit: nat, uid: string, i: nat)
    requires InOrder(rows, groups) && limit <= |groups| && i < limit
    requires Listed(groups, uid) && !Listed(groups[..limit], uid)
    ensures DeniedAfter(rows, groups[i].uid, uid)
  {
    var j :| 0 <= j < |groups| && groups[j].uid == uid;
    if j < limit {
      ListedAt(groups, limit, j);
      assert false;
    }
  }

  lemma ListedAt(groups: seq<Unknown>, limit: nat, j: nat)
    requires j < limit <= |groups|
    ensures Listed(groups[..limit], groups[j].uid)
  {
    assert groups[..limit][j] == groups[j];
  }

  /** Every denied UID is listed. */
  ghost predicate Complete(rows: seq<Row>, list: seq<Unknown>) {
    forall uid :: uid in DeniedUids(rows) ==> Listed(list, uid)
  }

  /** Every denied UID that is not listed was denied last before every listed one. */
  ghost predicate ListsLatest(rows: seq<Row>, list: seq<Unknown>) {
    forall uid, i :: uid in DeniedUids(rows) && !Listed(list, uid) && 0 <= i < |list| ==> DeniedAfter(rows, list[i].uid, uid)
  }

  lemma CutListMisses(rows: seq<Row>, groups: seq<Unknown>, limit: nat)
    requires WholeList(rows, groups) && limit < |groups|
    ensures !Complete(rows, groups[..limit]) && TotalHits(groups[..limit]) < Count(rows, IsDenial)
  {
    assert EntryOf(rows, groups[limit]) && !Listed(groups[..limit], groups[limit].uid);
    TotalHitsSplit(groups, limit);
    assert groups[limit..][0] == groups[limit];
  }

  lemma CutListIsLatest(rows: seq<Row>, groups: seq<Unknown>, limit: nat)
    requires WholeList(rows, groups) && limit < |groups|
    ensures ListsLatest(rows, groups[..limit]) && InOrder(rows, groups[..limit])
  {
    forall uid, i | uid in DeniedUids(rows) && !Listed(groups[..limit], uid) && 0 <= i < limit
      ensures DeniedAfter(rows, groups[..limit][i].uid, uid)
    {
      LastDeniedFirst(rows, groups, limit, uid, i);
    }
  }

  lemma WholeListIsComplete(rows: seq<Row>, groups: seq<Unknown>)
    requires WholeList(rows, groups)
    ensures Complete(rows, groups) && ListsLatest(rows, groups)
  {
  }

  /** The list offered for enrollment, for every limit: it holds as many of the denied UIDs as fit, each
      once, those denied last, the most recently denied first, each with the number and the latest
      timestamp of its denials in the log. It holds them all, and their hits are all denials, if and
      only if the limit allows as many UIDs as were denied. */
  lemma UnknownUidsRefineLog(rows: seq<Row>, limit: nat)
    requires Increasing(rows)
    ensures var list, denied := UnknownUids(rows, limit), DeniedUids(rows);
            && |list| == Min(limit, |denied|) && InOrder(rows, list) && ListsLatest(rows, list)
            && (forall i :: 0 <= i < |list| ==> EntryOf(rows, list[i]))
            && (Complete(rows, list) <==> |denied| <= limit)
            && (TotalHits(list) == Count(rows, IsDenial) <==> |denied| <= limit)
  {
    var groups := AllGroups(rows);
    WholeListSize(rows, groups);
    if |groups| <= limit {
      assert UnknownUids(rows, limit) == groups;
      WholeListIsComplete(rows, groups);
    } else {
      assert UnknownUids(rows, limit) == groups[..limit];
      CutListMisses(rows, groups, limit);
      CutListIsLatest(rows, groups, limit);
    }
  }

  /** A smaller limit shows the beginning of the longer list. */
  lemma SmallerLimitIsPrefix(rows: seq<Row>, limit: nat, larger: nat)
    requires Increasing(rows) && limit <= larger
    ensures UnknownUids(rows, limit) <= UnknownUids(rows, larger)
  {
    assert forall s: seq<Unknown> :: Clip(s, limit) <= Clip(s, larger);
  }
}
