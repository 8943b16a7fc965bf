/**
 The investigation timeline: owner-scoped, filtered pages, newest first, followed by cursor while
 rows are inserted and pruned between pages.
 */
module Timeline {
  import opened Common

  datatype Event = Event(category: string, processId: Option<nat>, title: string, detail: string, path: string,
                         remoteAddress: string)

  datatype Row = Row(id: nat, owner: string, event: Event)

  /** The rows in insertion order and the last identifier AUTOINCREMENT gave out. */
  datatype Table = Table(rows: seq<Row>, lastId: nat)

  datatype Query = Query(owner: string, category: Option<string>, processId: Option<nat>, search: Option<string>,
                         limit: nat)

  datatype Page = Page(events: seq<Row>, nextBeforeId: Option<nat>)

  /** SQL's LIKE and Rust's trim, left open. */
  datatype Text = Text(like: (string, string) -> bool, trim: string -> string)

  ghost predicate Valid(t: Table) {
    && (forall i, j :: 0 <= i < j < |t.rows| ==> t.rows[i].id < t.rows[j].id)
    && (forall i :: 0 <= i < |t.rows| ==> 0 < t.rows[i].id <= t.lastId)
  }

  /** What any sequence of inserts and prunes does to a table. */
  ghost predicate Evolves(t: Table, u: Table) {
    && Valid(u) && t.lastId <= u.lastId
    && forall r :: r in u.rows ==> r in t.rows || t.lastId < r.id
  }

  class TimelineTable {
    var rows: seq<Row>
    var lastId: nat

    ghost function Snapshot(): Table
      reads this
    {
      Table(rows, lastId)
    }

    constructor ()
      ensures Valid(Snapshot())
    {
      rows, lastId := [], 0;
    }

    method RecordTimeline(owner: string, event: Event) returns (id: nat)
      requires Valid(Snapshot())
      modifies this
      ensures Evolves(old(Snapshot()), Snapshot())
      ensures rows == old(rows) + [Row(id, owner, event)] && id == lastId == old(lastId) + 1
    {
      lastId := lastId + 1;
      id := lastId;
      rows := rows + [Row(id, owner, event)];
    }

    /** Keeps the newest rows; at least one is always retained. */
    method PruneEventHistory(maximum: nat) returns (deleted: nat)
      requires Valid(Snapshot())
      modifies this`rows
      ensures Evolves(old(Snapshot()), Snapshot())
      ensures deleted <= |old(rows)| && rows == old(rows)[deleted..]
      ensures |rows| == if |old(rows)| <= maximum then |old(rows)| else if maximum == 0 then 1 else maximum
    {
      var keep := if maximum < 1 then 1 else maximum;
      deleted := if |rows| <= keep then 0 else |rows| - keep;
      rows := rows[deleted..];
    }
  }

  // ---------- One page ----------

  function Clamp(limit: nat): nat {
    if limit < 1 then 1 else if limit > 500 then 500 else limit
  }

  function SearchFor(text: Text, q: Query): Option<string> {
    match q.search
    case None => None
    case Some(s) => if text.trim(s) == "" then None else Some(text.trim(s))
  }

  predicate Matches(text: Text, q: Query, r: Row) {
    && (r.owner == q.owner || r.owner == "")
    && (q.category.None? || r.event.category == q.category.value)
    && (q.processId.None? || r.event.processId == q.processId)
    && match SearchFor(text, q)
       case None => true
       case Some(s) => text.like(r.event.title, s) || text.like(r.event.detail, s)
                       || text.like(r.event.path, s) || text.like(r.event.remoteAddress, s)
  }

  predicate Selected(text: Text, q: Query, before: Option<nat>, r: Row) {
    Matches(text, q, r) && (before.None? || r.id < before.value)
  }

  /** The selected rows, newest first. */
  function Select(text: Text, rows: seq<Row>, q: Query, before: Option<nat>): seq<Row> {
    if rows == [] then []
    else
      var n := |rows| - 1;
      (if Selected(text, q, before, rows[n]) then [rows[n]] else []) + Select(text, rows[..n], q, before)
  }

  function Take(s: seq<Row>, n: nat): seq<Row> {
    if |s| <= n then s else s[..n]
  }

  /** Fetches one row more than the page holds to learn whether there are more. */
  function GetPage(text: Text, rows: seq<Row>, q: Query, before: Option<nat>): Page {
    var safe := Clamp(q.limit);
    var fetched := Take(Select(text, rows, q, before), safe + 1);
    if |fetched| > safe then Page(fetched[..safe], Some(fetched[safe - 1].id)) else Page(fetched, None)
  }

  /** `ORDER BY id DESC LIMIT count`, scanning from the newest row. */
  method FetchRows(text: Text, rows: seq<Row>, q: Query, before: Option<nat>, count: nat) returns (events: seq<Row>)
    ensures events == Take(Select(text, rows, q, before), count)
  {
    hide Selected;
    assert Select(text, rows[..0], q, before) == [];
    hide Select;
    hide Take;
    events := [];
    var i := |rows|;
    assert rows[..i] == rows;
    ghost var rest := Select(text, rows, q, before);
    while i > 0 && |events| < count
      invariant 0 <= i <= |rows| && |events| <= count
      invariant rest == Select(text, rows[..i], q, before)
      invariant events + rest == Select(text, rows, q, before)
    {
      i := i - 1;
      SelectNext(text, rows, q, before, i);
      rest := Select(text, rows[..i], q, before);
      Join(events, rows[i], rest);
      if Selected(text, q, before, rows[i]) {
        events := events + [rows[i]];
      }
    }
    Fetched(events, rest, count);
  }

  lemma Join(events: seq<Row>, r: Row, rest: seq<Row>)
    ensures events + ([r] + rest) == events + [r] + rest && [] + rest == rest
  {
  }

  lemma Fetched(events: seq<Row>, rest: seq<Row>, count: nat)
    requires |events| == count || (|events| <= count && rest == [])
    ensures Take(events + rest, count) == events
  {
    assert (events + rest)[..|events|] == events;
  }

  lemma SelectNext(text: Text, rows: seq<Row>, q: Query, before: Option<nat>, i: nat)
    requires i < |rows|
    ensures Select(text, rows[..i + 1], q, before) ==
            (if Selected(text, q, before, rows[i]) then [rows[i]] else []) + Select(text, rows[..i], q, before)
  {
    assert rows[..i + 1][..i] == rows[..i];
  }

  /** The query method: one row too many is fetched and then dropped again. */
  method TimelinePage(text: Text, rows: seq<Row>, q: Query, before: Option<nat>) returns (page: Page)
    ensures page == GetPage(text, rows, q, before)
  {
    hide Select;
    var safe := Clamp(q.limit);
    var events := FetchRows(text, rows, q, before, safe + 1);
    var hasMore := |events| > safe;
    if hasMore {
      events := events[..safe];
    }
    page := Page(events, if hasMore then Some(events[|events| - 1].id) else None);
  }

  ghost predicate Descending(s: seq<Row>) {
    forall i, j :: 0 <= i < j < |s| ==> s[i].id > s[j].id
  }

  lemma {:induction false} SelectExact(text: Text, t: Table, q: Query, before: Option<nat>)
    requires Valid(t)
    ensures Descending(Select(text, t.rows, q, before))
    ensures forall r :: r in Select(text, t.rows, q, before) <==> r in t.rows && Selected(text, q, before, r)
    decreases |t.rows|
  {
    hide Selected;
    if t.rows != [] {
      var n := |t.rows| - 1;
      SelectExact(text, Table(t.rows[..n], t.lastId), q, before);
      assert t.rows == t.rows[..n] + [t.rows[n]];
      var rest := Select(text, t.rows[..n], q, before);
      forall j | 0 <= j < |rest| ensures rest[j].id < t.rows[n].id {
        assert rest[j] in t.rows[..n];
      }
    }
  }

  /** A page holds selected rows, newest first; any selected row it leaves out is below its cursor. */
  lemma PageExact(text: Text, t: Table, q: Query, before: Option<nat>)
    requires Valid(t)
    ensures var p := GetPage(text, t.rows, q, before);
            && Descending(p.events) && |p.events| <= Clamp(q.limit)
            && (forall r :: r in p.events ==> r in t.rows && Selected(text, q, before, r))
            && (forall r :: r in t.rows && Selected(text, q, before, r) ==>
                  r in p.events || (p.nextBeforeId.Some? && r.id < p.nextBeforeId.value))
            && (p.nextBeforeId.Some? ==> p.events != [] && p.nextBeforeId.value == p.events[|p.events| - 1].id)
  {
    hide Select, Selected;
    var p, all := GetPage(text, t.rows, q, before), Select(text, t.rows, q, before);
    SelectExact(text, t, q, before);
    PrefixOf(all, |p.events|);
    assert p.events == all[..|p.events|];
  }

  lemma PrefixOf(all: seq<Row>, n: nat)
    requires Descending(all) && n <= |all|
    ensures Descending(all[..n])
    ensures forall r :: r in all[..n] ==> r in all
    ensures forall r :: r in all ==> r in all[..n] || (n > 0 ==> r.id < all[n - 1].id)
  {
    forall r | r in all ensures r in all[..n] || (n > 0 ==> r.id < all[n - 1].id) {
      var i :| 0 <= i < |all| && all[i] == r;
      if i < n { assert all[..n][i] == r; }
    }
  }

  // ---------- A whole walk ----------

  /** The table as each page finds it. */
  type History = nat -> Table

  ghost predicate Legal(h: History) {
    forall i: nat :: Valid(h(i)) && Evolves(h(i), h(i + 1))
  }

  /** The cursor strictly falls, so following it ends. */
  ghost function Walk(text: Text, h: History, q: Query, i: nat, before: nat): seq<Row>
    requires Legal(h)
    decreases before
  {
    var p := GetPage(text, h(i).rows, q, Some(before));
    PageExact(text, h(i), q, Some(before));
    if p.nextBeforeId.None? then p.events
    else
      assert p.events[|p.events| - 1] in p.events;
      p.events + Walk(text, h, q, i + 1, p.nextBeforeId.value)
  }

  /** How many pages that walk reads. */
  ghost function Pages(text: Text, h: History, q: Query, i: nat, before: nat): (n: nat)
    requires Legal(h)
    ensures n >= 1
    decreases before
  {
    var p := GetPage(text, h(i).rows, q, Some(before));
    PageExact(text, h(i), q, Some(before));
    if p.nextBeforeId.None? then 1
    else
      assert p.events[|p.events| - 1] in p.events;
      1 + Pages(text, h, q, i + 1, p.nextBeforeId.value)
  }

  ghost function FullWalk(text: Text, h: History, q: Query): seq<Row>
    requires Legal(h)
  {
    var p := GetPage(text, h(0).rows, q, None);
    if p.nextBeforeId.None? then p.events else p.events + Walk(text, h, q, 1, p.nextBeforeId.value)
  }

  ghost function FullPages(text: Text, h: History, q: Query): nat
    requires Legal(h)
  {
    var p := GetPage(text, h(0).rows, q, None);
    if p.nextBeforeId.None? then 1 else 1 + Pages(text, h, q, 1, p.nextBeforeId.value)
  }

  lemma DescendingJoin(a: seq<Row>, b: seq<Row>, cut: nat)
    requires Descending(a) && Descending(b)
    requires a != [] && a[|a| - 1].id == cut && forall r :: r in b ==> r.id < cut
    ensures Descending(a + b)
  {
    forall j | 0 <= j < |b| ensures b[j].id < cut {
      assert b[j] in b;
    }
  }

  lemma {:induction false} WalkExact(text: Text, h: History, q: Query, i: nat, before: nat)
    requires Legal(h)
    ensures var w := Walk(text, h, q, i, before);
            && Descending(w)
            && (forall r :: r in w ==> r.id < before && Matches(text, q, r))
            && (forall r :: r in w ==> exists j :: i <= j < i + Pages(text, h, q, i, before) && r in h(j).rows)
    decreases before
  {
    hide GetPage, Select, Matches, Evolves, Valid;
    var p := GetPage(text, h(i).rows, q, Some(before));
    PageExact(text, h(i), q, Some(before));
    if p.nextBeforeId.Some? {
      var c := p.nextBeforeId.value;
      assert p.events[|p.events| - 1] in p.events;
      WalkExact(text, h, q, i + 1, c);
      var w := Walk(text, h, q, i + 1, c);
      DescendingJoin(p.events, w, c);
      hide Walk, Descending;
      forall r | r in p.events + w ensures exists j :: i <= j < i + Pages(text, h, q, i, before) && r in h(j).rows {
        if r in p.events {
          assert r in h(i).rows;
        }
      }
    }
  }

  /** A matching row below the cursor that stays for the rest of the walk is returned. */
  lemma {:induction false} WalkComplete(text: Text, h: History, q: Query, i: nat, before: nat, r: Row)
    requires Legal(h) && Matches(text, q, r) && r.id < before
    requires forall j :: i <= j < i + Pages(text, h, q, i, before) ==> r in h(j).rows
    ensures r in Walk(text, h, q, i, before)
    decreases before
  {
    hide GetPage, Select, Matches, Evolves, Valid;
    var p := GetPage(text, h(i).rows, q, Some(before));
    PageExact(text, h(i), q, Some(before));
    assert r in h(i).rows;
    if p.nextBeforeId.Some? && r !in p.events {
      assert p.events[|p.events| - 1] in p.events;
      WalkComplete(text, h, q, i + 1, p.nextBeforeId.value, r);
    }
  }

  lemma {:induction false} OldRows(h: History, j: nat, r: Row)
    requires Legal(h) && r in h(j).rows && r.id <= h(0).lastId
    ensures r in h(0).rows
  {
    if j > 0 {
      LastIdGrows(h, j - 1);
      assert Evolves(h(j - 1), h(j - 1 + 1));
      OldRows(h, j - 1, r);
    }
  }

  lemma {:induction false} LastIdGrows(h: History, j: nat)
    requires Legal(h)
    ensures h(0).lastId <= h(j).lastId
  {
    if j > 0 {
      LastIdGrows(h, j - 1);
      assert Evolves(h(j - 1), h(j - 1 + 1));
    }
  }

  /** Following the cursor to its end while the table changes: strictly decreasing identifiers, so
      no row twice; only matching rows; and nothing inserted after the first page. */
  lemma WalkSound(text: Text, h: History, q: Query)
    requires Legal(h)
    ensures Descending(FullWalk(text, h, q))
    ensures forall r :: r in FullWalk(text, h, q) ==> Matches(text, q, r) && r in h(0).rows
  {
    hide GetPage, Select, Matches, Evolves, Walk, Pages;
    var p := GetPage(text, h(0).rows, q, None);
    PageExact(text, h(0), q, None);
    if p.nextBeforeId.Some? {
      var c := p.nextBeforeId.value;
      var w := Walk(text, h, q, 1, c);
      WalkExact(text, h, q, 1, c);
      DescendingJoin(p.events, w, c);
      assert p.events[|p.events| - 1] in p.events;
      hide Descending;
      forall r | r in w ensures r in h(0).rows {
        var j :| 1 <= j < 1 + Pages(text, h, q, 1, c) && r in h(j).rows;
        OldRows(h, j, r);
      }
    }
  }

  /** Every matching row present throughout the walk is returned; by WalkSound, exactly once. */
  lemma WalkReturns(text: Text, h: History, q: Query, r: Row)
    requires Legal(h) && Matches(text, q, r)
    requires forall j :: 0 <= j < FullPages(text, h, q) ==> r in h(j).rows
    ensures r in FullWalk(text, h, q)
  {
    var p := GetPage(text, h(0).rows, q, None);
    PageExact(text, h(0), q, None);
    assert r in h(0).rows;
    if p.nextBeforeId.Some? && r !in p.events {
      WalkComplete(text, h, q, 1, p.nextBeforeId.value, r);
    }
  }

  lemma {:induction false} SameDescending(a: seq<Row>, b: seq<Row>)
    requires Descending(a) && Descending(b) && forall r :: r in a <==> r in b
    ensures a == b
  {
    assert (a != [] ==> a[0] in b) && (b != [] ==> b[0] in a);
    if a != [] && b != [] {
      assert a[0] == b[0];
      var x, y := a[1..], b[1..];
      forall r ensures r in x <==> r in y {
        assert r in x <==> r in a && r != a[0];
        assert r in y <==> r in b && r != b[0];
      }
      SameDescending(x, y);
    }
  }

  /** With no changes in between, the pages together are the whole filtered list, newest first. */
  lemma StaticWalk(text: Text, t: Table, q: Query)
    requires Valid(t)
    ensures Legal((i: nat) => t)
    ensures FullWalk(text, (i: nat) => t, q) == Select(text, t.rows, q, None)
  {
    var h := (i: nat) => t;
    assert Legal(h);
    WalkSound(text, h, q);
    SelectExact(text, t, q, None);
    var w, s := FullWalk(text, h, q), Select(text, t.rows, q, None);
    forall r | r in s ensures r in w {
      WalkReturns(text, h, q, r);
    }
    SameDescending(w, s);
  }
}
