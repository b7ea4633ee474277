/**
  Vision history by keyset pagination (internal/core/vision/history.go over internal/storage/sqlite/events.go),
  as a refinement of "filter everything, take the first ones".
  */
module History {
  import opened Outcomes
  import opened Text

  /** A stored event. The timestamp is the rank of its stored text, which is what the store compares. */
  datatype Event = Event(ts: int, id: string, occurred: bool, vision: bool, ruleID: string)

  // ----- The order of the store -----

  /** The text order of ids. */
  predicate TextLess(a: string, b: string) {
    if b == "" then false
    else if a == "" then true
    else a[0] < b[0] || (a[0] == b[0] && TextLess(a[1..], b[1..]))
  }

  lemma {:induction false} TextLessTransitive(a: string, b: string, c: string)
    requires TextLess(a, b) && TextLess(b, c)
    ensures TextLess(a, c)
  {
    if a != "" && a[0] == b[0] == c[0] {
      TextLessTransitive(a[1..], b[1..], c[1..]);
    }
  }

  lemma {:induction false} TextLessIrreflexive(a: string)
    ensures !TextLess(a, a)
  {
    if a != "" {
      TextLessIrreflexive(a[1..]);
    }
  }

  /** order by ts desc, id desc: a comes before b. */
  predicate Newer(a: Event, b: Event) {
    a.ts > b.ts || (a.ts == b.ts && TextLess(b.id, a.id))
  }

  lemma NewerIsStrict(a: Event, b: Event)
    requires Newer(a, b)
    ensures !Newer(b, a)
  {
    if Newer(b, a) {
      TextLessTransitive(a.id, b.id, a.id);
      TextLessIrreflexive(a.id);
    }
  }

  /** The table in query order; ids are unique, not blank and without surrounding white space. */
  ghost predicate IsStore(events: seq<Event>) {
    && (forall i, j :: 0 <= i < j < |events| ==> Newer(events[i], events[j]))
    && (forall e :: e in events ==> e.id != "" && Trimmed(e.id))
  }

  // ----- One page -----

  datatype Filter = Filter(fromTS: int, toTS: Option<int>, beforeTS: Option<int>, beforeID: string, limit: int)

  /** The cursor clause: strictly older, or as old with a smaller id; a blank cursor id means strictly older only. */
  predicate BeforeCursor(e: Event, f: Filter) {
    f.beforeTS.None? || e.ts < f.beforeTS.value
    || (TrimSpace(f.beforeID) != "" && e.ts == f.beforeTS.value && TextLess(e.id, TrimSpace(f.beforeID)))
  }

  predicate Selected(e: Event, f: Filter) {
    e.occurred && e.ts >= f.fromTS && (f.toTS.None? || e.ts < f.toTS.value) && BeforeCursor(e, f)
  }

  function Where(events: seq<Event>, p: Event -> bool): seq<Event> {
    if events == [] then []
    else
      var last := events[|events| - 1];
      Where(events[..|events| - 1], p) + (if p(last) then [last] else [])
  }

  function Rows(events: seq<Event>, f: Filter): seq<Event> {
    Where(events, e => Selected(e, f))
  }

  const DEFAULT_PAGE := 100

  function PageSize(f: Filter): nat {
    if f.limit <= 0 then DEFAULT_PAGE else f.limit
  }

  function TakeFirst(events: seq<Event>, n: nat): seq<Event> {
    if |events| <= n then events else events[..n]
  }

  /** ListEvents: the first rows of the filtered table in its order. */
  method ListEvents(events: seq<Event>, f: Filter) returns (page: seq<Event>)
    ensures page == TakeFirst(Rows(events, f), PageSize(f))
  {
    page := [];
    for i := 0 to |events|
      invariant page == TakeFirst(Rows(events[..i], f), PageSize(f))
    {
      assert events[..i + 1][..i] == events[..i];
      if Selected(events[i], f) && |page| < PageSize(f) {
        page := page + [events[i]];
      }
    }
    assert events[..|events|] == events;
  }

  // ----- The history -----

  predicate InHistory(e: Event, ruleID: string) {
    e.occurred && e.vision && (ruleID == "" || TrimSpace(e.ruleID) == ruleID)
  }

  /** What a caller is promised: the first `limit` matching rows of the whole table, newest first. */
  function HistorySpec(events: seq<Event>, f: Filter, ruleID: string, limit: nat): seq<Event> {
    TakeFirst(Where(Rows(events, f), e => InHistory(e, ruleID)), limit)
  }

  const DEFAULT_HISTORY_LIMIT := 12
  const MAX_HISTORY_PAGE := 200

  function HistoryPageSize(limit: nat): nat {
    var wanted := if limit * 4 < 100 then 100 else limit * 4;
    if wanted > MAX_HISTORY_PAGE then MAX_HISTORY_PAGE else wanted
  }

  /** The filter of the next page: after this row. */
  function After(f: Filter, last: Event): Filter {
    f.(beforeTS := Some(last.ts), beforeID := last.id)
  }

  // ----- Facts about filtering -----

  lemma {:induction false} WhereAppend(a: seq<Event>, b: seq<Event>, p: Event -> bool)
    ensures Where(a + b, p) == Where(a, p) + Where(b, p)
  {
    if b == [] {
      assert a + b == a;
    } else {
      assert (a + b)[..|a + b| - 1] == a + b[..|b| - 1];
      WhereAppend(a, b[..|b| - 1], p);
    }
  }

  lemma {:induction false} WhereHolds(s: seq<Event>, p: Event -> bool)
    ensures forall e :: e in Where(s, p) <==> e in s && p(e)
  {
    if s != [] {
      assert s == s[..|s| - 1] + [s[|s| - 1]];
      WhereHolds(s[..|s| - 1], p);
    }
  }

  ghost predicate Descending(s: seq<Event>) {
    forall i, j :: 0 <= i < j < |s| ==> Newer(s[i], s[j])
  }

  lemma {:induction false} WhereKeepsOrder(s: seq<Event>, p: Event -> bool)
    requires Descending(s)
    ensures Descending(Where(s, p))
  {
    if s != [] {
      var front, last := s[..|s| - 1], s[|s| - 1];
      WhereKeepsOrder(front, p);
      WhereHolds(front, p);
      var kept := Where(front, p);
      forall i | 0 <= i < |kept|
        ensures Newer(kept[i], last)
      {
        assert kept[i] in front;
      }
    }
  }

  lemma {:induction false} WhereAll(s: seq<Event>, p: Event -> bool)
    requires forall e :: e in s ==> p(e)
    ensures Where(s, p) == s
  {
    if s != [] {
      WhereAll(s[..|s| - 1], p);
      assert s == s[..|s| - 1] + [s[|s| - 1]];
    }
  }

  lemma {:induction false} WhereNone(s: seq<Event>, p: Event -> bool)
    requires forall e :: e in s ==> !p(e)
    ensures Where(s, p) == []
  {
    if s != [] {
      WhereNone(s[..|s| - 1], p);
    }
  }

  lemma {:induction false} WhereTwice(s: seq<Event>, p: Event -> bool, q: Event -> bool, both: Event -> bool)
    requires forall e :: e in s ==> (both(e) <==> p(e) && q(e))
    ensures Where(s, both) == Where(Where(s, p), q)
  {
    if s != [] {
      var front, last := s[..|s| - 1], s[|s| - 1];
      WhereTwice(front, p, q, both);
      WhereAppend(Where(front, p), if p(last) then [last] else [], q);
      assert [last][..0] == [];
    }
  }

  // ----- The cursor -----

  /** A row is selected after a selected row exactly if it was selected and is older than that row. */
  lemma CursorSelects(f: Filter, last: Event, e: Event)
    requires last.id != "" && Trimmed(last.id) && Selected(last, f)
    ensures Selected(e, After(f, last)) <==> Selected(e, f) && Newer(last, e)
  {
    TrimSpaceTrims(last.id);
    if f.beforeTS.Some? && Newer(last, e) && e.ts == last.ts == f.beforeTS.value {
      TextLessTransitive(e.id, last.id, TrimSpace(f.beforeID));
    }
  }

  /** The rows after a row are the rest of the rows: no skip, no duplicate, equal timestamps included. */
  lemma RowsAfterRow(events: seq<Event>, f: Filter, pos: nat)
    requires IsStore(events) && 0 < pos <= |Rows(events, f)|
    ensures Rows(events, After(f, Rows(events, f)[pos - 1])) == Rows(events, f)[pos..]
  {
    var rows := Rows(events, f);
    var last := rows[pos - 1];
    WhereHolds(events, e => Selected(e, f));
    assert last in rows;
    forall e | e in events
      ensures Selected(e, After(f, last)) <==> Selected(e, f) && Newer(last, e)
    {
      CursorSelects(f, last, e);
    }
    WhereTwice(events, e => Selected(e, f), e => Newer(last, e), e => Selected(e, After(f, last)));
    WhereKeepsOrder(events, e => Selected(e, f));
    OlderRows(rows, pos);
  }

  lemma OlderAndNewer(rows: seq<Event>, pos: nat)
    requires Descending(rows) && 0 < pos <= |rows|
    ensures forall e :: e in rows[..pos] ==> !Newer(rows[pos - 1], e)
    ensures forall e :: e in rows[pos..] ==> Newer(rows[pos - 1], e)
  {
    hide Newer, TextLess;
    var last := rows[pos - 1];
    forall e | e in rows[..pos]
      ensures !Newer(last, e)
    {
      var i :| 0 <= i < pos && rows[i] == e;
      if i < pos - 1 {
        NewerIsStrict(e, last);
      } else {
        NotNewerThanItself(e);
      }
    }
    forall e | e in rows[pos..]
      ensures Newer(last, e)
    {
      var i :| 0 <= i < |rows| - pos && rows[pos..][i] == e;
      assert e == rows[pos + i];
    }
  }

  lemma NotNewerThanItself(e: Event)
    ensures !Newer(e, e)
  {
    TextLessIrreflexive(e.id);
  }

  lemma OlderRows(rows: seq<Event>, pos: nat)
    requires Descending(rows) && 0 < pos <= |rows|
    ensures Where(rows, e => Newer(rows[pos - 1], e)) == rows[pos..]
  {
    var last := rows[pos - 1];
    OlderAndNewer(rows, pos);
    hide Newer, Descending;
    assert rows == rows[..pos] + rows[pos..];
    WhereAppend(rows[..pos], rows[pos..], e => Newer(last, e));
    WhereNone(rows[..pos], e => Newer(last, e));
    WhereAll(rows[pos..], e => Newer(last, e));
  }

  // ----- The loop -----

  /** One page of the loop: keeps the matching rows until there are enough. */
  method KeepMatching(page: seq<Event>, ruleID: string, out0: seq<Event>, limit: nat)
    returns (out: seq<Event>, stop: bool)
    requires |out0| < limit
    ensures out == TakeFirst(out0 + Where(page, e => InHistory(e, ruleID)), limit)
    ensures stop <==> |out| >= limit
  {
    out, stop := out0, false;
    var i := 0;
    while i < |page|
      invariant 0 <= i <= |page| && |out| < limit
      invariant out == out0 + Where(page[..i], e => InHistory(e, ruleID))
    {
      assert page[..i + 1][..i] == page[..i];
      if InHistory(page[i], ruleID) {
        out := out + [page[i]];
        if |out| >= limit {
          stop := true;
          assert page == page[..i + 1] + page[i + 1..];
          WhereAppend(page[..i + 1], page[i + 1..], e => InHistory(e, ruleID));
          return;
        }
      }
      i := i + 1;
    }
    assert page[..|page|] == page;
  }

  /** listHistoryEvents: pages through a store that does not change during the call, and returns exactly the first
      matching events. */
  method ListHistory(events: seq<Event>, ruleID: string, f0: Filter, requested: int) returns (out: seq<Event>)
    requires IsStore(events)
    ensures out == HistorySpec(events, f0, ruleID, if requested <= 0 then DEFAULT_HISTORY_LIMIT else requested)
  {
    hide Where, Selected, TextLess;
    var limit: nat := if requested <= 0 then DEFAULT_HISTORY_LIMIT else requested;
    var f := f0.(limit := HistoryPageSize(limit));
    ghost var rows := Rows(events, f0);
    RowsIgnoreLimit(events, f0, f.limit);
    ghost var pos := 0;
    out := [];
    WhereNone(rows[..0], e => InHistory(e, ruleID));
    assert rows[0..] == rows;
    while |out| < limit
      invariant pos <= |rows| && f.limit == HistoryPageSize(limit) && f.fromTS == f0.fromTS && f.toTS == f0.toTS
      invariant Rows(events, f) == rows[pos..]
      invariant |out| < limit && out == Where(rows[..pos], e => InHistory(e, ruleID))
      decreases |rows| - pos
    {
      var page := ListEvents(events, f);
      if page == [] {
        assert rows[..pos] == rows;
        return;
      }
      ghost var next := pos + |page|;
      assert page == rows[pos..next];
      assert rows[..next] == rows[..pos] + page;
      WhereAppend(rows[..pos], page, e => InHistory(e, ruleID));
      var stop: bool;
      out, stop := KeepMatching(page, ruleID, out, limit);
      assert rows == rows[..next] + rows[next..];
      WhereAppend(rows[..next], rows[next..], e => InHistory(e, ruleID));
      if stop || |page| < f.limit {
        assert !stop ==> rows[..next] == rows;
        return;
      }
      ghost var last := page[|page| - 1];
      RowsAfterRow(events, f0, next);
      SameFilterAfter(events, f0, f, last);
      f := After(f, page[|page| - 1]);
      pos := next;
    }
  }

  lemma {:induction false} RowsIgnoreLimit(events: seq<Event>, f: Filter, limit: int)
    ensures Rows(events, f.(limit := limit)) == Rows(events, f)
  {
    var g := f.(limit := limit);
    forall e | e in events
      ensures Selected(e, g) <==> Selected(e, f)
    {
    }
    WhereCongruent(events, e => Selected(e, g), e => Selected(e, f));
  }

  lemma {:induction false} WhereCongruent(s: seq<Event>, p: Event -> bool, q: Event -> bool)
    requires forall e :: e in s ==> (p(e) <==> q(e))
    ensures Where(s, p) == Where(s, q)
  {
    if s != [] {
      WhereCongruent(s[..|s| - 1], p, q);
    }
  }

  lemma SameFilterAfter(events: seq<Event>, f0: Filter, f: Filter, last: Event)
    requires f.fromTS == f0.fromTS && f.toTS == f0.toTS
    ensures Rows(events, After(f, last)) == Rows(events, After(f0, last))
  {
    WhereCongruent(events, e => Selected(e, After(f, last)), e => Selected(e, After(f0, last)));
  }

  /** What a caller asks for: vision events that occurred, of one rule or all, from one time, before another, and older
      than the cursor. */
  predicate IsAskedFor(e: Event, f: Filter, ruleID: string) {
    && e.occurred && e.vision && (ruleID != "" ==> TrimSpace(e.ruleID) == ruleID)
    && f.fromTS <= e.ts && (f.toTS.Some? ==> e.ts < f.toTS.value)
    && match f.beforeTS
       case None => true
       case Some(ts) =>
         var cursor := TrimSpace(f.beforeID);
         if cursor == "" then e.ts < ts else Newer(Event(ts, cursor, true, true, ""), e)
  }

  lemma AskedForIff(e: Event, f: Filter, ruleID: string)
    ensures Selected(e, f) && InHistory(e, ruleID) <==> IsAskedFor(e, f, ruleID)
  {
    hide TrimSpace, TextLess;
  }

  /** The history is the first events of the table, newest first, that were asked for: all of them if there are no more
      than the limit. */
  lemma HistoryIsWhatWasAskedFor(events: seq<Event>, f: Filter, ruleID: string, limit: nat)
    requires IsStore(events)
    ensures var all := HistorySpec(events, f, ruleID, |events|);
            && Descending(all) && (forall e :: e in all <==> e in events && IsAskedFor(e, f, ruleID))
            && HistorySpec(events, f, ruleID, limit) == if |all| <= limit then all else all[..limit]
  {
    hide Selected, InHistory, IsAskedFor, Where, Newer;
    var rows := Rows(events, f);
    WhereHolds(events, e => Selected(e, f));
    WhereHolds(rows, e => InHistory(e, ruleID));
    WhereKeepsOrder(events, e => Selected(e, f));
    WhereKeepsOrder(rows, e => InHistory(e, ruleID));
    WhereIsNoLonger(events, e => Selected(e, f));
    WhereIsNoLonger(rows, e => InHistory(e, ruleID));
    hide Rows, Descending;
    var all := Where(rows, e => InHistory(e, ruleID));
    assert HistorySpec(events, f, ruleID, |events|) == all;
    forall e
      ensures e in all <==> e in events && IsAskedFor(e, f, ruleID)
    {
      AskedForIff(e, f, ruleID);
    }
  }

  lemma {:induction false} WhereIsNoLonger(s: seq<Event>, p: Event -> bool)
    ensures |Where(s, p)| <= |s|
  {
    if s != [] {
      WhereIsNoLonger(s[..|s| - 1], p);
    }
  }
}
