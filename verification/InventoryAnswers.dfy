/** What inventory pages, cursors and summaries answer, in terms of the request and the assets. */
module InventoryAnswers {
  import opened Common
  import opened Inventory

  // ---------------------------------------------------------------------
  // Pages and cursors
  // ---------------------------------------------------------------------

  /** The position in a selection that a cursor claims: so many items, ending with this one. */
  ghost predicate Reads(selected: seq<Asset>, offset: int, last: Option<ProductId>) {
    && 0 <= offset <= |selected|
    && (last.None? <==> offset == 0) && (last.Some? ==> last.value == selected[offset - 1].id)
  }

  /** The cursor was issued for this query and position and is in time. */
  ghost predicate Honoured(selected: seq<Asset>, q: Query, c: Cursor, checked: int) {
    && c.Token? && c.issuedAt <= c.expiresAt && checked < c.expiresAt
    && c.binding == q.binding && c.pageSize == q.pageSize && Reads(selected, c.offset, c.last)
  }

  ghost predicate Bound(q: Query) {
    q.binding.configuration == CONFIGURATION && q.binding.revision == REVISION
  }

  /** A page is given exactly when the query names the current configuration and
      revision and has no cursor or one that is in time and bound to this query
      and a position of its selection. It starts there, is as long as asked for
      unless the selection ends, and has a cursor exactly when more follows. */
  lemma PageAnswers(assets: seq<Asset>, q: Query, t: Reading)
    ensures var selected, r := Selected(assets, q.binding), PageSpec(assets, q, t);
      && (r.Ok? <==> Bound(q) && (q.cursor.Some? ==> Honoured(selected, q, q.cursor.value, t.checked)))
      && (r == Err(ConfigurationMismatch) <==> q.binding.configuration != CONFIGURATION)
      && (r == Err(InvalidOperation) <==>
            q.binding.configuration == CONFIGURATION && q.binding.revision != REVISION)
      && (r == Err(CursorStale) <==>
            && Bound(q) && q.cursor.Some? && q.cursor.value.Token?
            && q.cursor.value.issuedAt <= q.cursor.value.expiresAt <= t.checked)
      && (r.Err? ==> r.error in {ConfigurationMismatch, InvalidOperation, CursorStale, CursorInvalid})
      && (r.Ok? ==>
            var start := if q.cursor.None? then 0 else q.cursor.value.offset;
            var n := |r.value.items|;
            && r.value.query == q && start + n <= |selected| && n <= q.pageSize
            && (forall i :: 0 <= i < n ==> r.value.items[i] == selected[start + i])
            && (n < q.pageSize ==> start + n == |selected|)
            && (r.value.next.None? <==> start + n == |selected|))
  {
    hide Selected;
  }

  ghost predicate IsSlice(part: seq<Asset>, whole: seq<Asset>, start: int) {
    0 <= start <= start + |part| <= |whole| && part == whole[start..start + |part|]
  }

  function StartOf(q: Query): int {
    if q.cursor.Some? && q.cursor.value.Token? then q.cursor.value.offset else 0
  }

  /** The cursor of a page is honoured for exactly the same query, for 300 seconds,
      and continues where the page ended; a page with a cursor is never empty. */
  lemma IssuedCursorIsHonouredIff(assets: seq<Asset>, q: Query, t: Reading, again: Query, later: Reading)
    requires PageSpec(assets, q, t).Ok? && PageSpec(assets, q, t).value.next.Some?
    requires again.cursor == PageSpec(assets, q, t).value.next
    ensures var page, r := PageSpec(assets, q, t).value, PageSpec(assets, again, later);
      && (r.Ok? <==> again.binding == q.binding && again.pageSize == q.pageSize && later.checked < t.issued + 300)
      && (Bound(again) && t.issued + 300 <= later.checked ==> r == Err(CursorStale))
      && (Bound(again) && later.checked < t.issued + 300 && r.Err? ==> r == Err(CursorInvalid))
      && (r.Ok? ==>
            && 0 < |page.items| == q.pageSize && 0 < |r.value.items|
            && IsSlice(page.items + r.value.items, Selected(assets, q.binding), StartOf(q)))
  {
    IssuedToken(assets, q, t);
    PageAnswers(assets, again, later);
    PageIsSlice(assets, q, t);
    hide Selected, PageSpec, IsSlice;
    if PageSpec(assets, again, later).Ok? {
      PageIsSlice(assets, again, later);
      SlicesJoin(PageSpec(assets, q, t).value.items, PageSpec(assets, again, later).value.items,
                 Selected(assets, q.binding), StartOf(q));
    }
  }

  lemma PageIsSlice(assets: seq<Asset>, q: Query, t: Reading)
    requires PageSpec(assets, q, t).Ok?
    ensures var page, selected := PageSpec(assets, q, t).value, Selected(assets, q.binding);
      && IsSlice(page.items, selected, StartOf(q))
      && (page.next.Some? ==> |page.items| == q.pageSize && StartOf(q) + |page.items| < |selected|)
      && (StartOf(q) < |selected| ==> page.items != [])
  {
    hide Selected;
  }

  lemma SlicesJoin(a: seq<Asset>, b: seq<Asset>, whole: seq<Asset>, start: int)
    requires IsSlice(a, whole, start) && IsSlice(b, whole, start + |a|)
    ensures IsSlice(a + b, whole, start)
  {
  }

  lemma IssuedToken(assets: seq<Asset>, q: Query, t: Reading)
    requires PageSpec(assets, q, t).Ok? && PageSpec(assets, q, t).value.next.Some?
    ensures var c, end := PageSpec(assets, q, t).value.next.value, StartOf(q) + |PageSpec(assets, q, t).value.items|;
      && c.Token? && c.binding == q.binding && c.pageSize == q.pageSize && c.offset == end
      && c.issuedAt == t.issued && c.expiresAt == t.issued + 300 && Reads(Selected(assets, q.binding), end, c.last)
  {
    hide Selected;
  }

  // ---------------------------------------------------------------------
  // Verdicts and samples
  // ---------------------------------------------------------------------

  const CLASSES := {(Area, ELM_AREA), (Bus, ELM_TERM), (Line, ELM_LNE), (Load, ELM_LOD), (Terminal, ELM_TERM),
                    (Transformer, ELM_TR2), (Transformer, ELM_TR3)}

  /** An inactive asset is unresolved whatever its class; an active one is
      supported exactly when its class is listed for its kind. */
  lemma VerdictAnswers(a: Asset)
    ensures VerdictOf(a).Unresolved? <==> !a.active
    ensures VerdictOf(a).Supported? <==> a.active && (a.kind, a.objectClass) in CLASSES
    ensures VerdictOf(a).Unsupported? <==> a.active && (a.kind, a.objectClass) !in CLASSES
  {
  }

  /** The ids are those of the first `limit` among the first `n` items with this verdict, in order. */
  ghost predicate Exemplifies(ids: seq<ProductId>, items: seq<Asset>, n: nat, v: Verdict, limit: nat, where: seq<nat>)
    requires n <= |items|
  {
    && |where| == |ids| <= limit && (forall k, l :: 0 <= k < l < |where| ==> where[k] < where[l])
    && (forall k :: 0 <= k < |where| ==>
          where[k] < n && ids[k] == items[where[k]].id && VerdictOf(items[where[k]]) == v)
    && (forall i :: 0 <= i < n && VerdictOf(items[i]) == v && i !in where ==>
                      |ids| == limit && forall k :: 0 <= k < |where| ==> where[k] < i)
  }

  lemma ExemplifiesMore(ids: seq<ProductId>, items: seq<Asset>, n: nat, v: Verdict, limit: nat, where: seq<nat>)
    requires n < |items| && Exemplifies(ids, items, n, v, limit, where)
    ensures if VerdictOf(items[n]) == v && |ids| < limit then
              Exemplifies(ids + [items[n].id], items, n + 1, v, limit, where + [n])
            else Exemplifies(ids, items, n + 1, v, limit, where)
  {
    hide VerdictOf;
  }

  lemma ExamplesGrow(items: seq<Asset>, n: nat, v: Verdict, limit: nat)
    requires n < |items|
    ensures var before, after := ExamplesOf(items[..n], v, limit), ExamplesOf(items[..n + 1], v, limit);
      after == if VerdictOf(items[n]) == v && |before| < limit then before + [items[n].id] else before
  {
    assert items[..n + 1][..n] == items[..n];
    hide VerdictOf;
  }

  lemma NoExamples(items: seq<Asset>, v: Verdict, limit: nat)
    ensures Exemplifies(ExamplesOf(items[..0], v, limit), items, 0, v, limit, [])
  {
  }

  lemma {:induction false} ExamplesUpTo(items: seq<Asset>, n: nat, v: Verdict, limit: nat) returns (where: seq<nat>)
    requires n <= |items|
    ensures Exemplifies(ExamplesOf(items[..n], v, limit), items, n, v, limit, where)
  {
    hide ExamplesOf, Exemplifies, VerdictOf;
    if n == 0 {
      where := [];
      NoExamples(items, v, limit);
    } else {
      where := ExamplesUpTo(items, n - 1, v, limit);
      var before := ExamplesOf(items[..n - 1], v, limit);
      ExamplesGrow(items, n - 1, v, limit);
      ExemplifiesMore(before, items, n - 1, v, limit, where);
      if VerdictOf(items[n - 1]) == v && |before| < limit {
        where := where + [n - 1];
      }
    }
  }

  /** A warning's examples are the first items with its verdict, as many as allowed. */
  lemma ExamplesAreFirst(items: seq<Asset>, v: Verdict, limit: nat) returns (where: seq<nat>)
    ensures Exemplifies(ExamplesOf(items, v, limit), items, |items|, v, limit, where)
  {
    where := ExamplesUpTo(items, |items|, v, limit);
    assert items[..|items|] == items;
    hide ExamplesOf, Exemplifies;
  }

  // ---------------------------------------------------------------------
  // Summaries
  // ---------------------------------------------------------------------

  /** A summary succeeds exactly on an inventory of the requested project alone,
      provenance included, within the limit. */
  lemma SummaryAnswers(assets: seq<Asset>, q: SummaryRequest)
    ensures var r := SummarySpec(assets, q);
      && (r.Ok? <==> && InScope(assets, q.project) && |assets| <= q.limit
                     && forall a :: a in assets ==> a.provenance == q.project)
      && (r == Err(InvalidResponse) <==> Ambiguous(assets))
      && (r == Err(BoundExceeded) ==> InScope(assets, q.project) && |assets| > q.limit)
      && (r.Err? ==> r.error in {InvalidResponse, ProjectMismatch, BoundExceeded})
      && (!Ambiguous(assets) && assets[0].project != q.project ==> r == Err(ProjectMismatch))
  {
    InScopeIff(assets, q.project);
    if InScope(assets, q.project) {
      VisitsAll(assets, q.project, Supported);
      VisitedHolds(assets, q.project, |KINDS|);
      var all := Visited(assets, q.project, |KINDS|);
      forall a | a in assets
        ensures a in all
      {
        EveryKind(a.kind);
      }
      hide Visited, Tallies, WarningsOf, ContextFailure, CountOf;
      assert all[..|all|] == all;
    } else if !Ambiguous(assets) {
      hide Visited, Tallies, WarningsOf;
    }
  }

  lemma EveryKind(kind: Kind)
    ensures exists i :: 0 <= i < |KINDS| && KINDS[i] == kind
  {
    match kind {
      case Area => assert KINDS[0] == kind;
      case Bus => assert KINDS[1] == kind;
      case Line => assert KINDS[2] == kind;
      case Load => assert KINDS[3] == kind;
      case Terminal => assert KINDS[4] == kind;
      case Transformer => assert KINDS[5] == kind;
    }
  }

  /** The samples of a kind are its first assets by identity, as many as asked for. */
  ghost predicate Sampled(samples: seq<Asset>, assets: seq<Asset>, kind: Kind, limit: nat) {
    && Ordered(samples) && (forall a :: a in samples ==> a in assets && a.kind == kind)
    && |samples| == (if KindCount(assets, kind) <= limit then KindCount(assets, kind) else limit)
    && forall a, b :: a in assets && a.kind == kind && b in samples && a.id < b.id ==> a in samples
  }

  lemma FirstsLead(items: seq<Asset>, limit: nat)
    requires Ordered(items)
    ensures var firsts := Firsts(items, limit);
      && Ordered(firsts) && |firsts| == (if |items| <= limit then |items| else limit)
      && (forall a :: a in firsts ==> a in items)
      && forall a, b :: a in items && b in firsts && a.id < b.id ==> a in firsts
  {
    var firsts := Firsts(items, limit);
    forall a, b | a in items && b in firsts && a.id < b.id
      ensures a in firsts
    {
      var i :| 0 <= i < |items| && items[i] == a;
      var j :| 0 <= j < |firsts| && firsts[j] == b;
      assert items[j] == b && i < j;
      assert firsts[i] == a;
    }
  }

  ghost predicate OfKind(items: seq<Asset>, assets: seq<Asset>, kind: Kind) {
    forall a :: a in items <==> a in assets && a.kind == kind
  }

  lemma SelectedOfKind(assets: seq<Asset>, kind: Kind, project: Project)
    requires Ordered(assets) && forall a :: a in assets ==> a.project == project
    ensures var selected := Selected(assets, KindBinding(kind, project));
      OfKind(selected, assets, kind) && Ordered(selected) && |selected| == KindCount(assets, kind)
  {
    SelectedHolds(assets, KindBinding(kind, project));
    SelectedCounts(assets, kind, project, Supported);
    hide Selected, KindCount, CountOf, VerdictCount, Ordered;
  }

  lemma FirstsOfKind(items: seq<Asset>, assets: seq<Asset>, kind: Kind, limit: nat)
    requires OfKind(items, assets, kind) && Ordered(items)
    ensures forall a :: a in Firsts(items, limit) ==> a in assets && a.kind == kind
    ensures forall a, b :: a in assets && a.kind == kind && b in Firsts(items, limit) && a.id < b.id ==>
                             a in Firsts(items, limit)
  {
    FirstsLead(items, limit);
    hide Firsts, Ordered;
  }

  lemma FirstsAreSampled(assets: seq<Asset>, kind: Kind, project: Project, limit: nat)
    requires Ordered(assets) && forall a :: a in assets ==> a.project == project
    ensures Sampled(Firsts(Selected(assets, KindBinding(kind, project)), limit), assets, kind, limit)
  {
    var selected := Selected(assets, KindBinding(kind, project));
    SelectedOfKind(assets, kind, project);
    FirstsOfKind(selected, assets, kind, limit);
    FirstsLead(selected, limit);
    hide Selected, KindCount, Firsts, Ordered, OfKind;
  }

  lemma TalliesAreSampled(assets: seq<Asset>, q: SummaryRequest)
    requires Ordered(assets) && forall a :: a in assets ==> a.project == q.project
    ensures forall i :: 0 <= i < |KINDS| ==>
                          Sampled(Tallies(assets, q, |KINDS|)[i].samples, assets, KINDS[i], q.samples)
  {
    forall i | 0 <= i < |KINDS|
      ensures Sampled(Tallies(assets, q, |KINDS|)[i].samples, assets, KINDS[i], q.samples)
    {
      TallyAt(assets, q, |KINDS|, i);
      FirstsAreSampled(assets, KINDS[i], q.project, q.samples);
    }
    hide Tallies, CountOf, Selected, Firsts, Sampled, KINDS, Ordered;
  }

  /** Each id is of an asset of the inventory with this verdict. */
  ghost predicate Examples(ids: seq<ProductId>, assets: seq<Asset>, v: Verdict) {
    forall id :: id in ids ==> exists a :: a in assets && a.id == id && VerdictOf(a) == v
  }

  /** In a summary that succeeds each kind's samples are its first assets by
      identity, and the examples of each warning are of assets with that verdict. */
  lemma SummarySamples(assets: seq<Asset>, q: SummaryRequest)
    requires Ordered(assets) && SummarySpec(assets, q).Ok?
    ensures var summary := SummarySpec(assets, q).value;
      && |summary.tallies| == |KINDS|
      && (forall i :: 0 <= i < |KINDS| ==> Sampled(summary.tallies[i].samples, assets, KINDS[i], q.samples))
      && Examples(summary.warnings.unresolvedExamples, assets, Unresolved)
      && Examples(summary.warnings.unsupportedExamples, assets, Unsupported)
  {
    assert forall a :: a in assets ==> a.project == q.project;
    TalliesAreSampled(assets, q);
    var all := Visited(assets, q.project, |KINDS|);
    VisitedHolds(assets, q.project, |KINDS|);
    ExamplesHave(all, assets, Unresolved, q.examples);
    ExamplesHave(all, assets, Unsupported, q.examples);
    hide Visited, Tallies, CountOf, Selected, Firsts, Sampled, ExamplesOf, KINDS, Examples, Ordered;
  }

  lemma ExamplesHave(items: seq<Asset>, assets: seq<Asset>, v: Verdict, limit: nat)
    requires forall a :: a in items ==> a in assets
    ensures Examples(ExamplesOf(items, v, limit), assets, v)
  {
    var where := ExamplesAreFirst(items, v, limit);
    var ids := ExamplesOf(items, v, limit);
    forall id | id in ids
      ensures exists a :: a in assets && a.id == id && VerdictOf(a) == v
    {
      var k :| 0 <= k < |ids| && ids[k] == id;
      assert items[where[k]] in items;
    }
    hide ExamplesOf, VerdictOf;
  }
}
