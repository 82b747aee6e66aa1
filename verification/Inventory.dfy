/** Cursor paging over the harness inventory, and the traversal, lookup and summary above it. */
module Inventory {
  import opened Common

  type ProductId = nat
  type Project = nat
  type ObjectClass = nat

  /** In the alphabetical order of their wire names. */
  datatype Kind = Area | Bus | Line | Load | Terminal | Transformer

  const KINDS := [Area, Bus, Line, Load, Terminal, Transformer]

  datatype Asset = Asset(
    id: ProductId, kind: Kind, project: Project, provenance: Project, active: bool, objectClass: ObjectClass)

  const ELM_AREA: ObjectClass := 0
  const ELM_TERM: ObjectClass := 1
  const ELM_LNE: ObjectClass := 2
  const ELM_LOD: ObjectClass := 3
  const ELM_TR2: ObjectClass := 4
  const ELM_TR3: ObjectClass := 5

  predicate SupportedClass(kind: Kind, c: ObjectClass) {
    match kind
    case Area => c == ELM_AREA
    case Bus => c == ELM_TERM
    case Line => c == ELM_LNE
    case Load => c == ELM_LOD
    case Terminal => c == ELM_TERM
    case Transformer => c == ELM_TR2 || c == ELM_TR3
  }

  const MAX_PAGE_SIZE := 100
  const CURSOR_TTL := 300

  type PageSize = n: int | 1 <= n <= MAX_PAGE_SIZE witness 1

  /** What a cursor is bound to besides its page size. */
  datatype Binding = Binding(configuration: nat, revision: nat, kind: Option<Kind>, project: Option<Project>)

  /** An authenticated token determines its payload; any other token fails authentication or parsing. */
  datatype Cursor =
    | Token(
        binding: Binding, pageSize: int, last: Option<ProductId>, offset: int, effective: int, issuedAt: int,
        expiresAt: int)
    | Unauthentic(text: nat)

  datatype Query = Query(binding: Binding, pageSize: PageSize, cursor: Option<Cursor>)

  datatype Page = Page(query: Query, items: seq<Asset>, next: Option<Cursor>)

  datatype Failure =
    | ConfigurationMismatch | InvalidOperation | CursorInvalid | CursorStale
    | BoundExceeded | CursorLoop | ClassMismatch | ProjectMismatch | DuplicateIdentity | NotFound | UnresolvedIdentity
    | InvalidResponse

  /** The clock as one page call sees it: when it checks a cursor and when it issues the next. */
  datatype Reading = Reading(checked: int, issued: int)

  const CONFIGURATION := 0
  const REVISION := 1

  // ---------------------------------------------------------------------
  // One page
  // ---------------------------------------------------------------------

  predicate Wanted(a: Asset, b: Binding) {
    (b.kind.None? || a.kind == b.kind.value) && (b.project.None? || a.project == b.project.value)
  }

  /** The assets a query is about, in inventory order. */
  function Selected(assets: seq<Asset>, b: Binding): seq<Asset> {
    if assets == [] then []
    else
      var n := |assets| - 1;
      Selected(assets[..n], b) + if Wanted(assets[n], b) then [assets[n]] else []
  }

  predicate Ordered(assets: seq<Asset>) {
    forall i, j :: 0 <= i < j < |assets| ==> assets[i].id < assets[j].id
  }

  function LastOf(selected: seq<Asset>, offset: int): Option<ProductId>
    requires 0 <= offset <= |selected|
  {
    if offset == 0 then None else Some(selected[offset - 1].id)
  }

  /** Where a query's page starts. */
  function OffsetOf(selected: seq<Asset>, q: Query, checked: int): (r: Result<nat, Failure>)
    ensures r.Ok? ==> r.value <= |selected|
  {
    match q.cursor
    case None => Ok(0)
    case Some(Unauthentic(_)) => Err(CursorInvalid)
    case Some(Token(binding, pageSize, last, offset, _, issuedAt, expiresAt)) =>
      if issuedAt > expiresAt then Err(CursorInvalid)
      else if checked >= expiresAt then Err(CursorStale)
      else if binding != q.binding || pageSize != q.pageSize then Err(CursorInvalid)
      else if offset < 0 || offset > |selected| || last != LastOf(selected, offset) then Err(CursorInvalid)
      else Ok(offset)
  }

  function TokenFor(selected: seq<Asset>, q: Query, offset: nat, effective: int, issued: int): (c: Cursor)
    requires offset <= |selected|
    ensures c.Token? && c.offset == offset
  {
    Token(q.binding, q.pageSize, LastOf(selected, offset), offset, effective, issued, issued + CURSOR_TTL)
  }

  function PageSpec(assets: seq<Asset>, q: Query, t: Reading): Result<Page, Failure> {
    if q.binding.configuration != CONFIGURATION then Err(ConfigurationMismatch)
    else if q.binding.revision != REVISION then Err(InvalidOperation)
    else
      var selected := Selected(assets, q.binding);
      match OffsetOf(selected, q, t.checked)
      case Err(e) => Err(e)
      case Ok(offset) =>
        var end := if offset + q.pageSize < |selected| then offset + q.pageSize else |selected|;
        Ok(Page(q, selected[offset..end],
                if end < |selected| then Some(TokenFor(selected, q, end, end - offset, t.issued)) else None))
  }

  /** The inventory side of the harness: the assets never change. */
  class HarnessInventory {
    const assets: seq<Asset>

    constructor (assets: seq<Asset>)
      requires Ordered(assets)
      ensures this.assets == assets
    {
      this.assets := assets;
    }

    method SelectAssets(b: Binding) returns (selected: seq<Asset>)
      ensures selected == Selected(assets, b)
    {
      selected := [];
      for i := 0 to |assets|
        invariant selected == Selected(assets[..i], b)
      {
        assert assets[..i + 1][..i] == assets[..i];
        if Wanted(assets[i], b) {
          selected := selected + [assets[i]];
        }
      }
      assert assets[..|assets|] == assets;
    }

    method Inventory(q: Query, t: Reading) returns (r: Result<Page, Failure>)
      ensures r == PageSpec(assets, q, t)
    {
      if q.binding.configuration != CONFIGURATION {
        return Err(ConfigurationMismatch);
      }
      if q.binding.revision != REVISION {
        return Err(InvalidOperation);
      }
      var selected := SelectAssets(q.binding);
      var offset := 0;
      if q.cursor.Some? {
        var c := q.cursor.value;
        if c.Unauthentic? || c.issuedAt > c.expiresAt {
          return Err(CursorInvalid);
        }
        if t.checked >= c.expiresAt {
          return Err(CursorStale);
        }
        if c.binding != q.binding || c.pageSize != q.pageSize || c.offset < 0 || c.offset > |selected| {
          return Err(CursorInvalid);
        }
        if c.last != LastOf(selected, c.offset) {
          return Err(CursorInvalid);
        }
        offset := c.offset;
      }
      var end := if offset + q.pageSize < |selected| then offset + q.pageSize else |selected|;
      var next := None;
      if end < |selected| {
        next := Some(TokenFor(selected, q, end, end - offset, t.issued));
      }
      return Ok(Page(q, selected[offset..end], next));
    }
  }

  // ---------------------------------------------------------------------
  // Traversal
  // ---------------------------------------------------------------------

  /** The cursor issued by page call `k` has expired when the next call checks it. */
  predicate Lapses(clock: nat -> Reading, k: nat) {
    clock(k + 1).checked >= clock(k).issued + CURSOR_TTL
  }

  /** What a traversal yields before it stops, and how it stops, whatever the page size. */
  function ScanSpec(selected: seq<Asset>, limit: int): (seq<Asset>, Option<Failure>) {
    if limit < 0 then ([], Some(BoundExceeded))
    else if |selected| > limit then (selected[..limit], Some(BoundExceeded))
    else (selected, None)
  }

  predicate Addressed(q: Query) {
    q.binding.configuration == CONFIGURATION && q.binding.revision == REVISION && q.cursor.None?
  }

  function EndOf(selected: seq<Asset>, q: Query, offset: nat): int {
    if offset + q.pageSize < |selected| then offset + q.pageSize else |selected|
  }

  /** The query holds the cursor issued at `issued` for this offset. */
  ghost predicate CursorAt(selected: seq<Asset>, q: Query, offset: nat, issued: int) {
    && offset <= |selected| && q.cursor.Some? && q.cursor.value.Token?
    && q.cursor.value == TokenFor(selected, q, offset, q.cursor.value.effective, issued)
  }

  /** The page at an offset, and the cursor that continues it. */
  ghost predicate PageAt(selected: seq<Asset>, q: Query, offset: nat, issued: int, page: Page) {
    && offset <= EndOf(selected, q, offset) <= |selected|
    && page.items == selected[offset..EndOf(selected, q, offset)]
    && (page.next.Some? <==> EndOf(selected, q, offset) < |selected|)
    && (page.next.Some? ==> CursorAt(selected, q.(cursor := page.next), EndOf(selected, q, offset), issued))
  }

  lemma FirstPage(assets: seq<Asset>, q: Query, t: Reading)
    requires Addressed(q)
    ensures PageSpec(assets, q, t).Ok?
    ensures PageAt(Selected(assets, q.binding), q, 0, t.issued, PageSpec(assets, q, t).value)
  {
    hide Selected;
  }

  lemma NextPage(assets: seq<Asset>, q: Query, offset: nat, issued: int, t: Reading)
    requires Addressed(q.(cursor := None)) && CursorAt(Selected(assets, q.binding), q, offset, issued)
    ensures var r := PageSpec(assets, q, t);
      if t.checked >= issued + CURSOR_TTL then r == Err(CursorStale)
      else r.Ok? && PageAt(Selected(assets, q.binding), q, offset, t.issued, r.value)
  {
    hide Selected;
  }

  /** Where a traversal stands between two pages. */
  ghost predicate Between(selected: seq<Asset>, q: Query, offset: nat, clock: nat -> Reading, pages: nat) {
    if pages == 0 then offset == 0 && q.cursor.None?
    else pages <= offset < |selected| && CursorAt(selected, q, offset, clock(pages - 1).issued)
  }

  lemma PageBetween(assets: seq<Asset>, q: Query, offset: nat, clock: nat -> Reading, pages: nat)
    requires Addressed(q.(cursor := None)) && Between(Selected(assets, q.binding), q, offset, clock, pages)
    ensures var selected, r := Selected(assets, q.binding), PageSpec(assets, q, clock(pages));
      if r.Err? then r.error.CursorStale? && 0 < pages <= |selected| && Lapses(clock, pages - 1)
      else PageAt(selected, q, offset, clock(pages).issued, r.value)
  {
    hide Selected, PageSpec, PageAt;
    if pages == 0 {
      FirstPage(assets, q, clock(0));
    } else {
      NextPage(assets, q, offset, clock(pages - 1).issued, clock(pages));
    }
  }

  ghost predicate Earlier(seen: set<Cursor>, offset: nat) {
    forall c :: c in seen ==> c.Token? && c.offset <= offset
  }

  /** A page that continues leads to the next standing, with a cursor never seen before. */
  lemma PageContinues(selected: seq<Asset>, q: Query, offset: nat, clock: nat -> Reading, pages: nat, page: Page,
                      seen: set<Cursor>)
    requires Between(selected, q, offset, clock, pages)
    requires PageAt(selected, q, offset, clock(pages).issued, page) && page.next.Some?
    requires Earlier(seen, offset)
    ensures var end := offset + |page.items|;
      && offset < end < |selected| && Between(selected, q.(cursor := page.next), end, clock, pages + 1)
      && page.next.value !in seen && q.cursor != page.next && Earlier(seen + {page.next.value}, end)
  {
  }

  lemma PageExtent(selected: seq<Asset>, q: Query, offset: nat, issued: int, page: Page)
    requires PageAt(selected, q, offset, issued, page)
    ensures offset + |page.items| <= |selected| && page.items == selected[offset..offset + |page.items|]
    ensures page.next.None? ==> offset + |page.items| == |selected|
  {
  }

  ghost predicate Yielded(items: seq<Asset>, selected: seq<Asset>) {
    |items| <= |selected| && items == selected[..|items|]
  }

  lemma YieldsPage(items: seq<Asset>, selected: seq<Asset>, page: seq<Asset>, n: nat)
    requires Yielded(items, selected) && |items| + |page| <= |selected| && n <= |page|
    requires page == selected[|items|..|items| + |page|]
    ensures Yielded(items + page[..n], selected)
  {
    assert items + page[..n] == selected[..|items| + n];
  }

  lemma ScanStarts(selected: seq<Asset>, q: Query, limit: int, clock: nat -> Reading)
    requires Addressed(q)
    ensures q.(cursor := None) == q && Between(selected, q, 0, clock, 0) && Yielded([], selected) && Earlier({}, 0)
    ensures limit < 0 ==> ScanSpec(selected, limit) == ([], Some(BoundExceeded))
  {
  }

  lemma ScanEnds(items: seq<Asset>, selected: seq<Asset>, limit: int)
    requires Yielded(items, selected) && |items| <= limit
    ensures |items| == |selected| ==> ScanSpec(selected, limit) == (items, None)
    ensures |items| == limit < |selected| ==> ScanSpec(selected, limit) == (items, Some(BoundExceeded))
    ensures items <= selected
  {
    assert selected[..|selected|] == selected;
  }

  // ---------------------------------------------------------------------
  // Lookup and summary
  // ---------------------------------------------------------------------

  /** The active context must hold assets of one project, the requested one. */
  function ContextFailure(assets: seq<Asset>, project: Project): Option<Failure> {
    if assets == [] || exists a :: a in assets && a.project != assets[0].project then Some(InvalidResponse)
    else if assets[0].project != project then Some(ProjectMismatch)
    else None
  }

  function KindBinding(kind: Kind, project: Project): Binding {
    Binding(CONFIGURATION, REVISION, Some(kind), Some(project))
  }

  datatype LookupRequest = LookupRequest(
    id: ProductId, kind: Kind, objectClass: ObjectClass, project: Project, pageSize: PageSize, limit: int)

  /** Whether an item's own provenance names another project. */
  predicate Foreign(items: seq<Asset>, project: Project) {
    exists a :: a in items && a.provenance != project
  }

  function Find(items: seq<Asset>, id: ProductId): (r: Option<Asset>)
    ensures r.Some? ==> r.value in items && r.value.id == id
    ensures r.None? ==> forall a :: a in items ==> a.id != id
  {
    if items == [] then None
    else if items[|items| - 1].id == id then Some(items[|items| - 1])
    else Find(items[..|items| - 1], id)
  }

  /** `lookup`: the answer does not depend on the page size. */
  function LookupSpec(assets: seq<Asset>, q: LookupRequest): Result<Asset, Failure> {
    var context := ContextFailure(assets, q.project);
    var (items, stop) := ScanSpec(Selected(assets, KindBinding(q.kind, q.project)), q.limit);
    if !SupportedClass(q.kind, q.objectClass) then Err(ClassMismatch)
    else if context.Some? then Err(context.value)
    else if Foreign(items, q.project) then Err(ProjectMismatch)
    else if stop.Some? then Err(stop.value)
    else match Find(items, q.id)
      case None => Err(NotFound)
      case Some(a) =>
        if !a.active then Err(UnresolvedIdentity)
        else if a.objectClass != q.objectClass then Err(ClassMismatch)
        else Ok(a)
  }

  datatype Verdict = Supported | Unsupported | Unresolved

  function VerdictOf(a: Asset): Verdict {
    if !a.active then Unresolved else if !SupportedClass(a.kind, a.objectClass) then Unsupported else Supported
  }

  function CountOf(items: seq<Asset>, v: Verdict): nat {
    if items == [] then 0
    else CountOf(items[..|items| - 1], v) + if VerdictOf(items[|items| - 1]) == v then 1 else 0
  }

  /** The first `limit` ids with this verdict. */
  function ExamplesOf(items: seq<Asset>, v: Verdict, limit: nat): (ids: seq<ProductId>)
    ensures |ids| <= limit
  {
    if items == [] then []
    else
      var before := ExamplesOf(items[..|items| - 1], v, limit);
      var a := items[|items| - 1];
      if VerdictOf(a) == v && |before| < limit then before + [a.id] else before
  }

  datatype Tally = Tally(total: nat, supported: nat, unsupported: nat, unresolved: nat, samples: seq<Asset>)

  function Firsts(items: seq<Asset>, n: nat): seq<Asset> {
    if |items| <= n then items else items[..n]
  }

  function TallyOf(items: seq<Asset>, samples: nat): Tally {
    Tally(|items|, CountOf(items, Supported), CountOf(items, Unsupported), CountOf(items, Unresolved),
          Firsts(items, samples))
  }

  datatype Warnings = Warnings(
    unsupported: nat, unsupportedExamples: seq<ProductId>, unresolved: nat, unresolvedExamples: seq<ProductId>)

  function WarningsOf(items: seq<Asset>, limit: nat): Warnings {
    Warnings(CountOf(items, Unsupported), ExamplesOf(items, Unsupported, limit),
             CountOf(items, Unresolved), ExamplesOf(items, Unresolved, limit))
  }

  datatype SummaryRequest = SummaryRequest(
    project: Project, pageSize: PageSize, limit: nat, samples: nat, examples: nat)

  datatype Summary = Summary(tallies: seq<Tally>, warnings: Warnings)

  /** Everything a summary visits in its first `k` kinds, in order. */
  function Visited(assets: seq<Asset>, project: Project, k: nat): seq<Asset>
    requires k <= |KINDS|
  {
    if k == 0 then [] else Visited(assets, project, k - 1) + Selected(assets, KindBinding(KINDS[k - 1], project))
  }

  function Tallies(assets: seq<Asset>, q: SummaryRequest, k: nat): (ts: seq<Tally>)
    requires k <= |KINDS|
    ensures |ts| == k
  {
    if k == 0 then []
    else Tallies(assets, q, k - 1) + [TallyOf(Selected(assets, KindBinding(KINDS[k - 1], q.project)), q.samples)]
  }

  /** `summarize`: the answer does not depend on the page size. */
  function SummarySpec(assets: seq<Asset>, q: SummaryRequest): Result<Summary, Failure> {
    var context := ContextFailure(assets, q.project);
    var all := Visited(assets, q.project, |KINDS|);
    if context.Some? then Err(context.value)
    else if Foreign(Firsts(all, q.limit), q.project) then Err(ProjectMismatch)
    else if |all| > q.limit then Err(BoundExceeded)
    else Ok(Summary(Tallies(assets, q, |KINDS|), WarningsOf(all, q.examples)))
  }

  /** What a summary has gathered between two kinds. */
  datatype Progress = Progress(scanned: nat, tallies: seq<Tally>, warnings: Warnings, seen: set<ProductId>)

  ghost predicate Summarized(assets: seq<Asset>, q: SummaryRequest, k: nat, p: Progress)
    requires k <= |KINDS|
  {
    var visited := Visited(assets, q.project, k);
    && p.scanned == |visited| <= q.limit && !Foreign(visited, q.project)
    && p.tallies == Tallies(assets, q, k) && p.warnings == WarningsOf(visited, q.examples)
    && forall id :: id in p.seen <==> exists a :: a in visited && a.id == id
  }

  // ---------------------------------------------------------------------
  // What a summary adds up to
  // ---------------------------------------------------------------------

  lemma {:induction false} VerdictsPartition(items: seq<Asset>)
    ensures CountOf(items, Supported) + CountOf(items, Unsupported) + CountOf(items, Unresolved) == |items|
  {
    if items != [] {
      VerdictsPartition(items[..|items| - 1]);
    }
  }

  /** How many assets of the inventory are of one kind, and how many of those have one verdict. */
  function KindCount(assets: seq<Asset>, kind: Kind): nat {
    if assets == [] then 0
    else KindCount(assets[..|assets| - 1], kind) + if assets[|assets| - 1].kind == kind then 1 else 0
  }

  function VerdictCount(assets: seq<Asset>, kind: Kind, v: Verdict): nat {
    if assets == [] then 0
    else
      var last := assets[|assets| - 1];
      VerdictCount(assets[..|assets| - 1], kind, v) + if last.kind == kind && VerdictOf(last) == v then 1 else 0
  }

  lemma {:induction false} CountsAdd(a: seq<Asset>, b: seq<Asset>, v: Verdict)
    ensures CountOf(a + b, v) == CountOf(a, v) + CountOf(b, v)
  {
    if b == [] {
      assert a + b == a;
    } else {
      var n := |b| - 1;
      CountsAdd(a, b[..n], v);
      assert (a + b)[..|a| + n] == a + b[..n];
    }
  }

  /** How a selection grows when one more asset is stored. */
  lemma SelectedGrows(assets: seq<Asset>, b: Binding, v: Verdict)
    requires assets != []
    ensures var n := |assets| - 1;
      && |Selected(assets, b)| == |Selected(assets[..n], b)| + (if Wanted(assets[n], b) then 1 else 0)
      && CountOf(Selected(assets, b), v)
         == CountOf(Selected(assets[..n], b), v) + if Wanted(assets[n], b) && VerdictOf(assets[n]) == v then 1 else 0
  {
    var n := |assets| - 1;
    CountsAdd(Selected(assets[..n], b), if Wanted(assets[n], b) then [assets[n]] else [], v);
  }

  /** A selection by kind holds as many assets, of each verdict, as the inventory has of that kind. */
  lemma {:induction false} SelectedCounts(assets: seq<Asset>, kind: Kind, project: Project, v: Verdict)
    requires forall a :: a in assets ==> a.project == project
    ensures var items := Selected(assets, KindBinding(kind, project));
      |items| == KindCount(assets, kind) && CountOf(items, v) == VerdictCount(assets, kind, v)
  {
    if assets != [] {
      var n := |assets| - 1;
      assert assets[n] in assets;
      SelectedCounts(assets[..n], kind, project, v);
      SelectedGrows(assets, KindBinding(kind, project), v);
    }
  }

  /** Every asset is of one kind, and has its verdict there. */
  lemma {:induction false} KindsPartition(assets: seq<Asset>, v: Verdict)
    ensures KindCount(assets, Area) + KindCount(assets, Bus) + KindCount(assets, Line) + KindCount(assets, Load)
            + KindCount(assets, Terminal) + KindCount(assets, Transformer) == |assets|
    ensures VerdictCount(assets, Area, v) + VerdictCount(assets, Bus, v) + VerdictCount(assets, Line, v)
            + VerdictCount(assets, Load, v) + VerdictCount(assets, Terminal, v) + VerdictCount(assets, Transformer, v)
            == CountOf(assets, v)
  {
    if assets != [] {
      KindsPartition(assets[..|assets| - 1], v);
      hide VerdictOf;
    }
  }

  lemma VisitedStart(assets: seq<Asset>, project: Project, v: Verdict)
    ensures |Visited(assets, project, 0)| == CountOf(Visited(assets, project, 0), v) == 0
  {
  }

  lemma VisitedStep(assets: seq<Asset>, project: Project, k: nat, v: Verdict)
    requires k < |KINDS| && forall a :: a in assets ==> a.project == project
    ensures var now, before := Visited(assets, project, k + 1), Visited(assets, project, k);
      && |now| == |before| + KindCount(assets, KINDS[k])
      && CountOf(now, v) == CountOf(before, v) + VerdictCount(assets, KINDS[k], v)
  {
    CountsAdd(Visited(assets, project, k), Selected(assets, KindBinding(KINDS[k], project)), v);
    SelectedCounts(assets, KINDS[k], project, v);
    hide Selected, CountOf, KindCount, VerdictCount;
  }

  /** A summary of one project's inventory visits every asset once. */
  lemma VisitsAll(assets: seq<Asset>, project: Project, v: Verdict)
    requires forall a :: a in assets ==> a.project == project
    ensures var all := Visited(assets, project, |KINDS|);
      |all| == |assets| && CountOf(all, v) == CountOf(assets, v)
  {
    VisitedStart(assets, project, v);
    VisitedStep(assets, project, 0, v);
    VisitedStep(assets, project, 1, v);
    VisitedStep(assets, project, 2, v);
    VisitedStep(assets, project, 3, v);
    VisitedStep(assets, project, 4, v);
    VisitedStep(assets, project, 5, v);
    KindsPartition(assets, v);
    hide Visited, CountOf, KindCount, VerdictCount;
  }

  function SumTotals(ts: seq<Tally>): nat {
    if ts == [] then 0 else SumTotals(ts[..|ts| - 1]) + ts[|ts| - 1].total
  }

  lemma {:induction false} TotalsAreVisited(assets: seq<Asset>, q: SummaryRequest, k: nat)
    requires k <= |KINDS|
    ensures SumTotals(Tallies(assets, q, k)) == |Visited(assets, q.project, k)|
  {
    if k > 0 {
      TotalsAreVisited(assets, q, k - 1);
      var before := Tallies(assets, q, k - 1);
      assert Tallies(assets, q, k)[..k - 1] == before;
      hide Selected, CountOf, Firsts, KINDS;
    }
  }

  lemma {:induction false} TallyAt(assets: seq<Asset>, q: SummaryRequest, k: nat, i: nat)
    requires i < k <= |KINDS|
    ensures Tallies(assets, q, k)[i] == TallyOf(Selected(assets, KindBinding(KINDS[i], q.project)), q.samples)
    decreases k
  {
    if i < k - 1 {
      TallyAt(assets, q, k - 1, i);
    }
    hide Selected, TallyOf, KINDS;
  }

  /** A tally counts one kind's assets, each with its verdict. */
  ghost predicate Counts(t: Tally, assets: seq<Asset>, kind: Kind) {
    && t.total == KindCount(assets, kind) == t.supported + t.unsupported + t.unresolved
    && t.supported == VerdictCount(assets, kind, Supported)
    && t.unsupported == VerdictCount(assets, kind, Unsupported)
    && t.unresolved == VerdictCount(assets, kind, Unresolved)
  }

  lemma TallyCounts(assets: seq<Asset>, kind: Kind, project: Project, samples: nat)
    requires forall a :: a in assets ==> a.project == project
    ensures Counts(TallyOf(Selected(assets, KindBinding(kind, project)), samples), assets, kind)
  {
    SelectedCounts(assets, kind, project, Supported);
    SelectedCounts(assets, kind, project, Unsupported);
    SelectedCounts(assets, kind, project, Unresolved);
    VerdictsPartition(Selected(assets, KindBinding(kind, project)));
  }

  /** A summary that succeeds counts every asset of the inventory exactly once:
      tally number `i` counts the assets of kind number `i`, and those with each
      verdict; together they count them all, and the warnings those of every kind. */
  lemma SummaryCountsEachOnce(assets: seq<Asset>, q: SummaryRequest)
    requires SummarySpec(assets, q).Ok?
    ensures var summary := SummarySpec(assets, q).value;
      && |summary.tallies| == |KINDS| && SumTotals(summary.tallies) == |assets| <= q.limit
      && (forall i :: 0 <= i < |KINDS| ==> Counts(summary.tallies[i], assets, KINDS[i]))
      && summary.warnings.unsupported == CountOf(assets, Unsupported)
      && summary.warnings.unresolved == CountOf(assets, Unresolved)
  {
    assert forall a :: a in assets ==> a.project == q.project;
    VisitsAll(assets, q.project, Unsupported);
    VisitsAll(assets, q.project, Unresolved);
    TotalsAreVisited(assets, q, |KINDS|);
    forall i | 0 <= i < |KINDS|
      ensures Counts(Tallies(assets, q, |KINDS|)[i], assets, KINDS[i])
    {
      TallyAt(assets, q, |KINDS|, i);
      TallyCounts(assets, KINDS[i], q.project, q.samples);
    }
    hide Visited, Tallies, CountOf, SumTotals, Selected, Counts, Firsts;
  }

  // ---------------------------------------------------------------------
  // What a selection holds
  // ---------------------------------------------------------------------

  lemma {:induction false} SelectedHolds(assets: seq<Asset>, b: Binding)
    ensures forall a :: a in Selected(assets, b) <==> a in assets && Wanted(a, b)
    ensures Ordered(assets) ==> Ordered(Selected(assets, b))
  {
    if assets != [] {
      var n := |assets| - 1;
      SelectedHolds(assets[..n], b);
      assert assets == assets[..n] + [assets[n]];
      var front := Selected(assets[..n], b);
      if Ordered(assets) {
        forall i | 0 <= i < |front|
          ensures front[i].id < assets[n].id
        {
          assert front[i] in front;
        }
      }
      hide Selected;
    }
  }

  lemma SameIdSameAsset(assets: seq<Asset>, a: Asset, b: Asset)
    requires Ordered(assets) && a in assets && b in assets && a.id == b.id
    ensures a == b
  {
    var i :| 0 <= i < |assets| && assets[i] == a;
    var j :| 0 <= j < |assets| && assets[j] == b;
  }

  // ---------------------------------------------------------------------
  // What a lookup answers
  // ---------------------------------------------------------------------

  /** The inventory is of the requested project alone. */
  ghost predicate InScope(assets: seq<Asset>, project: Project) {
    assets != [] && forall a :: a in assets ==> a.project == project
  }

  /** A lookup sees all the assets of its kind: the class is one of the kind's,
      the project is the active one, and none of them is foreign or past the limit. */
  ghost predicate Searchable(assets: seq<Asset>, q: LookupRequest) {
    && SupportedClass(q.kind, q.objectClass) && InScope(assets, q.project) && KindCount(assets, q.kind) <= q.limit
    && forall a :: a in assets && a.kind == q.kind ==> a.provenance == q.project
  }

  /** The inventory names no project, or more than one. */
  ghost predicate Ambiguous(assets: seq<Asset>) {
    assets == [] || exists a, b :: a in assets && b in assets && a.project != b.project
  }

  /** The asset is of the requested kind and identity. */
  predicate Named(assets: seq<Asset>, q: LookupRequest, a: Asset) {
    a in assets && a.kind == q.kind && a.id == q.id
  }

  /** A lookup answers with an asset exactly when it sees all assets of the kind
      and the only one of this identity is active and of the requested class.
      Then, too, it says not found, unresolved, or of another class exactly when
      none is named so, the named one is inactive, or it is of another class; and
      it rejects the inventory exactly when that is not of one project. */
  lemma LookupAnswers(assets: seq<Asset>, q: LookupRequest)
    requires Ordered(assets)
    ensures forall a, b :: Named(assets, q, a) && Named(assets, q, b) ==> a == b
    ensures var r := LookupSpec(assets, q);
      && (forall a :: r == Ok(a) <==>
                        Searchable(assets, q) && Named(assets, q, a) && a.active && a.objectClass == q.objectClass)
      && (r == Err(NotFound) <==> Searchable(assets, q) && forall a :: !Named(assets, q, a))
      && (r == Err(UnresolvedIdentity) <==> Searchable(assets, q) && exists a :: Named(assets, q, a) && !a.active)
      && (r == Err(ClassMismatch) <==>
            || !SupportedClass(q.kind, q.objectClass)
            || (Searchable(assets, q)
                && exists a :: Named(assets, q, a) && a.active && a.objectClass != q.objectClass))
      && (r == Err(InvalidResponse) <==> SupportedClass(q.kind, q.objectClass) && Ambiguous(assets))
  {
    InScopeIff(assets, q.project);
    forall a, b | Named(assets, q, a) && Named(assets, q, b)
      ensures a == b
    {
      SameIdSameAsset(assets, a, b);
    }
    SearchableIff(assets, q);
    var items := Selected(assets, KindBinding(q.kind, q.project));
    SelectedHolds(assets, KindBinding(q.kind, q.project));
    if Searchable(assets, q) {
      assert forall a :: a in items <==> a in assets && a.kind == q.kind;
      var found := Find(items, q.id);
      if found.Some? {
        assert Named(assets, q, found.value);
      } else {
        assert forall a :: !Named(assets, q, a);
      }
    }
    hide Selected, Ordered, SupportedClass, KindCount, Find, Searchable, ContextFailure, InScope, Ambiguous;
  }

  lemma InScopeIff(assets: seq<Asset>, project: Project)
    ensures ContextFailure(assets, project).None? <==> InScope(assets, project)
    ensures ContextFailure(assets, project) == Some(InvalidResponse) <==> Ambiguous(assets)
    ensures ContextFailure(assets, project).Some? ==>
              ContextFailure(assets, project).value in {InvalidResponse, ProjectMismatch}
  {
    if assets != [] {
      assert assets[0] in assets;
    }
  }

  /** A lookup gets as far as finding exactly when it can see all it needs. */
  lemma SearchableIff(assets: seq<Asset>, q: LookupRequest)
    ensures var (items, stop) := ScanSpec(Selected(assets, KindBinding(q.kind, q.project)), q.limit);
      Searchable(assets, q) <==>
        && SupportedClass(q.kind, q.objectClass) && ContextFailure(assets, q.project).None?
        && !Foreign(items, q.project) && stop.None?
    ensures Searchable(assets, q) ==>
              ScanSpec(Selected(assets, KindBinding(q.kind, q.project)), q.limit).0
              == Selected(assets, KindBinding(q.kind, q.project))
  {
    InScopeIff(assets, q.project);
    if InScope(assets, q.project) {
      SelectedCounts(assets, q.kind, q.project, Supported);
      SelectedHolds(assets, KindBinding(q.kind, q.project));
    }
    hide Selected, SupportedClass, KindCount, ContextFailure;
  }

  class InventoryService {
    const gateway: HarnessInventory

    constructor (gateway: HarnessInventory)
      ensures this.gateway == gateway
    {
      this.gateway := gateway;
    }

    /** The inner loop over one page: yields until the limit would be passed. */
    method Yield(before: nat, page: seq<Asset>, limit: int) returns (n: nat)
      requires before <= limit
      ensures n <= |page| && n == (if before + |page| <= limit then |page| else limit - before)
    {
      n := 0;
      var scanned := before;
      while n < |page|
        invariant n <= |page| && scanned == before + n <= limit
      {
        scanned := scanned + 1;
        if scanned > limit {
          return;
        }
        n := n + 1;
      }
    }

    /** `_page`, from where a traversal stands between two pages. */
    method FetchPage(q: Query, ghost offset: nat, clock: nat -> Reading, pages: nat) returns (r: Result<Page, Failure>)
      requires Addressed(q.(cursor := None)) && Between(Selected(gateway.assets, q.binding), q, offset, clock, pages)
      ensures r.Err? ==> r.error.CursorStale? && 0 < pages && Lapses(clock, pages - 1)
      ensures r.Err? ==> pages <= |Selected(gateway.assets, q.binding)|
      ensures r.Ok? ==>
                var selected, items := Selected(gateway.assets, q.binding), r.value.items;
                && PageAt(selected, q, offset, clock(pages).issued, r.value)
                && offset + |items| <= |selected| && items == selected[offset..offset + |items|]
                && (r.value.next.None? ==> offset + |items| == |selected|)
    {
      hide *;
      PageBetween(gateway.assets, q, offset, clock, pages);
      r := gateway.Inventory(q, clock(pages));
      if r.Ok? {
        PageExtent(Selected(gateway.assets, q.binding), q, offset, clock(pages).issued, r.value);
      }
    }

    /** `_scan`, with what it yields collected. It always ends, no cursor ever
        repeats, and unless a cursor has expired before its page is fetched it
        yields the selection once, in order, up to the limit. */
    method Scan(initial: Query, limit: int, clock: nat -> Reading) returns (items: seq<Asset>, stop: Option<Failure>)
      requires Addressed(initial)
      ensures stop != Some(CursorStale) ==> (items, stop) == ScanSpec(Selected(gateway.assets, initial.binding), limit)
      ensures stop == Some(CursorStale) ==>
                exists k: nat :: k < |Selected(gateway.assets, initial.binding)| && Lapses(clock, k)
      ensures items <= Selected(gateway.assets, initial.binding)
    {
      hide *;
      items, stop := [], None;
      ghost var selected := Selected(gateway.assets, initial.binding);
      ScanStarts(selected, initial, limit, clock);
      if limit < 0 {
        return [], Some(BoundExceeded);
      }
      var query := initial;
      var seen: set<Cursor> := {};
      var pages: nat := 0;
      while true
        invariant |items| <= limit && Yielded(items, selected)
        invariant query.binding == initial.binding && Addressed(query.(cursor := None))
        invariant Between(selected, query, |items|, clock, pages)
        invariant Earlier(seen, |items|)
        decreases |selected| - |items|
      {
        ghost var start := |items|;
        ScanEnds(items, selected, limit);
        var r := FetchPage(query, start, clock, pages);
        if r.Err? {
          return items, Some(r.error);
        }
        var page := r.value;
        var within := Yield(|items|, page.items, limit);
        YieldsPage(items, selected, page.items, within);
        items := items + page.items[..within];
        ScanEnds(items, selected, limit);
        if within < |page.items| {
          return items, Some(BoundExceeded);
        }
        if page.next.None? {
          return items, None;
        }
        PageContinues(selected, query, start, clock, pages, page, seen);
        var token := page.next.value;
        if token in seen || (query.cursor.Some? && token == query.cursor.value) {
          // The raise of CURSOR_LOOP: every token has a larger offset than the one before.
          assert false;
        }
        seen := seen + {token};
        query := query.(cursor := Some(token));
        pages := pages + 1;
      }
    }

    /** Uniqueness and scope of each item of one kind, in order; a scanned
        inventory can only fail on provenance. */
    method CheckItems(items: seq<Asset>, kind: Kind, project: Project, before: set<ProductId>)
      returns (failure: Option<Failure>, seen: set<ProductId>)
      requires Ordered(items) && forall a :: a in items ==> a.kind == kind && a.project == project && a.id !in before
      ensures failure == if Foreign(items, project) then Some(ProjectMismatch) else None
      ensures failure.None? ==> forall id :: id in seen <==> id in before || exists a :: a in items && a.id == id
    {
      seen := before;
      for i := 0 to |items|
        invariant !Foreign(items[..i], project)
        invariant forall id :: id in seen <==> id in before || exists a :: a in items[..i] && a.id == id
      {
        var a := items[i];
        assert a in items && a.id !in seen;
        if a.id in seen {
          assert false;
        }
        seen := seen + {a.id};
        if a.kind != kind {
          assert false;
        }
        if a.project != project || a.provenance != project {
          return Some(ProjectMismatch), seen;
        }
        assert items[..i + 1] == items[..i] + [a];
      }
      assert items[..|items|] == items;
      return None, seen;
    }

    /** The answer is the specified one whenever it is an asset, and always when no cursor expires. */
    method Lookup(q: LookupRequest, clock: nat -> Reading) returns (r: Result<Asset, Failure>)
      requires Ordered(gateway.assets)
      ensures r.Ok? ==> r == LookupSpec(gateway.assets, q)
      ensures (forall k: nat :: k < |gateway.assets| ==> !Lapses(clock, k)) ==> r == LookupSpec(gateway.assets, q)
    {
      if !SupportedClass(q.kind, q.objectClass) {
        return Err(ClassMismatch);
      }
      var context := ContextFailure(gateway.assets, q.project);
      if context.Some? {
        return Err(context.value);
      }
      var query := Query(KindBinding(q.kind, q.project), q.pageSize, None);
      ghost var selected := Selected(gateway.assets, query.binding);
      SelectedHolds(gateway.assets, query.binding);
      SelectedFits(gateway.assets, query.binding);
      hide Selected, Lapses, ContextFailure, SupportedClass;
      var items, stop := Scan(query, q.limit, clock);
      assert items <= selected && Ordered(items) && forall a :: a in items ==> a in selected;
      var failure, _ := CheckItems(items, q.kind, q.project, {});
      if failure.Some? {
        return Err(failure.value);
      }
      if stop.Some? {
        return Err(stop.value);
      }
      var found := Find(items, q.id);
      if found.None? {
        return Err(NotFound);
      }
      if !found.value.active {
        return Err(UnresolvedIdentity);
      }
      if found.value.objectClass != q.objectClass {
        return Err(ClassMismatch);
      }
      return Ok(found.value);
    }

    /** The counts and samples of one kind. */
    method CountItems(items: seq<Asset>, samples: nat) returns (tally: Tally)
      ensures tally == TallyOf(items, samples)
    {
      tally := Tally(0, 0, 0, 0, []);
      for i := 0 to |items|
        invariant tally == TallyOf(items[..i], samples)
      {
        assert items[..i + 1][..i] == items[..i];
        match VerdictOf(items[i]) {
          case Supported => tally := tally.(supported := tally.supported + 1);
          case Unsupported => tally := tally.(unsupported := tally.unsupported + 1);
          case Unresolved => tally := tally.(unresolved := tally.unresolved + 1);
        }
        tally := tally.(total := tally.total + 1,
                        samples := if |tally.samples| < samples then tally.samples + [items[i]] else tally.samples);
      }
      assert items[..|items|] == items;
    }

    /** The warnings of all kinds so far, accumulated in place. */
    method WarnItems(items: seq<Asset>, limit: nat, ghost visited: seq<Asset>, before: Warnings) returns (w: Warnings)
      requires before == WarningsOf(visited, limit)
      ensures w == WarningsOf(visited + items, limit)
    {
      w := before;
      assert visited + items[..0] == visited;
      for i := 0 to |items|
        invariant w == WarningsOf(visited + items[..i], limit)
      {
        var id, verdict := items[i].id, VerdictOf(items[i]);
        ghost var all := visited + items[..i + 1];
        assert all[..|all| - 1] == visited + items[..i] && all[|all| - 1] == items[i];
        if verdict.Unresolved? {
          var examples := if |w.unresolvedExamples| < limit then [id] else [];
          w := w.(unresolved := w.unresolved + 1, unresolvedExamples := w.unresolvedExamples + examples);
        } else if verdict.Unsupported? {
          var examples := if |w.unsupportedExamples| < limit then [id] else [];
          w := w.(unsupported := w.unsupported + 1, unsupportedExamples := w.unsupportedExamples + examples);
        }
      }
      assert items[..|items|] == items;
    }

    /** One turn of the loop over kinds. */
    method SummarizeKind(q: SummaryRequest, i: nat, clock: nat -> Reading, before: Progress)
      returns (failure: Option<Failure>, after: Progress)
      requires i < |KINDS| && Ordered(gateway.assets) && ContextFailure(gateway.assets, q.project).None?
      requires Summarized(gateway.assets, q, i, before)
      ensures failure.None? ==> Summarized(gateway.assets, q, i + 1, after)
      ensures failure.Some? ==> SummarySpec(gateway.assets, q) == Err(failure.value)
                                || exists k: nat :: k < |gateway.assets| && Lapses(clock, k)
    {
      var query := Query(KindBinding(KINDS[i], q.project), q.pageSize, None);
      ghost var assets := gateway.assets;
      ghost var visited, selected := Visited(assets, q.project, i), Selected(assets, query.binding);
      after := before;
      SelectedFits(assets, query.binding);
      assert Addressed(query);
      assert before.scanned <= q.limit && before.warnings == WarningsOf(visited, q.examples);
      var items, stop := Scan(query, q.limit - before.scanned, clock);
      KindReady(assets, q, i, before, items, stop);
      var seen;
      failure, seen := CheckItems(items, KINDS[i], q.project, before.seen);
      if failure.Some? {
        return;
      }
      if stop.Some? {
        return stop, after;
      }
      assert items == selected && before.scanned + |items| <= q.limit;
      var tally := CountItems(items, q.samples);
      var warnings := WarnItems(items, q.examples, visited, before.warnings);
      KindDone(assets, q, i, before, items, seen);
      after := Progress(before.scanned + |items|, before.tallies + [tally], warnings, seen);
    }

    method Summarize(q: SummaryRequest, clocks: nat -> nat -> Reading) returns (r: Result<Summary, Failure>)
      requires Ordered(gateway.assets)
      ensures r.Ok? ==> r == SummarySpec(gateway.assets, q)
      ensures (forall i: nat, k: nat :: i < |KINDS| && k < |gateway.assets| ==> !Lapses(clocks(i), k)) ==>
                r == SummarySpec(gateway.assets, q)
    {
      var context := ContextFailure(gateway.assets, q.project);
      if context.Some? {
        return Err(context.value);
      }
      var done := Progress(0, [], Warnings(0, [], 0, []), {});
      assert Summarized(gateway.assets, q, 0, done);
      for i := 0 to |KINDS|
        invariant Summarized(gateway.assets, q, i, done)
      {
        var failure;
        failure, done := SummarizeKind(q, i, clocks(i), done);
        if failure.Some? {
          return Err(failure.value);
        }
      }
      return Ok(Summary(done.tallies, done.warnings));
    }
  }

  lemma {:induction false} SelectedFits(assets: seq<Asset>, b: Binding)
    ensures |Selected(assets, b)| <= |assets|
  {
    if assets != [] {
      SelectedFits(assets[..|assets| - 1], b);
    }
  }

  lemma {:induction false} VisitedHolds(assets: seq<Asset>, project: Project, k: nat)
    requires k <= |KINDS|
    ensures forall a :: a in Visited(assets, project, k) <==>
                          a in assets && a.project == project && exists i :: 0 <= i < k && KINDS[i] == a.kind
  {
    if k > 0 {
      VisitedHolds(assets, project, k - 1);
      SelectedHolds(assets, KindBinding(KINDS[k - 1], project));
      hide Selected;
    }
  }

  /** An asset visited under earlier kinds has another id than one of the next kind. */
  lemma NewId(assets: seq<Asset>, project: Project, k: nat, x: Asset, y: Asset)
    requires Ordered(assets) && k < |KINDS|
    requires x in Selected(assets, KindBinding(KINDS[k], project)) && y in Visited(assets, project, k)
    ensures x.id != y.id
  {
    SelectedHolds(assets, KindBinding(KINDS[k], project));
    VisitedHolds(assets, project, k);
    hide Selected, Visited;
    var i :| 0 <= i < k && KINDS[i] == y.kind;
    if x.id == y.id {
      SameIdSameAsset(assets, x, y);
    }
  }

  /** The next kind's items are of that kind, in scope, ordered, and new. */
  lemma KindApart(assets: seq<Asset>, project: Project, k: nat)
    requires Ordered(assets) && k < |KINDS|
    ensures var selected := Selected(assets, KindBinding(KINDS[k], project));
      && Ordered(selected) && (forall a :: a in selected ==> a.kind == KINDS[k] && a.project == project)
      && forall a, b :: a in selected && b in Visited(assets, project, k) ==> b.id != a.id
  {
    var b := KindBinding(KINDS[k], project);
    SelectedHolds(assets, b);
    hide Selected, Visited;
    forall x, y | x in Selected(assets, b) && y in Visited(assets, project, k)
      ensures x.id != y.id
    {
      NewId(assets, project, k, x, y);
    }
  }

  lemma {:induction false} VisitedPrefix(assets: seq<Asset>, project: Project, i: nat, k: nat)
    requires i <= k <= |KINDS|
    ensures Visited(assets, project, i) <= Visited(assets, project, k)
    decreases k
  {
    if i < k {
      VisitedPrefix(assets, project, i, k - 1);
      hide Selected;
    }
  }

  /** Before the next kind is checked: its items are new and in scope, and
      where its scan stops early the summary itself fails in the same way. */
  lemma KindReady(assets: seq<Asset>, q: SummaryRequest, k: nat, p: Progress, items: seq<Asset>, stop: Option<Failure>)
    requires Ordered(assets) && k < |KINDS| && ContextFailure(assets, q.project).None? && Summarized(assets, q, k, p)
    requires var selected := Selected(assets, KindBinding(KINDS[k], q.project));
      items <= selected && (stop != Some(CursorStale) ==> (items, stop) == ScanSpec(selected, q.limit - p.scanned))
    ensures Ordered(items) && forall a :: a in items ==> a.kind == KINDS[k] && a.project == q.project && a.id !in p.seen
    ensures stop != Some(CursorStale) ==>
              (if Foreign(items, q.project) then SummarySpec(assets, q) == Err(ProjectMismatch)
               else stop.Some? ==> SummarySpec(assets, q) == Err(stop.value))
  {
    var visited := Visited(assets, q.project, k);
    assert p.scanned == |visited| <= q.limit && !Foreign(visited, q.project)
           && forall id :: id in p.seen <==> exists a :: a in visited && a.id == id;
    KindApart(assets, q.project, k);
    YieldedFirst(assets, q, k, items, stop);
  }

  /** After the next kind is counted. */
  lemma KindDone(assets: seq<Asset>, q: SummaryRequest, k: nat, p: Progress, items: seq<Asset>, seen: set<ProductId>)
    requires k < |KINDS| && Summarized(assets, q, k, p) && items == Selected(assets, KindBinding(KINDS[k], q.project))
    requires p.scanned + |items| <= q.limit && !Foreign(items, q.project)
    requires forall id :: id in seen <==> id in p.seen || exists a :: a in items && a.id == id
    ensures Summarized(assets, q, k + 1,
                       Progress(p.scanned + |items|, p.tallies + [TallyOf(items, q.samples)],
                                WarningsOf(Visited(assets, q.project, k) + items, q.examples), seen))
  {
    var visited := Visited(assets, q.project, k);
    assert Visited(assets, q.project, k + 1) == visited + items;
    hide Visited, WarningsOf, TallyOf, Selected;
    assert !Foreign(visited + items, q.project);
    forall id
      ensures id in seen <==> exists a :: a in visited + items && a.id == id
    {
      if a :| a in items && a.id == id {
        assert a in visited + items;
      } else if a :| a in visited && a.id == id {
        assert a in visited + items;
      }
    }
  }

  /** Where a scan of the next kind stops early, the summary itself fails in the same way. */
  lemma YieldedFirst(assets: seq<Asset>, q: SummaryRequest, k: nat, items: seq<Asset>, stop: Option<Failure>)
    requires k < |KINDS| && ContextFailure(assets, q.project).None?
    requires var visited, selected := Visited(assets, q.project, k), Selected(assets, KindBinding(KINDS[k], q.project));
      && |visited| <= q.limit && !Foreign(visited, q.project) && items <= selected
      && (stop != Some(CursorStale) ==> (items, stop) == ScanSpec(selected, q.limit - |visited|))
    ensures forall a :: a in items ==> a in Selected(assets, KindBinding(KINDS[k], q.project))
    ensures Ordered(Selected(assets, KindBinding(KINDS[k], q.project))) ==> Ordered(items)
    ensures !Foreign(items, q.project) ==> !Foreign(Visited(assets, q.project, k) + items, q.project)
    ensures stop != Some(CursorStale) ==>
              (if Foreign(items, q.project) then SummarySpec(assets, q) == Err(ProjectMismatch)
               else stop.Some? ==> SummarySpec(assets, q) == Err(stop.value))
  {
    var visited, selected := Visited(assets, q.project, k), Selected(assets, KindBinding(KINDS[k], q.project));
    var next, all := Visited(assets, q.project, k + 1), Visited(assets, q.project, |KINDS|);
    assert next == visited + selected;
    VisitedPrefix(assets, q.project, k + 1, |KINDS|);
    hide Visited, Selected;
    if stop != Some(CursorStale) {
      var firsts := Firsts(all, q.limit);
      assert visited + items <= firsts;
      if Foreign(items, q.project) {
        var a :| a in items && a.provenance != q.project;
        assert a in visited + items;
        assert a in firsts;
      } else if stop.Some? {
        assert firsts == visited + items;
      }
    }
  }
}
