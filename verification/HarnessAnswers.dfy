/** When each harness call succeeds, which error it raises otherwise, and what
    it leaves: each in terms of the request, the table and the ledgers. */
module HarnessAnswers {
  import opened Common
  import opened Harness
  import opened HarnessSafety

  // ---------------------------------------------------------------------
  // Reading
  // ---------------------------------------------------------------------

  /** One asset can be read for all these attributes. */
  ghost predicate HasAll(values: Values, a: Asset, attributes: set<Attribute>) {
    a in ASSETS && forall t :: t in attributes ==> Cell(a, t) in values
  }

  ghost predicate WithinLimit(assets: seq<Asset>, attributes: set<Attribute>) {
    assets != [] && attributes != {} && |assets| * |attributes| <= 100
  }

  ghost predicate CanRead(values: Values, assets: seq<Asset>, attributes: set<Attribute>) {
    WithinLimit(assets, attributes) && forall a :: a in assets ==> HasAll(values, a, attributes)
  }

  /** The fingerprint shows exactly the live values of these assets and attributes. */
  ghost predicate Shows(f: Fingerprint, values: Values, assets: seq<Asset>, attributes: set<Attribute>) {
    && f.configuration == CONFIGURATION && f.assets == multiset(assets)
    && (forall c :: c in f.cells <==> c in values && c.asset in assets && c.attribute in attributes)
    && (forall c :: c in f.cells ==> f.cells[c] == values[c])
  }

  /** A read succeeds exactly when every asset exists, has every attribute, and
      the limit is kept; it shows the live values. The first asset in order that
      cannot be read says how it fails. */
  lemma ReadAnswers(values: Values, configuration: Id, assets: seq<Asset>, attributes: set<Attribute>)
    ensures var r := FingerprintOf(values, configuration, assets, attributes);
      && (r.Ok? <==> configuration == CONFIGURATION && CanRead(values, assets, attributes))
      && (r.Ok? ==> forall f :: Shows(f, values, assets, attributes) <==> f == r.value)
      && (r.Err? ==> r.error in {ConfigurationMismatch, InvalidOperation, ObjectNotFound})
      && (r == Err(ConfigurationMismatch) <==> configuration != CONFIGURATION)
      && (r == Err(ObjectNotFound) <==>
            && configuration == CONFIGURATION && WithinLimit(assets, attributes)
            && exists a :: && a in assets && a !in ASSETS
                           && forall b :: b in assets && b < a ==> HasAll(values, b, attributes))
  {
    ReadCovers(values, configuration, assets, attributes);
    if configuration == CONFIGURATION && WithinLimit(assets, attributes) {
      FirstUnreadable(values, assets, attributes);
    }
    ReadShows(values, configuration, assets, attributes);
    hide FingerprintOf, Shows;
    assert CanRead(values, assets, attributes) <==>
             && WithinLimit(assets, attributes) && (forall a :: a in assets ==> a in ASSETS)
             && (forall a, t :: a in assets && t in attributes ==> Cell(a, t) in values.Keys);
  }

  lemma ReadShows(values: Values, configuration: Id, assets: seq<Asset>, attributes: set<Attribute>)
    ensures var r := FingerprintOf(values, configuration, assets, attributes);
      r.Ok? ==> forall f :: Shows(f, values, assets, attributes) <==> f == r.value
  {
    var r := FingerprintOf(values, configuration, assets, attributes);
    if r.Ok? {
      forall f | Shows(f, values, assets, attributes)
        ensures f == r.value
      {
        assert f.cells == r.value.cells;
      }
    }
  }

  lemma FirstUnreadable(values: Values, assets: seq<Asset>, attributes: set<Attribute>)
    requires WithinLimit(assets, attributes)
    ensures var r := FingerprintOf(values, CONFIGURATION, assets, attributes);
      && (r.Err? ==> r.error in {InvalidOperation, ObjectNotFound})
      && (r == Err(ObjectNotFound) <==>
            exists a :: && a in assets && a !in ASSETS
                        && forall b :: b in assets && b < a ==> HasAll(values, b, attributes))
  {
    var unreadable := set a | a in assets && (a !in ASSETS || exists t :: t in attributes && Cell(a, t) !in values);
    assert forall a :: a in unreadable <==> a in assets && !HasAll(values, a, attributes);
    if unreadable != {} {
      var first := Least(unreadable);
      hide Least;
      assert forall b :: b in assets && b < first ==> HasAll(values, b, attributes);
      forall a | a in assets && a !in ASSETS && forall b :: b in assets && b < a ==> HasAll(values, b, attributes)
        ensures a == first
      {
        assert a in unreadable;
      }
    }
  }

  // ---------------------------------------------------------------------
  // Applying
  // ---------------------------------------------------------------------

  /** The authorization is registered as it is, and has not been spent. */
  ghost predicate Unspent(s: HarnessState, x: Authorization) {
    x.direct && x.execution in s.registered && s.registered[x.execution] == x && x.execution !in s.consumed
  }

  /** What an apply and a rollback are both bound to. */
  ghost predicate Current(s: HarnessState, expiresAt: Time, workspace: Id, revision: nat, expected: Version, now: Time)
  {
    && now < expiresAt && workspace == WORKSPACE && revision == s.revision
    && expected.workflow in s.counters && s.counters[expected.workflow] == expected.counter
  }

  /** The authorization is in time and names this very operation. */
  ghost predicate Authorizes(x: Authorization, digest: Digest, configuration: Id, fingerprint: Fingerprint,
                             operation: OperationType, expected: Version, now: Time)
  {
    && now < x.expiresAt && x.digest == digest && x.configuration == configuration && x.fingerprint == fingerprint
    && x.operation == operation && x.expected == expected
  }

  /** Every target is live with the value it is expected to have. */
  ghost predicate OnTarget(values: Values, changes: seq<AssetChange>) {
    forall i, t :: 0 <= i < |changes| && t in changes[i].before ==>
                     Cell(changes[i].asset, t) in values && values[Cell(changes[i].asset, t)] == changes[i].before[t]
  }

  /** The write takes one target of the change from its expected to its proposed value. */
  ghost predicate IsTarget(w: Write, c: AssetChange) {
    && w.cell.asset == c.asset && w.cell.attribute in c.before
    && w.before == c.before[w.cell.attribute] && w.proposed == c.proposed[w.cell.attribute]
  }

  /** Write `k` makes a target of change `origin[k]`. */
  ghost predicate Makes(ws: seq<Write>, changes: seq<AssetChange>, n: nat, origin: seq<nat>)
    requires n <= |changes|
  {
    |origin| == |ws| && forall k :: 0 <= k < |ws| ==> origin[k] < n && IsTarget(ws[k], changes[origin[k]])
  }

  /** Changes in order, and the attributes of one change in order. */
  ghost predicate InOrder(ws: seq<Write>, origin: seq<nat>)
    requires |origin| == |ws|
  {
    forall k, l :: 0 <= k < l < |ws| ==>
                     || origin[k] < origin[l]
                     || (origin[k] == origin[l] && ws[k].cell.attribute < ws[l].cell.attribute)
  }

  ghost predicate Reaches(ws: seq<Write>, origin: seq<nat>, i: int, t: Attribute)
    requires |origin| == |ws|
  {
    exists k :: 0 <= k < |ws| && origin[k] == i && ws[k].cell.attribute == t
  }

  ghost predicate ReachesAll(ws: seq<Write>, changes: seq<AssetChange>, n: nat, origin: seq<nat>)
    requires n <= |changes| && |origin| == |ws|
  {
    forall i, t :: 0 <= i < n && t in changes[i].before ==> Reaches(ws, origin, i, t)
  }

  lemma OwnTargets(c: AssetChange)
    ensures var ws := ChangeWrites(c);
      && (forall k :: 0 <= k < |ws| ==> IsTarget(ws[k], c))
      && (forall k, l :: 0 <= k < l < |ws| ==> ws[k].cell.attribute < ws[l].cell.attribute)
      && (forall t :: t in c.before ==> exists k :: 0 <= k < |ws| && ws[k].cell.attribute == t)
  {
    var order := OwnOrder(c);
    SortedOrders(c.before.Keys);
    hide Sorted, ChangeWrites;
    var ws := ChangeWrites(c);
    forall t | t in c.before
      ensures exists k :: 0 <= k < |ws| && ws[k].cell.attribute == t
    {
      var k :| 0 <= k < |order| && order[k] == t;
      assert ws[k].cell.attribute == t;
    }
  }

  lemma OwnOrder(c: AssetChange) returns (order: seq<Attribute>)
    ensures order == Sorted(c.before.Keys) && |order| == |ChangeWrites(c)|
    ensures forall k :: 0 <= k < |order| ==>
                          ChangeWrites(c)[k].cell.attribute == order[k] && IsTarget(ChangeWrites(c)[k], c)
  {
    order := Sorted(c.before.Keys);
    SortedOrders(c.before.Keys);
    hide Sorted;
    forall k | 0 <= k < |order|
      ensures ChangeWrites(c)[k].cell.attribute == order[k] && IsTarget(ChangeWrites(c)[k], c)
    {
      assert order[k] in order;
    }
  }

  function Repeat(i: nat, n: nat): (s: seq<nat>)
    ensures |s| == n && forall k :: 0 <= k < n ==> s[k] == i
  {
    seq(n, _ => i)
  }

  lemma MakesMore(changes: seq<AssetChange>, n: nat, front: seq<Write>, origin: seq<nat>, own: seq<Write>)
    requires n < |changes| && Makes(front, changes, n, origin)
    requires forall k :: 0 <= k < |own| ==> IsTarget(own[k], changes[n])
    ensures Makes(front + own, changes, n + 1, origin + Repeat(n, |own|))
  {
    hide IsTarget, Repeat;
  }

  lemma OrderedMore(n: nat, front: seq<Write>, origin: seq<nat>, own: seq<Write>)
    requires |origin| == |front| && InOrder(front, origin) && forall k :: 0 <= k < |origin| ==> origin[k] < n
    requires forall k, l :: 0 <= k < l < |own| ==> own[k].cell.attribute < own[l].cell.attribute
    ensures InOrder(front + own, origin + Repeat(n, |own|))
  {
    hide Repeat;
    var ws, all := front + own, origin + Repeat(n, |own|);
    forall k, l | 0 <= k < l < |ws|
      ensures all[k] < all[l] || (all[k] == all[l] && ws[k].cell.attribute < ws[l].cell.attribute)
    {
      if k >= |front| {
        assert own[k - |front|].cell.attribute < own[l - |front|].cell.attribute;
      }
    }
  }

  lemma ReachesMore(changes: seq<AssetChange>, n: nat, front: seq<Write>, origin: seq<nat>, own: seq<Write>)
    requires n < |changes| && |origin| == |front| && ReachesAll(front, changes, n, origin)
    requires forall t :: t in changes[n].before ==> exists k :: 0 <= k < |own| && own[k].cell.attribute == t
    ensures ReachesAll(front + own, changes, n + 1, origin + Repeat(n, |own|))
  {
    hide Repeat;
    var ws, all := front + own, origin + Repeat(n, |own|);
    forall i, t | 0 <= i < n + 1 && t in changes[i].before
      ensures Reaches(ws, all, i, t)
    {
      if i < n {
        assert Reaches(front, origin, i, t);
        var k :| 0 <= k < |front| && origin[k] == i && front[k].cell.attribute == t;
        assert ws[k] == front[k] && all[k] == i;
      } else {
        var k :| 0 <= k < |own| && own[k].cell.attribute == t;
        assert ws[|front| + k] == own[k] && all[|front| + k] == n;
      }
    }
  }

  /** The writes enumerate the targets of the first `n` changes. */
  ghost predicate Enumerates(ws: seq<Write>, changes: seq<AssetChange>, n: nat, origin: seq<nat>)
    requires n <= |changes|
  {
    Makes(ws, changes, n, origin) && InOrder(ws, origin) && ReachesAll(ws, changes, n, origin)
  }

  lemma EnumeratesMore(changes: seq<AssetChange>, n: nat, front: seq<Write>, origin: seq<nat>)
    requires n < |changes| && Enumerates(front, changes, n, origin)
    ensures Enumerates(front + ChangeWrites(changes[n]), changes, n + 1,
                       origin + Repeat(n, |ChangeWrites(changes[n])|))
  {
    OwnTargets(changes[n]);
    var own := ChangeWrites(changes[n]);
    hide ChangeWrites, IsTarget, Repeat;
    MakesMore(changes, n, front, origin, own);
    OrderedMore(n, front, origin, own);
    ReachesMore(changes, n, front, origin, own);
    hide InOrder, ReachesAll;
  }

  lemma EnumeratesNone(changes: seq<AssetChange>)
    ensures Enumerates([], changes, 0, [])
  {
  }

  lemma {:induction false} UpToTargets(changes: seq<AssetChange>, n: nat) returns (origin: seq<nat>)
    requires n <= |changes|
    ensures Enumerates(WritesUpTo(changes, n), changes, n, origin)
  {
    hide ChangeWrites, Repeat, Enumerates;
    if n == 0 {
      origin := [];
      EnumeratesNone(changes);
    } else {
      var before := UpToTargets(changes, n - 1);
      EnumeratesMore(changes, n - 1, WritesUpTo(changes, n - 1), before);
      origin := before + Repeat(n - 1, |ChangeWrites(changes[n - 1])|);
    }
  }

  /** An apply makes the preview's targets, in the order of its changes and
      within one change in the order of the attributes, each exactly once. */
  lemma WritesAreTheTargets(changes: seq<AssetChange>) returns (origin: seq<nat>)
    ensures Enumerates(WritesOf(changes), changes, |changes|, origin)
  {
    origin := UpToTargets(changes, |changes|);
    hide Enumerates;
  }

  lemma MatchesIffOnTarget(values: Values, changes: seq<AssetChange>)
    ensures Matches(values, WritesOf(changes)) <==> OnTarget(values, changes)
  {
    var origin := WritesAreTheTargets(changes);
    var ws := WritesOf(changes);
    hide WritesOf;
    if Matches(values, ws) {
      forall i, t | 0 <= i < |changes| && t in changes[i].before
        ensures Cell(changes[i].asset, t) in values && values[Cell(changes[i].asset, t)] == changes[i].before[t]
      {
        assert Reaches(ws, origin, i, t);
        var k :| 0 <= k < |ws| && origin[k] == i && ws[k].cell.attribute == t;
        assert ws[k].cell == Cell(changes[i].asset, t);
      }
    }
    if OnTarget(values, changes) {
      forall k | 0 <= k < |ws|
        ensures ws[k].cell in values && values[ws[k].cell] == ws[k].before
      {
        assert IsTarget(ws[k], changes[origin[k]]);
      assert ws[k].cell == Cell(changes[origin[k]].asset, ws[k].cell.attribute);
      }
    }
  }

  /** Everything an apply checks before its first write. */
  ghost predicate MayApply(s: HarnessState, p: Preview, x: Authorization, now: Time) {
    && Unspent(s, x) && p.configuration == CONFIGURATION
    && Current(s, p.expiresAt, p.workspace, p.revision, p.expected, now)
    && CanRead(s.values, ChangedAssets(p.changes), ChangedAttributes(p.changes))
    && Shows(p.fingerprint, s.values, ChangedAssets(p.changes), ChangedAttributes(p.changes))
    && OnTarget(s.values, p.changes)
    && Authorizes(x, p.digest, p.configuration, p.fingerprint, p.operation, p.expected, now)
  }

  lemma ApplyIsRefused(s: HarnessState, p: Preview, x: Authorization, now: Time)
    requires WellFormed(p)
    ensures var r := ApplyRefusal(s, p, x, now);
      var live := FingerprintOf(s.values, p.configuration, ChangedAssets(p.changes), ChangedAttributes(p.changes));
      && (r.None? <==> MayApply(s, p, x, now))
      && (r.Some? ==>
            if !Unspent(s, x) then r.value.AuthorizationInvalid?
            else if p.configuration != CONFIGURATION then r.value.ConfigurationMismatch?
            else if !Current(s, p.expiresAt, p.workspace, p.revision, p.expected, now) then r.value.StaleContext?
            else if live.Err? then r.value == live.error
            else if Shows(p.fingerprint, s.values, ChangedAssets(p.changes), ChangedAttributes(p.changes))
                    && OnTarget(s.values, p.changes) then r.value.AuthorizationInvalid?
            else r.value.StaleContext?)
  {
    ReadAnswers(s.values, p.configuration, ChangedAssets(p.changes), ChangedAttributes(p.changes));
    MatchesIffOnTarget(s.values, p.changes);
    hide FingerprintOf, WritesOf, Matches, OnTarget, Shows, CanRead, WithinLimit, ChangedAssets, ChangedAttributes,
         WellFormed;
    assert IsRegistered(s, x) <==> Unspent(s, x);
  }

  /** An apply spends its authorization exactly when it is registered and unspent,
      the preview is current, the live values are the ones it shows and expects,
      and the authorization is in time and names it. Anything else changes
      nothing, and the first check that fails says why. */
  lemma ApplyAnswers(s: HarnessState, p: Preview, x: Authorization, now: Time)
    requires WellFormed(p) && Valid(s)
    ensures var (d, r) := ApplySpec(s, p, x, now);
      var live := FingerprintOf(s.values, p.configuration, ChangedAssets(p.changes), ChangedAttributes(p.changes));
      && (MayApply(s, p, x, now) <==> d.consumed != s.consumed)
      && (MayApply(s, p, x, now) ==> d.consumed == s.consumed + {x.execution})
      && (!MayApply(s, p, x, now) ==>
            && d == s && r.Err?
            && if !Unspent(s, x) then r.error.AuthorizationInvalid?
               else if p.configuration != CONFIGURATION then r.error.ConfigurationMismatch?
               else if !Current(s, p.expiresAt, p.workspace, p.revision, p.expected, now) then r.error.StaleContext?
               else if live.Err? then r.error == live.error
               else if Shows(p.fingerprint, s.values, ChangedAssets(p.changes), ChangedAttributes(p.changes))
                       && OnTarget(s.values, p.changes) then r.error.AuthorizationInvalid?
               else r.error.StaleContext?)
  {
    ApplyIsRefused(s, p, x, now);
    if ApplyRefusal(s, p, x, now).None? {
      assert x.execution !in s.consumed && x.expected.workflow in s.counters;
      CommitSpends(s, WritesOf(p.changes), p.digest, x);
      assert x.execution in ApplySpec(s, p, x, now).0.consumed;
    }
    hide ApplyRefusal, MayApply, CommitSpec, WritesOf, FingerprintOf, Shows, OnTarget, Current, Unspent;
  }

  lemma CommitSpends(s: HarnessState, ws: seq<Write>, digest: Digest, x: Authorization)
    requires x.expected.workflow in s.counters
    ensures CommitSpec(s, ws, digest, x).0.consumed == s.consumed + {x.execution}
  {
    hide Perform;
  }

  /** What an accepted apply leaves in the ledgers. It takes the next number. A
      full one is recorded as verified and an interrupted one, which disarms the
      interruption, as needing reconciliation; both raise the workspace revision
      and the workflow's counter by one. A torn one raises neither and is not recorded. */
  ghost predicate Ledgers(s: HarnessState, d: HarnessState, r: Result<Id, Failure>, digest: Digest, expected: Version) {
    var change := s.changeSequence + 1;
    && d.changeSequence == change && d.registered == s.registered && d.rollbacks == s.rollbacks && d.runs == s.runs
    && (r == Ok(change) || r == Err(PartialMutation(change)) || r == Err(StaleContext))
    && (r != Err(StaleContext) ==>
          && d.revision == s.revision + 1 && d.counters == s.counters[expected.workflow := expected.counter + 1]
          && change in d.applied && d.applied == s.applied[change := d.applied[change]]
          && d.applied[change].digest == digest && d.applied[change].revision == d.revision
          && d.applied[change].status == (if r.Ok? then Verified else NeedsReconciliation)
          && d.fault == (if r.Ok? then s.fault else None))
    && (r == Err(StaleContext) ==>
          d.revision == s.revision && d.counters == s.counters && d.applied == s.applied && d.fault == s.fault)
  }

  lemma CommitLeaves(s: HarnessState, ws: seq<Write>, digest: Digest, x: Authorization)
    requires x.expected.workflow in s.counters && s.counters[x.expected.workflow] == x.expected.counter
    ensures var (d, r) := CommitSpec(s, ws, digest, x); Ledgers(s, d, r, digest, x.expected)
  {
    PerformStops(s.values, ws, 0, s.fault);
    hide Perform;
    var halt := Perform(s.values, ws, 0, s.fault).2;
    match halt {
      case Finished =>
      case Interrupted =>
      case Torn =>
    }
  }

  lemma ApplyRecords(s: HarnessState, p: Preview, x: Authorization, now: Time)
    requires WellFormed(p) && Valid(s) && MayApply(s, p, x, now)
    ensures var (d, r) := ApplySpec(s, p, x, now); Ledgers(s, d, r, p.digest, p.expected)
  {
    ApplyIsRefused(s, p, x, now);
    assert x.expected == p.expected && x.expected.workflow in s.counters;
    CommitLeaves(s, WritesOf(p.changes), p.digest, x);
    hide ApplyRefusal, CommitSpec, WritesOf, FingerprintOf, Shows, OnTarget, CanRead, Ledgers;
  }

  /** No later change of the preview has this target. */
  ghost predicate NamedLast(changes: seq<AssetChange>, i: int, t: Attribute)
    requires 0 <= i < |changes|
  {
    forall j :: i < j < |changes| && changes[j].asset == changes[i].asset ==> t !in changes[j].before
  }

  ghost predicate Untouched(changes: seq<AssetChange>, c: Cell) {
    forall i :: 0 <= i < |changes| && changes[i].asset == c.asset ==> c.attribute !in changes[i].before
  }

  /** Every target holds its proposed value, that of the last change naming it. */
  ghost predicate TargetsReached(after: Values, changes: seq<AssetChange>) {
    forall i, t :: 0 <= i < |changes| && t in changes[i].before && NamedLast(changes, i, t) ==>
                     && Cell(changes[i].asset, t) in after
                     && after[Cell(changes[i].asset, t)] == changes[i].proposed[t]
  }

  /** Every target is reached, and every other cell holds its old value. */
  ghost predicate Reached(before: Values, after: Values, changes: seq<AssetChange>) {
    && after.Keys == before.Keys && TargetsReached(after, changes)
    && forall c :: c in before && Untouched(changes, c) ==> after[c] == before[c]
  }

  lemma TargetsHaveCells(values: Values, changes: seq<AssetChange>, ws: seq<Write>, origin: seq<nat>)
    requires Enumerates(ws, changes, |changes|, origin) && OnTarget(values, changes)
    ensures Overlay(values, ws, |ws|).Keys == values.Keys
    ensures forall i, t :: 0 <= i < |changes| && t in changes[i].before ==> Cell(changes[i].asset, t) in values
  {
    hide InOrder, ReachesAll;
    forall k | 0 <= k < |ws|
      ensures ws[k].cell in values
    {
      assert IsTarget(ws[k], changes[origin[k]]);
      assert ws[k].cell == Cell(changes[origin[k]].asset, ws[k].cell.attribute);
    }
    OverlayKeys(values, ws, |ws|);
    hide Overlay;
  }

  lemma UntouchedHolds(values: Values, changes: seq<AssetChange>, ws: seq<Write>, origin: seq<nat>, c: Cell)
    requires Enumerates(ws, changes, |changes|, origin) && Untouched(changes, c) && c in values
    ensures c in Overlay(values, ws, |ws|) && Overlay(values, ws, |ws|)[c] == values[c]
  {
    hide InOrder, ReachesAll;
    forall k | 0 <= k < |ws|
      ensures ws[k].cell != c
    {
      assert IsTarget(ws[k], changes[origin[k]]);
    }
    OverlayCell(values, ws, |ws|, c, -1);
    hide Overlay;
  }

  lemma TargetHolds(values: Values, changes: seq<AssetChange>, ws: seq<Write>, origin: seq<nat>, i: int, t: Attribute)
    requires Enumerates(ws, changes, |changes|, origin) && 0 <= i < |changes| && NamedLast(changes, i, t)
    requires t in changes[i].before && Cell(changes[i].asset, t) in values
    ensures var c, after := Cell(changes[i].asset, t), Overlay(values, ws, |ws|);
      c in after && after[c] == changes[i].proposed[t]
  {
    var k := LastOfTarget(changes, ws, origin, i, t);
    hide Overlay, Enumerates;
    OverlayCell(values, ws, |ws|, Cell(changes[i].asset, t), k);
  }

  lemma TargetsHold(values: Values, changes: seq<AssetChange>, ws: seq<Write>, origin: seq<nat>)
    requires Enumerates(ws, changes, |changes|, origin) && OnTarget(values, changes)
    ensures TargetsReached(Overlay(values, ws, |ws|), changes)
  {
    TargetsHaveCells(values, changes, ws, origin);
    hide Overlay, Enumerates, OnTarget, NamedLast;
    forall i, t | 0 <= i < |changes| && t in changes[i].before && NamedLast(changes, i, t)
      ensures var after := Overlay(values, ws, |ws|);
        Cell(changes[i].asset, t) in after && after[Cell(changes[i].asset, t)] == changes[i].proposed[t]
    {
      TargetHolds(values, changes, ws, origin, i, t);
    }
  }

  lemma OverlayReaches(values: Values, changes: seq<AssetChange>, ws: seq<Write>, origin: seq<nat>)
    requires Enumerates(ws, changes, |changes|, origin) && OnTarget(values, changes)
    ensures Reached(values, Overlay(values, ws, |ws|), changes)
  {
    TargetsHaveCells(values, changes, ws, origin);
    TargetsHold(values, changes, ws, origin);
    hide Overlay, Untouched, Enumerates, OnTarget, TargetsReached;
    forall c | c in values && Untouched(changes, c)
      ensures Overlay(values, ws, |ws|)[c] == values[c]
    {
      UntouchedHolds(values, changes, ws, origin, c);
    }
  }

  lemma LastOfTarget(changes: seq<AssetChange>, ws: seq<Write>, origin: seq<nat>, i: int, t: Attribute)
    returns (k: nat)
    requires Enumerates(ws, changes, |changes|, origin) && 0 <= i < |changes| && NamedLast(changes, i, t)
    requires t in changes[i].before
    ensures k < |ws| && ws[k].cell == Cell(changes[i].asset, t) && ws[k].proposed == changes[i].proposed[t]
    ensures forall l :: k < l < |ws| ==> ws[l].cell != Cell(changes[i].asset, t)
  {
    assert Reaches(ws, origin, i, t);
    k :| 0 <= k < |ws| && origin[k] == i && ws[k].cell.attribute == t;
    assert IsTarget(ws[k], changes[i]);
    forall l | k < l < |ws|
      ensures ws[l].cell != Cell(changes[i].asset, t)
    {
      assert IsTarget(ws[l], changes[origin[l]]);
    }
  }

  /** A full apply reaches every target. */
  lemma ApplyReachesTheTargets(s: HarnessState, p: Preview, x: Authorization, now: Time)
    requires WellFormed(p) && Valid(s) && MayApply(s, p, x, now) && ApplySpec(s, p, x, now).1.Ok?
    ensures Reached(s.values, ApplySpec(s, p, x, now).0.values, p.changes)
  {
    ApplyIsRefused(s, p, x, now);
    var ws := RecordedWrites(s, p, x, now);
    var origin := WritesAreTheTargets(p.changes);
    OverlayReaches(s.values, p.changes, ws, origin);
    hide ApplySpec, ApplyRefusal, WritesOf, FingerprintOf, Shows, OnTarget, CanRead, Enumerates, Reached, Overlay,
         Matches, Harmless, Current, Unspent;
  }

  // ---------------------------------------------------------------------
  // Rolling back
  // ---------------------------------------------------------------------

  /** The listed cells are those of exactly the first `n` writes whose value is no longer live, in order. */
  ghost predicate Lists(cells: seq<Cell>, values: Values, ws: seq<Write>, n: nat, where: seq<nat>)
    requires n <= |ws| && forall i :: 0 <= i < |ws| ==> ws[i].cell in values
  {
    && |where| == |cells| && (forall k, l :: 0 <= k < l < |where| ==> where[k] < where[l])
    && (forall k :: 0 <= k < |where| ==> where[k] < n && cells[k] == ws[where[k]].cell)
    && (forall i :: 0 <= i < n ==> (i in where <==> values[ws[i].cell] != ws[i].proposed))
  }

  lemma ListsMore(cells: seq<Cell>, values: Values, ws: seq<Write>, n: nat, where: seq<nat>)
    requires n < |ws| && (forall i :: 0 <= i < |ws| ==> ws[i].cell in values) && Lists(cells, values, ws, n, where)
    ensures if values[ws[n].cell] != ws[n].proposed then Lists(cells + [ws[n].cell], values, ws, n + 1, where + [n])
            else Lists(cells, values, ws, n + 1, where)
  {
  }

  lemma ConflictsGrow(values: Values, ws: seq<Write>, n: nat)
    requires n < |ws| && forall i :: 0 <= i < |ws| ==> ws[i].cell in values
    ensures var before, after := Conflicts(values, ws[..n]), Conflicts(values, ws[..n + 1]);
      if values[ws[n].cell] != ws[n].proposed then after == before + [ws[n].cell] else after == before
  {
    assert ws[..n + 1][..n] == ws[..n];
  }

  lemma ListsNone(values: Values, ws: seq<Write>)
    requires forall i :: 0 <= i < |ws| ==> ws[i].cell in values
    ensures Lists(Conflicts(values, ws[..0]), values, ws, 0, [])
  {
  }

  lemma {:induction false} ConflictsUpTo(values: Values, ws: seq<Write>, n: nat) returns (where: seq<nat>)
    requires n <= |ws| && forall i :: 0 <= i < |ws| ==> ws[i].cell in values
    ensures Lists(Conflicts(values, ws[..n]), values, ws, n, where)
  {
    hide Conflicts, Lists;
    if n == 0 {
      where := [];
      ListsNone(values, ws);
    } else {
      where := ConflictsUpTo(values, ws, n - 1);
      ConflictsGrow(values, ws, n - 1);
      ListsMore(Conflicts(values, ws[..n - 1]), values, ws, n - 1, where);
      if values[ws[n - 1].cell] != ws[n - 1].proposed {
        where := where + [n - 1];
      }
    }
  }

  lemma ConflictsInOrder(values: Values, ws: seq<Write>) returns (where: seq<nat>)
    requires forall i :: 0 <= i < |ws| ==> ws[i].cell in values
    ensures Lists(Conflicts(values, ws), values, ws, |ws|, where)
  {
    where := ConflictsUpTo(values, ws, |ws|);
    assert ws[..|ws|] == ws;
    hide Conflicts, Lists;
  }

  lemma ConflictsIff(values: Values, ws: seq<Write>)
    requires forall i :: 0 <= i < |ws| ==> ws[i].cell in values
    ensures forall c :: c in Conflicts(values, ws) <==>
                          exists i :: 0 <= i < |ws| && ws[i].cell == c && values[c] != ws[i].proposed
  {
    var where := ConflictsInOrder(values, ws);
    var conflicts := Conflicts(values, ws);
    hide Conflicts;
    forall i | 0 <= i < |ws| && values[ws[i].cell] != ws[i].proposed
      ensures ws[i].cell in conflicts
    {
      var k :| 0 <= k < |where| && where[k] == i;
      assert conflicts[k] == ws[i].cell;
    }
    forall c | c in conflicts
      ensures exists i :: 0 <= i < |ws| && ws[i].cell == c && values[c] != ws[i].proposed
    {
      var k :| 0 <= k < |where| && conflicts[k] == c;
      assert where[k] in where;
    }
  }

  /** A plan can be made exactly for a recorded change, at the workflow's current
      version, when its cells can be read at once. It restores each recorded write,
      in order, from the live value to the one before the write, and holds for 300 seconds. */
  lemma PlanAnswers(s: HarnessState, change: Id, expected: Version, now: Time)
    requires Valid(s)
    ensures var r := PlanSpec(s, change, expected, now);
      && (change !in s.applied ==> r == Err(ObjectNotFound))
      && (change in s.applied ==>
            var ws := s.applied[change].writes;
            var assets, attributes := AssetList(CellsOf(ws)), AttributesOf(CellsOf(ws));
            if expected.workflow !in s.counters || s.counters[expected.workflow] != expected.counter then
              r == Err(StaleContext)
            else if !CanRead(s.values, assets, attributes) then r.Err?
            else
              && r.Ok? && r.value.change == change && r.value.workspace == WORKSPACE && r.value.expected == expected
              && r.value.configuration == CONFIGURATION && r.value.revision == s.revision
              && r.value.expiresAt == now + 300 && Shows(r.value.fingerprint, s.values, assets, attributes)
              && |r.value.items| == |ws|
              && (forall i :: 0 <= i < |ws| ==>
                                && ws[i].cell in s.values
                                && r.value.items[i] == Restoration(ws[i].cell, s.values[ws[i].cell], ws[i].before))
              && (forall c :: c in r.value.conflicts <==>
                                exists i :: && 0 <= i < |ws| && ws[i].cell == c && c in s.values
                                            && s.values[c] != ws[i].proposed))
  {
    if change in s.applied {
      var ws := s.applied[change].writes;
      assert Writes(ws, s.values.Keys);
      ReadAnswers(s.values, CONFIGURATION, AssetList(CellsOf(ws)), AttributesOf(CellsOf(ws)));
      ConflictsIff(s.values, ws);
      hide FingerprintOf, Conflicts, CanRead, Shows;
    }
  }

  /** Everything a rollback checks before its first write. */
  ghost predicate MayRollBack(s: HarnessState, p: Plan, x: Authorization, now: Time) {
    && Unspent(s, x) && p.configuration == CONFIGURATION
    && Current(s, p.expiresAt, p.workspace, p.revision, p.expected, now)
    && CanRead(s.values, AssetList(RestoredCells(p.items)), AttributesOf(RestoredCells(p.items)))
    && Shows(p.fingerprint, s.values, AssetList(RestoredCells(p.items)), AttributesOf(RestoredCells(p.items)))
    && p.conflicts == [] && Observed(s.values, p.items)
    && Authorizes(x, p.digest, p.configuration, p.fingerprint, Rollback, p.expected, now)
  }

  /** Every value to restore is live as the plan saw it. */
  ghost predicate Observed(values: Values, items: seq<Restoration>) {
    forall i :: 0 <= i < |items| ==> items[i].cell in values && values[items[i].cell] == items[i].current
  }

  /** A rollback goes through exactly when its authorization is registered and
      unspent, the plan is current and without conflicts, the live values are the
      ones it shows and saw, and the authorization is in time and names it.
      Anything else changes nothing, and the first check that fails says why. */
  lemma RollbackAnswers(s: HarnessState, p: Plan, x: Authorization, now: Time)
    ensures var (d, r) := ExecuteSpec(s, p, x, now);
      var assets, attributes := AssetList(RestoredCells(p.items)), AttributesOf(RestoredCells(p.items));
      var live := FingerprintOf(s.values, p.configuration, assets, attributes);
      && (MayRollBack(s, p, x, now) <==> r.Ok?)
      && (r.Err? ==>
            && d == s
            && if !Unspent(s, x) then r.error.AuthorizationInvalid?
               else if p.configuration != CONFIGURATION then r.error.ConfigurationMismatch?
               else if !Current(s, p.expiresAt, p.workspace, p.revision, p.expected, now) then r.error.StaleContext?
               else if live.Err? then r.error == live.error
               else if Shows(p.fingerprint, s.values, assets, attributes) && p.conflicts == []
                       && Observed(s.values, p.items) then r.error.AuthorizationInvalid?
               else r.error.RollbackConflict?)
  {
    ReadAnswers(s.values, p.configuration, AssetList(RestoredCells(p.items)), AttributesOf(RestoredCells(p.items)));
    hide FingerprintOf, Shows, CanRead, WithinLimit, RestoreAll, RestoredCells, AssetList, AttributesOf;
    assert IsRegistered(s, x) <==> Unspent(s, x);
  }

  /** Item `i` is the last of the first `n` for this cell; none is when `i` is -1. */
  ghost predicate LastFor(items: seq<Restoration>, n: nat, c: Cell, i: int)
    requires n <= |items|
  {
    && -1 <= i < n && (i >= 0 ==> items[i].cell == c)
    && forall j :: i < j < n ==> items[j].cell != c
  }

  /** Each cell holds the value that the last item for it restores, or its old one when there is none. */
  ghost predicate Restored(before: Values, after: Values, items: seq<Restoration>) {
    && (forall c, i :: LastFor(items, |items|, c, i) && i >= 0 ==> c in after && after[c] == items[i].restoreTo)
    && (forall c :: c in before && LastFor(items, |items|, c, -1) ==> c in after && after[c] == before[c])
  }

  lemma {:induction false} RestoresCell(values: Values, items: seq<Restoration>, n: nat, c: Cell, i: int)
    requires n <= |items| && LastFor(items, n, c, i) && (i < 0 ==> c in values)
    ensures var after := RestoreAll(values, items[..n]);
      c in after && after[c] == if i < 0 then values[c] else items[i].restoreTo
  {
    if n > 0 {
      assert items[..n][..n - 1] == items[..n - 1];
      if i < n - 1 {
        RestoresCell(values, items, n - 1, c, i);
      }
    }
  }

  lemma RestoresLast(values: Values, items: seq<Restoration>)
    ensures Restored(values, RestoreAll(values, items), items)
  {
    assert items[..|items|] == items;
    hide RestoreAll;
    forall c, i | LastFor(items, |items|, c, i) && (i < 0 ==> c in values)
      ensures var after := RestoreAll(values, items);
        c in after && after[c] == if i < 0 then values[c] else items[i].restoreTo
    {
      RestoresCell(values, items, |items|, c, i);
    }
  }

  /** A rollback restores the cells of its items and changes no other. It spends
      the authorization and is recorded as not yet verified. */
  lemma RollbackLeaves(s: HarnessState, p: Plan, x: Authorization, now: Time)
    requires MayRollBack(s, p, x, now)
    ensures var (d, r) := ExecuteSpec(s, p, x, now);
      && Restored(s.values, d.values, p.items)
      && d.consumed == s.consumed + {x.execution} && d.revision == s.revision + 1
      && d.counters == s.counters[p.expected.workflow := p.expected.counter + 1]
      && r == Ok(RollbackResult(p.items, None, Partial, s.revision + 1))
      && d.rollbacks == s.rollbacks[p.change := r.value]
      && d.applied == s.applied && d.registered == s.registered && d.runs == s.runs
  {
    RollbackAnswers(s, p, x, now);
    RestoresLast(s.values, p.items);
    hide ExecuteRefusal, RestoreAll, Restored, FingerprintOf, Shows, CanRead, RestoredCells, AssetList, AttributesOf,
         Unspent, Authorizes, Observed;
  }

  // ---------------------------------------------------------------------
  // Registering, running and verifying
  // ---------------------------------------------------------------------

  /** Registration succeeds exactly once for a direct-ledger authorization. It is
      then registered and unspent, and its workflow has a counter: the one it had, or the expected one. */
  lemma RegisterAnswers(s: HarnessState, x: Authorization)
    ensures var (d, r) := RegisterSpec(s, x);
      && (r.Ok? <==> x.direct && x.execution !in s.registered)
      && (r.Err? ==> r.error.AuthorizationInvalid? && d == s)
      && (r.Ok? ==>
            && Unspent(d, x) && RegisterSpec(d, x).1.Err? && x.expected.workflow in d.counters
            && (forall y :: y != x ==> (Unspent(d, y) <==> Unspent(s, y)))
            && (forall w :: w in s.counters ==> w in d.counters && d.counters[w] == s.counters[w])
            && (x.expected.workflow !in s.counters ==> d.counters[x.expected.workflow] == x.expected.counter)
            && d.values == s.values && d.revision == s.revision && d.applied == s.applied)
  {
  }

  const LIVE_LOADS := (Cell(5, 0), Cell(6, 0))

  /** A load flow runs exactly for the fixture's configuration, with admitted
      settings, when the live loads together are at most 90 MW; it stores under the
      next number the two voltages and the line loading that this load gives. */
  lemma RunAnswers(s: HarnessState, configuration: Id, settings: bool)
    requires Valid(s)
    ensures LIVE_LOADS.0 in s.values && LIVE_LOADS.1 in s.values
    ensures var load := s.values[LIVE_LOADS.0].value + s.values[LIVE_LOADS.1].value;
      var (d, r) := RunSpec(s, configuration, settings);
      && (r == Err(ConfigurationMismatch) <==> configuration != CONFIGURATION)
      && (r == Err(InvalidOperation) <==> configuration == CONFIGURATION && !settings)
      && (r == Err(NonConvergence) <==> configuration == CONFIGURATION && settings && load > 90.0)
      && (r.Ok? <==> configuration == CONFIGURATION && settings && load <= 90.0)
      && (r.Err? ==> d == s)
      && (r.Ok? ==>
            && r.value == s.runSequence + 1 == d.runSequence && r.value in d.runs
            && d == s.(runSequence := d.runSequence, runs := s.runs[r.value := d.runs[r.value]])
            && Gives(d.runs[r.value], load))
  {
    assert LIVE_LOADS.0 in FIXTURE.Keys && LIVE_LOADS.1 in FIXTURE.Keys;
  }

  /** Per MW of load bus 1 loses a thousandth, bus 2 one and a half, and the line takes two percent of its rating. */
  predicate Gives(results: Results, load: real) {
    && 1000.0 * (1.0 - results.bus1) == load && 1000.0 * (1.01 - results.bus2) == 1.5 * load
    && results.loading == 2.0 * load
  }

  /** A rollback is verified against two runs exactly when the request can hold
      the three metrics and all three records exist. Of runs at loads `a` and `b` the
      answer is VERIFIED when `b` differs by less than 2.5 MW and is not the one to pass 40 or 50 MW, else FAILED. */
  lemma VerifyAnswers(s: HarnessState, change: Id, baseline: Id, restored: Id, limit: int, a: real, b: real)
    requires baseline in s.runs ==> Gives(s.runs[baseline], a)
    requires restored in s.runs ==> Gives(s.runs[restored], b)
    ensures var (d, r) := VerifySpec(s, change, baseline, restored, limit);
      && (r.Ok? <==> 3 <= limit <= 100 && change in s.rollbacks && baseline in s.runs && restored in s.runs)
      && (r.Err? ==> d == s)
      && (r == Err(ObjectNotFound) <==>
            1 <= limit <= 100 && !(change in s.rollbacks && baseline in s.runs && restored in s.runs))
      && (r.Err? ==> r.error.ObjectNotFound? || r.error.InvalidOperation?)
      && (r.Ok? ==>
            var good := -2.5 < b - a < 2.5 && !(a <= 40.0 < b) && !(a <= 50.0 < b);
            && d == s.(rollbacks := s.rollbacks[change := r.value])
            && r.value == s.rollbacks[change].(reproduced := Some(good), status := if good then Verified else Failed))
  {
    if baseline in s.runs && restored in s.runs {
      ReproducedIff(a, b);
      GivenResults(s.runs[baseline], a);
      GivenResults(s.runs[restored], b);
    }
    hide Reproduced, ResultsFor, Gives;
  }

  lemma GivenResults(results: Results, load: real)
    requires Gives(results, load)
    ensures results == ResultsFor(load)
  {
  }
}
