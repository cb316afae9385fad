/** When one reconcile brings every followed target up to date, told from the sources that run before
    it: exactly when each target, in its turn, either fits beside the answers before it and whatever
    still runs of the others, or is up to date already. */
module Convergence {
  import opened Options
  import opened Packets
  import opened Reconcile

  // ---------- Counting against a limit ----------

  /** What a limit counts: all workload sources of the session, or the sources on one node. */
  datatype Group = AllWorkloads | OnNode(node: Name)

  predicate In(g: Group, s: Source) {
    match g
    case AllWorkloads => s.targetType.WorkloadType?
    case OnNode(node) => s.nodeName == node
  }

  function Limit(g: Group): nat {
    if g.AllWorkloads? then MAX_PODS else MAX_PER_NODE
  }

  function Members(sources: Sources, g: Group): set<Name> {
    set id | id in sources && In(g, sources[id])
  }

  function Number(list: seq<Source>, g: Group): nat {
    match g
    case AllWorkloads => |list|
    case OnNode(node) => CountOn(list, node)
  }

  function Only(sources: Sources, target: Name): Sources {
    map id | id in sources && sources[id].targetID == target :: sources[id]
  }

  ghost predicate AreWorkloads(list: seq<Source>) {
    forall i :: 0 <= i < |list| ==> list[i].targetType.WorkloadType?
  }

  function IDsOf(list: seq<Source>, g: Group): set<Name> {
    if list == [] then {}
    else IDsOf(list[..|list| - 1], g) + if In(g, list[|list| - 1]) then {list[|list| - 1].id} else {}
  }

  lemma {:induction false} IDsHold(list: seq<Source>, g: Group, id: Name)
    ensures id in IDsOf(list, g) <==> exists i :: 0 <= i < |list| && list[i].id == id && In(g, list[i])
    decreases |list|
  {
    if list != [] {
      var n := |list| - 1;
      var front := list[..n];
      IDsHold(front, g, id);
      assert forall i :: 0 <= i < n ==> front[i] == list[i];
      if id in IDsOf(list, g) && id !in IDsOf(front, g) {
        assert list[n].id == id && In(g, list[n]);
      }
    }
  }

  lemma {:induction false} IDsCount(list: seq<Source>, g: Group)
    requires DistinctIDs(list) && AreWorkloads(list)
    ensures |IDsOf(list, g)| == Number(list, g)
    decreases |list|
  {
    if list != [] {
      var n := |list| - 1;
      assert DistinctIDs(list[..n]);
      IDsCount(list[..n], g);
      IDsHold(list[..n], g, list[n].id);
    }
  }

  /** A target that matches counts what was resolved for it. */
  lemma MatchedCount(sources: Sources, target: Name, resolved: seq<Source>, g: Group)
    requires DistinctIDs(resolved) && AreWorkloads(resolved) && Matches(sources, target, resolved)
    requires forall id :: id in Running(sources, target) ==> sources[id].targetType.WorkloadType?
    ensures |Members(Only(sources, target), g)| == Number(resolved, g)
  {
    IDsCount(resolved, g);
    forall id ensures id in Members(Only(sources, target), g) <==> id in IDsOf(resolved, g) {
      IDsHold(resolved, g, id);
      if id in Running(sources, target) {
        var i :| 0 <= i < |resolved| && resolved[i].id == id;
        assert Same(resolved[i], sources[id]);
        assert forall j :: 0 <= j < |resolved| && resolved[j].id == id ==> j == i;
      }
    }
    assert Members(Only(sources, target), g) == IDsOf(resolved, g);
  }

  lemma SplitOff(sources: Sources, out: set<Name>, target: Name, g: Group)
    requires target !in out
    ensures |Members(Rest(sources, out), g)| ==
            |Members(Rest(sources, out + {target}), g)| + |Members(Only(sources, target), g)|
  {
    var a, b := Members(Rest(sources, out + {target}), g), Members(Only(sources, target), g);
    assert Members(Rest(sources, out), g) == a + b;
    assert a !! b;
  }

  // ---------- The condition ----------

  ghost predicate Handled(target: Target, resolve: Name -> Option<seq<Source>>) {
    Followed(target) && resolve(target.id).Some?
  }

  ghost function HandledIDs(targets: seq<Target>, resolve: Name -> Option<seq<Source>>): set<Name> {
    set k | 0 <= k < |targets| && Handled(targets[k], resolve) :: targets[k].id
  }

  /** How much of a limit the answers for these targets take up. */
  ghost function Wanted(targets: seq<Target>, resolve: Name -> Option<seq<Source>>, g: Group): nat {
    if targets == [] then 0
    else
      var front, last := targets[..|targets| - 1], targets[|targets| - 1];
      Wanted(front, resolve, g) + if Handled(last, resolve) then Number(resolve(last.id).value, g) else 0
  }

  /** Target k fits beside the answers before it and what runs of the targets not yet seen. */
  ghost predicate FitsInTurn(sources: Sources, targets: seq<Target>, k: nat, resolve: Name -> Option<seq<Source>>)
    requires k < |targets| && Handled(targets[k], resolve)
  {
    var t, before := targets[k], targets[..k];
    var resolved := resolve(t.id).value;
    && |resolved| <= t.maxPods
    && forall g: Group ::
         |Members(Rest(sources, HandledIDs(before, resolve) + {t.id}), g)| + Wanted(before, resolve, g) + Number(resolved, g) <= Limit(g)
  }

  ghost predicate WillMatch(sources: Sources, targets: seq<Target>, k: nat, resolve: Name -> Option<seq<Source>>)
    requires k < |targets|
  {
    Handled(targets[k], resolve) ==>
      FitsInTurn(sources, targets, k, resolve) || Matches(sources, targets[k].id, resolve(targets[k].id).value)
  }

  /** Whatever runs for a followed target is a workload source, and so is whatever is resolved for it. */
  ghost predicate Typed(sources: Sources, targets: seq<Target>) {
    forall id, k :: id in sources && 0 <= k < |targets| && Followed(targets[k]) && sources[id].targetID == targets[k].id ==>
      sources[id].targetType.WorkloadType?
  }

  /** The targets have distinct IDs, agents accept their sources, and these are named after them. */
  ghost predicate Settled(targets: seq<Target>, resolve: Name -> Option<seq<Source>>, starts: Source -> bool, owner: Name -> Name) {
    && DistinctTargets(targets)
    && (forall k :: 0 <= k < |targets| ==> Settles(targets[k], resolve, starts, owner))
    && (forall k :: 0 <= k < |targets| && Handled(targets[k], resolve) ==> AreWorkloads(resolve(targets[k].id).value))
  }

  lemma SettledFront(targets: seq<Target>, n: nat, resolve: Name -> Option<seq<Source>>, starts: Source -> bool, owner: Name -> Name)
    requires Settled(targets, resolve, starts, owner) && n < |targets|
    ensures Settled(targets[..n], resolve, starts, owner) && targets[n].id !in HandledIDs(targets[..n], resolve)
    ensures Settles(targets[n], resolve, starts, owner)
    ensures Handled(targets[n], resolve) ==> AreWorkloads(resolve(targets[n].id).value)
    ensures HandledIDs(targets[..n + 1], resolve) ==
            HandledIDs(targets[..n], resolve) + if Handled(targets[n], resolve) then {targets[n].id} else {}
  {
    var front, more := targets[..n], targets[..n + 1];
    assert forall k :: 0 <= k < n ==> front[k] == targets[k] == more[k];
    assert more[n] == targets[n];
  }

  // ---------- What every pass keeps ----------

  lemma TurnKeeps(sources: Sources, all: seq<Target>, target: Target,
                  resolve: Name -> Option<seq<Source>>, starts: Source -> bool, owner: Name -> Name)
    requires Owned(sources, owner) && Typed(sources, all) && Settles(target, resolve, starts, owner)
    requires Handled(target, resolve) ==> AreWorkloads(resolve(target.id).value)
    ensures var after := Step(sources, target, resolve, starts);
            Owned(after, owner) && Typed(after, all) && Rest(after, {target.id}) == Rest(sources, {target.id})
  {
    if Acts(sources, target, resolve) {
      var resolved := resolve(target.id).value;
      hide Admitted, Matches;
      ReconciledMatches(sources, target.id, resolved, starts, owner);
      OthersUntouched(sources, target.id, resolved, starts, owner);
      TypesKept(sources, all, target.id, resolved, starts);
    }
  }

  lemma TypesKept(sources: Sources, all: seq<Target>, target: Name, resolved: seq<Source>, starts: Source -> bool)
    requires Typed(sources, all) && AreWorkloads(resolved)
    ensures Typed(Reconciled(sources, target, resolved, starts), all)
  {
    DesiredHolds(resolved);
    var desired, after := Desired(resolved), Reconciled(sources, target, resolved, starts);
    forall id | id in after ensures (id in sources && after[id] == sources[id]) || after[id].targetType.WorkloadType? {
      if id in desired {
        var i :| 0 <= i < |resolved| && resolved[i] == desired[id] && resolved[i].id == id;
      }
    }
  }

  lemma WiderRest(a: Sources, b: Sources, out: set<Name>, more: set<Name>)
    requires Rest(a, out) == Rest(b, out) && out <= more
    ensures Rest(a, more) == Rest(b, more)
  {
    assert Rest(a, more) == Rest(Rest(a, out), more);
    assert Rest(b, more) == Rest(Rest(b, out), more);
  }

  lemma {:induction false} PassKeeps(sources: Sources, all: seq<Target>, n: nat,
                                     resolve: Name -> Option<seq<Source>>, starts: Source -> bool, owner: Name -> Name)
    requires Owned(sources, owner) && Typed(sources, all) && Settled(all, resolve, starts, owner) && n <= |all|
    ensures var after := Pass(sources, all[..n], resolve, starts);
            Owned(after, owner) && Typed(after, all)
            && Rest(after, HandledIDs(all[..n], resolve)) == Rest(sources, HandledIDs(all[..n], resolve))
    decreases n
  {
    if n > 0 {
      PassKeeps(sources, all, n - 1, resolve, starts, owner);
      SettledFront(all, n - 1, resolve, starts, owner);
      assert all[..n][..n - 1] == all[..n - 1];
      var before, out := Pass(sources, all[..n - 1], resolve, starts), HandledIDs(all[..n], resolve);
      var after := Step(before, all[n - 1], resolve, starts);
      TurnKeeps(before, all, all[n - 1], resolve, starts, owner);
      hide Owned, Typed, Settled, Settles, Rest, Step, Pass;
      WiderRest(before, sources, HandledIDs(all[..n - 1], resolve), out);
      if Handled(all[n - 1], resolve) {
        WiderRest(after, before, {all[n - 1].id}, out);
      } else {
        Unhandled(before, all[n - 1], resolve, starts);
      }
    }
  }

  lemma Unhandled(sources: Sources, target: Target, resolve: Name -> Option<seq<Source>>, starts: Source -> bool)
    requires !Handled(target, resolve)
    ensures Step(sources, target, resolve, starts) == sources
  {
  }

  lemma SameMatches(a: Sources, b: Sources, out: set<Name>, target: Name, resolved: seq<Source>)
    requires Rest(a, out) == Rest(b, out) && target !in out
    ensures Matches(a, target, resolved) <==> Matches(b, target, resolved)
  {
    var rest := Rest(a, out);
    assert forall id :: id in a && a[id].targetID == target ==> id in rest && rest[id] == a[id];
    assert forall id :: id in b && b[id].targetID == target ==> id in rest && rest[id] == b[id];
    assert forall id :: id in rest ==> id in a && id in b && a[id] == b[id] == rest[id];
    hide Rest;
  }

  // ---------- The guards, counted from the start ----------

  lemma AdmittedIff(sources: Sources, target: Name, maxPods: nat, resolved: seq<Source>)
    ensures Admitted(sources, target, maxPods, resolved) <==>
              && |resolved| <= maxPods
              && forall g: Group :: |Members(Rest(sources, {target}), g)| + Number(resolved, g) <= Limit(g)
  {
    var others := Rest(sources, {target});
    assert others == Excluding(sources, target);
    assert Members(others, AllWorkloads) == Workloads(others);
    assert forall node: Name :: Members(others, OnNode(node)) == On(others, node);
    hide Rest, Excluding, Members, Workloads, On;
    if forall g: Group :: |Members(others, g)| + Number(resolved, g) <= Limit(g) {
      forall node: Name ensures |On(others, node)| + CountOn(resolved, node) <= 50 {
        assert |Members(others, OnNode(node))| + Number(resolved, OnNode(node)) <= Limit(OnNode(node));
      }
      assert |Members(others, AllWorkloads)| + Number(resolved, AllWorkloads) <= Limit(AllWorkloads);
    }
  }

  /** Beside a target, the targets of this prefix count what was resolved for them. */
  lemma {:induction false} Partition(sources: Sources, target: Name, all: seq<Target>, n: nat, g: Group,
                                     resolve: Name -> Option<seq<Source>>, starts: Source -> bool, owner: Name -> Name)
    requires Settled(all, resolve, starts, owner) && Typed(sources, all) && n <= |all|
    requires AllMatch(sources, all[..n], resolve) && forall k :: 0 <= k < n ==> all[k].id != target
    ensures |Members(Rest(sources, {target}), g)| ==
            |Members(Rest(sources, HandledIDs(all[..n], resolve) + {target}), g)| + Wanted(all[..n], resolve, g)
    decreases n
  {
    if n == 0 {
      assert HandledIDs(all[..0], resolve) + {target} == {target};
    } else {
      MatchFront(sources, all, n, resolve);
      hide Settled, Typed, AllMatch, Matches, DistinctIDs, Rest, Members, HandledIDs, Wanted;
      Partition(sources, target, all, n - 1, g, resolve, starts, owner);
      PartitionStep(sources, target, all, n - 1, g, resolve, starts, owner);
    }
  }

  lemma PartitionStep(sources: Sources, target: Name, all: seq<Target>, k: nat, g: Group,
                      resolve: Name -> Option<seq<Source>>, starts: Source -> bool, owner: Name -> Name)
    requires Settled(all, resolve, starts, owner) && Typed(sources, all) && k < |all| && all[k].id != target
    requires Handled(all[k], resolve) ==>
               DistinctIDs(resolve(all[k].id).value) && Matches(sources, all[k].id, resolve(all[k].id).value)
    ensures var out, out' := HandledIDs(all[..k], resolve) + {target}, HandledIDs(all[..k + 1], resolve) + {target};
            |Members(Rest(sources, out), g)| + Wanted(all[..k], resolve, g)
            == |Members(Rest(sources, out'), g)| + Wanted(all[..k + 1], resolve, g)
  {
    var last, out := all[k], HandledIDs(all[..k], resolve) + {target};
    assert all[..k + 1][..k] == all[..k];
    assert Wanted(all[..k + 1], resolve, g) ==
           Wanted(all[..k], resolve, g) + if Handled(last, resolve) then Number(resolve(last.id).value, g) else 0;
    SettledFront(all, k, resolve, starts, owner);
    hide Wanted, Settled, Matches, Rest, Members, Only, Number, DistinctIDs, AreWorkloads, HandledIDs;
    if Handled(last, resolve) {
      TypedRunning(sources, all, k);
      hide Typed, Running;
      assert HandledIDs(all[..k + 1], resolve) + {target} == out + {last.id};
      SplitOff(sources, out, last.id, g);
      MatchedCount(sources, last.id, resolve(last.id).value, g);
    } else {
      assert HandledIDs(all[..k + 1], resolve) + {target} == out;
    }
  }

  lemma TypedRunning(sources: Sources, all: seq<Target>, k: nat)
    requires Typed(sources, all) && k < |all| && Followed(all[k])
    ensures forall id :: id in Running(sources, all[k].id) ==> sources[id].targetType.WorkloadType?
  {
  }

  lemma MatchFront(sources: Sources, all: seq<Target>, n: nat, resolve: Name -> Option<seq<Source>>)
    requires 0 < n <= |all| && AllMatch(sources, all[..n], resolve)
    ensures AllMatch(sources, all[..n - 1], resolve)
    ensures Handled(all[n - 1], resolve) ==>
              DistinctIDs(resolve(all[n - 1].id).value) && Matches(sources, all[n - 1].id, resolve(all[n - 1].id).value)
  {
    hide Matches, DistinctIDs;
    var some, front := all[..n], all[..n - 1];
    assert forall k :: 0 <= k < n - 1 ==> front[k] == some[k];
    assert some[n - 1] == all[n - 1];
  }

  /** Once the targets before it match, the guards let a target through exactly if it fits in its turn. */
  lemma ActsIffFits(sources: Sources, now: Sources, all: seq<Target>, k: nat,
                    resolve: Name -> Option<seq<Source>>, starts: Source -> bool, owner: Name -> Name)
    requires k < |all| && Handled(all[k], resolve) && Settled(all, resolve, starts, owner) && Typed(now, all)
    requires AllMatch(now, all[..k], resolve)
    requires Rest(now, HandledIDs(all[..k], resolve)) == Rest(sources, HandledIDs(all[..k], resolve))
    ensures Acts(now, all[k], resolve) <==> FitsInTurn(sources, all, k, resolve)
  {
    var t, out := all[k].id, HandledIDs(all[..k], resolve);
    var resolved := resolve(t).value;
    AdmittedIff(now, t, all[k].maxPods, resolved);
    WiderRest(now, sources, out, out + {t});
    hide Rest, Members, Number, Limit, Wanted, HandledIDs, AllMatch;
    forall g: Group
      ensures |Members(Rest(now, {t}), g)| == |Members(Rest(sources, out + {t}), g)| + Wanted(all[..k], resolve, g)
    {
      Partition(now, t, all, k, g, resolve, starts, owner);
    }
    hide Settled, Typed, Admitted;
  }

  // ---------- The theorem ----------

  /** One reconcile brings every followed target up to date if and only if each of them, judged from the
      sources that run before it, fits in its turn or matches already. */
  lemma {:induction false} PassConverges(sources: Sources, all: seq<Target>, n: nat,
                                         resolve: Name -> Option<seq<Source>>, starts: Source -> bool, owner: Name -> Name)
    requires Owned(sources, owner) && Typed(sources, all) && Settled(all, resolve, starts, owner) && n <= |all|
    ensures AllMatch(Pass(sources, all[..n], resolve, starts), all[..n], resolve)
            <==> forall k :: 0 <= k < n ==> WillMatch(sources, all, k, resolve)
    decreases n
  {
    if n > 0 {
      var before := Pass(sources, all[..n - 1], resolve, starts);
      assert all[..n][..n - 1] == all[..n - 1];
      PassKeeps(sources, all, n - 1, resolve, starts, owner);
      hide Owned, Typed, Settled, WillMatch, AllMatch, Rest, HandledIDs, Step;
      PassConverges(sources, all, n - 1, resolve, starts, owner);
      LastTurn(sources, before, all, n - 1, resolve, starts, owner);
    }
  }

  lemma LastTurn(sources: Sources, before: Sources, all: seq<Target>, k: nat,
                 resolve: Name -> Option<seq<Source>>, starts: Source -> bool, owner: Name -> Name)
    requires k < |all| && Owned(before, owner) && Typed(before, all) && Settled(all, resolve, starts, owner)
    requires Rest(before, HandledIDs(all[..k], resolve)) == Rest(sources, HandledIDs(all[..k], resolve))
    ensures AllMatch(Step(before, all[k], resolve, starts), all[..k + 1], resolve)
            <==> AllMatch(before, all[..k], resolve) && WillMatch(sources, all, k, resolve)
  {
    var after := Step(before, all[k], resolve, starts);
    SettledFront(all, k, resolve, starts, owner);
    OthersMatchAlike(before, all, k, resolve, starts, owner);
    assert all[..k + 1] == all[..k] + [all[k]];
    if Handled(all[k], resolve) {
      var t, resolved := all[k].id, resolve(all[k].id).value;
      if AllMatch(before, all[..k], resolve) {
        ActsIffFits(sources, before, all, k, resolve, starts, owner);
        TurnConverges(before, all[k], resolve, starts, owner);
        SameMatches(before, sources, HandledIDs(all[..k], resolve), t, resolved);
      }
      hide Matches, Rest, Acts, FitsInTurn, HandledIDs, Owned, Typed, Settled;
      MatchPush(after, all, k, resolve);
    } else {
      hide Matches, Rest, Acts, FitsInTurn, HandledIDs, Owned, Typed, Settled;
      MatchPush(after, all, k, resolve);
    }
  }

  lemma MatchPush(sources: Sources, all: seq<Target>, k: nat, resolve: Name -> Option<seq<Source>>)
    requires k < |all| && (Handled(all[k], resolve) ==> DistinctIDs(resolve(all[k].id).value))
    ensures AllMatch(sources, all[..k + 1], resolve) <==>
              AllMatch(sources, all[..k], resolve)
              && (Handled(all[k], resolve) ==> Matches(sources, all[k].id, resolve(all[k].id).value))
  {
    hide Matches, DistinctIDs;
    var some, front := all[..k + 1], all[..k];
    assert forall i :: 0 <= i < k ==> front[i] == some[i];
    assert some[k] == all[k];
  }

  lemma OthersMatchAlike(before: Sources, all: seq<Target>, k: nat,
                         resolve: Name -> Option<seq<Source>>, starts: Source -> bool, owner: Name -> Name)
    requires k < |all| && Owned(before, owner) && Typed(before, all) && Settled(all, resolve, starts, owner)
    ensures AllMatch(Step(before, all[k], resolve, starts), all[..k], resolve) <==> AllMatch(before, all[..k], resolve)
  {
    var after, front := Step(before, all[k], resolve, starts), all[..k];
    SettledFront(all, k, resolve, starts, owner);
    TurnKeeps(before, all, all[k], resolve, starts, owner);
    assert forall i :: 0 <= i < k ==> front[i].id != all[k].id;
    hide Matches, Rest, Owned, Typed, Settled, Settles, Step;
    forall i | 0 <= i < k && Handled(front[i], resolve)
      ensures Matches(after, front[i].id, resolve(front[i].id).value) <==> Matches(before, front[i].id, resolve(front[i].id).value)
    {
      SameMatches(after, before, {all[k].id}, front[i].id, resolve(front[i].id).value);
    }
  }

  /** Two reconciles in a row, where the first one converges: the second sends no command. */
  method ReconcileTwice(runtime: SessionRuntime, targets: seq<Target>, resolve: Name -> Option<seq<Source>>,
                        reachable: Source -> bool, starts: Source -> bool, ghost owner: Name -> Name)
    returns (once: seq<Command>)
    requires runtime.Valid() && Owned(runtime.sources, owner) && Typed(runtime.sources, targets)
    requires Settled(targets, resolve, starts, owner)
    requires forall k :: 0 <= k < |targets| ==> WillMatch(runtime.sources, targets, k, resolve)
    modifies runtime
    ensures runtime.Valid() && AllMatch(runtime.sources, targets, resolve)
    ensures runtime.sources == Pass(old(runtime.sources), targets, resolve, starts)
    ensures old(runtime.commands) <= once == runtime.commands
  {
    hide Owned, Typed, Settled, WillMatch, AllMatch, Within;
    PassConverges(runtime.sources, targets, |targets|, resolve, starts, owner);
    assert targets[..|targets|] == targets;
    runtime.ReconcileAll(targets, resolve, reachable, starts);
    once := runtime.commands;
    runtime.ReconcileAll(targets, resolve, reachable, starts);
  }

  // ---------- Answers within the limits that are never reached ----------

  function Pod(id: Name, target: Name, node: Name): Source {
    Source(id, target, WorkloadType, node, 0, 0, 0, 0, 0, 0)
  }

  /** Two targets of fifty pods each, on nodes of their own or, moved, on each other's. */
  function PodAt(first: nat, moved: bool, id: nat): Source {
    if id < first + 50 then Pod(id, 0, if moved then 1 else 0) else Pod(id, 1, if moved then 0 else 1)
  }

  function Layout(first: nat, moved: bool): Sources {
    map id | id in Range(first, first + 100) :: PodAt(first, moved, id)
  }

  lemma LayoutHolds(first: nat, moved: bool)
    ensures forall id :: id in Layout(first, moved) <==> first <= id < first + 100
    ensures forall id :: id in Layout(first, moved) ==> Layout(first, moved)[id] == PodAt(first, moved, id)
  {
    RangeHolds(first, first + 100);
    hide Range;
  }

  const SWAP_TARGETS := [WorkloadTarget(0, true, 50), WorkloadTarget(1, true, 50)]

  /** Both targets are to move to the other's node. */
  function SwapAnswer(target: Name): Option<seq<Source>> {
    if target < 2 then Some(FiftyPods(100 + 50 * target, target, 1 - target)) else None
  }

  function FiftyPods(first: nat, target: Name, node: Name): (r: seq<Source>)
    ensures |r| == 50 && forall i :: 0 <= i < 50 ==> r[i] == Pod(first + i, target, node)
  {
    seq(50, i requires 0 <= i < 50 => Pod(first + i, target, node))
  }

  function SwapOwner(id: Name): Name {
    if id < 50 || 100 <= id < 150 then 0 else 1
  }

  predicate Accepted(s: Source) {
    true
  }

  function Range(lo: nat, hi: nat): set<nat>
    requires lo <= hi
    decreases hi - lo
  {
    if lo == hi then {} else Range(lo, hi - 1) + {hi - 1}
  }

  lemma {:induction false} RangeHolds(lo: nat, hi: nat)
    requires lo <= hi
    ensures |Range(lo, hi)| == hi - lo && forall i: nat :: i in Range(lo, hi) <==> lo <= i < hi
    decreases hi - lo
  {
    if lo < hi {
      RangeHolds(lo, hi - 1);
    }
  }

  lemma LayoutSize(first: nat, moved: bool)
    ensures |Workloads(Layout(first, moved))| == 100
  {
    LayoutHolds(first, moved);
    RangeHolds(first, first + 100);
    hide Range, Layout;
    assert Workloads(Layout(first, moved)) == Range(first, first + 100);
  }

  lemma LayoutOn(first: nat, moved: bool, node: Name)
    ensures |On(Layout(first, moved), node)| == if node < 2 then 50 else 0
  {
    LayoutHolds(first, moved);
    hide Layout;
    if node < 2 {
      var lo := if (node == 0) != moved then first else first + 50;
      RangeHolds(lo, lo + 50);
      hide Range;
      assert On(Layout(first, moved), node) == Range(lo, lo + 50);
    } else {
      assert On(Layout(first, moved), node) == {};
    }
  }

  lemma LayoutWithin(first: nat, moved: bool)
    ensures Within(Layout(first, moved))
  {
    hide Layout, On, Workloads;
    forall node: Name ensures |On(Layout(first, moved), node)| <= MAX_PER_NODE {
      LayoutOn(first, moved, node);
    }
    LayoutSize(first, moved);
  }

  lemma {:induction false} CountAll(list: seq<Source>, node: Name)
    requires forall i :: 0 <= i < |list| ==> list[i].nodeName == node
    ensures CountOn(list, node) == |list|
    decreases |list|
  {
    if list != [] {
      CountAll(list[..|list| - 1], node);
    }
  }

  /** Each target finds the node it wants full of the other's pods. */
  lemma SwapTurnedAway(target: Name)
    requires target < 2
    ensures !Acts(Layout(0, false), SWAP_TARGETS[target], SwapAnswer)
  {
    hide Layout, CountOn;
    var all, resolved, node := Layout(0, false), SwapAnswer(target).value, 1 - target;
    LayoutHolds(0, false);
    assert On(Excluding(all, target), node) == On(all, node);
    LayoutOn(0, false, node);
    CountAll(resolved, node);
    assert |On(Excluding(all, target), node)| + CountOn(resolved, node) == 100;
  }

  /** The limits can keep answers within them out of reach: both targets may swap their nodes within the
      limits, and every agent accepts, yet no reconcile ever sends a command. */
  lemma SwapIsStuck()
    ensures Owned(Layout(0, false), SwapOwner) && Typed(Layout(0, false), SWAP_TARGETS)
    ensures Settled(SWAP_TARGETS, SwapAnswer, Accepted, SwapOwner)
    ensures Within(Layout(0, false)) && Within(Layout(100, true)) && AllMatch(Layout(100, true), SWAP_TARGETS, SwapAnswer)
    ensures Pass(Layout(0, false), SWAP_TARGETS, SwapAnswer, Accepted) == Layout(0, false)
    ensures !AllMatch(Layout(0, false), SWAP_TARGETS, SwapAnswer)
  {
    hide Layout, SwapAnswer, Within, Acts;
    LayoutWithin(0, false);
    LayoutWithin(100, true);
    SwapSettled();
    SwapTurnedAway(0);
    SwapTurnedAway(1);
    assert SWAP_TARGETS[..1] == [SWAP_TARGETS[0]] && SWAP_TARGETS[..1][..0] == [];
    SwapMatches();
  }

  lemma SwapSettled()
    ensures Owned(Layout(0, false), SwapOwner) && Typed(Layout(0, false), SWAP_TARGETS)
    ensures Settled(SWAP_TARGETS, SwapAnswer, Accepted, SwapOwner)
  {
    LayoutHolds(0, false);
    hide Layout;
  }

  lemma SwapMatches()
    ensures AllMatch(Layout(100, true), SWAP_TARGETS, SwapAnswer) && !AllMatch(Layout(0, false), SWAP_TARGETS, SwapAnswer)
  {
    SwappedMatches(0);
    SwappedMatches(1);
    SwapNotYet();
    hide Layout, Matches;
    assert SWAP_TARGETS[0].id == 0 && SWAP_TARGETS[1].id == 1;
  }

  lemma SwapNotYet()
    ensures !Matches(Layout(0, false), 0, SwapAnswer(0).value)
  {
    LayoutHolds(0, false);
    hide Layout;
    assert SwapAnswer(0).value[0].id == 100;
    assert 100 !in Layout(0, false);
  }

  lemma SwappedMatches(t: Name)
    requires t < 2
    ensures Matches(Layout(100, true), t, SwapAnswer(t).value)
  {
    LayoutHolds(100, true);
    hide Layout;
    var resolved, all := SwapAnswer(t).value, Layout(100, true);
    forall id | id in all && all[id].targetID == t ensures exists i :: 0 <= i < |resolved| && resolved[i].id == id {
      var i := id - 100 - 50 * t;
      assert resolved[i].id == id;
    }
  }
}
