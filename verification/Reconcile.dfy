/** Session reconciliation: bringing the running capture sources of every followed workload to the
    set its resolver returns, within the limits on workload pods and on sources per node. */
module Reconcile {
  import opened Options
  import opened Packets

  const MAX_PODS := 100
  const MAX_PER_NODE := 50

  datatype Target = InterfaceTarget(id: Name) | WorkloadTarget(id: Name, follow: bool, maxPods: nat)

  datatype Command = Start(source: Source) | Stop(node: Name, id: Name)

  type Sources = map<Name, Source>

  // ---------- Limits ----------

  function On(sources: Sources, node: Name): set<Name> {
    set id | id in sources && sources[id].nodeName == node
  }

  function Workloads(sources: Sources): set<Name> {
    set id | id in sources && sources[id].targetType.WorkloadType?
  }

  function Excluding(sources: Sources, target: Name): Sources {
    map id | id in sources && sources[id].targetID != target :: sources[id]
  }

  function CountOn(list: seq<Source>, node: Name): nat {
    if list == [] then 0
    else CountOn(list[..|list| - 1], node) + if list[|list| - 1].nodeName == node then 1 else 0
  }

  ghost predicate Within(sources: Sources) {
    |Workloads(sources)| <= 100 && forall node: Name :: |On(sources, node)| <= 50
  }

  /** What the three guards of reconcile let through. */
  ghost predicate Admitted(sources: Sources, target: Name, maxPods: nat, resolved: seq<Source>) {
    && |resolved| <= maxPods
    && |Workloads(Excluding(sources, target))| + |resolved| <= 100
    && forall node: Name :: |On(Excluding(sources, target), node)| + CountOn(resolved, node) <= 50
  }

  // ---------- The wanted outcome ----------

  /** The resolved sources by ID; a repeated ID keeps its last source. */
  function Desired(resolved: seq<Source>): Sources {
    if resolved == [] then map[]
    else Desired(resolved[..|resolved| - 1])[resolved[|resolved| - 1].id := resolved[|resolved| - 1]]
  }

  predicate Same(a: Source, b: Source) {
    a.nodeName == b.nodeName && a.interfaceName == b.interfaceName && a.podIP == b.podIP
  }

  function Running(sources: Sources, target: Name): set<Name> {
    set id | id in sources && sources[id].targetID == target
  }

  function Kept(sources: Sources, target: Name, desired: Sources): set<Name> {
    set id | id in Running(sources, target) && id in desired && Same(desired[id], sources[id])
  }

  function Stale(sources: Sources, target: Name, desired: Sources): set<Name> {
    Running(sources, target) - Kept(sources, target, desired)
  }

  function Pending(sources: Sources, target: Name, desired: Sources): set<Name> {
    desired.Keys - Kept(sources, target, desired)
  }

  /** One target brought up to date, where `starts` says which start commands succeed. */
  function Reconciled(sources: Sources, target: Name, resolved: seq<Source>, starts: Source -> bool): Sources {
    var desired := Desired(resolved);
    (sources - Stale(sources, target, desired))
    + (map id | id in Pending(sources, target, desired) && starts(desired[id]) :: desired[id])
  }

  // ---------- Limits are kept ----------

  lemma {:induction false} DesiredFits(resolved: seq<Source>, node: Name)
    ensures |Desired(resolved)| <= |resolved| && |On(Desired(resolved), node)| <= CountOn(resolved, node)
    decreases |resolved|
  {
    if resolved != [] {
      var last := resolved[|resolved| - 1];
      var before, after := Desired(resolved[..|resolved| - 1]), Desired(resolved);
      DesiredFits(resolved[..|resolved| - 1], node);
      assert after.Keys == before.Keys + {last.id};
      if last.nodeName == node {
        Contained(On(after, node), On(before, node) + {last.id});
      } else {
        Contained(On(after, node), On(before, node));
      }
    }
  }

  lemma {:induction false} Contained<T>(a: set<T>, b: set<T>)
    requires a <= b
    ensures |a| <= |b|
    decreases |a|
  {
    if a != {} {
      var x :| x in a;
      Contained(a - {x}, b - {x});
    }
  }

  /** Taking one element out of what is still hidden uncovers it, if it is there at all. */
  lemma Uncover<T>(all: set<T>, hidden: set<T>, x: T)
    requires x in hidden
    ensures |all - (hidden - {x})| == |all - hidden| + if x in all then 1 else 0
  {
    if x in all {
      assert all - (hidden - {x}) == all - hidden + {x};
    } else {
      assert all - (hidden - {x}) == all - hidden;
    }
  }

  lemma ContainedInTwo<T>(a: set<T>, b: set<T>, c: set<T>)
    requires a <= b + c
    ensures |a| <= |b| + |c|
  {
    Contained(a, b + c);
  }

  /** Whatever the guards let through stays within both limits, whichever commands fail. */
  lemma ReconciledWithin(sources: Sources, target: Name, maxPods: nat, resolved: seq<Source>, starts: Source -> bool)
    requires Admitted(sources, target, maxPods, resolved)
    ensures Within(Reconciled(sources, target, resolved, starts))
  {
    var others, desired := Excluding(sources, target), Desired(resolved);
    var after := Reconciled(sources, target, resolved, starts);
    ReconciledFrom(sources, target, resolved, starts);
    hide Excluding, Desired, Reconciled;
    assert |Workloads(after)| <= 100 by {
      DesiredFits(resolved, 0);
      ContainedInTwo(Workloads(after), Workloads(others), desired.Keys);
    }
    forall node: Name ensures |On(after, node)| <= 50 {
      DesiredFits(resolved, node);
      ContainedInTwo(On(after, node), On(others, node), On(desired, node));
    }
  }

  /** Where the sources that run afterwards come from. */
  lemma ReconciledFrom(sources: Sources, target: Name, resolved: seq<Source>, starts: Source -> bool)
    ensures var others, desired, after := Excluding(sources, target), Desired(resolved), Reconciled(sources, target, resolved, starts);
            forall id :: id in after ==>
              || (id in others && after[id] == others[id])
              || (id in desired && after[id].nodeName == desired[id].nodeName)
  {
  }

  // ---------- Convergence ----------

  ghost predicate DistinctIDs(resolved: seq<Source>) {
    forall i, j :: 0 <= i < j < |resolved| ==> resolved[i].id != resolved[j].id
  }

  /** IDs name their target, as the resolver builds them; `owner` reads the target off an ID. */
  ghost predicate Owned(sources: Sources, owner: Name -> Name) {
    forall id :: id in sources ==> sources[id].id == id && sources[id].targetID == owner(id)
  }

  ghost predicate ResolvedFor(resolved: seq<Source>, target: Name, owner: Name -> Name) {
    DistinctIDs(resolved) && forall i :: 0 <= i < |resolved| ==> resolved[i].targetID == target == owner(resolved[i].id)
  }

  /** The target runs exactly the resolved sources: same IDs, nodes, interfaces and addresses. */
  ghost predicate Matches(sources: Sources, target: Name, resolved: seq<Source>) {
    && (forall id :: id in sources && sources[id].targetID == target ==> exists i :: 0 <= i < |resolved| && resolved[i].id == id)
    && (forall i :: 0 <= i < |resolved| ==>
          resolved[i].id in sources && sources[resolved[i].id].targetID == target && Agree(resolved[i], sources[resolved[i].id]))
  }

  /** Captured at the same place: same node, same interface, same address. */
  ghost predicate Agree(a: Source, b: Source) {
    a.nodeName == b.nodeName && a.interfaceName == b.interfaceName && a.podIP == b.podIP
  }

  /** The answer wants the source where it is running. */
  ghost predicate WantedThere(resolved: seq<Source>, source: Source, id: Name) {
    var desired := Desired(resolved);
    && id in desired && desired[id].nodeName == source.nodeName && desired[id].interfaceName == source.interfaceName
    && desired[id].podIP == source.podIP
  }

  /** One turn, source by source. A running source of the target that is wanted where it is stays the
      same entry; any other is gone, or was started anew as it is wanted. */
  lemma TurnByFields(sources: Sources, target: Name, resolved: seq<Source>, starts: Source -> bool, id: Name)
    ensures var desired, after := Desired(resolved), Reconciled(sources, target, resolved, starts);
            if id in sources && sources[id].targetID == target && id in desired
               && desired[id].nodeName == sources[id].nodeName && desired[id].interfaceName == sources[id].interfaceName
               && desired[id].podIP == sources[id].podIP
            then id in after && after[id] == sources[id]
            else if id in desired && starts(desired[id]) then id in after && after[id] == desired[id]
            else id in after <==> id in sources && sources[id].targetID != target
    ensures id in sources && sources[id].targetID != target && id !in Desired(resolved) ==>
              id in Reconciled(sources, target, resolved, starts) && Reconciled(sources, target, resolved, starts)[id] == sources[id]
  {
  }

  lemma {:induction false} DesiredHolds(resolved: seq<Source>)
    ensures forall id :: id in Desired(resolved) ==>
              exists i :: 0 <= i < |resolved| && resolved[i] == Desired(resolved)[id] && resolved[i].id == id
    ensures DistinctIDs(resolved) ==>
              forall i :: 0 <= i < |resolved| ==> resolved[i].id in Desired(resolved) && Desired(resolved)[resolved[i].id] == resolved[i]
    decreases |resolved|
  {
    if resolved != [] {
      var n := |resolved| - 1;
      var front := resolved[..n];
      DesiredHolds(front);
      forall id | id in Desired(resolved)
        ensures exists i :: 0 <= i < |resolved| && resolved[i] == Desired(resolved)[id] && resolved[i].id == id
      {
        if id == resolved[n].id {
          assert resolved[n] == Desired(resolved)[id];
        } else {
          var i :| 0 <= i < |front| && front[i] == Desired(front)[id] && front[i].id == id;
          assert resolved[i] == front[i];
        }
      }
      if DistinctIDs(resolved) {
        assert DistinctIDs(front);
        forall i | 0 <= i < |resolved| ensures resolved[i].id in Desired(resolved) && Desired(resolved)[resolved[i].id] == resolved[i] {
          if i < n {
            assert front[i] == resolved[i];
          }
        }
      }
    }
  }

  /** If agents accept every start, one pass over a target leaves exactly the resolved sources. */
  lemma ReconciledMatches(sources: Sources, target: Name, resolved: seq<Source>, starts: Source -> bool, owner: Name -> Name)
    requires Owned(sources, owner) && ResolvedFor(resolved, target, owner)
    requires forall i :: 0 <= i < |resolved| ==> starts(resolved[i])
    ensures var after := Reconciled(sources, target, resolved, starts);
            Owned(after, owner) && Matches(after, target, resolved)
  {
    var desired, after := Desired(resolved), Reconciled(sources, target, resolved, starts);
    DesiredHolds(resolved);
    forall id | id in after ensures after[id].id == id && after[id].targetID == owner(id) {
      if id in desired {
        var i :| 0 <= i < |resolved| && resolved[i] == desired[id] && resolved[i].id == id;
        assert id in Pending(sources, target, desired) && starts(desired[id]) ==> after[id] == desired[id];
      }
    }
    forall i | 0 <= i < |resolved|
      ensures resolved[i].id in Running(after, target) && Same(resolved[i], after[resolved[i].id])
    {
      var id := resolved[i].id;
      assert desired[id] == resolved[i];
      if id !in Kept(sources, target, desired) {
        assert starts(desired[id]) && after[id] == desired[id];
      }
    }
    forall id | id in Running(after, target) ensures exists i :: 0 <= i < |resolved| && resolved[i].id == id {
      assert id in desired;
    }
  }

  /** Where a target already matches there is nothing to stop and nothing to start. */
  lemma MatchedIsQuiet(sources: Sources, target: Name, resolved: seq<Source>)
    requires DistinctIDs(resolved) && Matches(sources, target, resolved)
    ensures Stale(sources, target, Desired(resolved)) == {} && Pending(sources, target, Desired(resolved)) == {}
  {
    var desired := Desired(resolved);
    DesiredHolds(resolved);
    forall id | id in Running(sources, target) ensures id in Kept(sources, target, desired) {
      var i :| 0 <= i < |resolved| && resolved[i].id == id;
      assert desired[id] == resolved[i];
    }
    forall id | id in desired ensures id in Kept(sources, target, desired) {
      var i :| 0 <= i < |resolved| && resolved[i] == desired[id] && resolved[i].id == id;
    }
  }

  /** A turn over a target converges exactly when the limits admit the target, or it matched already. */
  lemma TurnConverges(sources: Sources, target: Target, resolve: Name -> Option<seq<Source>>, starts: Source -> bool, owner: Name -> Name)
    requires Owned(sources, owner) && Followed(target) && resolve(target.id).Some? && Settles(target, resolve, starts, owner)
    ensures Matches(Step(sources, target, resolve, starts), target.id, resolve(target.id).value)
            <==> Acts(sources, target, resolve) || Matches(sources, target.id, resolve(target.id).value)
  {
    hide Matches, Owned, Reconciled;
    if Acts(sources, target, resolve) {
      ReconciledMatches(sources, target.id, resolve(target.id).value, starts, owner);
    }
  }

  function Rest(sources: Sources, targets: set<Name>): Sources {
    map id | id in sources && sources[id].targetID !in targets :: sources[id]
  }

  /** A turn over one target leaves all that runs for others alone. */
  lemma OthersUntouched(sources: Sources, target: Name, resolved: seq<Source>, starts: Source -> bool, owner: Name -> Name)
    requires Owned(sources, owner) && ResolvedFor(resolved, target, owner)
    ensures Rest(Reconciled(sources, target, resolved, starts), {target}) == Rest(sources, {target})
  {
    var desired := Desired(resolved);
    DesiredHolds(resolved);
    forall id | id in desired ensures owner(id) == target && desired[id].targetID == target {
      var i :| 0 <= i < |resolved| && resolved[i] == desired[id] && resolved[i].id == id;
    }
  }

  // ---------- A whole pass over a session's targets ----------

  predicate Followed(target: Target) {
    target.WorkloadTarget? && target.follow
  }

  /** What one turn of reconcile's loop does to the running sources. */
  ghost function Step(sources: Sources, target: Target, resolve: Name -> Option<seq<Source>>, starts: Source -> bool): Sources {
    if Acts(sources, target, resolve) then Reconciled(sources, target.id, resolve(target.id).value, starts) else sources
  }

  ghost predicate Acts(sources: Sources, target: Target, resolve: Name -> Option<seq<Source>>) {
    Followed(target) && resolve(target.id).Some? && Admitted(sources, target.id, target.maxPods, resolve(target.id).value)
  }

  ghost function Pass(sources: Sources, targets: seq<Target>, resolve: Name -> Option<seq<Source>>, starts: Source -> bool): Sources {
    if targets == [] then sources
    else Step(Pass(sources, targets[..|targets| - 1], resolve, starts), targets[|targets| - 1], resolve, starts)
  }

  /** A pass that starts within both limits ends within both. */
  lemma {:induction false} PassWithin(sources: Sources, targets: seq<Target>, resolve: Name -> Option<seq<Source>>, starts: Source -> bool)
    requires Within(sources)
    ensures Within(Pass(sources, targets, resolve, starts))
    decreases |targets|
  {
    if targets != [] {
      var front, last := targets[..|targets| - 1], targets[|targets| - 1];
      PassWithin(sources, front, resolve, starts);
      var before := Pass(sources, front, resolve, starts);
      if Acts(before, last, resolve) {
        ReconciledWithin(before, last.id, last.maxPods, resolve(last.id).value, starts);
      }
    }
  }

  ghost predicate DistinctTargets(targets: seq<Target>) {
    forall i, j :: 0 <= i < j < |targets| ==> targets[i].id != targets[j].id
  }

  /** The resolver's answer for a target: distinct IDs that name the target, and agents that accept them. */
  ghost predicate Settles(target: Target, resolve: Name -> Option<seq<Source>>, starts: Source -> bool, owner: Name -> Name) {
    Followed(target) && resolve(target.id).Some? ==>
      && ResolvedFor(resolve(target.id).value, target.id, owner)
      && forall i :: 0 <= i < |resolve(target.id).value| ==> starts(resolve(target.id).value[i])
  }

  ghost predicate AllMatch(sources: Sources, targets: seq<Target>, resolve: Name -> Option<seq<Source>>) {
    forall k :: 0 <= k < |targets| && Followed(targets[k]) && resolve(targets[k].id).Some? ==>
      DistinctIDs(resolve(targets[k].id).value) && Matches(sources, targets[k].id, resolve(targets[k].id).value)
  }

  /** A pass over targets that all match changes nothing. */
  lemma {:induction false} MatchedPass(sources: Sources, targets: seq<Target>, resolve: Name -> Option<seq<Source>>, starts: Source -> bool)
    requires AllMatch(sources, targets, resolve)
    ensures Pass(sources, targets, resolve, starts) == sources
    decreases |targets|
  {
    if targets != [] {
      var n := |targets| - 1;
      MatchedPass(sources, targets[..n], resolve, starts);
      if Acts(sources, targets[n], resolve) {
        MatchedIsQuiet(sources, targets[n].id, resolve(targets[n].id).value);
      }
    }
  }

  lemma WantedIsPending(stopped: Sources, sources: Sources, target: Name, resolved: seq<Source>, wanted: Sources, starts: Source -> bool)
    requires stopped == sources - Stale(sources, target, Desired(resolved))
    requires wanted == Desired(resolved) - Kept(sources, target, Desired(resolved))
    ensures wanted.Keys == Pending(sources, target, Desired(resolved))
    ensures forall id :: id in wanted ==> wanted[id] == Desired(resolved)[id]
    ensures Pending(sources, target, Desired(resolved)) == {} ==> wanted == map[]
    ensures stopped + (map id | id in wanted && starts(wanted[id]) :: wanted[id]) == Reconciled(sources, target, resolved, starts)
  {
    hide Kept, Stale;
    var desired := Desired(resolved);
    assert wanted.Keys == Pending(sources, target, desired);
    assert (map id | id in wanted && starts(wanted[id]) :: wanted[id])
        == (map id | id in Pending(sources, target, desired) && starts(desired[id]) :: desired[id]);
  }

  /** Where nothing is stale and nothing pending, a turn changes nothing. */
  lemma StepIsQuiet(sources: Sources, target: Target, resolve: Name -> Option<seq<Source>>, starts: Source -> bool)
    requires Followed(target) && resolve(target.id).Some? ==>
               && Stale(sources, target.id, Desired(resolve(target.id).value)) == {}
               && Pending(sources, target.id, Desired(resolve(target.id).value)) == {}
    ensures Step(sources, target, resolve, starts) == sources
  {
  }

  // ---------- The running object ----------

  /** What is left of a map while the keys in `out` are being removed, those in `pending` last. */
  ghost predicate Left(now: Sources, before: Sources, out: set<Name>, pending: set<Name>) {
    && (forall id :: id in now <==> id in before && (id in out ==> id in pending))
    && (forall id :: id in now ==> now[id] == before[id])
  }

  lemma LeftStep(now: Sources, before: Sources, out: set<Name>, pending: set<Name>, id: Name)
    requires Left(now, before, out, pending) && id in pending
    ensures id in out ==> Left(now - {id}, before, out, pending - {id})
    ensures id !in out ==> Left(now, before, out, pending - {id})
    ensures id in before ==> id in now && now[id] == before[id]
    ensures id in now ==> id in before
  {
  }

  /** The stop commands sent so far: one for each stale source that is no longer pending, no others. */
  ghost predicate Stops(commands: seq<Command>, sent: seq<Command>, before: Sources, stale: set<Name>, pending: set<Name>) {
    && sent <= commands
    && |commands| == |sent| + |stale - pending|
    && (forall k :: |sent| <= k < |commands| ==> commands[k].Stop? && commands[k].id in stale)
    && (forall id :: id in stale && id !in pending ==> id in before && Stop(before[id].nodeName, id) in commands)
  }

  lemma StopsStart(commands: seq<Command>, before: Sources, stale: set<Name>, pending: set<Name>)
    requires stale <= pending
    ensures Stops(commands, commands, before, stale, pending)
  {
    assert stale - pending == {};
  }

  lemma StopsStep(commands: seq<Command>, sent: seq<Command>, before: Sources, stale: set<Name>, pending: set<Name>, id: Name)
    requires Stops(commands, sent, before, stale, pending) && id in before && id in pending
    ensures id in stale ==> Stops(commands + [Stop(before[id].nodeName, id)], sent, before, stale, pending - {id})
    ensures id !in stale ==> Stops(commands, sent, before, stale, pending - {id})
  {
    Uncover(stale, pending, id);
  }

  /** No command from the given one on is about this source. */
  ghost predicate Unmentioned(commands: seq<Command>, from: nat, id: Name) {
    forall k :: from <= k < |commands| ==>
      match commands[k]
      case Stop(_, stopped) => stopped != id
      case Start(source) => source.id != id
  }

  /** Of the target's running sources, those wanted where they are get no command, the others a stop. */
  lemma StoppedByFields(before: Sources, target: Name, desired: Sources, sent: seq<Command>, commands: seq<Command>)
    requires Stops(commands, sent, before, Stale(before, target, desired), {})
    ensures forall id :: id in before && before[id].targetID == target ==>
              if id in desired && desired[id].nodeName == before[id].nodeName
                 && desired[id].interfaceName == before[id].interfaceName && desired[id].podIP == before[id].podIP
              then id !in Stale(before, target, desired) && Unmentioned(commands, |sent|, id)
              else id in Stale(before, target, desired) && Stop(before[id].nodeName, id) in commands
  {
  }

  lemma LeftStart(all: Sources, out: set<Name>, pending: set<Name>)
    requires out <= pending
    ensures Left(all, all, out, pending)
  {
  }

  lemma LeftDone(now: Sources, before: Sources, out: set<Name>)
    requires Left(now, before, out, {})
    ensures now == before - out
  {
  }

  lemma BegunStep(now: Sources, before: Sources, wanted: Sources, pending: set<Name>, starts: Source -> bool, id: Name)
    requires Begun(now, before, wanted, pending, starts) && id in pending && id in wanted
    ensures Begun(if starts(wanted[id]) then now[id := wanted[id]] else now, before, wanted, pending - {id}, starts)
  {
  }

  lemma BegunDone(now: Sources, before: Sources, wanted: Sources, starts: Source -> bool)
    requires Begun(now, before, wanted, {}, starts)
    ensures now == before + (map id | id in wanted && starts(wanted[id]) :: wanted[id])
  {
  }

  /** What runs while the sources in `wanted` are being started, those in `pending` last. */
  ghost predicate Begun(now: Sources, before: Sources, wanted: Sources, pending: set<Name>, starts: Source -> bool) {
    && (forall id :: id in now <==> id in before || (id in wanted && id !in pending && starts(wanted[id])))
    && (forall id :: id in now ==>
          now[id] == if id in wanted && id !in pending && starts(wanted[id]) then wanted[id] else before[id])
  }

  /** The start commands sent so far: one for each source in `can` that is no longer pending. */
  ghost predicate Started(commands: seq<Command>, sent: seq<Command>, wanted: Sources, can: set<Name>, pending: set<Name>) {
    && sent <= commands && |commands| == |sent| + |can - pending|
    && (forall k :: |sent| <= k < |commands| ==> commands[k].Start? && commands[k].source in wanted.Values)
    && (forall id :: id in can && id !in pending ==> id in wanted && Start(wanted[id]) in commands)
  }

  lemma StartedNone(commands: seq<Command>, wanted: Sources, can: set<Name>)
    requires can <= wanted.Keys
    ensures Started(commands, commands, wanted, can, wanted.Keys)
  {
    assert can - wanted.Keys == {};
  }

  lemma StartedStep(commands: seq<Command>, sent: seq<Command>, wanted: Sources, can: set<Name>, pending: set<Name>, id: Name)
    requires Started(commands, sent, wanted, can, pending) && id in pending && id in wanted
    ensures if id in can then Started(commands + [Start(wanted[id])], sent, wanted, can, pending - {id})
            else Started(commands, sent, wanted, can, pending - {id})
  {
    Uncover(can, pending, id);
  }

  lemma StartedDone(commands: seq<Command>, sent: seq<Command>, wanted: Sources, can: set<Name>)
    requires Started(commands, sent, wanted, can, {})
    ensures sent <= commands && |commands| == |sent| + |can|
    ensures forall k :: |sent| <= k < |commands| ==> commands[k].Start? && commands[k].source in wanted.Values
    ensures forall id :: id in can ==> id in wanted && Start(wanted[id]) in commands
  {
    assert can - {} == can;
  }

  /** The wanted sources whose agent can be sent a command. */
  ghost function Reachable(wanted: Sources, reachable: Source -> bool): set<Name> {
    set id | id in wanted && reachable(wanted[id])
  }

  class SessionRuntime {
    var sources: Sources
    var commands: seq<Command>

    ghost predicate Valid()
      reads this
    {
      forall id :: id in sources ==> sources[id].id == id
    }

    constructor (sources: Sources)
      requires forall id :: id in sources ==> sources[id].id == id
      ensures Valid() && this.sources == sources && commands == []
    {
      this.sources, commands := sources, [];
    }

    method WorkloadSourceCountExcluding(target: Name) returns (count: nat)
      ensures count == |Workloads(Excluding(sources, target))|
    {
      ghost var wanted := Workloads(Excluding(sources, target));
      assert wanted <= sources.Keys;
      assert forall id :: id in sources ==> (id in wanted <==> sources[id].targetType.WorkloadType? && sources[id].targetID != target);
      hide Workloads, Excluding;
      count := 0;
      var pending := sources.Keys;
      ghost var covered: set<Name> := {};
      while pending != {}
        invariant pending <= sources.Keys && count == |covered|
        invariant forall id :: id in covered ==> id in wanted && id !in pending
        invariant forall id :: id in wanted ==> id in covered || id in pending
        decreases |pending|
      {
        var id :| id in pending;
        if sources[id].targetType.WorkloadType? && sources[id].targetID != target {
          count := count + 1;
          covered := covered + {id};
        }
        pending := pending - {id};
      }
      assert covered == wanted;
    }

    method RuntimeSourcesExcluding(target: Name) returns (list: seq<Source>)
      ensures forall node: Name :: CountOn(list, node) == |On(Excluding(sources, target), node)|
    {
      list := [];
      var others := Excluding(sources, target);
      var pending := others.Keys;
      assert forall node: Name :: On(others, node) - pending == {};
      while pending != {}
        invariant pending <= others.Keys
        invariant forall node: Name :: CountOn(list, node) == |On(others, node) - pending|
        decreases |pending|
      {
        var id :| id in pending;
        ghost var left := pending - {id};
        forall node: Name
          ensures |On(others, node) - left| == |On(others, node) - pending| + if others[id].nodeName == node then 1 else 0
        {
          Uncover(On(others, node), pending, id);
        }
        pending := pending - {id};
        assert (list + [others[id]])[..|list|] == list;
        list := list + [others[id]];
      }
      assert forall node: Name :: On(others, node) - {} == On(others, node);
    }

    /** The guards of reconcile for one resolved target. */
    method Admits(target: Name, maxPods: nat, resolved: seq<Source>) returns (ok: bool)
      ensures ok <==> Admitted(sources, target, maxPods, resolved)
    {
      hide Workloads, Excluding, On, CountOn;
      if |resolved| > maxPods {
        return false;
      }
      var others := WorkloadSourceCountExcluding(target);
      if others + |resolved| > MAX_PODS {
        return false;
      }
      var projected := RuntimeSourcesExcluding(target);
      ok := ValidateDistribution(projected + resolved);
      if ok {
        forall node: Name ensures |On(Excluding(sources, target), node)| + CountOn(resolved, node) <= MAX_PER_NODE {
          CountAppend(projected, resolved, node);
        }
      } else {
        var node :| CountOn(projected + resolved, node) > MAX_PER_NODE;
        CountAppend(projected, resolved, node);
      }
    }

    /** Stops every running source of the target that is not wanted as it is; returns what is still
        to be started. */
    method StopStale(target: Name, desired: Sources) returns (wanted: Sources)
      requires Valid()
      modifies this
      ensures Valid() && sources == old(sources) - Stale(old(sources), target, desired)
      ensures wanted == desired - Kept(old(sources), target, desired)
      ensures Stops(commands, old(commands), old(sources), Stale(old(sources), target, desired), {})
      ensures forall id :: id in old(sources) && old(sources)[id].targetID == target ==>
                if id in desired && desired[id].nodeName == old(sources)[id].nodeName
                   && desired[id].interfaceName == old(sources)[id].interfaceName && desired[id].podIP == old(sources)[id].podIP
                then id in sources && sources[id] == old(sources)[id] && Unmentioned(commands, |old(commands)|, id)
                else id !in sources && Stop(old(sources)[id].nodeName, id) in commands
    {
      wanted := desired;
      var pending := Running(sources, target);
      ghost var kept, stale := Kept(sources, target, desired), Stale(sources, target, desired);
      assert forall id :: id in pending ==> id in sources && (id in kept <==> id in desired && Same(desired[id], sources[id]));
      assert forall id :: id in pending <==> id in kept || id in stale;
      assert forall id :: id in stale ==> id !in kept;
      hide Running, Kept, Stale, Same, Left, Stops;
      LeftStart(sources, stale, pending);
      LeftStart(wanted, kept, pending);
      StopsStart(commands, sources, stale, pending);
      while pending != {}
        invariant forall id :: id in pending ==> id in kept || id in stale
        invariant Culling(old(sources), old(commands), desired, wanted, kept, stale, pending)
        decreases |pending|
      {
        var id :| id in pending;
        wanted := CullOne(old(sources), old(commands), desired, wanted, kept, stale, pending, id);
        pending := pending - {id};
      }
      LeftDone(sources, old(sources), stale);
      LeftDone(wanted, desired, kept);
      StoppedByFields(old(sources), target, desired, old(commands), commands);
    }

    /** Part-way through the running sources of a target: those in `pending` are still to be looked at. */
    ghost predicate Culling(before: Sources, sent: seq<Command>, desired: Sources, wanted: Sources,
                            kept: set<Name>, stale: set<Name>, pending: set<Name>)
      reads this
    {
      && Valid() && Left(sources, before, stale, pending) && Left(wanted, desired, kept, pending)
      && Stops(commands, sent, before, stale, pending)
    }

    /** Keeps one running source if it is wanted as it is, and stops it otherwise. */
    method CullOne(ghost before: Sources, ghost sent: seq<Command>, ghost desired: Sources, wanted: Sources,
                   ghost kept: set<Name>, ghost stale: set<Name>, ghost pending: set<Name>, id: Name)
      returns (wanted': Sources)
      requires Culling(before, sent, desired, wanted, kept, stale, pending)
      requires id in pending && id in before && (id in stale <==> id !in kept)
      requires id in kept <==> id in desired && Same(desired[id], before[id])
      modifies this
      ensures Culling(before, sent, desired, wanted', kept, stale, pending - {id})
    {
      hide Same, Left, Stops;
      LeftStep(sources, before, stale, pending, id);
      LeftStep(wanted, desired, kept, pending, id);
      StopsStep(commands, sent, before, stale, pending, id);
      var source := sources[id];
      wanted' := wanted;
      if id in wanted && Same(wanted[id], source) {
        wanted' := wanted - {id};
      } else {
        commands := commands + [Stop(source.nodeName, source.id)];
        sources := sources - {source.id};
      }
    }

    /** Starts every wanted source; those whose agent accepts it are running afterwards. */
    method StartWanted(wanted: Sources, reachable: Source -> bool, starts: Source -> bool)
      requires Valid() && forall id :: id in wanted ==> wanted[id].id == id
      modifies this
      ensures Valid() && sources == old(sources) + (map id | id in wanted && starts(wanted[id]) :: wanted[id])
      ensures old(commands) <= commands
      ensures forall k :: |old(commands)| <= k < |commands| ==> commands[k].Start? && commands[k].source in wanted.Values
      ensures forall id :: id in wanted && reachable(wanted[id]) ==> Start(wanted[id]) in commands
      ensures |commands| == |old(commands)| + |Reachable(wanted, reachable)|
    {
      var pending := wanted.Keys;
      ghost var can := Reachable(wanted, reachable);
      assert forall id :: id in wanted ==> (id in can <==> reachable(wanted[id]));
      assert Begun(sources, sources, wanted, pending, starts);
      StartedNone(commands, wanted, can);
      hide Begun, Reachable, Started;
      while pending != {}
        invariant Valid() && pending <= wanted.Keys
        invariant Begun(sources, old(sources), wanted, pending, starts)
        invariant Started(commands, old(commands), wanted, can, pending)
        decreases |pending|
      {
        var id :| id in pending;
        BegunStep(sources, old(sources), wanted, pending, starts, id);
        StartedStep(commands, old(commands), wanted, can, pending, id);
        StartOne(wanted[id], reachable, starts);
        pending := pending - {id};
      }
      BegunDone(sources, old(sources), wanted, starts);
      StartedDone(commands, old(commands), wanted, can);
    }

    method StartOne(source: Source, reachable: Source -> bool, starts: Source -> bool)
      requires Valid()
      modifies this
      ensures Valid()
      ensures commands == if reachable(source) then old(commands) + [Start(source)] else old(commands)
      ensures sources == if starts(source) then old(sources)[source.id := source] else old(sources)
    {
      if reachable(source) {
        commands := commands + [Start(source)];
      }
      if starts(source) {
        sources := sources[source.id := source];
      }
    }

    method BuildDesired(resolved: seq<Source>) returns (desired: Sources)
      ensures desired == Desired(resolved)
      ensures forall id :: id in desired ==> desired[id].id == id
    {
      desired := map[];
      for i := 0 to |resolved|
        invariant desired == Desired(resolved[..i])
        invariant forall id :: id in desired ==> desired[id].id == id
      {
        assert resolved[..i + 1][..i] == resolved[..i];
        desired := desired[resolved[i].id := resolved[i]];
      }
      assert resolved[..|resolved|] == resolved;
    }

    /** One turn of reconcile's loop over the targets. */
    method ReconcileTarget(target: Target, resolve: Name -> Option<seq<Source>>, reachable: Source -> bool, starts: Source -> bool)
      requires Valid()
      modifies this
      ensures Valid() && sources == Step(old(sources), target, resolve, starts) && old(commands) <= commands
      ensures target.InterfaceTarget? || !target.follow || resolve(target.id).None? ==>
                sources == old(sources) && commands == old(commands)
      ensures target.WorkloadTarget? && target.follow && resolve(target.id).Some?
              && Admitted(old(sources), target.id, target.maxPods, resolve(target.id).value) ==>
                && sources == Reconciled(old(sources), target.id, resolve(target.id).value, starts)
                && forall id :: id in old(sources) && old(sources)[id].targetID == target.id ==>
                     if WantedThere(resolve(target.id).value, old(sources)[id], id)
                     then id in sources && sources[id] == old(sources)[id] && Unmentioned(commands, |old(commands)|, id)
                     else Stop(old(sources)[id].nodeName, id) in commands
      ensures if Acts(old(sources), target, resolve)
              then Commanded(old(sources), target.id, Desired(resolve(target.id).value), reachable, old(commands))
              else commands == old(commands)
    {
      hide Admitted, Reconciled, Desired, Commanded;
      if !Followed(target) || resolve(target.id).None? {
        return;
      }
      var ok := Admits(target.id, target.maxPods, resolve(target.id).value);
      if ok {
        BringUpToDate(target.id, resolve(target.id).value, reachable, starts);
        CommandsByFields(old(sources), target.id, resolve(target.id).value, reachable, starts, old(commands));
      }
    }

    /** The commands sent: a stop for each stale source, a start for each pending one that can be
        reached, and no others. */
    ghost predicate Commanded(before: Sources, target: Name, desired: Sources, reachable: Source -> bool, sent: seq<Command>)
      reads this
    {
      var stale, pending := Stale(before, target, desired), Pending(before, target, desired);
      && pending <= desired.Keys && sent <= commands
      && |commands| == |sent| + |stale| + |Reachable(desired - Kept(before, target, desired), reachable)|
      && (forall k :: |sent| <= k < |commands| ==>
            match commands[k]
            case Stop(_, id) => id in stale
            case Start(source) => exists id :: id in pending && desired[id] == source)
      && (forall id :: id in stale ==> id in before && Stop(before[id].nodeName, id) in commands)
      && (forall id :: id in pending && reachable(desired[id]) ==> Start(desired[id]) in commands)
    }

    lemma CommandsByFields(before: Sources, target: Name, resolved: seq<Source>, reachable: Source -> bool, starts: Source -> bool,
                           sent: seq<Command>)
      requires Commanded(before, target, Desired(resolved), reachable, sent)
      ensures forall id :: id in before && before[id].targetID == target ==>
                if WantedThere(resolved, before[id], id)
                then && id in Reconciled(before, target, resolved, starts)
                     && Reconciled(before, target, resolved, starts)[id] == before[id] && Unmentioned(commands, |sent|, id)
                else Stop(before[id].nodeName, id) in commands
    {
      forall id | id in before && before[id].targetID == target
        ensures if WantedThere(resolved, before[id], id)
                then && id in Reconciled(before, target, resolved, starts)
                     && Reconciled(before, target, resolved, starts)[id] == before[id] && Unmentioned(commands, |sent|, id)
                else Stop(before[id].nodeName, id) in commands
      {
        TurnByFields(before, target, resolved, starts, id);
        CommandsFor(before, target, resolved, reachable, sent, id);
        hide Reconciled, Commanded, Unmentioned, Desired;
      }
    }

    lemma CommandsFor(before: Sources, target: Name, resolved: seq<Source>, reachable: Source -> bool, sent: seq<Command>, id: Name)
      requires Commanded(before, target, Desired(resolved), reachable, sent) && id in before && before[id].targetID == target
      ensures if WantedThere(resolved, before[id], id) then Unmentioned(commands, |sent|, id)
              else Stop(before[id].nodeName, id) in commands
    {
      if WantedThere(resolved, before[id], id) {
        DesiredHolds(resolved);
        var desired := Desired(resolved);
        assert id !in Stale(before, target, desired) && id !in Pending(before, target, desired);
        hide Desired, Stale, Pending, Kept;
        forall k | |sent| <= k < |commands|
          ensures match commands[k]
                  case Stop(_, stopped) => stopped != id
                  case Start(source) => source.id != id
        {
          if commands[k].Start? {
            var other :| other in Pending(before, target, desired) && desired[other] == commands[k].source;
            assert desired[other].id == other;
          }
        }
      } else {
        assert id in Stale(before, target, Desired(resolved));
      }
    }

    lemma NoneSent(before: Sources, target: Name, desired: Sources, reachable: Source -> bool, sent: seq<Command>)
      requires Commanded(before, target, desired, reachable, sent)
      ensures Stale(before, target, desired) == {} && Pending(before, target, desired) == {} ==> commands == sent
    {
      hide Stale, Pending;
      assert |sent| < |commands| ==> commands[|sent|].Stop? || commands[|sent|].Start?;
    }

    method BringUpToDate(target: Name, resolved: seq<Source>, reachable: Source -> bool, starts: Source -> bool)
      requires Valid()
      modifies this
      ensures Valid() && sources == Reconciled(old(sources), target, resolved, starts)
      ensures Commanded(old(sources), target, Desired(resolved), reachable, old(commands)) && old(commands) <= commands
    {
      hide Desired, Kept, Running, Stale, Pending, Reconciled;
      var desired := BuildDesired(resolved);
      var wanted := StopStale(target, desired);
      WantedIsPending(sources, old(sources), target, resolved, wanted, starts);
      ghost var stopped := commands;
      StartWanted(wanted, reachable, starts);
      assert forall c :: c in stopped ==> c in commands;
      forall k | |old(commands)| <= k < |commands| && commands[k].Start?
        ensures exists id :: id in wanted && wanted[id] == commands[k].source
      {
        assert k >= |stopped|;
      }
    }

    /** reconcile: every followed target is brought to what its resolver returns. */
    method ReconcileAll(targets: seq<Target>, resolve: Name -> Option<seq<Source>>, reachable: Source -> bool, starts: Source -> bool)
      requires Valid()
      modifies this
      ensures Valid() && sources == Pass(old(sources), targets, resolve, starts)
      ensures Within(old(sources)) ==> Within(sources)
      ensures old(commands) <= commands
      ensures AllMatch(old(sources), targets, resolve) ==> sources == old(sources) && commands == old(commands)
    {
      hide Step, Stale, Pending, Desired, Matches, Within, Commanded, Admitted;
      for i := 0 to |targets|
        invariant Valid() && sources == Pass(old(sources), targets[..i], resolve, starts)
        invariant old(commands) <= commands
        invariant AllMatch(old(sources), targets, resolve) ==> sources == old(sources) && commands == old(commands)
      {
        assert targets[..i + 1][..i] == targets[..i];
        if AllMatch(sources, targets, resolve) {
          if Followed(targets[i]) && resolve(targets[i].id).Some? {
            MatchedIsQuiet(sources, targets[i].id, resolve(targets[i].id).value);
          }
          StepIsQuiet(sources, targets[i], resolve, starts);
        }
        ghost var before, sent := sources, commands;
        ReconcileTarget(targets[i], resolve, reachable, starts);
        if Acts(before, targets[i], resolve) {
          NoneSent(before, targets[i].id, Desired(resolve(targets[i].id).value), reachable, sent);
        }
      }
      assert targets[..|targets|] == targets;
      if Within(old(sources)) {
        PassWithin(old(sources), targets, resolve, starts);
      }
    }
  }

  /** validateSourceDistribution: true exactly when no node carries more than its share. */
  method ValidateDistribution(list: seq<Source>) returns (ok: bool)
    ensures ok <==> forall node: Name :: CountOn(list, node) <= MAX_PER_NODE
  {
    var counts: map<Name, nat> := map[];
    for i := 0 to |list|
      invariant forall node: Name :: CountOn(list[..i], node) == if node in counts then counts[node] else 0
      invariant forall node: Name :: CountOn(list[..i], node) <= MAX_PER_NODE
    {
      var node := list[i].nodeName;
      assert list[..i + 1][..i] == list[..i];
      counts := counts[node := (if node in counts then counts[node] else 0) + 1];
      if counts[node] > MAX_PER_NODE {
        CountGrows(list, i + 1, node);
        return false;
      }
    }
    assert list[..|list|] == list;
    return true;
  }

  lemma {:induction false} CountAppend(a: seq<Source>, b: seq<Source>, node: Name)
    ensures CountOn(a + b, node) == CountOn(a, node) + CountOn(b, node)
    decreases |b|
  {
    if b == [] {
      assert a + b == a;
    } else {
      CountAppend(a, b[..|b| - 1], node);
      assert (a + b)[..|a + b| - 1] == a + b[..|b| - 1];
    }
  }

  lemma {:induction false} CountGrows(list: seq<Source>, k: nat, node: Name)
    requires k <= |list|
    ensures CountOn(list[..k], node) <= CountOn(list, node)
    decreases |list|
  {
    if k < |list| {
      CountGrows(list[..|list| - 1], k, node);
      assert list[..|list| - 1][..k] == list[..k];
    } else {
      assert list[..k] == list;
    }
  }
}
