/** The slots and sources a tuned launcher is rendered with (`tuning_render`, intj/tuning.py;
    `_levels`, intj/render/context.py), and what its levels then compute. */
module TuningRender {
  import opened CTarget
  import opened Optional
  import opened Python
  import opened Heuristic
  import opened HeuristicLowering
  import opened HeuristicProof
  import opened StableSort
  import opened Tuning
  import opened TunedValues
  import opened TuningSlots
  import L = HeuristicLevels

  /** A resolved parameter: `baked` is its value in the module, `callIndex` its place in the call. */
  datatype Resolved = Resolved(name: string, baked: Option<PyVal>, callIndex: nat)

  function DependentLevel(plan: Plan): string -> nat {
    n => if n in DependentLevels(plan.dependent) then DependentLevels(plan.dependent)[n] else 0
  }

  /** The dependents the heuristics read, slot by slot. */
  function DependentReads(plan: Plan, slots: seq<Computed>): seq<string> {
    if slots == [] then []
    else DependentReads(plan, slots[..|slots| - 1]) + OnlyDependents(plan, slots[|slots| - 1].inputs)
  }

  function OnlyDependents(plan: Plan, names: seq<string>): seq<string> {
    if names == [] then []
    else
      var last := names[|names| - 1];
      OnlyDependents(plan, names[..|names| - 1]) + if last in DependentLevels(plan.dependent) then [last] else []
  }

  /** A dep slot is a position here: level-major, first use within a level. */
  function DepNames(plan: Plan, gridNames: seq<string>): seq<string> {
    Sorted(Distinct(DependentReads(plan, Slots(plan)) + OnlyDependents(plan, gridNames)), DependentLevel(plan))
  }

  lemma {:induction false} OnlyDependentsMember(plan: Plan, names: seq<string>, n: string)
    ensures n in OnlyDependents(plan, names) <==> n in names && n in DependentLevels(plan.dependent)
    decreases |names|
  {
    if names != [] {
      OnlyDependentsMember(plan, names[..|names| - 1], n);
      assert names == names[..|names| - 1] + [names[|names| - 1]];
    }
  }

  lemma {:induction false} DependentReadsMember(plan: Plan, slots: seq<Computed>, n: string)
    ensures n in DependentReads(plan, slots) <==>
              n in DependentLevels(plan.dependent) && exists c :: c in slots && n in c.inputs
    decreases |slots|
  {
    if slots != [] {
      var last := |slots| - 1;
      DependentReadsMember(plan, slots[..last], n);
      OnlyDependentsMember(plan, slots[last].inputs, n);
      assert slots == slots[..last] + [slots[last]];
    }
  }

  /** The dep slots hold exactly the dependents some computed heuristic or the grid reads, each once,
      by level. */
  lemma DepNamesExactly(plan: Plan, gridNames: seq<string>, n: string)
    ensures n in DepNames(plan, gridNames) <==>
              && (exists d :: d in plan.dependent && d.name == n)
              && (n in gridNames || exists c :: c in plan.computed && n in c.inputs)
    ensures NoRepeats(DepNames(plan, gridNames)) && Ascending(DepNames(plan, gridNames), DependentLevel(plan))
  {
    var wanted := DependentReads(plan, Slots(plan)) + OnlyDependents(plan, gridNames);
    DependentReadsMember(plan, Slots(plan), n);
    OnlyDependentsMember(plan, gridNames, n);
    SlotsHold(plan);
    IsDependentLevel(plan.dependent, n);
    SortedMember(Distinct(wanted), DependentLevel(plan), n);
    SortedStable(Distinct(wanted), DependentLevel(plan), 0);
    SortedDistinct(Distinct(wanted), DependentLevel(plan));
    hide DependentLevels;
    hide Slots;
    hide Sorted;
  }

  lemma {:induction false} IsDependentLevel(dependent: seq<Dependent>, n: string)
    ensures n in DependentLevels(dependent) <==> exists d :: d in dependent && d.name == n
    decreases |dependent|
  {
    if dependent != [] {
      var last := |dependent| - 1;
      IsDependentLevel(dependent[..last], n);
      assert dependent == dependent[..last] + [dependent[last]];
    }
  }

  function CompNames(plan: Plan): (names: seq<string>)
    ensures |names| == |Slots(plan)| && forall i :: 0 <= i < |names| ==> names[i] == Slots(plan)[i].name
  {
    seq(|Slots(plan)|, i requires 0 <= i < |Slots(plan)| => Slots(plan)[i].name)
  }

  function OfParam(p: Resolved): Source {
    if p.baked.Some? then Fixed(p.baked.value) else Arg(p.callIndex)
  }

  /** A baked parameter is its value in the module, and one that is not tuned a caller's argument. */
  ghost predicate FromParam(plan: Plan, resolved: seq<Resolved>, n: string, source: Source) {
    exists p :: p in resolved && p.name == n && IsParam(plan, p, source)
  }

  ghost predicate IsParam(plan: Plan, p: Resolved, source: Source) {
    match p.baked
    case Some(v) => source == Fixed(v)
    case None => source == Arg(p.callIndex) && !Tunes(plan, p.name)
  }

  /** Where C finds a name: the last of the loops that fill `sources` to name it decides. */
  ghost predicate SourceIs(plan: Plan, resolved: seq<Resolved>, depNames: seq<string>, n: string, source: Source) {
    if n in CompNames(plan) then source.Comp? && source.slot < |Slots(plan)| && Slots(plan)[source.slot].name == n
    else if n in depNames then source.Dep? && source.slot < |depNames| && depNames[source.slot] == n
    else FromParam(plan, resolved, n, source)
  }

  method ParamSources(plan: Plan, resolved: seq<Resolved>) returns (sources: map<string, Source>)
    ensures forall n :: n in sources ==> FromParam(plan, resolved, n, sources[n])
    ensures forall p :: p in resolved && (p.baked.Some? || !Tunes(plan, p.name)) ==> p.name in sources
  {
    sources := map[];
    for i := 0 to |resolved|
      invariant forall n :: n in sources ==> FromParam(plan, resolved, n, sources[n])
      invariant forall k :: 0 <= k < i && (resolved[k].baked.Some? || !Tunes(plan, resolved[k].name)) ==>
          resolved[k].name in sources
    {
      var p := resolved[i];
      assert p in resolved;
      var tuned := IsTuned(plan, p.name);
      if p.baked.Some? || !tuned {
        assert IsParam(plan, p, OfParam(p));
        sources := sources[p.name := OfParam(p)];
      }
    }
  }

  function SlotSource(comp: bool, slot: nat): Source {
    if comp then Comp(slot) else Dep(slot)
  }

  /** Every slot's name, over what was there before. */
  method AddSlots(before: map<string, Source>, names: seq<string>, comp: bool) returns (sources: map<string, Source>)
    ensures forall n :: n in sources <==> n in before || n in names
    ensures forall n :: n in sources && n !in names ==> n in before && sources[n] == before[n]
    ensures forall n :: n in names ==> exists slot ::
        0 <= slot < |names| && names[slot] == n && sources[n] == SlotSource(comp, slot)
  {
    sources := before;
    for slot := 0 to |names|
      invariant forall n :: n in sources <==> n in before || n in names[..slot]
      invariant forall n :: n in sources && n !in names[..slot] ==> n in before && sources[n] == before[n]
      invariant forall n :: n in names[..slot] ==> exists k ::
          0 <= k < slot && names[k] == n && sources[n] == SlotSource(comp, k)
    {
      sources := sources[names[slot] := SlotSource(comp, slot)];
      assert names[..slot + 1] == names[..slot] + [names[slot]];
    }
    assert names[..|names|] == names;
  }

  method FillSources(plan: Plan, resolved: seq<Resolved>, depNames: seq<string>) returns (sources: map<string, Source>)
    ensures forall n :: n in sources ==> SourceIs(plan, resolved, depNames, n, sources[n])
    ensures forall n :: n in CompNames(plan) || n in depNames ==> n in sources
    ensures forall p :: p in resolved && (p.baked.Some? || !Tunes(plan, p.name)) ==> p.name in sources
  {
    var params := ParamSources(plan, resolved);
    var deps := AddSlots(params, depNames, false);
    sources := AddSlots(deps, CompNames(plan), true);
  }

  method IsTuned(plan: Plan, n: string) returns (r: bool)
    ensures r == Tunes(plan, n)
  {
    for i := 0 to |plan.dependent|
      invariant forall k :: 0 <= k < i ==> plan.dependent[k].name != n
    {
      if plan.dependent[i].name == n {
        assert plan.dependent[i] in plan.dependent;
        return true;
      }
    }
    for i := 0 to |plan.computed|
      invariant forall k :: 0 <= k < i ==> plan.computed[k].name != n
    {
      if plan.computed[i].name == n {
        assert plan.computed[i] in plan.computed;
        return true;
      }
    }
    return false;
  }

  // ---------------------------------------------------------------- what the plan gives the levels

  /** The lowered heuristics, with what each reads and where C finds it. */
  ghost predicate Rendered(entries: seq<L.Entry>, plan: Plan, resolved: seq<Resolved>, depNames: seq<string>) {
    && |entries| == |Slots(plan)|
    && forall j :: 0 <= j < |entries| ==>
         var c := Slots(plan)[j];
         && entries[j].name == c.name && entries[j].level == c.level
           && L.Inputs(entries[j].expr) == (set n | n in c.inputs)
         && forall n :: n in entries[j].c.sources ==> SourceIs(plan, resolved, depNames, n, entries[j].c.sources[n])
  }

  /** The slot order the rendered levels rely on: each heuristic's computed inputs have earlier
      slots, of levels up to its own. */
  lemma SlotsOrdered(entries: seq<L.Entry>, plan: Plan, resolved: seq<Resolved>, depNames: seq<string>)
    requires Rendered(entries, plan, resolved, depNames) && AllReady(plan)
    ensures L.SlotOrdered(entries)
  {
    hide Slots;
    forall j, k | 0 <= j < |entries| && k in L.Inputs(entries[j].expr) && k in entries[j].c.sources
      && entries[j].c.sources[k].Comp?
      ensures var i := entries[j].c.sources[k].slot;
              i < j && entries[i].level <= entries[j].level && entries[i].name == k
    {
      assert SourceIs(plan, resolved, depNames, k, entries[j].c.sources[k]);
      assert k in Slots(plan)[j].inputs && Ready(plan, j, k);
    }
  }

  lemma {:induction false} SumMonotone(counts: seq<nat>, a: nat, b: nat)
    requires a <= b <= |counts|
    ensures Sum(counts[..a]) <= Sum(counts[..b])
    decreases b
  {
    if a < b {
      SumMonotone(counts, a, b - 1);
      assert counts[..b][..b - 1] == counts[..b - 1];
    }
  }

  /** The dep slot of a dependent that comp slot `j` reads was filled by a record of a lower level:
      it lies before the prefix sum of the dep counts below `j`'s. */
  lemma DepSlotWalked(plan: Plan, gridNames: seq<string>, j: nat, n: string, s: nat)
    requires AllReady(plan) && j < |Slots(plan)| && n in Slots(plan)[j].inputs && Slots(plan)[j].level < plan.levels
    requires n in DependentLevels(plan.dependent) && s < |DepNames(plan, gridNames)|
        && DepNames(plan, gridNames)[s] == n
    ensures s < Sum(Counts(DepNames(plan, gridNames), DependentLevel(plan), plan.levels)[..Slots(plan)[j].level])
  {
    var names, level, l := DepNames(plan, gridNames), DependentLevel(plan), DependentLevels(plan.dependent)[n];
    SortedStable(Distinct(DependentReads(plan, Slots(plan)) + OnlyDependents(plan, gridNames)), level, 0);
    LevelOfMeans(plan.dependent, n);
    hide Slots;
    hide DepNames;
    assert Ready(plan, j, n);
    RunsPartition(names, level, plan.levels, s, l);
    SumMonotone(Counts(names, level, plan.levels), l + 1, Slots(plan)[j].level);
  }

  /** A launch as its levels meet it: the kernel's arguments, those baked apart; and, at each level, the
      values and types the records walked below it hold, by dep slot. */
  ghost predicate Launches(plan: Plan, resolved: seq<Resolved>, depNames: seq<string>, env: PyEnv, ws: seq<World>) {
    && TorchTyped(env.torch) && (forall c :: c in plan.computed ==> c.name in env.inputs)
    && forall l :: 0 <= l < |ws| ==>
         && ws[l].torch == env.torch
         && (forall p :: p in resolved ==> PassedIn(plan, p, env, ws[l]))
         && forall s :: 0 <= s < |depNames| && DependentLevel(plan)(depNames[s]) < l ==>
           RecordedIn(depNames[s], s, env, ws[l])
  }

  ghost predicate PassedIn(plan: Plan, p: Resolved, env: PyEnv, w: World) {
    match p.baked
    case Some(v) => p.name in env.inputs && env.inputs[p.name] == v
    case None =>
      !Tunes(plan, p.name) ==>
        p.name in env.inputs && p.callIndex < |w.args| && w.args[p.callIndex] == env.inputs[p.name]
  }

  ghost predicate RecordedIn(n: string, s: nat, env: PyEnv, w: World) {
    n in env.inputs && HoldsPair(w.dep, s, env.inputs[n])
  }

  /** Every source a level's heuristics are given, but the comp slots, holds its value. */
  lemma SourcesMatch(entries: seq<L.Entry>, plan: Plan, resolved: seq<Resolved>, depNames: seq<string>,
                     env: PyEnv, ws: seq<World>, l: nat)
    requires Rendered(entries, plan, resolved, depNames) && AllReady(plan)
        && Launches(plan, resolved, depNames, env, ws)
    requires l < |ws| && forall n :: n in depNames ==> n in DependentLevels(plan.dependent)
    ensures L.OthersMatch(entries, l, env, ws[l])
  {
    hide Slots;
    SlotsHold(plan);
    forall j, k | 0 <= j < |entries| && entries[j].level == l && k in L.Inputs(entries[j].expr)
      && k in entries[j].c.sources
      ensures k in env.inputs
      ensures !entries[j].c.sources[k].Comp? ==> SourceMatches(entries[j].c.sources[k], env.inputs[k], ws[l], [])
    {
      var source := entries[j].c.sources[k];
      assert SourceIs(plan, resolved, depNames, k, source) && k in Slots(plan)[j].inputs;
      if k in CompNames(plan) {
        assert Slots(plan)[source.slot] in Slots(plan);
      } else if k in depNames {
        LevelOfMeans(plan.dependent, k);
        assert Ready(plan, j, k);
        assert DependentLevel(plan)(depNames[source.slot]) < l;
        assert RecordedIn(depNames[source.slot], source.slot, env, ws[l]);
      } else {
        var p :| p in resolved && p.name == k && IsParam(plan, p, source);
        assert PassedIn(plan, p, env, ws[l]);
      }
    }
  }

  /** From the analysis to the values: where no heuristic reads ahead, the levels a chain is
      rendered with, run on a launch's arrays, finish exactly when every computed heuristic has an int
      or bool in int64 for a value, and then each comp slot holds Python's. */
  lemma RenderedLevelsCompute(params: map<string, bool>, baked: set<string>, layers: seq<Layer>,
                              resolved: seq<Resolved>, gridNames: seq<string>,
                              entries: seq<L.Entry>, ws: seq<World>, env: PyEnv, comp: seq<int>)
    requires Analysis(params, baked, layers).Some? && ForwardReadsLower(Analysis(params, baked, layers).value, layers)
    requires var plan := Analysis(params, baked, layers).value;
      && Rendered(entries, plan, resolved, DepNames(plan, gridNames)) && |ws| == plan.levels && |comp| == 2 * |entries|
      && Launches(plan, resolved, DepNames(plan, gridNames), env, ws)
    requires forall l :: 0 <= l < |ws| ==> L.LevelLines(entries, l, 0, 0).Some?
    requires L.Consistent(entries, env) && forall j :: 0 <= j < |entries| ==> LiteralsOk(entries[j].expr, entries[j].c)
    ensures var r := L.RunLevels(entries, ws, 0, comp);
      && (r.Some? <==> forall j :: 0 <= j < |entries| ==> Finishes(L.ValueOf(entries, j, env)))
      && (r.Some? ==> forall j :: 0 <= j < |entries| ==> HoldsPair(r.value, j, L.ValueOf(entries, j, env).result.v))
  {
    var plan := Analysis(params, baked, layers).value;
    ReadyExactly(params, baked, layers);
    hide Analysis;
    hide ForwardReadsLower;
    hide DepNames;
    hide Rendered;
    hide Launches;
    hide AllReady;
    forall n | n in DepNames(plan, gridNames)
      ensures n in DependentLevels(plan.dependent)
    {
      DepNamesExactly(plan, gridNames, n);
      IsDependentLevel(plan.dependent, n);
    }
    forall l | 0 <= l < |ws|
      ensures L.OthersMatch(entries, l, env, ws[l])
    {
      SourcesMatch(entries, plan, resolved, DepNames(plan, gridNames), env, ws, l);
    }
    LevelsMeet(params, baked, layers, resolved, DepNames(plan, gridNames), entries, ws, env, comp);
  }

  lemma LevelsMeet(params: map<string, bool>, baked: set<string>, layers: seq<Layer>,
                              resolved: seq<Resolved>, depNames: seq<string>,
                              entries: seq<L.Entry>, ws: seq<World>, env: PyEnv, comp: seq<int>)
    requires Analysis(params, baked, layers).Some? && ForwardReadsLower(Analysis(params, baked, layers).value, layers)
    requires var plan := Analysis(params, baked, layers).value;
      Rendered(entries, plan, resolved, depNames) && |ws| == plan.levels && |comp| == 2 * |entries|
    requires forall l :: 0 <= l < |ws| ==> L.LevelLines(entries, l, 0, 0).Some? && L.OthersMatch(entries, l, env, ws[l])
    requires L.Consistent(entries, env) && forall j :: 0 <= j < |entries| ==> LiteralsOk(entries[j].expr, entries[j].c)
    ensures var r := L.RunLevels(entries, ws, 0, comp);
      && (r.Some? <==> forall j :: 0 <= j < |entries| ==> Finishes(L.ValueOf(entries, j, env)))
      && (r.Some? ==> forall j :: 0 <= j < |entries| ==> HoldsPair(r.value, j, L.ValueOf(entries, j, env).result.v))
  {
    var plan := Analysis(params, baked, layers).value;
    ReadyExactly(params, baked, layers);
    DependentsBelow(params, baked, layers);
    SlotsHold(plan);
    hide Analysis;
    hide ForwardReadsLower;
    SlotsOrdered(entries, plan, resolved, depNames);
    hide AllReady;
    hide Slots;
    forall j | 0 <= j < |entries|
      ensures entries[j].level < |ws|
    {
      assert Slots(plan)[j] in Slots(plan);
    }
    L.LevelsCompute(entries, ws, 0, env, comp);
  }

  // ---------------------------------------------------------------- the levels of the template

  /** One lookup level: where its deps and computed keys lie in the call's two arrays. */
  datatype Level = Level(
    n: nat, last: bool, deps: nat, computed: nat, depAt: nat, compOffset: nat, compAt: nat, depLen: nat, keyLen: nat,
    parent: int, child: Option<Level>)

  function LevelAt(deps: seq<nat>, computed: seq<nat>, n: nat, child: Option<Level>): Level
    requires n < |deps| == |computed|
  {
    Level(n, n == |deps| - 1, deps[n], computed[n], 2 * Sum(deps[..n]), Sum(computed[..n]), 2 * Sum(computed[..n]),
          Max(2 * deps[n], 1), 2 * computed[n], n - 1, child)
  }

  function After(levels: seq<Level>, i: nat): Option<Level> {
    if i + 1 < |levels| then Some(levels[i + 1]) else None
  }

  /** The levels from `n` on, each with the next for a child. */
  ghost predicate Placed(levels: seq<Level>, deps: seq<nat>, computed: seq<nat>, n: nat) {
    && |deps| == |computed| && |levels| + n == |deps|
    && forall i :: 0 <= i < |levels| ==> levels[i] == LevelAt(deps, computed, n + i, After(levels, i))
  }

  lemma PlaceFirst(levels: seq<Level>, deps: seq<nat>, computed: seq<nat>, n: nat)
    requires n > 0 && Placed(levels, deps, computed, n)
    ensures var first := LevelAt(deps, computed, n - 1, if levels == [] then None else Some(levels[0]));
      Placed([first] + levels, deps, computed, n - 1)
  {
    var first := LevelAt(deps, computed, n - 1, if levels == [] then None else Some(levels[0]));
    var all := [first] + levels;
    forall i | 0 <= i < |all|
      ensures all[i] == LevelAt(deps, computed, n - 1 + i, After(all, i))
    {
      if i > 0 {
        assert all[i] == levels[i - 1] && After(all, i) == After(levels, i - 1);
      }
    }
  }

  /** `_levels`: the parts of the two arrays tile them, in order, and each level is its parent's child. */
  method Levels(deps: seq<nat>, computed: seq<nat>) returns (levels: seq<Level>)
    requires |deps| == |computed|
    ensures |levels| == |deps|
    ensures forall n :: 0 <= n < |deps| ==>
              && levels[n].n == n && levels[n].deps == deps[n] && levels[n].computed == computed[n]
              && levels[n].depAt == 2 * Sum(deps[..n])
                && levels[n].compAt == 2 * levels[n].compOffset == 2 * Sum(computed[..n])
              && levels[n].depLen == (if deps[n] == 0 then 1 else 2 * deps[n]) && levels[n].keyLen == 2 * computed[n]
              && levels[n].parent == n - 1 && levels[n].child == After(levels, n)
    ensures forall n :: 0 <= n < |deps| - 1 ==>
              && !levels[n].last && levels[n + 1].depAt == levels[n].depAt + 2 * deps[n]
              && levels[n + 1].compAt == levels[n].compAt + levels[n].keyLen
    ensures |deps| > 0 ==> levels[|deps| - 1].last
  {
    levels := [];
    var child: Option<Level> := None;
    var n := |deps|;
    while n > 0
      invariant n >= 0 && Placed(levels, deps, computed, n)
      invariant child == if levels == [] then None else Some(levels[0])
    {
      PlaceFirst(levels, deps, computed, n);
      n := n - 1;
      child := Some(LevelAt(deps, computed, n, child));
      levels := [child.value] + levels;
    }
    hide Placed;
    PlacedTiles(levels, deps, computed);
    PlacedMeans(levels, deps, computed);
  }

  lemma PlacedMeans(levels: seq<Level>, deps: seq<nat>, computed: seq<nat>)
    requires Placed(levels, deps, computed, 0)
    ensures |levels| == |deps|
    ensures forall n :: 0 <= n < |deps| ==>
              && levels[n].n == n && levels[n].deps == deps[n] && levels[n].computed == computed[n]
              && levels[n].depAt == 2 * Sum(deps[..n])
                && levels[n].compAt == 2 * levels[n].compOffset == 2 * Sum(computed[..n])
              && levels[n].depLen == (if deps[n] == 0 then 1 else 2 * deps[n]) && levels[n].keyLen == 2 * computed[n]
              && levels[n].parent == n - 1 && levels[n].child == After(levels, n)
                && (levels[n].last <==> n == |deps| - 1)
  {
    hide Sum;
  }

  lemma PlacedTiles(levels: seq<Level>, deps: seq<nat>, computed: seq<nat>)
    requires Placed(levels, deps, computed, 0)
    ensures forall n :: 0 <= n < |deps| - 1 ==>
              && levels[n + 1].depAt == levels[n].depAt + 2 * deps[n]
              && levels[n + 1].compAt == levels[n].compAt + levels[n].keyLen
  {
    forall n | 0 <= n < |deps| - 1
      ensures levels[n + 1].depAt == levels[n].depAt + 2 * deps[n]
          && levels[n + 1].compAt == levels[n].compAt + levels[n].keyLen
    {
      assert deps[..n + 1][..n] == deps[..n] && computed[..n + 1][..n] == computed[..n];
    }
  }
}
