/** Roles of names in a chain of autotune and heuristics layers (`analyze`, intj/tuning.py). */
module Tuning {
  import opened Optional

  /** `inputs` is what `parse_heuristic` lists, None where it raises. */
  datatype Heuristic = Heuristic(name: string, inputs: Option<seq<string>>)

  /** A config is the names its `all_kwargs` gives. */
  datatype Layer =
    | Autotuner(keys: seq<string>, configs: seq<seq<string>>)
    | Heuristics(values: seq<Heuristic>)

  /** An exact value's key level (a dependent's record level), and the number of lookups after
      which C can read it. */
  datatype Info = Info(exact: bool, level: nat, known: nat)

  datatype Dependent = Dependent(name: string, level: nat)

  datatype Computed = Computed(name: string, level: nat, inputs: seq<string>)

  /** What `analyze` has found so far. */
  datatype Roles = Roles(
    info: map<string, Info>, given: set<string>,
    exactKeys: seq<string>, dependent: seq<Dependent>, computed: seq<Computed>)

  datatype Plan = Plan(exactKeys: seq<string>, dependent: seq<Dependent>, computed: seq<Computed>, levels: nat)

  function Max(a: nat, b: nat): nat {
    if a < b then b else a
  }

  // ---------------------------------------------------------------- the specification

  /** The names of a config list, by first appearance. */
  function Distinct(names: seq<string>): (r: seq<string>)
    ensures forall n :: n in r <==> n in names
    ensures forall i, j :: 0 <= i < j < |r| ==> r[i] != r[j]
  {
    if names == [] then []
    else
      var r := Distinct(names[..|names| - 1]);
      if names[|names| - 1] in r then r else r + [names[|names| - 1]]
  }

  function AllNames(configs: seq<seq<string>>): seq<string> {
    if configs == [] then [] else AllNames(configs[..|configs| - 1]) + configs[|configs| - 1]
  }

  function HeuristicNames(values: seq<Heuristic>): set<string> {
    set i | 0 <= i < |values| :: values[i].name
  }

  /** The names a layer assigns. */
  function Assigns(layer: Layer): set<string> {
    match layer
    case Autotuner(_, configs) => set n | n in AllNames(configs)
    case Heuristics(values) => HeuristicNames(values)
  }

  /** The names the layers from `i` on assign. */
  function AssignedFrom(layers: seq<Layer>, i: nat): set<string>
    requires i <= |layers|
    decreases |layers| - i
  {
    if i == |layers| then {} else AssignedFrom(layers, i + 1) + Assigns(layers[i])
  }

  /** `params` maps a parameter's name to whether it is a constexpr. */
  function Start(params: map<string, bool>, baked: set<string>): Roles {
    Roles(map n | n in params :: Info(params[n] || n in baked, 0, 0), {}, [], [], [])
  }

  function MayAssign(r: Roles, params: map<string, bool>, name: string): bool {
    name !in r.given && (name in params ==> params[name])
  }

  /** One autotune key, and the layer's level so far. */
  function AfterKey(r: Roles, params: map<string, bool>, inner: set<string>, key: string,
                    level: nat): Option<(Roles, nat)> {
    if key !in params then Some((r, level))
    else if key in inner || key !in r.info then None
    else
      var r' := if r.info[key].exact then r
                else r.(info := r.info[key := Info(true, r.info[key].known, r.info[key].known)],
                        exactKeys := r.exactKeys + [key]);
      Some((r', Max(level, r'.info[key].level)))
  }

  function AfterKeys(r: Roles, params: map<string, bool>, inner: set<string>, keys: seq<string>): Option<(Roles, nat)> {
    if keys == [] then Some((r, 0))
    else
      var before :- AfterKeys(r, params, inner, keys[..|keys| - 1]);
      AfterKey(before.0, params, inner, keys[|keys| - 1], before.1)
  }

  function AfterTuned(r: Roles, params: map<string, bool>, name: string, level: nat): Option<Roles> {
    if !MayAssign(r, params, name) then None
    else Some(r.(
      info := r.info[name := Info(true, level, level + 1)],
      given := r.given + {name},
      dependent := r.dependent + [Dependent(name, level)]))
  }

  function AfterNames(r: Roles, params: map<string, bool>, names: seq<string>, level: nat): Option<Roles> {
    if names == [] then Some(r)
    else
      var before :- AfterNames(r, params, names[..|names| - 1], level);
      AfterTuned(before, params, names[|names| - 1], level)
  }

  function AllExact(info: map<string, Info>, inputs: seq<string>): bool {
    forall n :: n in inputs ==> n in info && info[n].exact
  }

  function MaxLevel(info: map<string, Info>, inputs: seq<string>): nat {
    if inputs == [] then 0
    else
      var n := inputs[|inputs| - 1];
      Max(MaxLevel(info, inputs[..|inputs| - 1]), if n in info then info[n].level else 0)
  }

  function MaxKnown(info: map<string, Info>, inputs: seq<string>): nat {
    if inputs == [] then 0
    else
      var n := inputs[|inputs| - 1];
      Max(MaxKnown(info, inputs[..|inputs| - 1]), if n in info then info[n].known else 0)
  }

  function MayRead(info: map<string, Info>, inner: set<string>, inputs: seq<string>): bool {
    forall n :: n in inputs ==> n !in inner && n in info
  }

  function AfterHeuristic(r: Roles, params: map<string, bool>, inner: set<string>, h: Heuristic): Option<Roles> {
    if h.inputs.None? then None else
    var inputs := h.inputs.value;
    if !MayRead(r.info, inner, inputs) || h.name in inputs || !MayAssign(r, params, h.name) then None
    else if AllExact(r.info, inputs) then
      var level := MaxLevel(r.info, inputs);
      Some(r.(
        info := r.info[h.name := Info(true, level, level + 1)],
        given := r.given + {h.name},
        dependent := r.dependent + [Dependent(h.name, level)]))
    else
      var level := MaxKnown(r.info, inputs);
      Some(r.(
        info := r.info[h.name := Info(true, level, level)],
        given := r.given + {h.name},
        computed := r.computed + [Computed(h.name, level, inputs)]))
  }

  function AfterHeuristics(r: Roles, params: map<string, bool>, inner: set<string>,
                           values: seq<Heuristic>): Option<Roles> {
    if values == [] then Some(r)
    else
      var before :- AfterHeuristics(r, params, inner, values[..|values| - 1]);
      AfterHeuristic(before, params, inner, values[|values| - 1])
  }

  function AfterLayer(r: Roles, params: map<string, bool>, inner: set<string>, layer: Layer): Option<Roles> {
    match layer
    case Autotuner(keys, configs) =>
      var keyed :- AfterKeys(r, params, inner, keys);
      AfterNames(keyed.0, params, Distinct(AllNames(configs)), keyed.1)
    case Heuristics(values) => AfterHeuristics(r, params, inner, values)
  }

  /** The roles after the first `k` layers, outermost first. */
  function AfterLayers(params: map<string, bool>, baked: set<string>, layers: seq<Layer>, k: nat): Option<Roles>
    requires k <= |layers|
  {
    if k == 0 then Some(Start(params, baked))
    else
      var before :- AfterLayers(params, baked, layers, k - 1);
      AfterLayer(before, params, AssignedFrom(layers, k), layers[k - 1])
  }

  function TopLevel(computed: seq<Computed>): nat {
    if computed == [] then 0 else Max(TopLevel(computed[..|computed| - 1]), computed[|computed| - 1].level)
  }

  /** What `analyze` returns, None where it raises. */
  function Analysis(params: map<string, bool>, baked: set<string>, layers: seq<Layer>): Option<Plan> {
    if layers == [] then None else
    var r :- AfterLayers(params, baked, layers, |layers|);
    Some(Plan(r.exactKeys, r.dependent, r.computed, 1 + TopLevel(r.computed)))
  }

  // ---------------------------------------------------------------- the analysis as it runs

  /** `analyze`'s shared state; a method returns false where the source raises. */
  class Analyzer {
    const params: map<string, bool>
    var info: map<string, Info>
    var given: set<string>
    var exactKeys: seq<string>
    var dependent: seq<Dependent>
    var computed: seq<Computed>

    ghost function Found(): Roles
      reads this
    {
      Roles(info, given, exactKeys, dependent, computed)
    }

    constructor (params: map<string, bool>, baked: set<string>)
      ensures this.params == params && Found() == Start(params, baked)
    {
      this.params := params;
      info := map n | n in params :: Info(params[n] || n in baked, 0, 0);
      given, exactKeys, dependent, computed := {}, [], [], [];
    }

    method Assign(name: string) returns (ok: bool)
      modifies this`given
      ensures ok == MayAssign(old(Found()), params, name)
      ensures given == if ok then old(given) + {name} else old(given)
    {
      if name in given || (name in params && !params[name]) {
        return false;
      }
      given := given + {name};
      return true;
    }

    method VisitAutotuner(keys: seq<string>, configs: seq<seq<string>>, inner: set<string>) returns (ok: bool)
      modifies this
      ensures ok == AfterLayer(old(Found()), params, inner, Autotuner(keys, configs)).Some?
      ensures ok ==> Found() == AfterLayer(old(Found()), params, inner, Autotuner(keys, configs)).value
    {
      ghost var start := Found();
      var level := 0;
      for i := 0 to |keys|
        invariant AfterKeys(start, params, inner, keys[..i]) == Some((Found(), level))
      {
        var key := keys[i];
        KeysFrom(start, params, inner, keys, i + 1);
        assert keys[..i + 1][..i] == keys[..i];
        if key in params {
          if key in inner || key !in info {
            return false;
          }
          if !info[key].exact {
            info := info[key := Info(true, info[key].known, info[key].known)];
            exactKeys := exactKeys + [key];
          }
          level := Max(level, info[key].level);
        }
      }
      assert keys[..|keys|] == keys;
      var names := NamesOf(configs);
      ghost var keyed := Found();
      for i := 0 to |names|
        invariant AfterNames(keyed, params, names[..i], level) == Some(Found())
      {
        NamesFrom(keyed, params, names, level, i + 1);
        assert names[..i + 1][..i] == names[..i];
        ok := Assign(names[i]);
        if !ok {
          return;
        }
        info := info[names[i] := Info(true, level, level + 1)];
        dependent := dependent + [Dependent(names[i], level)];
      }
      assert names[..|names|] == names;
      return true;
    }

    /** Where a key fails, the whole key list does. */
    static lemma {:induction false} KeysFrom(r: Roles, params: map<string, bool>, inner: set<string>,
                                             keys: seq<string>, i: nat)
      requires i <= |keys|
      ensures AfterKeys(r, params, inner, keys[..i]).None? ==> AfterKeys(r, params, inner, keys).None?
      decreases |keys| - i
    {
      if i < |keys| {
        KeysFrom(r, params, inner, keys, i + 1);
        assert keys[..i + 1][..i] == keys[..i];
      } else {
        assert keys[..i] == keys;
      }
    }

    static lemma {:induction false} NamesFrom(r: Roles, params: map<string, bool>, names: seq<string>, level: nat,
                                              i: nat)
      requires i <= |names|
      ensures AfterNames(r, params, names[..i], level).None? ==> AfterNames(r, params, names, level).None?
      decreases |names| - i
    {
      if i < |names| {
        NamesFrom(r, params, names, level, i + 1);
        assert names[..i + 1][..i] == names[..i];
      } else {
        assert names[..i] == names;
      }
    }

    static lemma {:induction false} HeuristicsFrom(r: Roles, params: map<string, bool>, inner: set<string>,
                                                   values: seq<Heuristic>, i: nat)
      requires i <= |values|
      ensures AfterHeuristics(r, params, inner, values[..i]).None? ==> AfterHeuristics(r, params, inner, values).None?
      decreases |values| - i
    {
      if i < |values| {
        HeuristicsFrom(r, params, inner, values, i + 1);
        assert values[..i + 1][..i] == values[..i];
      } else {
        assert values[..i] == values;
      }
    }

    /** The names of every config, in a dict. */
    static method NamesOf(configs: seq<seq<string>>) returns (names: seq<string>)
      ensures names == Distinct(AllNames(configs))
    {
      names := [];
      for i := 0 to |configs|
        invariant names == Distinct(AllNames(configs[..i]))
      {
        names := AddNames(names, AllNames(configs[..i]), configs[i]);
        assert configs[..i + 1][..i] == configs[..i];
      }
      assert configs[..|configs|] == configs;
    }

    static method AddNames(names: seq<string>, ghost before: seq<string>, config: seq<string>) returns (r: seq<string>)
      requires names == Distinct(before)
      ensures r == Distinct(before + config)
    {
      r := names;
      assert before + config[..0] == before;
      for j := 0 to |config|
        invariant r == Distinct(before + config[..j])
      {
        assert (before + config[..j + 1])[..|before| + j] == before + config[..j];
        if config[j] !in r {
          r := r + [config[j]];
        }
      }
      assert config[..|config|] == config;
    }

    method VisitHeuristic(h: Heuristic, inner: set<string>) returns (ok: bool)
      modifies this
      ensures ok == AfterHeuristic(old(Found()), params, inner, h).Some?
      ensures ok ==> Found() == AfterHeuristic(old(Found()), params, inner, h).value
    {
      if h.inputs.None? {
        return false;
      }
      var inputs := h.inputs.value;
      for i := 0 to |inputs|
        invariant forall k :: 0 <= k < i ==> inputs[k] !in inner && inputs[k] in info
        invariant Found() == old(Found())
      {
        if inputs[i] in inner || inputs[i] !in info {
          return false;
        }
      }
      if h.name in inputs {
        return false;
      }
      ok := Assign(h.name);
      if !ok {
        return;
      }
      var exact, level, known := true, 0, 0;
      for i := 0 to |inputs|
        invariant exact == forall k :: 0 <= k < i ==> info[inputs[k]].exact
        invariant level == MaxLevel(info, inputs[..i]) && known == MaxKnown(info, inputs[..i])
        invariant Found() == old(Found()).(given := old(given) + {h.name})
      {
        assert inputs[..i + 1][..i] == inputs[..i];
        var read := info[inputs[i]];
        exact, level, known := exact && read.exact, Max(level, read.level), Max(known, read.known);
      }
      assert inputs[..|inputs|] == inputs;
      assert exact == AllExact(info, inputs);
      if exact {
        info := info[h.name := Info(true, level, level + 1)];
        dependent := dependent + [Dependent(h.name, level)];
      } else {
        info := info[h.name := Info(true, known, known)];
        computed := computed + [Computed(h.name, known, inputs)];
      }
      return true;
    }

    method VisitHeuristics(values: seq<Heuristic>, inner: set<string>) returns (ok: bool)
      modifies this
      ensures ok == AfterLayer(old(Found()), params, inner, Heuristics(values)).Some?
      ensures ok ==> Found() == AfterLayer(old(Found()), params, inner, Heuristics(values)).value
    {
      ghost var start := Found();
      for i := 0 to |values|
        invariant AfterHeuristics(start, params, inner, values[..i]) == Some(Found())
      {
        HeuristicsFrom(start, params, inner, values, i + 1);
        assert values[..i + 1][..i] == values[..i];
        ok := VisitHeuristic(values[i], inner);
        if !ok {
          return;
        }
      }
      assert values[..|values|] == values;
      return true;
    }
  }

  /** For each layer, what the layers inside it assign. */
  method InnerAssigned(layers: seq<Layer>) returns (inner: seq<set<string>>)
    requires layers != []
    ensures |inner| == |layers|
    ensures forall i :: 0 <= i < |layers| ==> inner[i] == AssignedFrom(layers, i + 1)
  {
    inner := seq(|layers|, _ => {});
    var i := |layers| - 1;
    while i > 0
      invariant 0 <= i < |layers| == |inner|
      invariant forall k :: i <= k < |layers| ==> inner[k] == AssignedFrom(layers, k + 1)
    {
      i := i - 1;
      inner := inner[i := inner[i + 1] + Assigns(layers[i + 1])];
    }
  }

  method Analyze(params: map<string, bool>, baked: set<string>, layers: seq<Layer>) returns (plan: Option<Plan>)
    ensures plan == Analysis(params, baked, layers)
  {
    if layers == [] {
      return None;
    }
    var a := new Analyzer(params, baked);
    var inner := InnerAssigned(layers);
    for i := 0 to |layers|
      invariant a.params == params && fresh(a)
      invariant AfterLayers(params, baked, layers, i) == Some(a.Found())
    {
      LayersFrom(params, baked, layers, i + 1);
      var ok;
      match layers[i] {
        case Autotuner(keys, configs) => ok := a.VisitAutotuner(keys, configs, inner[i]);
        case Heuristics(values) => ok := a.VisitHeuristics(values, inner[i]);
      }
      if !ok {
        return None;
      }
    }
    var top := 0;
    for i := 0 to |a.computed|
      invariant top == TopLevel(a.computed[..i])
    {
      assert a.computed[..i + 1][..i] == a.computed[..i];
      top := Max(top, a.computed[i].level);
    }
    assert a.computed[..|a.computed|] == a.computed;
    return Some(Plan(a.exactKeys, a.dependent, a.computed, 1 + top));
  }

  lemma {:induction false} LayersFrom(params: map<string, bool>, baked: set<string>, layers: seq<Layer>, i: nat)
    requires i <= |layers|
    ensures AfterLayers(params, baked, layers, i).None? ==> AfterLayers(params, baked, layers, |layers|).None?
    decreases |layers| - i
  {
    if i < |layers| {
      LayersFrom(params, baked, layers, i + 1);
    }
  }
}
