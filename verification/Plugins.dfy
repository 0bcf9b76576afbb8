/**
 Opening plugins after the ones they require (apps/core0/plugin/manager.go). Whether a plugin's own `Open`
 succeeds is fixed; requirements do not form a cycle.
 */
module Plugins {

  /** What a plugin declares, and whether its `Open` returns without an error. */
  datatype Declaration = Declaration(requirements: seq<string>, opens: bool)

  type Table = map<string, Declaration>

  /** A call of a plugin's `Open`. */
  datatype Call = Call(name: string, ok: bool)

  datatype Opened = Opened(open: set<string>, calls: seq<Call>, ok: bool)

  /** The requirements of a plugin that are in the table have lower ranks: there is no cycle. */
  ghost predicate Acyclic(t: Table, rank: map<string, nat>) {
    && rank.Keys == t.Keys
    && forall p, k :: p in t && 0 <= k < |t[p].requirements| && t[p].requirements[k] in t ==>
         rank[t[p].requirements[k]] < rank[p]
  }

  /** `openRecursive`, as a function of the plugins that are open. */
  ghost function OpenRecursive(t: Table, rank: map<string, nat>, open: set<string>, name: string): Opened
    requires Acyclic(t, rank) && name in t
    decreases rank[name], 1, 0
  {
    if name in open then Opened(open, [], true)
    else
      var r := OpenRequired(t, rank, open, name, 0);
      if !r.ok then r
      else if t[name].opens then Opened(r.open + {name}, r.calls + [Call(name, true)], true)
      else Opened(r.open, r.calls + [Call(name, false)], false)
  }

  /** The requirements of `name` from the `k`th on. */
  ghost function OpenRequired(t: Table, rank: map<string, nat>, open: set<string>, name: string, k: nat): Opened
    requires Acyclic(t, rank) && name in t && k <= |t[name].requirements|
    decreases rank[name], 0, |t[name].requirements| - k
  {
    var reqs := t[name].requirements;
    if k == |reqs| then Opened(open, [], true)
    else if reqs[k] !in t then Opened(open, [], false)
    else
      var first := OpenRecursive(t, rank, open, reqs[k]);
      if !first.ok then first
      else
        var rest := OpenRequired(t, rank, first.open, name, k + 1);
        Opened(rest.open, first.calls + rest.calls, rest.ok)
  }

  /** `Load` over the plugins in `order`; `errored` are the names to be taken out of the table. */
  ghost function OpenAll(t: Table, rank: map<string, nat>, open: set<string>, order: seq<string>)
    : (r: (Opened, set<string>))
    requires Acyclic(t, rank) && forall p :: p in order ==> p in t
    decreases |order|
  {
    if order == [] then (Opened(open, [], true), {})
    else
      var first := OpenRecursive(t, rank, open, order[0]);
      var rest := OpenAll(t, rank, first.open, order[1..]);
      (Opened(rest.0.open, first.calls + rest.0.calls, true), rest.1 + if first.ok then {} else {order[0]})
  }

  // ---- As the source does it -----------------------------------------------------------------

  class Plugin {
    const name: string
    const requirements: seq<string>
    const opens: bool
    var isOpen: bool

    constructor (name: string, requirements: seq<string>, opens: bool)
      ensures this.name == name && this.requirements == requirements && this.opens == opens && !isOpen
    {
      this.name, this.requirements, this.opens, isOpen := name, requirements, opens, false;
    }
  }

  class Manager {
    var plugins: map<string, Plugin>
    /** The calls of `Open` so far. */
    var calls: seq<Call>

    constructor (plugins: map<string, Plugin>)
      requires forall p :: p in plugins ==> plugins[p].name == p
      ensures this.plugins == plugins && calls == [] && Valid()
    {
      this.plugins, calls := plugins, [];
    }

    /** Plugins stand under their own names. */
    ghost predicate Valid()
      reads this
    {
      forall p :: p in plugins ==> plugins[p].name == p
    }

    function Declared(): (t: Table)
      reads this
      ensures t.Keys == plugins.Keys
    {
      map p | p in plugins :: Declaration(plugins[p].requirements, plugins[p].opens)
    }

    function OpenPlugins(): set<string>
      reads this, set p | p in plugins :: plugins[p]
    {
      set p | p in plugins && plugins[p].isOpen
    }

    method SafeOpen(p: Plugin) returns (ok: bool)
      modifies this`calls
      ensures ok == p.opens && calls == old(calls) + [Call(p.name, ok)]
    {
      ok := p.opens;
      calls := calls + [Call(p.name, ok)];
    }

    method Open(p: Plugin, ghost rank: map<string, nat>) returns (ok: bool)
      requires Valid() && p.name in plugins && plugins[p.name] == p && Acyclic(Declared(), rank)
      modifies this`calls, (set q | q in plugins :: plugins[q])`isOpen
      ensures Valid()
      ensures var r := OpenRecursive(Declared(), rank, old(OpenPlugins()), p.name);
        ok == r.ok && OpenPlugins() == r.open && calls == old(calls) + r.calls
      decreases rank[p.name], 1
    {
      if p.isOpen {
        return true;
      }
      ok := OpenRequirements(p, rank);
      if !ok {
        return;
      }
      ok := SafeOpen(p);
      if !ok {
        return;
      }
      p.isOpen := true;
    }

    method OpenRequirements(p: Plugin, ghost rank: map<string, nat>) returns (ok: bool)
      requires Valid() && p.name in plugins && plugins[p.name] == p && Acyclic(Declared(), rank)
      modifies this`calls, (set q | q in plugins :: plugins[q])`isOpen
      ensures Valid()
      ensures var r := OpenRequired(Declared(), rank, old(OpenPlugins()), p.name, 0);
        ok == r.ok && OpenPlugins() == r.open && calls == old(calls) + r.calls
      decreases rank[p.name], 0
    {
      ghost var t := Declared();
      ghost var all := OpenRequired(t, rank, OpenPlugins(), p.name, 0);
      ghost var before := calls;
      var k := 0;
      while k < |p.requirements|
        invariant k <= |p.requirements| && Declared() == t && Valid()
        invariant var rest := OpenRequired(t, rank, OpenPlugins(), p.name, k);
          all.ok == rest.ok && all.open == rest.open && before + all.calls == calls + rest.calls
      {
        var req := p.requirements[k];
        if req !in plugins {
          return false;
        }
        ok := Open(plugins[req], rank);
        if !ok {
          return false;
        }
        k := k + 1;
      }
      return true;
    }

    /** The loop of `Load`: what it collects are the names of the plugins that did not open. */
    method OpenEach(order: seq<string>, ghost rank: map<string, nat>) returns (errored: seq<string>)
      requires Valid() && Acyclic(Declared(), rank) && forall p :: p in order ==> p in plugins
      modifies this`calls, (set q | q in plugins :: plugins[q])`isOpen
      ensures Valid()
      ensures var (r, bad) := OpenAll(Declared(), rank, old(OpenPlugins()), order);
        && calls == old(calls) + r.calls && OpenPlugins() == r.open
        && (set p | p in errored) == bad
    {
      ghost var t := Declared();
      ghost var (all, bad) := OpenAll(t, rank, OpenPlugins(), order);
      ghost var before := calls;
      errored := [];
      var i := 0;
      while i < |order|
        invariant i <= |order| && Valid() && Declared() == t
        invariant var (rest, more) := OpenAll(t, rank, OpenPlugins(), order[i..]);
          all.open == rest.open && before + all.calls == calls + rest.calls && bad == more + set p | p in errored
      {
        assert order[i..][0] == order[i] && order[i..][1..] == order[i + 1..];
        var ok := Open(plugins[order[i]], rank);
        if !ok {
          errored := errored + [order[i]];
        }
        i := i + 1;
      }
    }

    /** `Load`, for the plugins that were found; `order` is the order in which the map is gone through. */
    method Load(order: seq<string>, ghost rank: map<string, nat>)
      requires Valid() && Acyclic(Declared(), rank) && (forall p :: p in order <==> p in plugins)
      modifies this, (set q | q in plugins :: plugins[q])`isOpen
      ensures var (r, errored) := OpenAll(old(Declared()), rank, old(OpenPlugins()), order);
        && plugins == old(plugins) - errored && calls == old(calls) + r.calls
        && OpenPlugins() == r.open - errored
    {
      var errored := OpenEach(order, rank);
      plugins := plugins - set p | p in errored;
    }
  }
}
