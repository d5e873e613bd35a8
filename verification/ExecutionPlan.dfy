/** Construction of an execution plan: deriving the edges of the command graph
    (prepare) and ordering it (init), src/sw/builder/execution_plan.cpp. */
module ExecutionPlans {
  import opened Common
  import opened CommandNodes
  import opened Graphs

  datatype PrepareResult =
    | Prepared
    | EmptyCommand
    | ProgramNotFound
    | DuplicateCommand
    | DependencyNotPassed
    | OutputGeneratedTwice
    | SelfDependency

  /** The files of one command: what it waits for (program, inputs, un-timestamped
      inputs), what it alone writes, what it writes together with others. */
  datatype FileLists = FileLists(consumed: set<Path>, outputs: set<Path>, simultaneous: set<Path>)
  {
    predicate Writes(p: Path)
    {
      p in outputs || p in simultaneous
    }
  }

  type Lists = map<CommandNode, FileLists>
  type Edges = map<CommandNode, set<CommandNode>>

  ghost function ListsOf(cmds: set<CommandNode>): Lists
    reads cmds`prepared, cmds`inputs, cmds`inputsWithoutTimestamps, cmds`outputs, cmds`simultaneousOutputs
  {
    map c | c in cmds ::
      FileLists(c.PreparedInputs() + c.inputsWithoutTimestamps, c.outputs, c.simultaneousOutputs)
  }

  ghost function Graph(cmds: set<CommandNode>): Edges
    reads cmds`dependencies
  {
    map c | c in cmds :: c.dependencies
  }

  ghost predicate UniqueHashes(cmds: set<CommandNode>)
  {
    forall a, b | a in cmds && b in cmds && a.hash == b.hash :: a == b
  }

  ghost predicate Closed(g: Edges)
  {
    forall c | c in g :: g[c] <= g.Keys
  }

  ghost predicate UniqueOutputs(fl: Lists)
  {
    forall a, b, p | a in fl && b in fl && p in fl[a].outputs && p in fl[b].outputs :: a == b
  }

  ghost predicate Feeds(writer: FileLists, reader: FileLists)
  {
    exists p :: p in reader.consumed && writer.Writes(p)
  }

  ghost predicate NoSelfFeeding(fl: Lists)
  {
    forall c | c in fl :: !Feeds(fl[c], fl[c])
  }

  /** The commands that write, alone or together with others, something `c` waits for. */
  ghost function Producers(fl: Lists, c: CommandNode): set<CommandNode>
    requires c in fl
  {
    set g | g in fl && Feeds(fl[g], fl[c])
  }

  /** Every command with its producers as further dependencies. */
  ghost function WithProducers(g: Edges, fl: Lists): Edges
    requires g.Keys == fl.Keys
  {
    map c | c in g :: g[c] + Producers(fl, c)
  }

  lemma WithProducersIsClosed(g: Edges, fl: Lists)
    requires g.Keys == fl.Keys && Closed(g)
    ensures Closed(WithProducers(g, fl))
  {
  }

  /** When prepare succeeds and when it fails how, for commands whose programs are all
      resolved; a duplicate and a dependency that was not passed may both be there. */
  ghost predicate IsOutcome(r: PrepareResult, unique: bool, g: Edges, fl: Lists)
  {
    match r
    case Prepared => unique && Closed(g) && UniqueOutputs(fl) && NoSelfFeeding(fl)
    case DuplicateCommand => !unique
    case DependencyNotPassed => !Closed(g)
    case OutputGeneratedTwice => unique && Closed(g) && !UniqueOutputs(fl)
    case SelfDependency => unique && Closed(g) && UniqueOutputs(fl) && !NoSelfFeeding(fl)
    case _ => false
  }

  type Generators = map<Path, CommandNode>
  type SimultaneousGenerators = map<Path, set<CommandNode>>

  /** What the two generator tables hold once the commands of `fl` have been seen. */
  ghost predicate TablesOf(fl: Lists, generators: Generators, simultaneous: SimultaneousGenerators)
  {
    && (forall p | p in generators :: generators[p] in fl && p in fl[generators[p]].outputs)
    && (forall c, p | c in fl && p in fl[c].outputs :: p in generators && generators[p] == c)
    && (forall p, c | p in simultaneous && c in simultaneous[p] :: c in fl && p in fl[c].simultaneous)
    && (forall c, p | c in fl && p in fl[c].simultaneous :: p in simultaneous && c in simultaneous[p])
  }

  ghost function Found(files: set<Path>, generators: Generators, simultaneous: SimultaneousGenerators): set<CommandNode>
  {
    (set p | p in files && p in generators :: generators[p]) +
    (set p, c | p in files && p in simultaneous && c in simultaneous[p] :: c)
  }

  lemma FoundGrows(files: set<Path>, i: Path, generators: Generators, simultaneous: SimultaneousGenerators)
    ensures Found(files + {i}, generators, simultaneous) ==
            Found(files, generators, simultaneous)
            + (if i in generators then {generators[i]} else {})
            + (if i in simultaneous then simultaneous[i] else {})
  {
  }

  lemma FoundAreProducers(fl: Lists, c: CommandNode, generators: Generators, simultaneous: SimultaneousGenerators)
    requires c in fl && TablesOf(fl, generators, simultaneous)
    ensures Found(fl[c].consumed, generators, simultaneous) == Producers(fl, c)
  {
    var found := Found(fl[c].consumed, generators, simultaneous);
    forall g | g in found
      ensures g in Producers(fl, c)
    {
      var p :| p in fl[c].consumed
               && ((p in generators && generators[p] == g) || (p in simultaneous && g in simultaneous[p]));
      assert fl[g].Writes(p);
    }
    forall g | g in Producers(fl, c)
      ensures g in found
    {
      var p :| p in fl[c].consumed && fl[g].Writes(p);
      if p in fl[g].outputs {
        assert p in generators && generators[p] == g;
      } else {
        assert p in simultaneous && g in simultaneous[p];
      }
    }
  }

  /** `w` writes something that `c` waits for, by the fields of the two. */
  ghost predicate WritesFor(w: CommandNode, c: CommandNode)
    reads w, c
  {
    exists p ::
      && (p in w.outputs || p in w.simultaneousOutputs)
      && (p in c.inputs || p in c.inputsWithoutTimestamps || (!c.prepared && c.program == Some(p)))
  }

  /** The producers of a command are those that write one of its inputs, or its program. */
  lemma ProducersIff(cmds: set<CommandNode>, w: CommandNode, c: CommandNode)
    requires w in cmds && c in cmds
    ensures w in Producers(ListsOf(cmds), c) <==> WritesFor(w, c)
  {
    var fl := ListsOf(cmds);
    if p :| p in fl[c].consumed && fl[w].Writes(p) {
      assert p in w.outputs || p in w.simultaneousOutputs;
      assert p in c.inputs || p in c.inputsWithoutTimestamps || (!c.prepared && c.program == Some(p));
    }
    if p :| (p in w.outputs || p in w.simultaneousOutputs)
            && (p in c.inputs || p in c.inputsWithoutTimestamps || (!c.prepared && c.program == Some(p))) {
      assert p in fl[c].consumed && fl[w].Writes(p);
    }
  }

  /** What prepare refuses, by the fields of the commands. */
  lemma RefusedIff(cmds: set<CommandNode>)
    ensures UniqueHashes(cmds) <==> !exists a, b :: a in cmds && b in cmds && a != b && a.hash == b.hash
    ensures Closed(Graph(cmds)) <==> !exists c, d :: c in cmds && d in c.dependencies && d !in cmds
    ensures UniqueOutputs(ListsOf(cmds)) <==> !exists a, b, p :: a in cmds && b in cmds && a != b && p in a.outputs && p in b.outputs
    ensures NoSelfFeeding(ListsOf(cmds)) <==> !exists c :: c in cmds && WritesFor(c, c)
  {
    var g, fl := Graph(cmds), ListsOf(cmds);
    assert forall c | c in cmds :: g[c] == c.dependencies && fl[c].outputs == c.outputs;
    forall c | c in cmds
      ensures Feeds(fl[c], fl[c]) <==> WritesFor(c, c)
    {
      ProducersIff(cmds, c, c);
      assert c in Producers(fl, c) <==> Feeds(fl[c], fl[c]);
    }
  }

  ghost predicate AllCanPrepare(cmds: set<CommandNode>)
    reads cmds`prepared
  {
    forall c | c in cmds :: c.CanPrepare()
  }

  /** Stops at a command whose program is not resolved. */
  method PrepareCommands(cmds: set<CommandNode>) returns (ok: bool)
    modifies cmds`prepared, cmds`inputs
    ensures ok <==> old(AllCanPrepare(cmds))
    ensures ok ==> forall c | c in cmds :: c.prepared
    ensures ListsOf(cmds) == old(ListsOf(cmds))
  {
    var todo := cmds;
    while todo != {}
      invariant todo <= cmds
      invariant forall c | c in cmds - todo :: c.prepared && old(c.CanPrepare()) && c.inputs == old(c.PreparedInputs())
      invariant forall c | c in todo :: c.prepared == old(c.prepared) && c.inputs == old(c.inputs)
    {
      var c :| c in todo;
      ok := c.Prepare();
      if !ok { return; }
      todo := todo - {c};
    }
    ok := true;
  }

  /** No command twice by hash, and no dependency outside the passed set. */
  method CheckPassed(cmds: set<CommandNode>) returns (r: PrepareResult)
    ensures r == Prepared <==> UniqueHashes(cmds) && Closed(Graph(cmds))
    ensures r == DuplicateCommand ==> !UniqueHashes(cmds)
    ensures r == DependencyNotPassed ==> !Closed(Graph(cmds))
    ensures r in {Prepared, DuplicateCommand, DependencyNotPassed}
  {
    var hashes: set<nat> := {};
    var todo := cmds;
    while todo != {}
      invariant todo <= cmds
      invariant forall h | h in hashes :: exists c :: c in cmds - todo && c.hash == h
      invariant forall c | c in cmds - todo :: c.hash in hashes && c.dependencies <= cmds
      invariant UniqueHashes(cmds - todo)
    {
      var c :| c in todo;
      if c.hash in hashes {
        return DuplicateCommand;
      }
      hashes := hashes + {c.hash};
      var deps := c.dependencies;
      while deps != {}
        invariant deps <= c.dependencies
        invariant c.dependencies - deps <= cmds
      {
        var d :| d in deps;
        if d !in cmds {
          assert !(Graph(cmds)[c] <= cmds);
          return DependencyNotPassed;
        }
        deps := deps - {d};
      }
      todo := todo - {c};
    }
    r := Prepared;
  }

  ghost function WithOutputs(generators: Generators, c: CommandNode, outs: set<Path>): Generators
  {
    map p | p in generators.Keys + outs :: if p in outs then c else generators[p]
  }

  ghost function WithSimultaneous(sims: SimultaneousGenerators, c: CommandNode, outs: set<Path>): SimultaneousGenerators
  {
    map p | p in sims.Keys + outs :: if p !in sims then {c} else if p in outs then sims[p] + {c} else sims[p]
  }

  lemma TablesGrow(fl: Lists, c: CommandNode, lists: FileLists, generators: Generators, sims: SimultaneousGenerators)
    requires TablesOf(fl, generators, sims) && c !in fl && lists.outputs !! generators.Keys
    ensures TablesOf(fl[c := lists], WithOutputs(generators, c, lists.outputs), WithSimultaneous(sims, c, lists.simultaneous))
  {
  }

  lemma OutputsStayUnique(fl: Lists, c: CommandNode, lists: FileLists, generators: Generators, sims: SimultaneousGenerators)
    requires TablesOf(fl, generators, sims) && c !in fl && UniqueOutputs(fl)
    ensures UniqueOutputs(fl[c := lists]) <==> lists.outputs !! generators.Keys
  {
    var grown := fl[c := lists];
    if p :| p in lists.outputs && p in generators {
      assert p in grown[c].outputs && p in grown[generators[p]].outputs;
    }
  }

  /** Registers the outputs of one command; fails at an output that is taken. */
  method AddOutputs(c: CommandNode, generators0: Generators) returns (ok: bool, generators: Generators)
    ensures ok <==> c.outputs !! generators0.Keys
    ensures ok ==> generators == WithOutputs(generators0, c, c.outputs)
  {
    generators := generators0;
    var outs := c.outputs;
    assert c.outputs - outs == {};
    while outs != {}
      invariant outs <= c.outputs
      invariant (c.outputs - outs) !! generators0.Keys
      invariant generators == WithOutputs(generators0, c, c.outputs - outs)
    {
      var o :| o in outs;
      if o in generators {
        return false, generators;
      }
      generators := generators[o := c];
      outs := outs - {o};
    }
    ok := true;
  }

  method AddSimultaneousOutputs(c: CommandNode, sims0: SimultaneousGenerators) returns (sims: SimultaneousGenerators)
    ensures sims == WithSimultaneous(sims0, c, c.simultaneousOutputs)
  {
    sims := sims0;
    var outs := c.simultaneousOutputs;
    assert c.simultaneousOutputs - outs == {};
    while outs != {}
      invariant outs <= c.simultaneousOutputs
      invariant sims == WithSimultaneous(sims0, c, c.simultaneousOutputs - outs)
    {
      var o :| o in outs;
      sims := sims[o := if o in sims then sims[o] + {c} else {c}];
      outs := outs - {o};
    }
  }

  /** Fails exactly when some file is an exclusive output of two commands. */
  method CollectGenerators(cmds: set<CommandNode>)
    returns (ok: bool, generators: Generators, simultaneous: SimultaneousGenerators)
    ensures ok <==> UniqueOutputs(ListsOf(cmds))
    ensures ok ==> TablesOf(ListsOf(cmds), generators, simultaneous)
  {
    ghost var fl := ListsOf(cmds);
    ghost var seen: Lists := map[];
    generators, simultaneous := map[], map[];
    var todo := cmds;
    while todo != {}
      invariant todo <= cmds
      invariant seen.Keys == cmds - todo && forall c | c in seen :: seen[c] == fl[c]
      invariant UniqueOutputs(seen)
      invariant TablesOf(seen, generators, simultaneous)
    {
      var c :| c in todo;
      ok, generators, simultaneous := CollectOne(c, seen, fl[c], generators, simultaneous);
      seen := seen[c := fl[c]];
      if !ok {
        return;
      }
      todo := todo - {c};
    }
    assert seen == fl;
    ok := true;
  }

  method CollectOne(c: CommandNode, ghost seen: Lists, ghost lists: FileLists, generators0: Generators,
                    simultaneous0: SimultaneousGenerators)
    returns (ok: bool, generators: Generators, simultaneous: SimultaneousGenerators)
    requires c !in seen && lists.outputs == c.outputs && lists.simultaneous == c.simultaneousOutputs
    requires UniqueOutputs(seen) && TablesOf(seen, generators0, simultaneous0)
    ensures ok <==> UniqueOutputs(seen[c := lists])
    ensures ok ==> TablesOf(seen[c := lists], generators, simultaneous)
  {
    OutputsStayUnique(seen, c, lists, generators0, simultaneous0);
    simultaneous := simultaneous0;
    ok, generators := AddOutputs(c, generators0);
    if ok {
      TablesGrow(seen, c, lists, generators0, simultaneous0);
      simultaneous := AddSimultaneousOutputs(c, simultaneous);
    }
  }

  method DependOnAll(c: CommandNode, gs: set<CommandNode>) returns (ok: bool)
    modifies c`dependencies
    ensures ok <==> c !in gs
    ensures ok ==> c.dependencies == old(c.dependencies) + gs
  {
    var todo := gs;
    while todo != {}
      invariant todo <= gs
      invariant c !in gs - todo
      invariant c.dependencies == old(c.dependencies) + (gs - todo)
    {
      var g :| g in todo;
      ok := c.AddDependency(g);
      if !ok { return; }
      todo := todo - {g};
    }
    ok := true;
  }

  method DependOnGeneratorsOf(c: CommandNode, i: Path, generators: Generators, simultaneous: SimultaneousGenerators)
    returns (ok: bool)
    modifies c`dependencies
    ensures ok <==> c !in Found({i}, generators, simultaneous)
    ensures ok ==> c.dependencies == old(c.dependencies) + Found({i}, generators, simultaneous)
  {
    FoundGrows({}, i, generators, simultaneous);
    assert {} + {i} == {i};
    if i in generators {
      ok := c.AddDependency(generators[i]);
      if !ok { return; }
    }
    if i in simultaneous {
      ok := DependOnAll(c, simultaneous[i]);
      if !ok { return; }
    }
    ok := true;
  }

  lemma FoundSplits(a: set<Path>, b: set<Path>, generators: Generators, simultaneous: SimultaneousGenerators)
    ensures Found(a + b, generators, simultaneous) ==
            Found(a, generators, simultaneous) + Found(b, generators, simultaneous)
  {
  }

  /** Adds an edge to every generator of every file, and fails at an edge to itself. */
  method DependOnGenerators(c: CommandNode, files: set<Path>, generators: Generators, simultaneous: SimultaneousGenerators)
    returns (ok: bool)
    modifies c`dependencies
    ensures ok <==> c !in Found(files, generators, simultaneous)
    ensures ok ==> c.dependencies == old(c.dependencies) + Found(files, generators, simultaneous)
  {
    var todo := files;
    while todo != {}
      invariant todo <= files
      invariant c !in Found(files - todo, generators, simultaneous)
      invariant c.dependencies == old(c.dependencies) + Found(files - todo, generators, simultaneous)
    {
      var i :| i in todo;
      FoundSplits(files - todo, {i}, generators, simultaneous);
      FoundSplits(files - {i}, {i}, generators, simultaneous);
      assert files - {i} + {i} == files;
      ok := DependOnGeneratorsOf(c, i, generators, simultaneous);
      if !ok { return; }
      assert files - (todo - {i}) == files - todo + {i};
      todo := todo - {i};
    }
    assert files - todo == files;
    ok := true;
  }

  method DependOnProducers(c: CommandNode, generators: Generators, simultaneous: SimultaneousGenerators, ghost fl: Lists)
    returns (ok: bool)
    requires c in fl && TablesOf(fl, generators, simultaneous)
    requires fl[c].consumed == c.inputs + c.inputsWithoutTimestamps
    modifies c`dependencies
    ensures ok <==> !Feeds(fl[c], fl[c])
    ensures ok ==> c.dependencies == old(c.dependencies) + Producers(fl, c)
  {
    FoundAreProducers(fl, c, generators, simultaneous);
    assert c in Producers(fl, c) <==> Feeds(fl[c], fl[c]);
    FoundSplits(c.inputs, c.inputsWithoutTimestamps, generators, simultaneous);
    ok := DependOnGenerators(c, c.inputs, generators, simultaneous);
    if !ok { return; }
    ok := DependOnGenerators(c, c.inputsWithoutTimestamps, generators, simultaneous);
  }

  /** The third pass of prepare. */
  method DeriveEdges(cmds: set<CommandNode>, generators: Generators, simultaneous: SimultaneousGenerators, ghost fl: Lists)
    returns (ok: bool)
    requires TablesOf(fl, generators, simultaneous) && fl.Keys == cmds
    requires forall c | c in cmds :: fl[c].consumed == c.inputs + c.inputsWithoutTimestamps
    modifies cmds`dependencies
    ensures ok <==> NoSelfFeeding(fl)
    ensures ok ==> forall c | c in cmds :: c.dependencies == old(c.dependencies) + Producers(fl, c)
  {
    var todo := cmds;
    while todo != {}
      invariant todo <= cmds
      invariant forall c | c in cmds - todo ::
                  c.dependencies == old(c.dependencies) + Producers(fl, c) && !Feeds(fl[c], fl[c])
      invariant forall c | c in todo :: c.dependencies == old(c.dependencies)
    {
      var c :| c in todo;
      ok := DependOnProducers(c, generators, simultaneous, fl);
      if !ok { return; }
      todo := todo - {c};
    }
    ok := true;
  }

  /** The second and third pass of prepare. */
  method DeriveAll(cmds: set<CommandNode>, ghost fl: Lists) returns (r: PrepareResult)
    requires fl == ListsOf(cmds)
    requires forall c | c in cmds :: c.prepared
    modifies cmds`dependencies
    ensures r == Prepared <==> UniqueOutputs(fl) && NoSelfFeeding(fl)
    ensures r == OutputGeneratedTwice <==> !UniqueOutputs(fl)
    ensures r in {Prepared, OutputGeneratedTwice, SelfDependency}
    ensures r == Prepared ==> forall c | c in cmds :: c.dependencies == old(c.dependencies) + Producers(fl, c)
  {
    var ok, generators, simultaneous := CollectGenerators(cmds);
    if !ok { return OutputGeneratedTwice; }
    ok := DeriveEdges(cmds, generators, simultaneous, fl);
    r := if ok then Prepared else SelfDependency;
  }

  /** Everything in prepare behind its first loop. */
  method CheckAndDerive(cmds: set<CommandNode>, ghost g: Edges, ghost fl: Lists)
    returns (r: PrepareResult)
    requires g == Graph(cmds) && fl == ListsOf(cmds)
    requires forall c | c in cmds :: c.prepared
    modifies cmds`dependencies
    ensures IsOutcome(r, UniqueHashes(cmds), g, fl)
    ensures r == Prepared ==> Graph(cmds) == WithProducers(g, fl)
  {
    r := CheckPassed(cmds);
    if r == Prepared {
      assert forall c | c in cmds :: g[c] == c.dependencies;
      r := DeriveAll(cmds, fl);
    }
  }

  /** Derives every edge of the graph.  Succeeds exactly on a closed set of
      distinct commands with resolved programs in which no file has two exclusive
      writers and nobody writes what it waits for. */
  method Prepare(cmds: set<CommandNode>) returns (r: PrepareResult)
    modifies cmds`prepared, cmds`inputs, cmds`dependencies
    ensures ListsOf(cmds) == old(ListsOf(cmds))
    ensures r == ProgramNotFound <==> !old(AllCanPrepare(cmds))
    ensures r != ProgramNotFound ==>
              && IsOutcome(r, UniqueHashes(cmds), old(Graph(cmds)), ListsOf(cmds))
              && forall c | c in cmds :: c.prepared
    ensures r == Prepared ==> Closed(Graph(cmds)) && Graph(cmds) == WithProducers(old(Graph(cmds)), ListsOf(cmds))
  {
    ghost var g, fl := Graph(cmds), ListsOf(cmds);
    var ok := PrepareCommands(cmds);
    if !ok { return ProgramNotFound; }
    r := CheckAndDerive(cmds, g, fl);
    if r == Prepared { WithProducersIsClosed(g, fl); }
  }

  method ToVector<T>(s: set<T>) returns (v: seq<T>)
    ensures NoDuplicates(v) && Elements(v) == s
  {
    v := [];
    var todo := s;
    while todo != {}
      invariant todo <= s && Elements(v) == s - todo && NoDuplicates(v)
    {
      var x :| x in todo;
      assert x !in Elements(v);
      AppendFresh(v, x);
      v, todo := v + [x], todo - {x};
    }
  }

  /** One pass over the commands still left, taking out those that depend on
      nothing that is left at that moment. */
  method Sweep(cmds: set<CommandNode>, found0: seq<CommandNode>, left0: set<CommandNode>)
    returns (found: seq<CommandNode>, left: set<CommandNode>)
    requires left0 <= cmds && Elements(found0) == cmds - left0
    requires NoDuplicates(found0) && DependenciesFirst(Graph(cmds), found0)
    ensures left <= left0 && Elements(found) == cmds - left
    ensures NoDuplicates(found) && DependenciesFirst(Graph(cmds), found)
    ensures left == left0 ==> found == found0 && forall u | u in left :: u.dependencies * left != {}
  {
    found, left := found0, left0;
    var it := left0;
    while it != {}
      invariant it <= left <= left0
      invariant Elements(found) == cmds - left
      invariant NoDuplicates(found) && DependenciesFirst(Graph(cmds), found)
      invariant left == left0 ==> found == found0 && forall u | u in left0 - it :: u.dependencies * left != {}
    {
      var c :| c in it;
      it := it - {c};
      var blocking := set d | d in c.dependencies && d in left;
      assert blocking == c.dependencies * left;
      if |blocking| == 0 {
        assert blocking == {};
        forall d | d in c.dependencies && d in cmds
          ensures d in found
        {
          assert d !in blocking;
          assert d in Elements(found);
        }
        assert c !in Elements(found) && cmds - (left - {c}) == cmds - left + {c};
        AppendFresh(found, c);
        AppendReady(Graph(cmds), found, c);
        found, left := found + [c], left - {c};
      }
    }
  }

  /** Sweeps until nothing is left or a whole sweep takes out nothing.  What is
      left then is exactly the commands from which a cycle can be reached. */
  method Eliminate(cmds: set<CommandNode>) returns (found: seq<CommandNode>, left: set<CommandNode>)
    ensures left <= cmds && Elements(found) == cmds - left
    ensures NoDuplicates(found) && DependenciesFirst(Graph(cmds), found)
    ensures forall c | c in cmds :: c in left <==> ReachesCycle(Graph(cmds), c)
  {
    found, left := [], cmds;
    while left != {}
      invariant left <= cmds && Elements(found) == cmds - left
      invariant NoDuplicates(found) && DependenciesFirst(Graph(cmds), found)
      decreases |left|
    {
      var before := left;
      found, left := Sweep(cmds, found, left);
      if left == before {
        break;
      }
      SubsetCardinality(left, before);
    }
    forall c | c in cmds
      ensures c in left <==> ReachesCycle(Graph(cmds), c)
    {
      if c in left {
        StuckReachesCycle(Graph(cmds), left, c);
      } else {
        assert c in Elements(found);
        OrderedReachesNoCycle(Graph(cmds), found, c);
      }
    }
  }

  ghost predicate Sorted(v: seq<CommandNode>)
    reads v
  {
    forall i, j | 0 <= i < j < |v| :: !v[j].LessDuringExecution(v[i])
  }

  /** The fewer dependencies the earlier; among equals those with a strict order go first,
      the smaller the earlier. */
  ghost predicate ByDependencies(v: seq<CommandNode>)
    reads v
  {
    forall i, j | 0 <= i < j < |v| ::
      && |v[i].dependencies| <= |v[j].dependencies|
      && (|v[i].dependencies| == |v[j].dependencies| && v[j].strictOrder != 0 ==>
            v[i].strictOrder != 0 && v[i].strictOrder <= v[j].strictOrder)
  }

  lemma SortedIsByDependencies(v: seq<CommandNode>)
    requires Sorted(v)
    ensures ByDependencies(v)
  {
  }

  method Insert(v: seq<CommandNode>, x: CommandNode) returns (r: seq<CommandNode>)
    requires Sorted(v)
    ensures Sorted(r) && multiset(r) == multiset(v) + multiset{x}
  {
    var k := |v|;
    while k > 0 && x.LessDuringExecution(v[k - 1])
      invariant 0 <= k <= |v|
      invariant k < |v| ==> x.LessDuringExecution(v[k])
    {
      k := k - 1;
    }
    InsertKeepsSorted(v, k, x);
    r := v[..k] + [x] + v[k..];
    assert v == v[..k] + v[k..];
  }

  lemma InsertKeepsSorted(v: seq<CommandNode>, k: nat, x: CommandNode)
    requires Sorted(v) && k <= |v|
    requires k > 0 ==> !x.LessDuringExecution(v[k - 1])
    requires k < |v| ==> x.LessDuringExecution(v[k])
    ensures Sorted(v[..k] + [x] + v[k..])
  {
    forall i | 0 <= i < k
      ensures !x.LessDuringExecution(v[i])
    {
      LessIsStrictWeakOrder(x, v[k - 1], v[i]);
    }
    forall j | k <= j < |v|
      ensures !v[j].LessDuringExecution(x)
    {
      LessIsStrictWeakOrder(v[j], x, v[k]);
    }
  }

  /** Stands for std::sort: some rearrangement ordered by the comparator. */
  method Sort(v: seq<CommandNode>) returns (r: seq<CommandNode>)
    ensures multiset(r) == multiset(v)
    ensures Sorted(r) && ByDependencies(r)
  {
    r := [];
    for n := 0 to |v|
      invariant multiset(r) == multiset(v[..n])
      invariant Sorted(r)
    {
      assert v[..n + 1] == v[..n] + [v[n]];
      r := Insert(r, v[n]);
    }
    assert v[..|v|] == v;
    SortedIsByDependencies(r);
  }

  ghost function Dependents(g: Edges, commands: seq<CommandNode>, d: CommandNode): set<CommandNode>
  {
    set c | c in commands && c in g && d in g[c]
  }

  ghost function AllDependents(g: Edges, d: CommandNode): set<CommandNode>
  {
    set c | c in g && d in g[c]
  }

  ghost function Counters(cmds: set<CommandNode>): map<CommandNode, nat>
    reads cmds`dependenciesLeft
  {
    map c | c in cmds :: c.dependenciesLeft
  }

  ghost function ReverseEdges(ds: set<CommandNode>): Edges
    reads ds`dependentCommands
  {
    map d | d in ds :: d.dependentCommands
  }

  /** As many as there are dependencies. */
  ghost function Counted(g: Edges): map<CommandNode, nat>
  {
    map c | c in g :: |g[c]|
  }

  /** Every node with those that depend on it as further dependents. */
  ghost function WithDependents(reverse: Edges, g: Edges): Edges
  {
    map d | d in reverse :: reverse[d] + AllDependents(g, d)
  }

  /** `all` holds everything the commands depend on. */
  ghost predicate Covers(all: set<CommandNode>, g: Edges)
  {
    forall c, d | c in g && d in g[c] :: d in all
  }

  method AddDependent(c: CommandNode, ghost all: set<CommandNode>)
    requires c.dependencies <= all
    modifies all`dependentCommands
    ensures forall d | d in all ::
              d.dependentCommands == old(d.dependentCommands) + (if d in c.dependencies then {c} else {})
  {
    var deps := c.dependencies;
    while deps != {}
      invariant deps <= c.dependencies
      invariant forall d | d in all ::
                  d.dependentCommands == old(d.dependentCommands) + (if d in c.dependencies - deps then {c} else {})
    {
      var d :| d in deps;
      d.dependentCommands := d.dependentCommands + {c};
      deps := deps - {d};
    }
  }

  /** Every node in `deps` with `c` as a further dependent. */
  ghost function WithDependent(reverse: Edges, c: CommandNode, deps: set<CommandNode>): Edges
  {
    map d | d in reverse :: reverse[d] + (if d in deps then {c} else {})
  }

  /** What one command after the other makes of the reverse edges. */
  ghost function WithDependentsOf(reverse: Edges, g: Edges, commands: seq<CommandNode>): Edges
    requires forall c | c in commands :: c in g
  {
    if commands == [] then reverse
    else
      var last := |commands| - 1;
      WithDependent(WithDependentsOf(reverse, g, commands[..last]), commands[last], g[commands[last]])
  }

  lemma {:induction false} DependentsOfEach(reverse: Edges, g: Edges, commands: seq<CommandNode>)
    requires forall c | c in commands :: c in g
    ensures WithDependentsOf(reverse, g, commands).Keys == reverse.Keys
    ensures forall d | d in reverse :: WithDependentsOf(reverse, g, commands)[d] == reverse[d] + Dependents(g, commands, d)
  {
    if commands != [] {
      var last := |commands| - 1;
      DependentsOfEach(reverse, g, commands[..last]);
      forall d | d in reverse
        ensures WithDependentsOf(reverse, g, commands)[d] == reverse[d] + Dependents(g, commands, d)
      {
        DependentsGrow(g, commands[..last], commands[last], d);
        assert commands == commands[..last] + [commands[last]];
      }
    }
  }

  lemma DependentsGrow(g: Edges, commands: seq<CommandNode>, c: CommandNode, d: CommandNode)
    requires c in g
    ensures Dependents(g, commands + [c], d) == Dependents(g, commands, d) + (if d in g[c] then {c} else {})
  {
  }

  lemma AllAreDependents(reverse: Edges, g: Edges, commands: seq<CommandNode>)
    requires g.Keys == Elements(commands)
    ensures WithDependentsOf(reverse, g, commands) == WithDependents(reverse, g)
  {
    DependentsOfEach(reverse, g, commands);
    forall d | d in reverse
      ensures Dependents(g, commands, d) == AllDependents(g, d)
    {
      assert forall c :: c in commands <==> c in Elements(commands);
    }
  }

  method SetUpOne(c: CommandNode, ghost all: set<CommandNode>)
    requires c.dependencies <= all
    modifies c`dependenciesLeft, all`dependentCommands
    ensures c.dependenciesLeft == |c.dependencies|
    ensures ReverseEdges(all) == WithDependent(old(ReverseEdges(all)), c, c.dependencies)
  {
    c.dependenciesLeft := |c.dependencies|;
    AddDependent(c, all);
  }

  /** Counters and reverse edges. */
  method SetUp(commands: seq<CommandNode>, ghost g: Edges, ghost all: set<CommandNode>)
    requires g.Keys == Elements(commands)
    requires forall c | c in commands :: c in g && c.dependencies == g[c] <= all
    modifies commands`dependenciesLeft, all`dependentCommands
    ensures forall c | c in commands :: c.dependenciesLeft == |g[c]|
    ensures ReverseEdges(all) == WithDependents(old(ReverseEdges(all)), g)
  {
    ghost var before := ReverseEdges(all);
    for n := 0 to |commands|
      invariant forall i | 0 <= i < n :: commands[i].dependenciesLeft == |g[commands[i]]|
      invariant ReverseEdges(all) == WithDependentsOf(before, g, commands[..n])
    {
      SetUpNth(commands, n, g, all, before);
    }
    assert commands[..|commands|] == commands;
    AllAreDependents(before, g, commands);
  }

  /** One turn of that loop. */
  method SetUpNth(commands: seq<CommandNode>, n: nat, ghost g: Edges, ghost all: set<CommandNode>, ghost before: Edges)
    requires n < |commands| && forall c | c in commands :: c in g
    requires commands[n].dependencies == g[commands[n]] <= all
    requires ReverseEdges(all) == WithDependentsOf(before, g, commands[..n])
    modifies {commands[n]}`dependenciesLeft, all`dependentCommands
    ensures commands[n].dependenciesLeft == |g[commands[n]]|
    ensures ReverseEdges(all) == WithDependentsOf(before, g, commands[..n + 1])
  {
    SetUpOne(commands[n], all);
    OneMoreDependent(before, g, commands, n);
  }

  lemma OneMoreDependent(before: Edges, g: Edges, commands: seq<CommandNode>, n: nat)
    requires n < |commands| && forall c | c in commands :: c in g
    ensures WithDependentsOf(before, g, commands[..n + 1])
            == WithDependent(WithDependentsOf(before, g, commands[..n]), commands[n], g[commands[n]])
  {
    assert commands[..n + 1][..n] == commands[..n];
  }

  /** The two vectors partition the nodes of the graph, the second holding those
      that reach a cycle; the first was found dependencies first. */
  ghost predicate Arranged(g: Edges, commands: seq<CommandNode>,
                           unprocessed: seq<CommandNode>, found: seq<CommandNode>)
  {
    && NoDuplicates(commands + unprocessed)
    && Elements(commands + unprocessed) == g.Keys
    && (forall c | c in g :: c in unprocessed <==> ReachesCycle(g, c))
    && (unprocessed == [] <==> Acyclic(g))
    && multiset(found) == multiset(commands)
    && DependenciesFirst(g, found)
    && (unprocessed == [] ==> IsTopological(g, found))
  }

  lemma SortKeepsArranged(g: Edges, before: seq<CommandNode>, after: seq<CommandNode>,
                          found: seq<CommandNode>)
    requires Arranged(g, before, [], found) && multiset(after) == multiset(before)
    ensures Arranged(g, after, [], found)
    ensures Elements(before) == Elements(after) == g.Keys
  {
    assert before + [] == before && after + [] == after;
    Rearranged(before, after);
  }

  /** The elimination as two vectors: every passed command is in exactly one of
      them, and the second holds those that reach a cycle. */
  method Split(cmds: set<CommandNode>) returns (found: seq<CommandNode>, rest: seq<CommandNode>)
    ensures Arranged(Graph(cmds), found, rest, found)
  {
    var left;
    found, left := Eliminate(cmds);
    rest := ToVector(left);
    forall x
      ensures x in found + rest <==> x in cmds
      ensures x in rest <==> x in left
    {
      assert x in found <==> x in Elements(found);
      assert x in rest <==> x in Elements(rest);
    }
    if rest == [] {
      assert found + rest == found;
    } else {
      assert rest[0] in cmds && ReachesCycle(Graph(cmds), rest[0]);
    }
  }

  datatype Links = Links(counters: map<CommandNode, nat>, reverse: Edges)

  ghost function LinksOf(cmds: set<CommandNode>, all: set<CommandNode>): Links
    reads cmds`dependenciesLeft, all`dependentCommands
  {
    Links(Counters(cmds), ReverseEdges(all))
  }

  /** What becomes of the counters and reverse edges: they are set for a valid plan only. */
  ghost function Linked(links: Links, valid: bool, g: Edges): Links
  {
    if valid then Links(Counted(g), WithDependents(links.reverse, g)) else links
  }

  /** A valid plan is sorted. */
  method Init(cmds: set<CommandNode>, ghost all: set<CommandNode>)
    returns (commands: seq<CommandNode>, unprocessed: seq<CommandNode>, ghost found: seq<CommandNode>)
    requires Covers(all, Graph(cmds))
    modifies cmds`dependenciesLeft, all`dependentCommands
    ensures Arranged(old(Graph(cmds)), commands, unprocessed, found)
    ensures unprocessed == [] ==> Sorted(commands)
    ensures unprocessed != [] ==> commands == found
    ensures LinksOf(cmds, all) == Linked(old(LinksOf(cmds, all)), unprocessed == [], old(Graph(cmds)))
  {
    ghost var g := Graph(cmds);
    commands, unprocessed := Split(cmds);
    found := commands;
    if unprocessed == [] {
      SortKeepsArranged(g, found, found, found);
      assert forall c :: c in found <==> c in Elements(found);
      SetUp(commands, g, all);
      assert Counters(cmds) == Counted(g);
      commands := Sort(commands);
      SortKeepsArranged(g, found, commands, found);
    }
  }

  class ExecutionPlan {
    var commands: seq<CommandNode>
    var unprocessedCommands: seq<CommandNode>
    ghost var found: seq<CommandNode>

    predicate IsValid()
      reads this
    {
      unprocessedCommands == []
    }

    /** `all` holds everything the commands depend on. */
    constructor (cmds: set<CommandNode>, ghost all: set<CommandNode>)
      requires Covers(all, Graph(cmds))
      modifies cmds`dependenciesLeft, all`dependentCommands
      ensures Arranged(old(Graph(cmds)), commands, unprocessedCommands, found)
      ensures IsValid() ==> Sorted(commands)
      ensures !IsValid() ==> commands == found
      ensures LinksOf(cmds, all) == Linked(old(LinksOf(cmds, all)), IsValid(), old(Graph(cmds)))
    {
      var ordered, rest, order := Init(cmds, all);
      commands, unprocessedCommands, found := ordered, rest, order;
    }
  }
}
