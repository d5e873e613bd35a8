/** ExecutionPlan::create: prepare the commands, then build the plan; and what
    `execute` may rely on afterwards. */
module PlanCreation {
  import opened Common
  import opened CommandNodes
  import opened ExecutionPlans
  import opened Graphs
  import Scheduler

  type Runner = CommandNode -> (Scheduler.View, Path) -> Scheduler.Content

  /** The plan as `execute` reads it.  `run` says what each command writes. */
  ghost function Scheduled(g: Edges, fl: Lists, reverse: Edges, commands: seq<CommandNode>, found: seq<CommandNode>,
                           run: Runner): Scheduler.Plan<CommandNode>
  {
    Scheduler.Plan(commands, found, g, reverse, map c | c in fl :: Scheduler.Action(fl[c].consumed, fl[c].outputs, run(c)))
  }

  ghost predicate IndependentFirst(g: Edges, commands: seq<CommandNode>)
  {
    forall i, j | 0 <= i < j < |commands| && commands[i] in g && commands[j] in g && g[commands[j]] == {} :: g[commands[i]] == {}
  }

  /** No command without dependencies comes after one that has some, which is
      why the seeding loop of execute may stop at the first one with any. */
  lemma SortedIsIndependentFirst(g: Edges, commands: seq<CommandNode>)
    requires Sorted(commands) && forall c | c in commands && c in g :: g[c] == c.dependencies
    ensures IndependentFirst(g, commands)
  {
    forall i, j | 0 <= i < j < |commands| && commands[j].dependencies == {}
      ensures commands[i].dependencies == {}
    {
      assert !commands[j].LessDuringExecution(commands[i]);
      assert |commands[j].dependencies| == 0;
    }
  }

  ghost predicate AreReverse(g: Edges, reverse: Edges)
  {
    reverse.Keys == g.Keys && forall d | d in g :: reverse[d] == AllDependents(g, d)
  }

  lemma ValidPlanIsWellFormed(g: Edges, fl: Lists, reverse: Edges, commands: seq<CommandNode>, found: seq<CommandNode>,
                              run: Runner)
    requires Closed(g) && fl.Keys == g.Keys && AreReverse(g, reverse)
    requires Arranged(g, commands, [], found) && IndependentFirst(g, commands)
    ensures Scheduler.WellFormed(Scheduled(g, fl, reverse, commands, found, run))
  {
    var p := Scheduled(g, fl, reverse, commands, found, run);
    SortKeepsArranged(g, commands, commands, found);
    assert commands + [] == commands;
    assert Scheduler.Linked(p);
    assert forall i | 0 <= i < |commands| :: commands[i] in Elements(commands);
  }

  ghost predicate ProducersComeFirst(g: Edges, fl: Lists)
  {
    forall c | c in g && c in fl :: Producers(fl, c) <= g[c]
  }

  /** Commands write files of their own only. */
  ghost predicate NothingShared(fl: Lists)
  {
    forall c | c in fl :: fl[c].simultaneous == {}
  }

  lemma PreparedPlanOrdersFiles(g: Edges, fl: Lists, reverse: Edges, commands: seq<CommandNode>, found: seq<CommandNode>,
                                run: Runner)
    requires Scheduler.Linked(Scheduled(g, fl, reverse, commands, found, run))
    requires UniqueOutputs(fl) && ProducersComeFirst(g, fl)
    ensures Scheduler.FilesOrdered(Scheduled(g, fl, reverse, commands, found, run))
  {
    forall w, c, q | w in fl && c in fl && q in fl[w].outputs && q in fl[c].consumed
      ensures w in g[c]
    {
      assert fl[w].Writes(q);
      assert Feeds(fl[w], fl[c]);
      assert w in Producers(fl, c);
    }
  }

  /** All that `execute` relies on.  The actions know the exclusive outputs only, so they
      tell everything that is written where no output is shared. */
  ghost predicate Ready(g: Edges, fl: Lists, links: Links, commands: seq<CommandNode>, found: seq<CommandNode>, run: Runner)
  {
    var p := Scheduled(g, fl, links.reverse, commands, found, run);
    && Scheduler.WellFormed(p)
    && ProducersComeFirst(g, fl)
    && (NothingShared(fl) ==> Scheduler.FilesOrdered(p))
    && links.counters == Counted(g)
  }

  /** What that says of the nodes: every counter is the number of dependencies. */
  lemma CountersAreSet(cmds: set<CommandNode>, g: Edges, c: CommandNode)
    requires LinksOf(cmds, cmds).counters == Counted(g) && c in cmds
    ensures c in g && c.dependenciesLeft == |g[c]|
  {
    assert Counters(cmds)[c] == c.dependenciesLeft;
  }

  /** Nobody depends on the commands yet. */
  ghost predicate Unlinked(links: Links)
  {
    forall d | d in links.reverse :: links.reverse[d] == {}
  }

  lemma ValidPlanIsReady(g: Edges, fl: Lists, links: Links, commands: seq<CommandNode>, found: seq<CommandNode>, run: Runner)
    requires Closed(g) && fl.Keys == g.Keys == links.reverse.Keys && Unlinked(links)
    requires Arranged(g, commands, [], found) && IndependentFirst(g, commands)
    requires UniqueOutputs(fl) && ProducersComeFirst(g, fl)
    ensures Ready(g, fl, Linked(links, true, g), commands, found, run)
  {
    var reverse := WithDependents(links.reverse, g);
    ValidPlanIsWellFormed(g, fl, reverse, commands, found, run);
    PreparedPlanOrdersFiles(g, fl, reverse, commands, found, run);
  }

  method NewPlan(cmds: set<CommandNode>, ghost g: Edges) returns (plan: ExecutionPlan)
    requires g == Graph(cmds) && Closed(g)
    modifies cmds`dependenciesLeft, cmds`dependentCommands
    ensures fresh(plan)
    ensures plan.IsValid() <==> Acyclic(g)
    ensures plan.IsValid() ==> Arranged(g, plan.commands, [], plan.found) && IndependentFirst(g, plan.commands)
    ensures plan.IsValid() ==> ByDependencies(plan.commands)
    ensures LinksOf(cmds, cmds) == Linked(old(LinksOf(cmds, cmds)), plan.IsValid(), g)
  {
    assert forall c | c in g :: g[c] == c.dependencies;
    plan := new ExecutionPlan(cmds, cmds);
    if plan.IsValid() {
      SortedIsIndependentFirst(g, plan.commands);
      SortedIsByDependencies(plan.commands);
    }
  }

  /** A valid plan over prepared commands is what `execute` expects. */
  method Plan(cmds: set<CommandNode>, ghost g: Edges, ghost fl: Lists, ghost run: Runner) returns (plan: ExecutionPlan)
    requires g == Graph(cmds) && fl.Keys == cmds && Closed(g) && Unlinked(LinksOf(cmds, cmds))
    requires UniqueOutputs(fl) && ProducersComeFirst(g, fl)
    modifies cmds`dependenciesLeft, cmds`dependentCommands
    ensures fresh(plan)
    ensures plan.IsValid() <==> Acyclic(g)
    ensures plan.IsValid() ==> ByDependencies(plan.commands)
    ensures plan.IsValid() ==> Ready(g, fl, LinksOf(cmds, cmds), plan.commands, plan.found, run)
  {
    plan := NewPlan(cmds, g);
    if plan.IsValid() {
      ValidPlanIsReady(g, fl, old(LinksOf(cmds, cmds)), plan.commands, plan.found, run);
    }
  }

  method PrepareAndPlan(cmds: set<CommandNode>, ghost run: Runner) returns (r: PrepareResult, plan: ExecutionPlan?)
    requires Unlinked(LinksOf(cmds, cmds))
    modifies cmds
    ensures r == Prepared <==> plan != null
    ensures r != EmptyCommand
    ensures r == ProgramNotFound <==> !old(AllCanPrepare(cmds))
    ensures r != ProgramNotFound ==> IsOutcome(r, UniqueHashes(cmds), old(Graph(cmds)), old(ListsOf(cmds)))
    ensures r == Prepared ==>
              var g, fl := WithProducers(old(Graph(cmds)), old(ListsOf(cmds))), old(ListsOf(cmds));
              && (forall c | c in cmds :: c.dependencies == g[c])
              && (plan.IsValid() <==> Acyclic(g))
              && (plan.IsValid() ==> ByDependencies(plan.commands))
              && (plan.IsValid() ==> Ready(g, fl, LinksOf(cmds, cmds), plan.commands, plan.found, run))
  {
    plan := null;
    ghost var g, fl := Graph(cmds), ListsOf(cmds);
    r := Prepare(cmds);
    if r == Prepared {
      plan := Plan(cmds, WithProducers(g, fl), fl, run);
    }
  }

  /** Creating a plan out of commands that belong to no other plan.  When it
      succeeds every edge to a producer is there; the plan is valid exactly for
      an acyclic graph, and then `execute` finds what it needs. */
  method Create(passed: set<CommandNode?>, ghost run: Runner) returns (r: PrepareResult, plan: ExecutionPlan?)
    requires null !in passed ==> Unlinked(LinksOf(passed, passed))
    modifies passed
    ensures r == Prepared <==> plan != null
    ensures r == EmptyCommand <==> null in passed
    ensures null !in passed ==>
              && (r == ProgramNotFound <==> !old(AllCanPrepare(passed)))
              && (r != ProgramNotFound ==> IsOutcome(r, UniqueHashes(passed), old(Graph(passed)), old(ListsOf(passed))))
    ensures r == Prepared ==>
              var g, fl := WithProducers(old(Graph(passed)), old(ListsOf(passed))), old(ListsOf(passed));
              && (forall c | c in passed :: c.dependencies == g[c])
              && (plan.IsValid() <==> Acyclic(g))
              && (plan.IsValid() ==> ByDependencies(plan.commands))
              && (plan.IsValid() ==> Ready(g, fl, LinksOf(passed, passed), plan.commands, plan.found, run))
  {
    var todo := passed;
    while todo != {}
      invariant todo <= passed && null !in passed - todo
    {
      var c: CommandNode? :| c in todo;
      if c == null { return EmptyCommand, null; }
      todo := todo - {c};
    }
    r, plan := PrepareAndPlan(passed, run);
  }
}
