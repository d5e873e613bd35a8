/** Commands found through files that have none of their own
    (src/sw/driver/rule_file.cpp). */
module RuleFileGraphs {
  import opened Common
  import opened CommandNodes
  import Graphs

  datatype Rule = Rule(command: Option<CommandNode>, dependencies: set<Path>)

  /** The files with their rules, and the commands attached to paths directly. */
  datatype Rules = Rules(files: map<Path, Rule>, free: map<Path, CommandNode>)

  /** A file without a command: the search goes on through it. */
  predicate Follows(r: Rules, p: Path)
  {
    p in r.files && r.files[p].command.None?
  }

  predicate IsKnown(r: Rules, p: Path)
  {
    p in r.files || p in r.free
  }

  /** A walk starts at one of `deps` and goes on through files without commands. */
  ghost predicate IsWalk(r: Rules, deps: set<Path>, w: seq<Path>)
  {
    && w != [] && w[0] in deps
    && forall i | 0 <= i < |w| - 1 :: Follows(r, w[i]) && w[i + 1] in r.files[w[i]].dependencies
  }

  ghost predicate Reached(r: Rules, deps: set<Path>, p: Path)
  {
    exists w :: IsWalk(r, deps, w) && w[|w| - 1] == p
  }

  predicate Attached(r: Rules, p: Path, c: CommandNode)
  {
    (p in r.files && r.files[p].command == Some(c)) || (p in r.free && r.free[p] == c)
  }

  function AllCommands(r: Rules): set<CommandNode>
  {
    (set p | p in r.files && r.files[p].command.Some? :: r.files[p].command.value) + r.free.Values
  }

  /** The commands attached to paths that are reached from `deps`. */
  ghost function Found(r: Rules, deps: set<Path>): set<CommandNode>
  {
    set c | c in AllCommands(r) && exists p :: Reached(r, deps, p) && Attached(r, p, c)
  }

  /** Every path that is reached is known. */
  ghost predicate AllKnown(r: Rules, deps: set<Path>)
  {
    forall p :: Reached(r, deps, p) ==> IsKnown(r, p)
  }

  /** A path is unknown if it is neither a file nor the output of a free command. */
  lemma AllKnownIff(r: Rules, deps: set<Path>)
    ensures !AllKnown(r, deps) <==> exists p :: Reached(r, deps, p) && p !in r.files && p !in r.free
  {
    if p :| Reached(r, deps, p) && p !in r.files && p !in r.free {
      assert !IsKnown(r, p);
    }
  }

  /** No walk from `deps` comes back to a file. */
  ghost predicate NoCycle(r: Rules, deps: set<Path>)
  {
    forall w :: IsWalk(r, deps, w) ==> !Graphs.Repeats(w)
  }

  /** So it is for every file that has a command, and the searches come to an end. */
  ghost predicate Terminates(r: Rules)
  {
    forall p | p in r.files && r.files[p].command.Some? :: NoCycle(r, r.files[p].dependencies)
  }

  // ---- one step of the search ----

  ghost predicate ReachedVia(r: Rules, d: Path, p: Path)
  {
    p == d || (Follows(r, d) && Reached(r, r.files[d].dependencies, p))
  }

  lemma ReachedStep(r: Rules, deps: set<Path>, p: Path)
    ensures Reached(r, deps, p) <==> exists d | d in deps :: ReachedVia(r, d, p)
  {
    if Reached(r, deps, p) {
      var w :| IsWalk(r, deps, w) && w[|w| - 1] == p;
      if |w| > 1 {
        var d := w[0];
        assert Follows(r, d) && w[1] in r.files[d].dependencies;
        assert IsWalk(r, r.files[d].dependencies, w[1..]);
        assert w[1..][|w| - 2] == p;
      }
      assert ReachedVia(r, w[0], p);
    }
    if d :| d in deps && ReachedVia(r, d, p) {
      if p == d {
        assert IsWalk(r, deps, [d]) && [d][0] == p;
      } else {
        var w :| IsWalk(r, r.files[d].dependencies, w) && w[|w| - 1] == p;
        var longer := [d] + w;
        assert IsWalk(r, deps, longer) && longer[|longer| - 1] == p;
      }
    }
  }

  /** What the search finds at one dependency. */
  ghost function FoundAt(r: Rules, d: Path): set<CommandNode>
  {
    (set c | c in AllCommands(r) && Attached(r, d, c))
    + (if Follows(r, d) then Found(r, r.files[d].dependencies) else {})
  }

  ghost function FoundAmong(r: Rules, ds: set<Path>): set<CommandNode>
  {
    set c | c in AllCommands(r) && exists d | d in ds :: c in FoundAt(r, d)
  }

  lemma FoundAmongMore(r: Rules, ds: set<Path>, d: Path)
    ensures FoundAmong(r, ds + {d}) == FoundAmong(r, ds) + FoundAt(r, d)
  {
  }

  ghost predicate KnownAt(r: Rules, d: Path)
  {
    IsKnown(r, d) && (Follows(r, d) ==> AllKnown(r, r.files[d].dependencies))
  }

  lemma FoundStep(r: Rules, deps: set<Path>)
    ensures Found(r, deps) == FoundAmong(r, deps)
  {
    forall c | c in AllCommands(r)
      ensures c in Found(r, deps) <==> c in FoundAmong(r, deps)
    {
      if c in Found(r, deps) {
        var p :| Reached(r, deps, p) && Attached(r, p, c);
        ReachedStep(r, deps, p);
        var d :| d in deps && ReachedVia(r, d, p);
        assert c in FoundAt(r, d);
      }
      if d :| d in deps && c in FoundAt(r, d) {
        var p :| ReachedVia(r, d, p) && Attached(r, p, c);
        ReachedStep(r, deps, p);
      }
    }
  }

  /** A file with a command gives that command and hides what is behind it; one without is
      seen through.  A free command for the path is found in any case. */
  lemma FoundAtOnePath(r: Rules, p: Path)
    ensures p in r.files && r.files[p].command.Some? ==>
              Found(r, {p}) == {r.files[p].command.value} + (if p in r.free then {r.free[p]} else {})
    ensures p in r.files && r.files[p].command.None? ==>
              Found(r, {p}) == Found(r, r.files[p].dependencies) + (if p in r.free then {r.free[p]} else {})
    ensures p !in r.files ==> Found(r, {p}) == if p in r.free then {r.free[p]} else {}
  {
    FoundStep(r, {p});
    assert FoundAmong(r, {p}) == FoundAt(r, p);
  }

  lemma KnownStep(r: Rules, deps: set<Path>)
    ensures AllKnown(r, deps) <==> forall d | d in deps :: KnownAt(r, d)
  {
    forall p
      ensures Reached(r, deps, p) <==> exists d | d in deps :: ReachedVia(r, d, p)
    {
      ReachedStep(r, deps, p);
    }
    if AllKnown(r, deps) {
      forall d | d in deps
        ensures KnownAt(r, d)
      {
        assert ReachedVia(r, d, d);
        if Follows(r, d) {
          forall p | Reached(r, r.files[d].dependencies, p)
            ensures IsKnown(r, p)
          {
            assert ReachedVia(r, d, p);
          }
        }
      }
    }
  }

  // ---- what all commands get ----

  /** The commands found from the files in `ps` that have the command `c`. */
  ghost function Owed(r: Rules, ps: set<Path>, c: CommandNode): set<CommandNode>
  {
    set d | d in AllCommands(r) && exists p | p in ps && p in r.files ::
              r.files[p].command == Some(c) && d in Found(r, r.files[p].dependencies)
  }

  lemma OwedMore(r: Rules, ps: set<Path>, p: Path, c: CommandNode)
    requires p in r.files
    ensures Owed(r, ps + {p}, c)
            == Owed(r, ps, c) + (if r.files[p].command == Some(c) then Found(r, r.files[p].dependencies) else {})
  {
  }

  type Dependencies = map<CommandNode, set<CommandNode>>

  ghost function DependenciesOf(cs: set<CommandNode>): Dependencies
    reads cs`dependencies
  {
    map c | c in cs :: c.dependencies
  }

  /** The dependencies after the files in `ps` have given theirs. */
  ghost function Given(before: Dependencies, r: Rules, ps: set<Path>): Dependencies
  {
    map c | c in before :: before[c] + Owed(r, ps, c)
  }

  /** The dependencies after one more file. */
  ghost function GivenOnce(before: Dependencies, r: Rules, p: Path): Dependencies
    requires p in r.files
  {
    map c | c in before ::
      if r.files[p].command == Some(c) then before[c] + Found(r, r.files[p].dependencies) else before[c]
  }

  lemma GiveOnce(before: Dependencies, r: Rules, ps: set<Path>, p: Path)
    requires p in r.files
    ensures GivenOnce(Given(before, r, ps), r, p) == Given(before, r, ps + {p})
    ensures TakenFrom(r, ps + {p}) == TakenFrom(r, ps) + CommandsOf(r, {p})
  {
    forall c | c in before
      ensures GivenOnce(Given(before, r, ps), r, p)[c] == before[c] + Owed(r, ps + {p}, c)
    {
      OwedMore(r, ps, p, c);
    }
  }

  lemma GivenToOne(before: Dependencies, after: Dependencies, r: Rules, p: Path)
    requires p in r.files && after.Keys == before.Keys
    requires forall d | d in before && Some(d) != r.files[p].command :: after[d] == before[d]
    requires forall d | d in before && Some(d) == r.files[p].command ::
               after[d] == before[d] + Found(r, r.files[p].dependencies)
    ensures after == GivenOnce(before, r, p)
  {
  }

  lemma GiveNone(before: Dependencies, r: Rules)
    ensures Given(before, r, {}) == before && TakenFrom(r, {}) == r.free.Values
  {
    assert forall c | c in before :: before[c] + Owed(r, {}, c) == before[c];
  }

  ghost function CommandsOf(r: Rules, ps: set<Path>): set<CommandNode>
  {
    set p | p in ps && p in r.files && r.files[p].command.Some? :: r.files[p].command.value
  }

  ghost function TakenFrom(r: Rules, ps: set<Path>): set<CommandNode>
  {
    r.free.Values + CommandsOf(r, ps)
  }

  lemma AllTaken(r: Rules)
    ensures TakenFrom(r, r.files.Keys) == AllCommands(r)
  {
  }

  /** A file with a command finds all it depends on, and not itself. */
  ghost predicate Resolvable(r: Rules, p: Path)
    requires p in r.files
  {
    r.files[p].command.Some? ==>
      && AllKnown(r, r.files[p].dependencies)
      && r.files[p].command.value !in Found(r, r.files[p].dependencies)
  }

  // ---- walking down ----

  /** The search has come down `trail` from `deps` and looks at the dependencies `at`. */
  ghost predicate IsTrail(r: Rules, deps: set<Path>, trail: seq<Path>, at: set<Path>)
  {
    if trail == [] then at == deps
    else
      var last := trail[|trail| - 1];
      IsWalk(r, deps, trail) && Follows(r, last) && at == r.files[last].dependencies
  }

  lemma LongerTrail(r: Rules, deps: set<Path>, trail: seq<Path>, at: set<Path>, d: Path)
    requires NoCycle(r, deps) && IsTrail(r, deps, trail, at) && d in at && Follows(r, d)
    ensures IsTrail(r, deps, trail + [d], r.files[d].dependencies)
    ensures |trail| < |r.files|
  {
    var w := trail + [d];
    assert IsWalk(r, deps, w);
    assert Graphs.NoDuplicates(w);
    Graphs.CardinalityOfElements(w);
    forall i | 0 <= i < |w|
      ensures w[i] in r.files
    {
      if i < |w| - 1 { assert Follows(r, w[i]); }
    }
    Graphs.SubsetCardinality(Elements(w), r.files.Keys);
  }
}

module RuleFiles {
  import opened Common
  import opened CommandNodes
  import opened RuleFileGraphs

  class RuleFile {
    const file: Path
    var command: CommandNode?
    var dependencies: set<Path>

    constructor (file: Path)
      ensures this.file == file && command == null && dependencies == {}
    {
      this.file, command, dependencies := file, null, {};
    }

    ghost function View(): Rule
      reads this
    {
      Rule(if command == null then None else Some(command), dependencies)
    }

    ghost function Own(): set<CommandNode>
      reads this
    {
      if command == null then {} else {command}
    }

    /** `ok` is false where the command is set twice. */
    method SetCommand(c: CommandNode) returns (ok: bool)
      modifies this
      ensures ok <==> old(command) == null
      ensures View() == if ok then old(View()).(command := Some(c)) else old(View())
    {
      ok := command == null;
      if ok { command := c; }
    }

    /** `ok` is false for the file itself. */
    method AddDependency(p: Path) returns (ok: bool)
      modifies this
      ensures ok <==> p != file
      ensures View() == if ok then old(View()).(dependencies := old(dependencies) + {p}) else old(View())
    {
      ok := p != file;
      if ok { dependencies := dependencies + {p}; }
    }

    /** `ok` is false where a path is unknown.  `deps` and `trail` say where the
        recursion started and how it came here. */
    method GetDependencies1(rfs: RuleFiles, ghost deps: set<Path>, ghost trail: seq<Path>)
      returns (ok: bool, cmds: set<CommandNode>)
      requires NoCycle(rfs.View(), deps) && IsTrail(rfs.View(), deps, trail, dependencies)
      ensures ok <==> AllKnown(rfs.View(), dependencies)
      ensures ok ==> cmds == Found(rfs.View(), dependencies)
      decreases |rfs.View().files| - |trail|, 1
    {
      ghost var r := rfs.View();
      KnownStep(r, dependencies);
      FoundStep(r, dependencies);
      cmds := {};
      var todo := dependencies;
      ghost var done: set<Path> := {};
      while todo != {}
        invariant todo !! done && todo + done == dependencies
        invariant forall d | d in done :: KnownAt(r, d)
        invariant cmds == FoundAmong(r, done)
      {
        var d :| d in todo;
        var below;
        ok, below := DependenciesAt(rfs, d, deps, trail);
        if !ok { return; }
        FoundAmongMore(r, done, d);
        cmds := cmds + below;
        todo, done := todo - {d}, done + {d};
      }
      assert done == dependencies;
      ok := true;
    }

    /** The body of that loop: normal dependencies first, then free ones. */
    method DependenciesAt(rfs: RuleFiles, d: Path, ghost deps: set<Path>, ghost trail: seq<Path>)
      returns (ok: bool, cmds: set<CommandNode>)
      requires NoCycle(rfs.View(), deps) && IsTrail(rfs.View(), deps, trail, dependencies) && d in dependencies
      ensures ok <==> KnownAt(rfs.View(), d)
      ensures ok ==> cmds == FoundAt(rfs.View(), d)
      decreases |rfs.View().files| - |trail|, 0
    {
      var processed := false;
      ok, cmds := true, {};
      if d in rfs.files {
        var rf := rfs.files[d];
        if rf.command != null {
          cmds := {rf.command};
        } else {
          LongerTrail(rfs.View(), deps, trail, dependencies, d);
          ok, cmds := rf.GetDependencies1(rfs, deps, trail + [d]);
          if !ok { return; }
        }
        processed := true;
      }
      if d in rfs.commands {
        cmds := cmds + {rfs.commands[d]};
        processed := true;
      }
      ok := processed;
    }

    /** `ok` is false where a path is unknown or the command depends on itself. */
    method GetCommand(rfs: RuleFiles) returns (ok: bool, c: CommandNode?)
      requires command != null ==> NoCycle(rfs.View(), dependencies)
      modifies Own()`dependencies
      ensures command == null ==> ok
      ensures command != null ==>
                (ok <==> AllKnown(rfs.View(), dependencies) && command !in Found(rfs.View(), dependencies))
      ensures rfs.View() == old(rfs.View())
      ensures ok ==> c == command
      ensures ok && c != null ==> c.dependencies == old(c.dependencies) + Found(rfs.View(), dependencies)
    {
      if command == null { return true, null; }
      var deps;
      ok, deps := GetDependencies1(rfs, dependencies, []);
      c := command;
      if ok {
        ok := AddDependencies(c, deps);
      }
    }

    static method AddDependencies(c: CommandNode, deps: set<CommandNode>) returns (ok: bool)
      modifies c`dependencies
      ensures ok <==> c !in deps
      ensures ok ==> c.dependencies == old(c.dependencies) + deps
    {
      var todo := deps;
      ghost var done: set<CommandNode> := {};
      while todo != {}
        invariant todo !! done && todo + done == deps
        invariant c !in done && c.dependencies == old(c.dependencies) + done
      {
        var d :| d in todo;
        ok := c.AddDependency(d);
        if !ok { return; }
        todo, done := todo - {d}, done + {d};
      }
      assert done == deps;
      ok := true;
    }
  }

  class RuleFiles {
    var files: map<Path, RuleFile>
    var commands: map<Path, CommandNode>

    constructor ()
      ensures files == map[] && commands == map[]
    {
      files, commands := map[], map[];
    }

    ghost function View(): Rules
      reads this, files.Values
    {
      Rules(map p | p in files :: files[p].View(), commands)
    }

    /** The file's entry; a new one has its path, no command and no dependencies. */
    method AddFile(p: Path) returns (rf: RuleFile)
      modifies this
      ensures commands == old(commands) && files == if p in old(files) then old(files) else old(files)[p := rf]
      ensures p in files && files[p] == rf && (p !in old(files) ==> fresh(rf) && rf.file == p)
      ensures View().files == if p in old(files) then old(View()).files else old(View()).files[p := Rule(None, {})]
    {
      if p !in files {
        rf := new RuleFile(p);
        files := files[p := rf];
      }
      rf := files[p];
    }

    /** `ok` is false where the output has a command already. */
    method AddCommand(output: Path, c: CommandNode) returns (ok: bool)
      modifies this
      ensures ok <==> output !in old(commands)
      ensures files == old(files) && commands == if ok then old(commands)[output := c] else old(commands)
    {
      ok := output !in commands;
      if ok { commands := commands[output := c]; }
    }

    /** The command of one file, which gets the commands found from it. */
    method TakeCommand(p: Path, ghost r: Rules) returns (ok: bool, cs: set<CommandNode>)
      requires r == View() && p in files && p in r.files && Terminates(r)
      modifies files[p].Own()`dependencies
      ensures View() == r && files[p].Own() <= AllCommands(r)
      ensures ok <==> Resolvable(r, p)
      ensures ok ==> cs == CommandsOf(r, {p})
      ensures ok ==> DependenciesOf(AllCommands(r)) == GivenOnce(old(DependenciesOf(AllCommands(r))), r, p)
    {
      ghost var before := DependenciesOf(AllCommands(r));
      assert r.files[p] == files[p].View();
      var c;
      ok, c := files[p].GetCommand(this);
      cs := if c == null then {} else {c};
      if ok {
        GivenToOne(before, DependenciesOf(AllCommands(r)), r, p);
      }
    }

    /** All commands, each with its dependencies; `ok` is false where some file has an
        unknown dependency or leads to its own command. */
    method GetCommands() returns (ok: bool, cmds: set<CommandNode>)
      requires Terminates(View())
      modifies AllCommands(View())`dependencies
      ensures View() == old(View())
      ensures ok <==> forall p | p in View().files :: Resolvable(View(), p)
      ensures ok ==> cmds == AllCommands(View())
      ensures ok ==>
                DependenciesOf(cmds) == Given(old(DependenciesOf(AllCommands(View()))), View(), View().files.Keys)
    {
      ghost var r, before := View(), DependenciesOf(AllCommands(View()));
      cmds := commands.Values;
      var todo := files.Keys;
      ghost var done: set<Path> := {};
      GiveNone(before, r);
      while todo != {}
        invariant View() == r && todo !! done && todo + done == r.files.Keys
        invariant done <= r.files.Keys && forall p | p in done :: Resolvable(r, p)
        invariant DependenciesOf(AllCommands(r)) == Given(before, r, done)
        invariant cmds == TakenFrom(r, done)
      {
        var p :| p in todo;
        GiveOnce(before, r, done, p);
        assert files[p].View() == r.files[p];
        var cs;
        ok, cs := TakeCommand(p, r);
        if !ok { return; }
        cmds := cmds + cs;
        todo, done := todo - {p}, done + {p};
      }
      assert done == r.files.Keys;
      AllTaken(r);
      ok := true;
    }
  }
}
