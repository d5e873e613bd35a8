/** The node of the execution graph (command_node.h) together with the file
    lists of a build command that the plan derives edges from (command.h). */
module CommandNodes {
  import opened Common

  class CommandNode {
    const hash: nat
    /** The program as `prepare` finds it; None where it is not resolved. */
    const program: Option<Path>
    const strictOrder: int

    var prepared: bool
    var inputs: set<Path>
    var inputsWithoutTimestamps: set<Path>
    var outputs: set<Path>
    var simultaneousOutputs: set<Path>

    var dependencies: set<CommandNode>
    var dependenciesLeft: nat
    var dependentCommands: set<CommandNode>

    constructor (hash: nat, program: Option<Path>, strictOrder: int)
      ensures this.hash == hash && this.program == program && this.strictOrder == strictOrder
      ensures !prepared && inputs == inputsWithoutTimestamps == outputs == simultaneousOutputs == {}
      ensures dependencies == dependentCommands == {} && dependenciesLeft == 0
    {
      this.hash, this.program, this.strictOrder := hash, program, strictOrder;
      prepared := false;
      inputs, inputsWithoutTimestamps, outputs, simultaneousOutputs := {}, {}, {}, {};
      dependencies, dependentCommands, dependenciesLeft := {}, {}, 0;
    }

    /** The program of a command is one of its inputs.  `ok` is false where the program
        is not resolved. */
    method Prepare() returns (ok: bool)
      modifies this`inputs, this`prepared
      ensures ok <==> old(CanPrepare())
      ensures prepared == (ok || old(prepared))
      ensures inputs == old(PreparedInputs())
    {
      ok := true;
      if !prepared {
        if program.None? { return false; }
        inputs := inputs + {program.value};
        prepared := true;
      }
    }

    ghost predicate CanPrepare()
      reads this`prepared
    {
      prepared || program.Some?
    }

    ghost function PreparedInputs(): set<Path>
      reads this`prepared, this`inputs
    {
      if prepared || program.None? then inputs else inputs + {program.value}
    }

    /** `ok` is false where the source throws "Trying to add self dependency". */
    method AddDependency(c: CommandNode) returns (ok: bool)
      modifies this`dependencies
      ensures ok <==> c != this
      ensures dependencies == old(dependencies) + (if c == this then {} else {c})
    {
      ok := c != this;
      if ok {
        dependencies := dependencies + {c};
      }
    }

    /** The order in which a plan hands out commands.  The last comparison is
        between a size and itself. */
    predicate LessDuringExecution(rhs: CommandNode)
      reads this, rhs
    {
      if |dependencies| != |rhs.dependencies| then |dependencies| < |rhs.dependencies|
      else if strictOrder != 0 && rhs.strictOrder != 0 then strictOrder < rhs.strictOrder
      else if strictOrder != 0 then true
      else if rhs.strictOrder != 0 then false
      else |dependentCommands| > |dependentCommands|
    }
  }

  /** std::sort asks for a strict weak order: irreflexive, transitive, and with
      transitive incomparability. */
  lemma LessIsStrictWeakOrder(a: CommandNode, b: CommandNode, c: CommandNode)
    ensures !a.LessDuringExecution(a)
    ensures a.LessDuringExecution(b) && b.LessDuringExecution(c) ==> a.LessDuringExecution(c)
    ensures !a.LessDuringExecution(b) && !b.LessDuringExecution(c) ==> !a.LessDuringExecution(c)
  {
  }
}
