/** The validators of the repository: the machine with the opcode table. */
module StandardRules {
  import opened Opcodes
  import Machine

  function Standard(o: Oracle, aware: bool): Machine.Validator {
    Machine.Validator((b, arg) => Feed(o, b, arg), b => Finish(o, b), aware)
  }
}
