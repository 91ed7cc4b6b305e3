/** What a subprocess dispatcher is to its callers: an argument vector goes in,
    and either the output of a process that ran or the message of a spawn failure
    comes out. */
module Dispatch {
  type Argv = seq<string>

  datatype Capture =
    | Ran(exitCode: int, stdout: string, stderr: string)
    | Failed(message: string)

  /** A dispatcher whose answers are arbitrary: `answer` may depend on the argument
      vector and on how many calls came before. `calls` records what was asked. */
  class Dispatcher {
    const answer: (nat, Argv) -> Capture
    var calls: seq<Argv>

    constructor (answer: (nat, Argv) -> Capture)
      ensures this.answer == answer && calls == []
    {
      this.answer := answer;
      calls := [];
    }

    method Ask(argv: Argv) returns (out: Capture)
      modifies this`calls
      ensures calls == old(calls) + [argv]
      ensures out == answer(|old(calls)|, argv)
    {
      out := answer(|calls|, argv);
      calls := calls + [argv];
    }
  }
}
