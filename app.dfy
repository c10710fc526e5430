/** The collaborators the selection code talks to: the operator-facing
    logger and the asynchronous deleter. Both are shown only through what
    selection can observe of them. */
module App {
  import opened Common

  /** The colour a line is printed in (`color.YellowString`, `color.RedString`,
      or none). */
  datatype Colour = Plain | Yellow | Red

  /** One call the logger received, in the order received. */
  datatype LogEvent =
    | Line(colour: Colour, text: string)     // Println
    | Prompt(kind: string, name: string)     // PromptWithDetails
    | ConfirmationOff                        // NoConfirm

  /** The logger as an append-only record of the calls made on it. What the
      operator answers to a confirmation prompt is fixed up front by `answer`. */
  class Logger {
    var events: seq<LogEvent>
    const answer: (string, string) -> bool

    constructor (answer: (string, string) -> bool)
      ensures events == [] && this.answer == answer
    {
      events := [];
      this.answer := answer;
    }

    method Println(colour: Colour, message: string)
      modifies this
      ensures events == old(events) + [Line(colour, message)]
    {
      events := events + [Line(colour, message)];
    }

    /** Asks whether to proceed with the resource of the given type and name. */
    method PromptWithDetails(kind: string, name: string) returns (proceed: bool)
      modifies this
      ensures proceed == answer(kind, name)
      ensures events == old(events) + [Prompt(kind, name)]
    {
      events := events + [Prompt(kind, name)];
      proceed := answer(kind, name);
    }

    method NoConfirm()
      modifies this
      ensures events == old(events) + [ConfirmationOff]
    {
      events := events + [ConfirmationOff];
    }
  }

  /** `app.AsyncDeleter` seen from outside: it records every batch of groups
      it is handed, and what it returns for a batch is fixed by `outcome`. */
  class AsyncDeleter {
    var received: seq<seq<seq<Deletable>>>
    const outcome: seq<seq<Deletable>> -> Option<string>

    constructor (outcome: seq<seq<Deletable>> -> Option<string>)
      ensures received == [] && this.outcome == outcome
    {
      received := [];
      this.outcome := outcome;
    }

    method Run(groups: seq<seq<Deletable>>) returns (err: Option<string>)
      modifies this
      ensures received == old(received) + [groups]
      ensures err == outcome(groups)
    {
      received := received + [groups];
      err := outcome(groups);
    }
  }
}
