/** The outside world both services act on: the chronyc client, the chronyd
    process and the file chrony.conf. Nothing about them is assumed; a
    `World` answers each effect, and may take into account every effect
    issued before it, so the handlers can be specified by the effects they
    issue, in order, and by how they use the answers. */
module Effects {
  /** One action on the outside world. */
  datatype Effect =
    | Chronyc(args: seq<string>)    // run `chronyc` with these arguments
    | KillChronyd                   // `pkill chronyd`
    | StartChronyd                  // start `chronyd -f chrony.conf` in the background
    | ReadConf                      // read chrony.conf
    | WriteConf(content: string)    // replace chrony.conf with this text

  /** The answer to an effect: whether it succeeded, the text it produced
      (command output or file contents) and its error text. For chronyc,
      `output` is what the variant captures on success (Go: standard output
      and error combined; Python: standard output) and `err` the error text. */
  datatype Answer = Answer(ok: bool, output: string, err: string)

  /** How the world answers an effect, given the effects issued before it. */
  type World = (seq<Effect>, Effect) -> Answer

  /** The process's view of the world: the effects issued so far. */
  class Host {
    const world: World
    var trace: seq<Effect>

    constructor (world: World)
      ensures this.world == world && trace == []
    {
      this.world := world;
      trace := [];
    }

    /** Issues one effect and returns the world's answer to it. */
    method Perform(e: Effect) returns (a: Answer)
      modifies this
      ensures trace == old(trace) + [e]
      ensures a == world(old(trace), e)
    {
      a := world(trace, e);
      trace := trace + [e];
    }
  }
}
