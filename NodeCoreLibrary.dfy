/** The two pieces of the node-core-library package that the loc-file
    parser touches directly: the newline kinds and the terminal it logs to. */
module NodeCoreLibrary {

  /** The newline normalisation modes. Each is a string-valued enum member,
      and the string is what ends up in a cache key. */
  datatype NewlineKind = CrLf | Lf | OsDefault {

    /** The string value of the enum member. */
    function Value(): (s: string)
      ensures s != [] && s != "none"
    {
      match this
      case CrLf => "\r\n"
      case Lf => "\n"
      case OsDefault => "os"
    }
  }

  /** A terminal; only its error channel is modelled, as the messages written to it. */
  class Terminal {
    var errorMessages: seq<string>

    constructor ()
      ensures errorMessages == []
    {
      errorMessages := [];
    }

    method WriteError(message: string)
      modifies this
      ensures errorMessages == old(errorMessages) + [message]
    {
      errorMessages := errorMessages + [message];
    }
  }
}
