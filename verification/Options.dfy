/** The optional values the other modules share. */
module Options {

  datatype Option<+T> = None | Some(value: T) {

    /** The value, or `default` when there is none (`??` in the TypeScript sources). */
    function GetOr(default: T): T {
      if Some? then value else default
    }
  }
}
