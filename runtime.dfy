/** The pieces of the Kotlin/JVM runtime that the bot core leans on: nullable
    values, thrown exceptions, and the foreign operations (regular-expression
    search, floating-point parsing) that the model takes as parameters. */
module Runtime {

  /** A Kotlin nullable value: `None` is `null`. */
  datatype Option<+T> = None | Some(value: T)

  /** The exception classes the core throws or lets through. */
  datatype Exception =
    | IllegalState        // kotlin.IllegalStateException (also what `matches` catches)
    | IndexOutOfBounds    // List.get with an index outside the list
    | IllegalArgument     // reflective call on a constructor that needs arguments
    | NullPointer         // the `!!` operator applied to null

  /** A computation that either returns a value or throws. */
  datatype Result<+T> = Ok(value: T) | Throw(error: Exception)

  /** A compiled regular expression, known by its source text. */
  datatype Regex = Regex(pattern: string)

  /** The operations the core calls but whose code is not part of the model.
      `find(r, m)` is `r.find(m)?.groupValues`: `None` when the pattern occurs
      nowhere in `m`, otherwise the values of all groups of the first match
      (index 0 is the whole match, an unmatched group is ""). The two parsers
      are `String.toFloatOrNull` and `String.toDoubleOrNull`. */
  datatype Platform = Platform(
    find: (Regex, string) -> Option<seq<string>>,
    toFloatOrNull: string -> Option<real>,
    toDoubleOrNull: string -> Option<real>)
}
