/** The errors the terminus protocol raises. */
module Errors {

  datatype TerminusError =
    | ArgumentError   // an indirection name that resolves to no indirection
    | DevError        // an abstract terminus instantiated, or a version asked of a terminus without `find`
    | NoMethodError   // a method called on `nil` (no indirection bound)
}
