/** The exceptions the decision structure raises, one constructor per cause. */
module Errors {

  datatype Error =
    | MissingArguments      // ValueError: neither rules nor a (premises, targets) pair
    | DuplicatePremises     // AssertionError: 'All premises should be unique'
    | LengthMismatch        // premises and targets of different lengths (see the finding in README)
    | IndexOutOfRange       // IndexError from deleting a position that does not exist
    | NotImplemented        // NotImplementedError from the refused operators
    | NameNotFound          // ValueError from list.index while translating names to indices
}
