/** Why a line is not a command. Message wording is not modelled, so a variant
    keeps the command, the option and the token that a message would name. */
module Errors {
  datatype ParseError =
    | UnknownCommand(word: string)
    | UnknownNodeKind(word: string)
    | MissingArgument(command: string, what: string)
    | MissingOption(command: string, option: string)
    | MissingOptionValue(command: string, option: string)
    | ConflictingOptions(command: string, first: string, second: string)
    | UnexpectedArgument(command: string, found: string)
    | UnknownOption(command: string, option: string)
    | MalformedJson(command: string, option: string)
    | MalformedNumber(command: string, option: string, found: string)
    | MalformedInputMapping(found: string)
    | MalformedJoin(found: string)
    | MalformedOnBound(found: string)
    | UnterminatedQuote
    | UnbalancedJson
}
