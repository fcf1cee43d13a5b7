/** The `domain_error`s the game's constructors and setters throw, and the values that
    carry either a result or one of them. */
module Errors {

  datatype DomainError =
    | DescriptionTooLong   // Buff: "Buff description length greater than max"
    | NicknameTooLong      // Player, setNickname: "Nickname length greater than max"
    | LevelTooHigh         // Player: "Level greater than max"

  datatype Result<+T> = Ok(value: T) | Err(error: DomainError)

  datatype Outcome = Pass | Fail(error: DomainError)
}
