/** The one optional type every other module shares. */
module Wrappers {
  datatype Option<+T> = None | Some(value: T)
}

/** The strings the registry is keyed by. */
module Ids {
  type Id = string
  type Key = string
  type Job = string
  type TurnId = string
}
