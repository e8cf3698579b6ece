/** The exceptions the login command raises, with the messages it gives them. */
module Errors {

  datatype Error =
      /** `rdmc_helper.InvalidCommandLineError` with its message. */
    | InvalidCommandLineError(message: string)
      /** `redfish.ris.InstanceNotFoundError`, wrapping whatever was raised inside the selection block. */
    | InstanceNotFoundError(cause: Error)

  /** Raised when the interactive password entry is empty. */
  const EmptyPasswordMessage: string := "Empty or invalid password was entered."

  /** Raised when a URL is given but the command holds no username or no password. */
  const EmptyCredentialsMessage: string := "Empty username or password was entered."

  /** Raised when a filter does not split into exactly `attribute=value`. */
  const FilterFormatMessage: string := "Invalid filter parameter format. [filter_attribute]=[filter_value]"
}
