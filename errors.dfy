/** Why a login attempt is rejected. */
module Errors {

  datatype LoginError =
    /** `UnknownAuthProviderException`: the registration id names no account type. */
    | UnknownAuthProvider(providerId: string)
    /** A `NullPointerException` escaping the login code. */
    | NullPointer
    /** A `ClassCastException`: the named attribute does not have the type the code assigns it to. */
    | ClassCast(attribute: string)
}
