/** `friendlyAuthError(code)`: the message shown for an authentication error code. */
module AuthErrors {
  import opened Wrappers

  const InvalidCredentials := "Invalid credentials."
  const Generic := "Something went wrong. Please try again."

  /** The codes with a message of their own. */
  const KnownCodes: set<string> := {
    "auth/invalid-email", "auth/missing-password", "auth/weak-password",
    "auth/email-already-in-use", "auth/user-not-found", "auth/invalid-credential",
    "auth/wrong-password", "auth/too-many-requests", "auth/network-request-failed" }

  function FriendlyAuthError(code: Option<string>): (m: string)
    ensures m != []
    ensures m == InvalidCredentials <==>
      code == Some("auth/user-not-found") || code == Some("auth/invalid-credential") || code == Some("auth/wrong-password")
    ensures m == Generic <==> code.None? || code.value !in KnownCodes
    ensures code == Some("auth/weak-password") ==> m == "Password is too weak. Use at least 6 characters."
  {
    if code.None? then Generic
    else match code.value
      case "auth/invalid-email" => "Please enter a valid email address."
      case "auth/missing-password" => "Please enter your password."
      case "auth/weak-password" => "Password is too weak. Use at least 6 characters."
      case "auth/email-already-in-use" => "This email is already registered. Try signing in."
      case "auth/user-not-found" => InvalidCredentials
      case "auth/invalid-credential" => InvalidCredentials
      case "auth/wrong-password" => InvalidCredentials
      case "auth/too-many-requests" => "Too many attempts. Please wait a moment and try again."
      case "auth/network-request-failed" => "Network error. Check your connection and try again."
      case _ => Generic
  }
}
