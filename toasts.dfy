/** The toast notifications the pages raise (frontend/src/hooks/use-toast). */
module Toasts {
  /** A toast's title and whether it uses the destructive variant. */
  datatype Toast = Toast(title: string, destructive: bool)

  /** Raised by every page action that needs a signed-in user. */
  const AuthenticationRequired: Toast := Toast("Authentication Required", true)
}
