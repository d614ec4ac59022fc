/**
 * The identifier MongoDB gives every stored document, shared by the Todo and User
 * collections and by the claims of a token.
 */
module ObjectIds {
  /** A MongoDB ObjectId, kept abstract: only equality is used. */
  type ObjectId = nat
}
