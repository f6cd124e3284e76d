/** Identities shared by the rows, the index and the file store. */
module Identifiers {
  type DocumentId = nat
  type KnowledgeBaseId = nat

  /** A SHA-256 digest. */
  type Digest = int
}
