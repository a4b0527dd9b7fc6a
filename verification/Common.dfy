/** Shared vocabulary: optional values and the (owner, name) pair that identifies a repository. */
module Common {
  datatype Option<+T> = None | Some(value: T)

  /** A repository is addressed by owner and name everywhere in the cache. */
  datatype Slug = Slug(owner: string, name: string)

  function Max(a: int, b: int): int { if a < b then b else a }

  function Min(a: int, b: int): int { if a < b then a else b }

  predicate StartsWith(s: string, prefix: string) { prefix <= s }
}
