/** Token counts, event keys and revisable events of one source file. */
module UsageTypes {
  import opened Wrappers

  datatype TokenUsage = TokenUsage(
    input: u64,
    cachedInput: u64,
    cacheRead: u64,
    cacheWrite5m: u64,
    cacheWrite1h: u64,
    output: u64,
    longContextInput: u64,
    longContextCachedInput: u64,
    longContextOutput: u64,
    longContextCacheRead: u64,
    longContextCacheWrite5m: u64,
    longContextCacheWrite1h: u64)

  /** The digest is opaque: nothing here depends on how it is computed. */
  datatype UsageDedupeKey = UsageDedupeKey(digest: u64, month: u32)

  /** The latest contribution of a message that can still be revised. */
  datatype ClaudePendingUsage = ClaudePendingUsage(key: UsageDedupeKey, day: u32, model: string, usage: TokenUsage)

  const SEEN_CAP_CLAUDE: nat := 512
  const SEEN_CAP_CODEX: nat := 32
  const PENDING_CAP_CLAUDE: nat := 32
}
