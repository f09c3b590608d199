/** Application settings: the defaults and the predicate that decides
    whether the OpenAI services are used. Reading the environment and the
    `.env` file, and creating the directories, are outside the model. */
module Config {
  import opened Wrappers

  /** The value shipped in the example environment file. */
  const ApiKeyPlaceholder: string := "your-openai-api-key-here"

  datatype Settings = Settings(
    openaiApiKey: Option<string>,
    embeddingModel: string,
    llmModel: string,
    chromaPersistDir: string,
    uploadDir: string,
    chunkSize: int,
    chunkOverlap: int,
    collectionName: string)

  /** The settings when no environment variable overrides a field. */
  function DefaultSettings(): (s: Settings)
    ensures s.openaiApiKey == None
    ensures s.chunkSize == 500 && s.chunkOverlap == 50
    ensures 0 <= s.chunkOverlap < s.chunkSize
  {
    Settings(None, "text-embedding-3-small", "gpt-4o-mini", "./chroma_db",
             "./data/uploads", 500, 50, "tracebridge_documents")
  }

  /** Whether a key is usable: present, not the placeholder, longer than 10. */
  function UseOpenAiEmbeddings(s: Settings): (r: bool)
    ensures r ==> s.openaiApiKey.Some? && |s.openaiApiKey.value| > 10
    ensures s.openaiApiKey == Some(ApiKeyPlaceholder) ==> !r
    ensures (s.openaiApiKey.Some? && s.openaiApiKey.value != ApiKeyPlaceholder
             && |s.openaiApiKey.value| > 10) ==> r
  {
    match s.openaiApiKey
    case None => false
    case Some(key) => key != ApiKeyPlaceholder && |key| > 10
  }

  /** Out of the box no OpenAI service is used. */
  lemma DefaultsAreOffline()
    ensures !UseOpenAiEmbeddings(DefaultSettings())
  {
  }

  /** The placeholder is longer than 10 characters, so only the explicit
      comparison with it keeps it from enabling the OpenAI services. */
  lemma PlaceholderPassesLengthTest(s: Settings)
    requires s.openaiApiKey == Some(ApiKeyPlaceholder)
    ensures |s.openaiApiKey.value| > 10 && !UseOpenAiEmbeddings(s)
  {
  }
}
