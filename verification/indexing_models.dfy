/** Rows and errors of the indexing package. */
module IndexingModels {
  import opened PythonText

  datatype ProcessingStatus =
    | Uploaded | Extracting | Extracted | Chunking | Chunked | Indexing | Indexed | Failed | Superseded

  datatype ChunkStatus = ChunkCreated | ChunkEmbedded | ChunkIndexed | ChunkSuperseded | ChunkDeleted

  datatype IndexStatus = Pending | Live | Stale | Deleted

  type Vector = seq<real>

  datatype Version = Version(document: nat, status: ProcessingStatus, reason: Option<Error>)

  datatype Chunk = Chunk(id: nat, version: nat, number: nat, text: string, hash: string, status: ChunkStatus)

  datatype Embedding = Embedding(
    chunk: nat, version: nat, model: nat, hash: string, generation: nat, vector: Vector, status: IndexStatus)

  /** The `code` of an `IndexingError`; `OtherException` is any exception that is not one. */
  datatype Error =
    | UnknownError | EmptyChunkList | ModelUnavailable | EmbeddingTimeout | DimensionMismatch
    | PartialEmbeddingFailure | StorageWriteError | OtherException

  /** A return value or a raised exception. */
  datatype Outcome<+T> = Ok(value: T) | Raise(error: Error)
}
