/** Shared data of the dashboard: an optional value and the Article record
    the backend returns (src/lib/types.ts). */
module Types {

  /** A value that may be absent; stands for TypeScript's `T | null`. */
  datatype Option<+T> = None | Some(value: T)

  /** One article as served by the backend; every field is a string. */
  datatype Article = Article(
    id: string,
    title: string,
    content: string,
    contentUrl: string,
    audioUrl: string,
    speechModel: string)
}
