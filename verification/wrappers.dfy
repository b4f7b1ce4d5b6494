/** Failure-carrying values shared by every module of the model.
    `Option` stands for TypeScript's `T | undefined` / `T | null`;
    `Result` stands for a promise that either resolves or rejects. */
module Wrappers {

  datatype Option<+T> = None | Some(value: T)

  datatype Result<+T, +E> = Ok(value: T) | Err(error: E)
}
