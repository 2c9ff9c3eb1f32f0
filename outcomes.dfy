/** Result types shared by the model: a Rust `panic!` (a failed `assert!`) is an
    `Outcome.Panic` carrying the assertion's message; `Option` is used by the
    reference parser of the PPM text. */
module Outcomes {

  datatype Outcome<+T> = Ok(value: T) | Panic(message: string)

  datatype Option<+T> = None | Some(value: T)
}
