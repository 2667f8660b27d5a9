/** The optional value used for parsed bodies, issued requests and recovered prompts. */
module Options {

  datatype Option<+T> = None | Some(value: T)
}
