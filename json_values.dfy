/** Raw request values as the service receives them from a parsed JSON body,
    route parameters or the authenticated user. */
module JsonValues {

  datatype Option<+T> = None | Some(value: T)

  /** A JavaScript value as seen by the validator. `Missing` is `undefined`
      (an absent key), `Other` stands for any object or array. Numbers are
      modelled as integers. */
  datatype Json = Missing | Null | Str(s: string) | Bool(b: bool) | Num(n: int) | Other

  /** A request body: an object whose absent keys read as `undefined`. */
  type Input = map<string, Json>

  function Get(input: Input, key: string): Json
  {
    if key in input then input[key] else Missing
  }
}
