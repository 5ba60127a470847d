/** An optional value: `None` stands for JavaScript's `null`, `undefined` or NaN
    wherever the modelled code produces one of them instead of a value. */
module Options {
  datatype Option<+T> = None | Some(value: T)
}
