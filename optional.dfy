/** An optional value; `None` stands for the C code's NULL pointers and absent elements. */
module Optional {
  datatype Option<+T> = None | Some(value: T)
}
