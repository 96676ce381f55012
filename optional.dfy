/** The `User | null` results of the directory lookup. */
module Optional {

  datatype Option<+T> = None | Some(value: T)
}
