/** The optional value used wherever the launcher may find nothing:
    a probe without a matching file, a search without a match. */
module Optional {

  datatype Option<+T> = None | Some(value: T)

}
