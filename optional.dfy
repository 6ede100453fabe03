/** The conventional Some/None datatype, used where the power manager has a
    value or "nothing" (a missing D-Bus reply, an unknown name). */
module Optional {

  datatype Option<+T> = None | Some(value: T)
}
