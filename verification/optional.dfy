/** The Some/None wrapper used for results of partial operations, such as
    parsing a URI into a catalogue id. */
module Optional {

  datatype Option<+T> = None | Some(value: T)
}
