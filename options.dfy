/** The optional value used for the demos' nullable references (`selectedShape`,
    `lastSelectedShape`), for a hit test that may find nothing, and for a ray/plane
    intersection that may not exist. */
module Options {

  datatype Option<+T> = None | Some(value: T)
}
