/**
 The workspace root of a flow or a connection: what the records accept, and
 what the settings make of a stored root, which they normalise once more.
 */
module Roots {
  import opened Options
  import opened Paths

  const MIN_ROOT := 2

  const MAX_ROOT := 4096

  /** The lengths that the records of flows and connections accept. */
  predicate RootFits(root: string) {
    MIN_ROOT <= |root| <= MAX_ROOT
  }

  /** The root of the settings; `None` when their validator refuses the stored one. */
  function SettingsRoot(root: string): Option<string> {
    match NormalizeRootPath(root)
    case Ok(path) => Some(path)
    case Refused(_) => None
  }
}
