/** The filter's configuration valves. */
module Settings {

  /** The operator-settable toggles of `Filter.Valves`. */
  datatype Valves = Valves(
    enabled: bool,
    logInlet: bool,
    logStream: bool,
    logOutlet: bool,
    logUserInfo: bool,
    truncateMessage: int)

  /** The values a fresh filter starts with: logging is off. */
  const DefaultValves := Valves(
    enabled := false,
    logInlet := true,
    logStream := true,
    logOutlet := true,
    logUserInfo := true,
    truncateMessage := 0)
}
