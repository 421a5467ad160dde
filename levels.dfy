/** Severity levels as Go's log/slog defines them (a Level is a plain int),
    the handler's level gate, and the canonical level names it prints. */
module Levels {
  import opened Wrappers

  const Debug: int := -4
  const Info: int := 0
  const Warn: int := 4
  const Error: int := 8

  /** The four levels that have a canonical name. */
  predicate IsNamed(level: int) {
    level == Debug || level == Info || level == Warn || level == Error
  }

  /** The level gate: Handle drops a record exactly when its level is
      strictly below the handler's configured level. */
  function Admit(level: int, min: int): (admitted: bool)
    ensures admitted <==> min <= level
  {
    !(level < min)
  }

  /** Raising a record's level never turns an admitted record into a dropped one. */
  lemma AdmitMonotone(level: int, higher: int, min: int)
    requires Admit(level, min) && level <= higher
    ensures Admit(higher, min)
  {
  }

  /** Lowering the handler's level never drops a record it used to admit. */
  lemma AdmitAntitone(level: int, min: int, lower: int)
    requires Admit(level, min) && lower <= min
    ensures Admit(level, lower)
  {
  }

  /** With the default handler level (Info), Debug is dropped and the other three pass. */
  lemma AdmitAtInfo()
    ensures !Admit(Debug, Info)
    ensures Admit(Info, Info) && Admit(Warn, Info) && Admit(Error, Info)
  {
  }

  /** The name written after the datetime; a level without a canonical name
      writes nothing, since the switch in Handle has no default case. */
  function LevelName(level: int): (name: string)
    ensures name == "DEBUG" <==> level == Debug
    ensures name == "INFO" <==> level == Info
    ensures name == "WARN" <==> level == Warn
    ensures name == "ERROR" <==> level == Error
    ensures name == "" <==> !IsNamed(level)
  {
    if level == Debug then "DEBUG"
    else if level == Info then "INFO"
    else if level == Warn then "WARN"
    else if level == Error then "ERROR"
    else ""
  }

  /** Reads a canonical level name back; the inverse of LevelName on named levels. */
  function LevelFromName(name: string): (level: Option<int>)
    ensures level.Some? ==> IsNamed(level.value) && LevelName(level.value) == name
    ensures level.None? <==> name != "DEBUG" && name != "INFO" && name != "WARN" && name != "ERROR"
  {
    if name == "DEBUG" then Some(Debug)
    else if name == "INFO" then Some(Info)
    else if name == "WARN" then Some(Warn)
    else if name == "ERROR" then Some(Error)
    else None
  }

  /** A printed name identifies the level it came from, and an unnamed level prints nothing readable. */
  lemma LevelNameRoundTrip(level: int)
    ensures LevelFromName(LevelName(level)) == if IsNamed(level) then Some(level) else None
  {
  }

  /** Canonical names contain neither of the characters that may follow them in a line. */
  lemma LevelNameHasNoDelimiter(level: int)
    ensures ':' !in LevelName(level) && ' ' !in LevelName(level)
  {
  }
}
