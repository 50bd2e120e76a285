/** The emergency stop shared by every pass that writes to the cluster. */
module HaltSwitch {
  /** The halt ConfigMap as read: absent, unreadable, or its data. */
  datatype HaltConfig = Missing | ReadError | Data(entries: map<string, string>)

  predicate Halted(h: HaltConfig, key: string) {
    match h
    case Missing => false
    case ReadError => true  // fail closed
    case Data(entries) => key in entries && entries[key] == "true"
  }

  method CheckHalt(halt: HaltConfig, key: string) returns (halted: bool)
    ensures halted == Halted(halt, key)
    ensures halted <==> halt.ReadError? || (halt.Data? && key in halt.entries && halt.entries[key] == "true")
  {
    match halt
    case Missing => return false;
    case ReadError => return true;
    case Data(entries) =>
      if key !in entries {
        return false;
      }
      return entries[key] == "true";
  }
}
