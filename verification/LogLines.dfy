// The values that travel through the pipeline (pkg/logline).
module LogLines {
  datatype Option<+T> = None | Some(value: T)

  /** One log line. Structured fields are not modelled: nothing here looks inside them. */
  datatype LogLine = LogLine(timestamp: int, level: string, message: string, source: string)

  /** Severity of each level name. */
  const LOG_LEVELS: map<string, nat> :=
    map["debug" := 0, "info" := 1, "warn" := 2, "error" := 3, "fatal" := 4]

  /** The level names, least severe first. */
  const LEVEL_ORDER: seq<string> := ["debug", "info", "warn", "error", "fatal"]

  /** Severity is the place in that order, and no other name is a level. */
  lemma LevelsInOrder()
    ensures forall i :: 0 <= i < |LEVEL_ORDER| ==> LEVEL_ORDER[i] in LOG_LEVELS && LOG_LEVELS[LEVEL_ORDER[i]] == i
    ensures forall name :: name in LOG_LEVELS <==> name in LEVEL_ORDER
    ensures forall name :: name in LOG_LEVELS ==> LOG_LEVELS[name] < |LEVEL_ORDER| && LEVEL_ORDER[LOG_LEVELS[name]] == name
  {
    forall name | name in LEVEL_ORDER ensures name in LOG_LEVELS {
      var i :| 0 <= i < |LEVEL_ORDER| && LEVEL_ORDER[i] == name;
    }
    forall name | name in LOG_LEVELS
      ensures name in LEVEL_ORDER && LOG_LEVELS[name] < |LEVEL_ORDER| && LEVEL_ORDER[LOG_LEVELS[name]] == name
    {
      assert name == "debug" || name == "info" || name == "warn" || name == "error" || name == "fatal";
      assert LEVEL_ORDER[LOG_LEVELS[name]] == name;
    }
  }
}
