/** The records the batch runtime passes between its parts (tools/klevar-yolo-runtime/src/types.ts). */
module RuntimeTypes {
  import opened Wrappers
  import opened Text

  datatype TestEvidence = TestEvidence(command: string, exitCode: int)

  datatype Tests = Tests(red: Option<TestEvidence>, green: Option<TestEvidence>, regression: Option<TestEvidence>,
                         e2e: Option<TestEvidence>)

  const NO_TESTS := Tests(None, None, None, None)

  datatype Entrypoint = Entrypoint(kind: string, path: string, verifiedBy: string)

  /** An entrypoint as JSON: a path alone, or a record whose fields are `None` when they are missing or no strings. */
  datatype WiringEntry = PathAlone(path: string) | Record(kind: Option<string>, at: Option<string>,
                                                          verifiedBy: Option<string>) | OtherJson

  datatype Wiring = Wiring(required: bool, entrypoints: seq<WiringEntry>)

  datatype BatchResult = BatchResult(agent: string, batch: nat, status: string, itemsCompleted: seq<string>,
                                     filesChanged: seq<string>, tests: Option<Tests>, wiring: Option<Wiring>,
                                     businessLogicTest: Option<string>, artifacts: seq<string>,
                                     failureType: Option<string>, flags: seq<string>)

  datatype GateResult = GateResult(name: string, passed: bool, flags: seq<string>)

  function Present<T>(value: Option<T>): seq<T> {
    match value
    case Some(v) => [v]
    case None => []
  }

  /** A JavaScript string is falsy when it is missing or empty. */
  function Truthy(value: Option<string>): seq<string> {
    if value.Some? && value.value != "" then [value.value] else []
  }

  function TestValues(result: BatchResult): seq<TestEvidence> {
    var tests := result.tests.Or(NO_TESTS);
    Present(tests.red) + Present(tests.green) + Present(tests.regression) + Present(tests.e2e)
  }

  predicate HasPassingCommandEvidence(result: BatchResult) {
    exists i | 0 <= i < |TestValues(result)| :: TestValues(result)[i].exitCode == 0
      && Trim(TestValues(result)[i].command) != ""
  }
}
