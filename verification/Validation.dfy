/** Running validation commands (agent/validation.py) and classifying their failures (agent/classify.py). */
module Validation {
  import opened Prelude

  /** The text of a command's output, reduced to the two phrase tables that are searched in it. */
  datatype OutputText = OutputText(environmentPhrase: bool, escalationMarker: bool)

  datatype ValidationRecord = ValidationRecord(
    command: string,
    repairableBinary: bool,       // argv[0] names one of REPAIRABLE_BINARIES
    exitCode: Option<int>,
    timedOut: bool,
    denied: bool,
    output: OutputText)
  {
    predicate Passed() {
      !denied && !timedOut && exitCode == Some(0)
    }
  }

  /** What running one command does: it leaves a record, or raises. */
  datatype CommandRun = Record(record: ValidationRecord) | Raises(category: ErrorCategory, name: string)

  const NO_COMMANDS := AgentError(InvalidInput, NoValidationCommands)

  /** The records of the commands up to and including the first that does not pass. */
  function Records(runs: seq<CommandRun>): (r: Result<seq<ValidationRecord>, AgentError>)
    ensures r.Ok? ==> |r.value| <= |runs| && (runs != [] ==> r.value != [])
    ensures r.Ok? ==> forall i :: 0 <= i < |r.value| ==> runs[i] == Record(r.value[i])
    ensures r.Ok? ==> forall i :: 0 <= i < |r.value| - 1 ==> r.value[i].Passed()
    ensures r.Ok? && |r.value| < |runs| ==> !r.value[|r.value| - 1].Passed()
    ensures r.Err? ==> r.error.code.Other?
  {
    if runs == [] then Ok([])
    else match runs[0]
      case Raises(category, name) => Err(AgentError(category, Other(name)))
      case Record(record) =>
        if !record.Passed() then Ok([record])
        else
          var rest := Records(runs[1..]);
          if rest.Err? then rest else Ok([record] + rest.value)
  }

  /** `run_validation_text` on the extracted commands. */
  function RunValidation(runs: seq<CommandRun>): (r: Result<seq<ValidationRecord>, AgentError>) {
    if runs == [] then Err(NO_COMMANDS) else Records(runs)
  }

  function After(done: seq<ValidationRecord>, rest: Result<seq<ValidationRecord>, AgentError>)
    : Result<seq<ValidationRecord>, AgentError>
  {
    if rest.Err? then rest else Ok(done + rest.value)
  }

  lemma AfterNothing(done: seq<ValidationRecord>, rest: Result<seq<ValidationRecord>, AgentError>)
    ensures After([], rest) == rest && After(done, Ok([])) == Ok(done)
  {
    assert done + [] == done;
    if rest.Ok? {
      assert [] + rest.value == rest.value;
    }
  }

  lemma AfterOne(done: seq<ValidationRecord>, runs: seq<CommandRun>)
    requires runs != [] && runs[0].Record?
    ensures After(done, Records(runs)) ==
              if runs[0].record.Passed() then After(done + [runs[0].record], Records(runs[1..]))
              else Ok(done + [runs[0].record])
  {
    RecordsFirst(runs);
    hide Records;
    var rest := Records(runs[1..]);
    if rest.Ok? {
      ConcatAssociates(done, [runs[0].record], rest.value);
    }
  }

  lemma RecordsFirst(runs: seq<CommandRun>)
    requires runs != [] && runs[0].Record?
    ensures var rest := Records(runs[1..]);
            Records(runs) ==
              if !runs[0].record.Passed() then Ok([runs[0].record])
              else if rest.Err? then rest else Ok([runs[0].record] + rest.value)
  {
  }

  /** `run_validation_text`: runs in order, stops at the first command that does not pass. */
  method RunValidationText(runs: seq<CommandRun>) returns (r: Result<seq<ValidationRecord>, AgentError>)
    ensures r == RunValidation(runs)
  {
    if runs == [] {
      return Err(NO_COMMANDS);
    }
    var records: seq<ValidationRecord> := [];
    AfterNothing([], Records(runs));
    assert runs[0..] == runs;
    for i := 0 to |runs|
      invariant Records(runs) == After(records, Records(runs[i..]))
    {
      var rest := runs[i..];
      assert rest[0] == runs[i] && rest[1..] == runs[i + 1..];
      match runs[i] {
        case Raises(category, name) =>
          return Err(AgentError(category, Other(name)));
        case Record(record) =>
          AfterOne(records, rest);
          records := records + [record];
          if !record.Passed() {
            return Ok(records);
          }
      }
    }
    AfterNothing(records, Ok([]));
    assert runs[|runs|..] == [];
    r := Ok(records);
  }

  /** The first record that did not pass, if any. */
  function FirstFailed(records: seq<ValidationRecord>): (r: Option<ValidationRecord>)
    ensures r.None? <==> forall i :: 0 <= i < |records| ==> records[i].Passed()
    ensures r.Some? ==> r.value in records && !r.value.Passed()
  {
    if records == [] then None
    else if !records[0].Passed() then Some(records[0])
    else FirstFailed(records[1..])
  }

  /** `classify_output`: environment phrases first, then escalation markers, then the binary. */
  function ClassifyOutput(output: OutputText, repairableBinary: bool, exitCode: Option<int>): FailureClass {
    if output.environmentPhrase then EnvFailure
    else if output.escalationMarker then NeedsEscalation
    else if repairableBinary && exitCode != None && exitCode != Some(0) then AgentRepairable
    else NeedsEscalation
  }

  /** `classify_validation`: no class for a record that passed; an environment failure for a timeout or
      an environment phrase; agent-repairable for a plain error exit of a known tool; else, and for
      every denied command, a human is needed. */
  function ClassifyValidation(record: ValidationRecord): (r: Option<FailureClass>)
    ensures r.None? <==> record.Passed()
    ensures r == Some(EnvFailure) <==>
              !record.denied && !record.Passed() && (record.timedOut || record.output.environmentPhrase)
    ensures r == Some(AgentRepairable) <==>
              && !record.denied && !record.timedOut && !record.output.environmentPhrase &&
                  !record.output.escalationMarker
              && record.repairableBinary && record.exitCode.Some? && record.exitCode != Some(0)
  {
    if record.Passed() then None
    else if record.denied then Some(NeedsEscalation)
    else if record.timedOut then Some(EnvFailure)
    else Some(ClassifyOutput(record.output, record.repairableBinary, record.exitCode))
  }

  /** A validation run that was not cut short by an exception fails at its last record or nowhere. */
  lemma FailureIsLast(runs: seq<CommandRun>)
    requires RunValidation(runs).Ok?
    ensures var records := RunValidation(runs).value;
            FirstFailed(records) ==
              if records[|records| - 1].Passed() then None else Some(records[|records| - 1])
  {
    var records := RunValidation(runs).value;
    FirstFailedOfGoodPrefix(records);
  }

  lemma {:induction false} FirstFailedOfGoodPrefix(records: seq<ValidationRecord>)
    requires records != [] && forall i :: 0 <= i < |records| - 1 ==> records[i].Passed()
    ensures FirstFailed(records) ==
              if records[|records| - 1].Passed() then None else Some(records[|records| - 1])
  {
    if |records| == 1 {
      assert records[1..] == [];
    } else {
      FirstFailedOfGoodPrefix(records[1..]);
    }
  }
}
