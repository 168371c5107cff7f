/** The verdict on a finished run: it fails closed. */
module Verdict {
  import opened Bits
  import opened ScenarioSpec

  datatype StopReason = CycleLimit | PcMatch | Exception | Error | ScenarioDone

  datatype RunOutcome = RunOutcome(stopReason: StopReason, cycles: nat, elapsedNs: nat, pc: nat,
                                   exception: Option<string>, error: Option<string>, uart: seq<byte>)

  datatype Reason =
    | RaisedException | EmulatorError | UnsupportedMmio | UnsupportedMmioLogTruncated
    | KeyboardEventsDropped | KeyboardProtocolError | ScenarioFailed | ScenarioUnrunnable
    | StopReasonMismatch | MissingUartMarkers | NoAcceptanceCriteria | NoAcceptedStopReason

  datatype Judgement = Passed | Failed | CannotJudge

  /** What is judged besides the outcome itself. */
  datatype Evidence = Evidence(unsupportedCount: nat, unsupportedTruncated: bool, keysDropped: nat, protocolErrors: nat,
                               scenarioPassed: Option<bool>, scenarioFault: bool, expectedStop: Option<StopReason>,
                               markers: seq<seq<byte>>)

  datatype Report = Report(status: Judgement, reasons: seq<Reason>, missing: seq<seq<byte>>)

  function Note(holds: bool, r: Reason): seq<Reason> {
    if holds then [r] else []
  }

  /** The markers that the output does not contain; an empty marker always counts as missing. */
  function Missing(markers: seq<seq<byte>>, uart: seq<byte>): (missing: seq<seq<byte>>)
    ensures missing == [] <==> forall i :: 0 <= i < |markers| ==> Occurs(markers[i], uart)
  {
    if markers == [] then []
    else (if Occurs(markers[0], uart) then [] else [markers[0]]) + Missing(markers[1..], uart)
  }

  function Troubles(o: RunOutcome, e: Evidence): seq<Reason> {
    Note(o.exception.Some?, RaisedException)
    + Note(o.error.Some?, EmulatorError)
    + Note(e.unsupportedCount > 0, UnsupportedMmio)
    + Note(e.unsupportedTruncated, UnsupportedMmioLogTruncated)
    + Note(e.keysDropped > 0, KeyboardEventsDropped)
    + Note(e.protocolErrors > 0, KeyboardProtocolError)
  }

  function Unmet(o: RunOutcome, e: Evidence): seq<Reason> {
    Note(e.scenarioPassed == Some(false) && !e.scenarioFault, ScenarioFailed)
    + Note(e.scenarioFault, ScenarioUnrunnable)
    + Note(!e.scenarioFault && e.expectedStop.Some? && o.stopReason != e.expectedStop.value, StopReasonMismatch)
    + Note(!e.scenarioFault && Missing(e.markers, o.uart) != [], MissingUartMarkers)
  }

  function Reasons(o: RunOutcome, e: Evidence): seq<Reason> {
    Troubles(o, e) + Unmet(o, e)
  }

  function Judge(o: RunOutcome, e: Evidence): Report {
    var reasons, missing := Reasons(o, e), Missing(e.markers, o.uart);
    if exists r :: r in reasons && r != ScenarioUnrunnable then Report(Failed, reasons, missing)
    else if e.scenarioFault then Report(CannotJudge, reasons, missing)
    else if e.expectedStop.None? && e.scenarioPassed.None? then
      Report(CannotJudge, reasons + [if e.markers == [] then NoAcceptanceCriteria else NoAcceptedStopReason], missing)
    else Report(Passed, reasons, missing)
  }

  /** Something went wrong that is the firmware's doing, or the harness lost sight of it. */
  predicate Troubled(o: RunOutcome, e: Evidence) {
    o.exception.Some? || o.error.Some? || e.unsupportedCount > 0 || e.unsupportedTruncated
    || e.keysDropped > 0 || e.protocolErrors > 0
  }

  /** What the run was asked to show did show. */
  predicate Expected(o: RunOutcome, e: Evidence) {
    && e.scenarioPassed != Some(false)
    && (e.expectedStop.Some? ==> o.stopReason == e.expectedStop.value)
    && forall i :: 0 <= i < |e.markers| ==> Occurs(e.markers[i], o.uart)
  }

  predicate HasCriterion(e: Evidence) {
    e.expectedStop.Some? || e.scenarioPassed.Some?
  }

  lemma TroublesTell(o: RunOutcome, e: Evidence)
    ensures Troubles(o, e) != [] <==> Troubled(o, e)
    ensures ScenarioUnrunnable !in Troubles(o, e)
  {
  }

  lemma UnmetTells(o: RunOutcome, e: Evidence)
    ensures e.scenarioFault ==> Unmet(o, e) == [ScenarioUnrunnable]
    ensures !e.scenarioFault ==> ScenarioUnrunnable !in Unmet(o, e) && (Unmet(o, e) == [] <==> Expected(o, e))
  {
  }

  lemma FailureReasons(o: RunOutcome, e: Evidence)
    ensures (exists r :: r in Reasons(o, e) && r != ScenarioUnrunnable) <==>
            Troubled(o, e) || (!e.scenarioFault && !Expected(o, e))
    ensures Reasons(o, e) == [] <==> !Troubled(o, e) && !e.scenarioFault && Expected(o, e)
  {
    hide Troubles, Unmet, Troubled, Expected;
    TroublesTell(o, e);
    UnmetTells(o, e);
    var t, u := Troubles(o, e), Unmet(o, e);
    assert t != [] ==> t[0] in Reasons(o, e) && t[0] in t;
    assert u != [] ==> u[0] in Reasons(o, e) && u[0] in u;
  }

  /** The three verdicts, each exactly characterised. */
  lemma VerdictExactly(o: RunOutcome, e: Evidence)
    ensures var j := Judge(o, e).status;
            && (j == Passed <==> !Troubled(o, e) && !e.scenarioFault && Expected(o, e) && HasCriterion(e))
            && (j == Failed <==> Troubled(o, e) || (!e.scenarioFault && !Expected(o, e)))
  {
    hide Reasons, Troubled, Expected, Missing;
    FailureReasons(o, e);
  }

  /** A verdict other than a pass always says why. */
  lemma NoSilentRefusal(o: RunOutcome, e: Evidence)
    ensures Judge(o, e).reasons == [] <==> Judge(o, e).status == Passed
  {
    hide Reasons, Troubled, Expected, Missing;
    FailureReasons(o, e);
    VerdictExactly(o, e);
  }

  /** The stop a run is held to when none was named on the command line. */
  function EffectiveStop(explicit: Option<StopReason>, stopPc: bool, scenario: bool): Option<StopReason> {
    if explicit.Some? then explicit
    else if stopPc then Some(PcMatch)
    else if scenario then Some(ScenarioDone)
    else None
  }

  // ---- Reasons ----------------------------------------------------------------------------

  /** What each reason stands for. */
  predicate Cause(o: RunOutcome, e: Evidence, r: Reason) {
    match r
    case RaisedException => o.exception.Some?
    case EmulatorError => o.error.Some?
    case UnsupportedMmio => e.unsupportedCount > 0
    case UnsupportedMmioLogTruncated => e.unsupportedTruncated
    case KeyboardEventsDropped => e.keysDropped > 0
    case KeyboardProtocolError => e.protocolErrors > 0
    case ScenarioFailed => e.scenarioPassed == Some(false) && !e.scenarioFault
    case ScenarioUnrunnable => e.scenarioFault
    case StopReasonMismatch => !e.scenarioFault && e.expectedStop.Some? && o.stopReason != e.expectedStop.value
    case MissingUartMarkers =>
      !e.scenarioFault && exists i :: 0 <= i < |e.markers| && !Occurs(e.markers[i], o.uart)
    case NoAcceptanceCriteria => Uncalled(o, e) && e.markers == []
    case NoAcceptedStopReason => Uncalled(o, e) && e.markers != []
  }

  /** Nothing went wrong, nothing is missing, and nothing says what the run was for. */
  predicate Uncalled(o: RunOutcome, e: Evidence) {
    !Troubled(o, e) && !e.scenarioFault && Expected(o, e) && !HasCriterion(e)
  }

  lemma Joined(front: seq<Reason>, holds: bool, one: Reason, r: Reason)
    ensures r in front + Note(holds, one) <==> r in front || (holds && r == one)
  {
  }

  lemma TroublesCaused(o: RunOutcome, e: Evidence, r: Reason)
    ensures r in Troubles(o, e) <==>
      Cause(o, e, r) && r in {RaisedException, EmulatorError, UnsupportedMmio, UnsupportedMmioLogTruncated,
                              KeyboardEventsDropped, KeyboardProtocolError}
  {
    hide Note;
    var t1 := [] + Note(o.exception.Some?, RaisedException);
    var t2 := t1 + Note(o.error.Some?, EmulatorError);
    var t3 := t2 + Note(e.unsupportedCount > 0, UnsupportedMmio);
    var t4 := t3 + Note(e.unsupportedTruncated, UnsupportedMmioLogTruncated);
    var t5 := t4 + Note(e.keysDropped > 0, KeyboardEventsDropped);
    Joined([], o.exception.Some?, RaisedException, r);
    Joined(t1, o.error.Some?, EmulatorError, r);
    Joined(t2, e.unsupportedCount > 0, UnsupportedMmio, r);
    Joined(t3, e.unsupportedTruncated, UnsupportedMmioLogTruncated, r);
    Joined(t4, e.keysDropped > 0, KeyboardEventsDropped, r);
    Joined(t5, e.protocolErrors > 0, KeyboardProtocolError, r);
    assert t1 == Note(o.exception.Some?, RaisedException);
    assert Troubles(o, e) == t5 + Note(e.protocolErrors > 0, KeyboardProtocolError);
  }

  lemma UnmetCaused(o: RunOutcome, e: Evidence, r: Reason)
    ensures r in Unmet(o, e) <==>
      Cause(o, e, r) && r in {ScenarioFailed, ScenarioUnrunnable, StopReasonMismatch, MissingUartMarkers}
  {
  }

  /** A report gives exactly the reasons there are. */
  lemma ReasonsTell(o: RunOutcome, e: Evidence, r: Reason)
    ensures r in Judge(o, e).reasons <==> Cause(o, e, r)
  {
    hide Troubles, Unmet, Troubled, Expected, Missing;
    FailureReasons(o, e);
    TroublesCaused(o, e, r);
    UnmetCaused(o, e, r);
  }

  /** And names exactly the markers that the output does not contain. */
  lemma {:induction false} MissingExactly(markers: seq<seq<byte>>, uart: seq<byte>, m: seq<byte>)
    ensures m in Missing(markers, uart) <==> m in markers && !Occurs(m, uart)
  {
    if markers != [] {
      MissingExactly(markers[1..], uart, m);
      assert markers == [markers[0]] + markers[1..];
    }
  }
}
