/** The four-layer state machine of one vehicle: SYSTEM, CONTROL, MEDIA and OPERATOR, plus the
    set of active DEGRADED causes.

    `Layers` is the value of a machine; `Machine` is the object whose methods update it in place.
    Every method is proved against the function on `Layers` that has the same effect, and the
    properties of whole runs are proved about those functions. */
module StateMachine {

  datatype SystemState =
    | Idle | Connecting | Authenticated | Connected | Degraded | SafeMode | Recovering

  datatype ControlState =
    | ControlInit | ControlActive | ControlBlocked | ControlLost | ControlRecovering

  datatype MediaState =
    | MediaInit | MediaNegotiating | MediaConnected | MediaDegraded | MediaFailed

  datatype OperatorState =
    | NoOperator | OperatorAssigned | ActiveOperator | HandoverPending | RecoveringOperator

  /** An independent cause of SYSTEM DEGRADED. */
  datatype Cause = MediaCause | TelemetryCause

  datatype Layers = Layers(
    system: SystemState,
    control: ControlState,
    media: MediaState,
    operator: OperatorState,
    causes: set<Cause>)
  {
    /** Commands may flow to the vehicle. */
    predicate Drivable() {
      system == Connected || system == Degraded
    }
  }

  const INITIAL := Layers(Idle, ControlInit, MediaInit, NoOperator, {})

  /** The transition table. */
  function Targets(current: SystemState): set<SystemState> {
    match current
    case Idle => {Connecting}
    case Connecting => {Authenticated, SafeMode}
    case Authenticated => {Connected, SafeMode}
    case Connected => {Degraded, SafeMode, Idle}
    case Degraded => {Connected, SafeMode, Idle}
    case SafeMode => {Recovering, Idle}
    case Recovering => {Authenticated, SafeMode}
  }

  predicate Allowed(current: SystemState, next: SystemState) {
    next in Targets(current)
  }

  /** The validated SYSTEM transition with its dependent CONTROL update; a transition outside the
      table changes nothing. */
  function Transition(m: Layers, next: SystemState): Layers {
    if !Allowed(m.system, next) then m
    else
      match next
      case Idle => m.(system := Idle, control := ControlInit, operator := NoOperator)
      case SafeMode => m.(system := SafeMode, control := ControlBlocked, causes := {})
      case Connected => m.(system := Connected, control := ControlActive)
      case Authenticated =>
        m.(system := Authenticated,
           control := if m.control == ControlBlocked || m.control == ControlRecovering
                      then ControlInit else m.control)
      case Recovering => m.(system := Recovering, control := ControlRecovering)
      case Degraded => m.(system := Degraded)
      case Connecting => m.(system := Connecting)
  }

  function EnterDegraded(m: Layers, cause: Cause): Layers {
    var marked := m.(causes := m.causes + {cause});
    if m.system == Connected then Transition(marked, Degraded) else marked
  }

  function ExitDegraded(m: Layers, cause: Cause): Layers {
    var cleared := m.(causes := m.causes - {cause});
    if cleared.causes == {} && m.system == Degraded then Transition(cleared, Connected) else cleared
  }

  function ToConnected(m: Layers): Layers {
    if m.system == Authenticated then m.(system := Connected, control := ControlActive) else m
  }

  function ReportMedia(m: Layers, next: MediaState): Layers {
    var seen := m.(media := next);
    if (next == MediaFailed || next == MediaDegraded) && m.Drivable() then
      EnterDegraded(seen, MediaCause)
    else if next == MediaConnected && m.system == Degraded then
      ExitDegraded(seen, MediaCause)
    else
      seen
  }

  function ReportTelemetry(m: Layers, healthy: bool): Layers {
    if !healthy && m.Drivable() then EnterDegraded(m, TelemetryCause)
    else if healthy && m.system == Degraded then ExitDegraded(m, TelemetryCause)
    else m
  }

  function SetOperator(m: Layers, next: OperatorState): Layers {
    var updated := m.(operator := next);
    if next == NoOperator && m.Drivable() then Transition(updated, SafeMode) else updated
  }

  /** The machine object. */
  class Machine {
    var system: SystemState
    var control: ControlState
    var media: MediaState
    var operator: OperatorState
    var degradedReasons: set<Cause>

    ghost function View(): Layers
      reads this
    {
      Layers(system, control, media, operator, degradedReasons)
    }

    constructor ()
      ensures View() == INITIAL == Layers(Idle, ControlInit, MediaInit, NoOperator, {})
    {
      system, control, media, operator := Idle, ControlInit, MediaInit, NoOperator;
      degradedReasons := {};
    }

    method TransitionSystem(next: SystemState) returns (ok: bool)
      modifies this
      ensures View() == Transition(old(View()), next)
      ensures ok <==> Allowed(old(system), next)
    {
      if next !in Targets(system) {
        return false;
      }
      system := next;
      match next {
        case Idle =>
          control := ControlInit;
          operator := NoOperator;
        case SafeMode =>
          control := ControlBlocked;
          degradedReasons := {};
        case Connected =>
          control := ControlActive;
        case Authenticated =>
          if control == ControlBlocked || control == ControlRecovering {
            control := ControlInit;
          }
        case Recovering =>
          control := ControlRecovering;
        case Degraded =>
        case Connecting =>
      }
      return true;
    }

    method EnterDegradedFor(reason: Cause)
      modifies this
      ensures View() == EnterDegraded(old(View()), reason)
    {
      degradedReasons := degradedReasons + {reason};
      if system == Connected {
        var _ := TransitionSystem(Degraded);
      }
    }

    method ExitDegradedFor(reason: Cause)
      modifies this
      ensures View() == ExitDegraded(old(View()), reason)
    {
      degradedReasons := degradedReasons - {reason};
      if degradedReasons == {} && system == Degraded {
        var _ := TransitionSystem(Connected);
      }
    }

    method TransitionToConnected() returns (ok: bool)
      modifies this
      ensures View() == ToConnected(old(View()))
      ensures ok <==> old(system) == Authenticated
    {
      if system != Authenticated {
        return false;
      }
      system := Connected;
      control := ControlActive;
      return true;
    }

    method TransitionMedia(next: MediaState)
      modifies this
      ensures View() == ReportMedia(old(View()), next)
    {
      media := next;
      if (next == MediaFailed || next == MediaDegraded) && (system == Connected || system == Degraded) {
        EnterDegradedFor(MediaCause);
      } else if next == MediaConnected && system == Degraded {
        ExitDegradedFor(MediaCause);
      }
    }

    method TransitionTelemetry(healthy: bool)
      modifies this
      ensures View() == ReportTelemetry(old(View()), healthy)
    {
      if !healthy && (system == Connected || system == Degraded) {
        EnterDegradedFor(TelemetryCause);
      } else if healthy && system == Degraded {
        ExitDegradedFor(TelemetryCause);
      }
    }

    method TransitionOperator(next: OperatorState)
      modifies this
      ensures View() == SetOperator(old(View()), next)
    {
      operator := next;
      if next == NoOperator && (system == Connected || system == Degraded) {
        var _ := TransitionSystem(SafeMode);
      }
    }
  }
}
