/** The governance chain as a trace: what one call does, in order, for every behaviour of the steps
    plugged into it. */
module Chain {
  import opened Policy

  // ---- declarations and mounting

  datatype Approval = NoApproval | Notify | Grant | UnknownMode
  datatype AuditLevel = LedgerOnly | Audit | UnknownLevel

  datatype Tool = Tool(
    approval: Approval, audit: AuditLevel, failClosed: bool, retainDays: nat, recordsPayload: bool,
    hasAuthorization: bool)

  /** What this deployment was given. `retention` of an audit sink is in days, zero meaning no limit. */
  datatype Core = Core(fga: bool, grants: bool, notifier: bool, sink: Option<nat>, availability: bool)

  /** The declared governance this deployment cannot honour. */
  method UnimplementedGovernance(core: Core, t: Tool) returns (missing: seq<string>)
    ensures missing == [] <==> Mounts(core, t)
  {
    missing := [];
    match t.approval {
      case NoApproval =>
      case Notify =>
        if !core.notifier { missing := missing + ["approval.mode MODE_NOTIFY"]; }
      case Grant =>
        if !core.grants { missing := missing + ["approval.mode MODE_GRANT"]; }
      case UnknownMode => missing := missing + ["approval.mode"];
    }
    match t.audit {
      case LedgerOnly =>
      case Audit =>
        if core.sink.None? { missing := missing + ["audit.level LEVEL_AUDIT"]; }
      case UnknownLevel => missing := missing + ["audit.level"];
    }
    if t.failClosed && (!t.audit.Audit? || core.sink.None?) {
      missing := missing + ["audit.fail_closed"];
    }
    if t.retainDays > 0 && (core.sink.None? || (core.sink.value != 0 && core.sink.value < t.retainDays)) {
      missing := missing + ["audit.retain_days"];
    }
    if t.recordsPayload {
      missing := missing + ["audit.record_request"];
    }
    if t.hasAuthorization && !core.fga {
      missing := missing + ["an authorization block"];
    }
  }

  /** Every supervision the tool declares is one this deployment applies. */
  predicate Mounts(core: Core, t: Tool) {
    && !t.approval.UnknownMode? && (t.approval.Notify? ==> core.notifier) && (t.approval.Grant? ==> core.grants)
    && !t.audit.UnknownLevel? && (t.audit.Audit? ==> core.sink.Some?)
    && (t.failClosed ==> t.audit.Audit?)
    && (t.retainDays > 0 ==> core.sink.Some? && (core.sink.value == 0 || t.retainDays <= core.sink.value))
    && !t.recordsPayload && (t.hasAuthorization ==> core.fga)
  }

  // ---- one call

  datatype Outcome = Denied | Error | Ok

  datatype Err =
    | Unauthenticated | NotFound | Internal | Unimplemented | PermissionDenied | InvalidArgument | GrantRefused
    | Unavailable | ToolRefusal | ResolverError

  type Message = nat

  /** How a plugged-in step ends: it returns, it panics, or it aborts the connection. */
  datatype Did<+T> = Returned(value: T) | Panicked | Aborted

  datatype Resolution = Answered(resp: Option<Message>) | RefusedByTool | Failed
  datatype PostCheck = Same | Refused | Nothing | Replaced
  datatype Sanitised = Clean | NoPlan | CardInvalid | CardGone

  /** Everything outside the chain's control in one call. `tool` is None for a procedure that is not
      a mounted tool. The last two are the sinks called while the call is being closed. */
  datatype World = World(
    principal: bool, tool: Option<Tool>, visible: bool, request: bool, requestPlan: bool, resolver: bool,
    writes: Did<bool>, valid: Did<bool>, fgaPre: Did<bool>, grant: Did<bool>, up: Did<bool>, intent: Did<bool>,
    resolve: Did<Resolution>, fgaPost: Did<PostCheck>, sanitise: Did<Sanitised>,
    recorderPanics: bool, auditPanics: bool)

  /** What can be observed, in order. `Row` is the recorder being handed the call's row: whether it keeps it is the
      recorder's business. */
  datatype Step =
    | SawTool | WritesOk | InputValid | InstanceOk | GrantOk | ServiceUp | IntentWritten(id: nat)
    | Ran(id: nat) | PostChecked | SanitisedStep(m: Message) | Row(id: nat, outcome: Outcome) | Notified
    | AuditRow(id: nat, outcome: Outcome)

  /** How the body of a call ends. */
  datatype Ending = Return(resp: Option<Message>, err: Option<Err>) | Panic | Abort

  datatype Answer = Answer(resp: Option<Message>, err: Option<Err>) | Raised

  /** Where each step stands in the one fixed order. */
  function Rank(x: Step): nat {
    match x
    case SawTool => 0
    case WritesOk => 1
    case InputValid => 2
    case InstanceOk => 3
    case GrantOk => 4
    case ServiceUp => 5
    case IntentWritten(_) => 6
    case Ran(_) => 7
    case PostChecked => 8
    case SanitisedStep(_) => 9
    case Row(_, _) => 10
    case Notified => 11
    case AuditRow(_, _) => 12
  }

  const RUN := 7
  const CLOSE := 10

  /** No step comes twice or out of turn. */
  ghost predicate InOrder(trace: seq<Step>) {
    forall i, j | 0 <= i < j < |trace| :: Rank(trace[i]) < Rank(trace[j])
  }

  /** In order, and nothing from `turn` on has happened yet. */
  ghost predicate Before(trace: seq<Step>, turn: nat) {
    InOrder(trace) && forall i | 0 <= i < |trace| :: Rank(trace[i]) < turn
  }

  ghost predicate Keeps(before: seq<Step>, trace: seq<Step>) {
    forall x | x in before :: x in trace
  }

  /** Everything a tool declares about being run is behind it. */
  ghost predicate GatesPassed(core: Core, tool: Option<Tool>, id: nat, before: seq<Step>) {
    && WritesOk in before && InputValid in before
    && (tool.Some? ==>
          && SawTool in before
          && (tool.value.hasAuthorization ==> InstanceOk in before)
          && (tool.value.approval.Grant? ==> GrantOk in before)
          && (core.availability ==> ServiceUp in before)
          && (tool.value.failClosed ==> IntentWritten(id) in before))
  }

  // ---- what a call comes to

  /** How the body ends and, where it returns, the outcome its row says. */
  datatype Closing = Closing(end: Ending, outcome: Outcome)

  function Refusal(err: Err, outcome: Outcome): Closing {
    Closing(Return(None, Some(err)), outcome)
  }

  /** A gate that was asked stops the call unless it says yes. */
  function Asked(d: Did<bool>, err: Err, outcome: Outcome): Option<Closing> {
    match d
    case Panicked => Some(Closing(Panic, Error))
    case Aborted => Some(Closing(Abort, Error))
    case Returned(ok) => if ok then None else Some(Refusal(err, outcome))
  }

  function Or(a: Option<Closing>, b: Option<Closing>): Option<Closing> {
    if a.Some? then a else b
  }

  function When(asked: bool, a: Option<Closing>): Option<Closing> {
    if asked then a else None
  }

  predicate Audited(core: Core, w: World) {
    w.principal && w.tool.Some? && w.tool.value.audit.Audit? && core.sink.Some?
  }

  function NotAdmitted(core: Core, w: World): Option<Closing> {
    Or(When(!w.principal, Some(Refusal(Unauthenticated, Denied))),
    Or(When(w.tool.Some? && !w.visible, Some(Refusal(NotFound, Denied))),
    Or(When(!w.request, Some(Refusal(Internal, Error))),
    Or(When(w.tool.None? && !w.requestPlan, Some(Refusal(Unimplemented, Denied))),
    Or(Asked(w.writes, PermissionDenied, Denied), Asked(w.valid, InvalidArgument, Denied))))))
  }

  function NotApproved(core: Core, w: World): Option<Closing> {
    Or(When(core.fga, Asked(w.fgaPre, PermissionDenied, Denied)),
       When(core.grants, Asked(w.grant, GrantRefused, Denied)))
  }

  /** An intent that could not be written stops only a call that must not go on without one. */
  function NotIntended(w: World): Option<Closing> {
    if w.tool.Some? && w.intent == Returned(false) && !w.tool.value.failClosed then None
    else Asked(w.intent, Unavailable, Denied)
  }

  /** What stops a call before its tool runs, the first thing in the order of the chain. */
  function Stopped(core: Core, w: World): Option<Closing> {
    Or(NotAdmitted(core, w),
    Or(NotApproved(core, w),
    Or(When(w.tool.Some? && core.availability, Asked(w.up, Unavailable, Error)),
       When(Audited(core, w), NotIntended(w)))))
  }

  /** What the call comes to once nothing stopped it. */
  function Acted(core: Core, w: World): Closing {
    if !w.resolver then Refusal(Unimplemented, Error)
    else match w.resolve
      case Panicked => Closing(Panic, Error)
      case Aborted => Closing(Abort, Error)
      case Returned(RefusedByTool) => Refusal(ToolRefusal, Denied)
      case Returned(Failed) => Refusal(ResolverError, Error)
      case Returned(Answered(resp)) =>
        if resp.None? then Closing(Return(None, None), Ok) else Finished(core, w, resp.value)
  }

  function Finished(core: Core, w: World, m: Message): Closing {
    match if core.fga then w.fgaPost else Returned(Same)
    case Panicked => Closing(Panic, Error)
    case Aborted => Closing(Abort, Error)
    case Returned(Refused) => Refusal(PermissionDenied, Error)
    case Returned(Nothing) => Refusal(Internal, Error)
    case Returned(Replaced) => Refusal(Internal, Error)
    case Returned(Same) =>
      match w.sanitise
      case Panicked => Closing(Panic, Error)
      case Aborted => Closing(Abort, Error)
      case Returned(Clean) => Closing(Return(Some(m), None), Ok)
      case Returned(CardGone) => Refusal(NotFound, Denied)
      case Returned(NoPlan) => Refusal(Internal, Error)
      case Returned(CardInvalid) => Refusal(Internal, Error)
  }

  function Come(core: Core, w: World): Closing {
    if Stopped(core, w).Some? then Stopped(core, w).value else Acted(core, w)
  }

  /** Every step that is asked before the tool says yes. */
  ghost predicate Through(core: Core, w: World) {
    && w.principal && w.request && (w.tool.Some? ==> w.visible) && (w.tool.None? ==> w.requestPlan)
    && w.writes == Returned(true) && w.valid == Returned(true)
    && (core.fga ==> w.fgaPre == Returned(true))
    && (core.grants ==> w.grant == Returned(true))
    && (w.tool.Some? && core.availability ==> w.up == Returned(true))
    && (w.tool.Some? && w.tool.value.audit.Audit? && core.sink.Some? ==>
          w.intent == Returned(true) || (w.intent == Returned(false) && !w.tool.value.failClosed))
  }

  /** The tool answers with this message and every step after it lets the message through. */
  ghost predicate Serves(core: Core, w: World, m: Message) {
    && Through(core, w) && w.resolver && w.resolve == Returned(Answered(Some(m)))
    && (core.fga ==> w.fgaPost == Returned(Same)) && w.sanitise == Returned(Clean)
  }

  /** A call is stopped exactly when some step that is asked does not say yes, and a message comes of it exactly when
      every step lets it through; the row says ok exactly when no error comes of it. */
  lemma ComesTo(core: Core, w: World, m: Message)
    ensures Stopped(core, w).None? <==> Through(core, w)
    ensures Come(core, w).end == Return(Some(m), None) <==> Serves(core, w, m)
    ensures Come(core, w).outcome == Ok <==> Come(core, w).end.Return? && Come(core, w).end.err.None?
    ensures Come(core, w).end.Return? && Come(core, w).end.resp.Some? ==> Come(core, w).end.err.None?
  {
  }

  /** A tool the caller may not see and an answer that is a card withheld whole come to the same thing. A tool's own
      refusal is a denial and its failure an error. A panic is an internal error. */
  lemma RefusalsSay(core: Core, w: World)
    ensures w.principal && w.tool.Some? && !w.visible ==> Come(core, w) == Closing(Return(None, Some(NotFound)), Denied)
    ensures Through(core, w) && w.resolver ==>
              && (w.resolve == Returned(RefusedByTool) ==>
                    Come(core, w) == Closing(Return(None, Some(ToolRefusal)), Denied))
              && (w.resolve == Returned(Failed) ==> Come(core, w) == Closing(Return(None, Some(ResolverError)), Error))
              && (w.resolve == Returned(Answered(None)) ==> Come(core, w) == Closing(Return(None, None), Ok))
              && (w.resolve.Panicked? ==> Come(core, w) == Closing(Panic, Error))
    ensures forall m :: Serves(core, w.(sanitise := Returned(Clean)), m) && w.sanitise == Returned(CardGone) ==>
                          Come(core, w) == Closing(Return(None, Some(NotFound)), Denied)
    ensures Come(core, w).end == Panic ==> Answering(Come(core, w).end) == Answer(None, Some(Internal))
  {
  }

  /** What the surface sees of it: a panic is an internal error, an abort is raised. */
  function Answering(end: Ending): Answer {
    match end
    case Return(resp, err) => Answer(resp, err)
    case Panic => Answer(None, Some(Internal))
    case Abort => Raised
  }

  lemma AnswersWhatComes(core: Core, w: World)
    ensures Stopped(core, w).None? <==> Through(core, w)
    ensures var c := Come(core, w);
            && (c.end.Return? || c.outcome == Error)
            && (c.outcome == Ok <==> c.end.Return? && c.end.err.None?)
            && (c.end.Return? && c.end.resp.Some? ==> c.end.err.None?)
    ensures forall m :: Answering(Come(core, w).end) == Answer(Some(m), None) <==> Serves(core, w, m)
  {
    ComesTo(core, w, 0);
    forall m
      ensures Answering(Come(core, w).end) == Answer(Some(m), None) <==> Serves(core, w, m)
    {
      ComesTo(core, w, m);
    }
  }

  /** A body that ends this way, if it ends, with this outcome if it returns. */
  ghost predicate EndsAs(end: Option<Ending>, outcome: Outcome, c: Option<Closing>) {
    && (end.None? <==> c.None?)
    && (end.Some? ==> end.value == c.value.end && (end.value.Return? ==> outcome == c.value.outcome))
  }

  class Call {
    const core: Core
    const w: World
    const id: nat
    var trace: seq<Step>
    var outcome: Outcome

    constructor (core: Core, w: World, id: nat)
      ensures this.core == core && this.w == w && this.id == id && trace == [] && outcome == Denied
    {
      this.core, this.w, this.id := core, w, id;
      trace, outcome := [], Denied;
    }

    method Emit(x: Step)
      requires Before(trace, Rank(x))
      modifies this`trace
      ensures trace == old(trace) + [x] && Before(trace, Rank(x) + 1)
    {
      trace := trace + [x];
    }

    /** One gate: a step that may refuse, panic or abort before anything has happened. */
    method Gate(answer: Did<bool>, passed: Step, err: Err) returns (end: Option<Ending>)
      requires Before(trace, Rank(passed)) && outcome != Ok
      modifies this`trace
      ensures EndsAs(end, outcome, Asked(answer, err, outcome))
      ensures end.None? ==> passed in trace
      ensures Keeps(old(trace), trace) && Before(trace, Rank(passed) + 1)
    {
      match answer {
        case Panicked => return Some(Panic);
        case Aborted => return Some(Abort);
        case Returned(ok) =>
          if !ok {
            return Some(Return(None, Some(err)));
          }
          Emit(passed);
          return None;
      }
    }

    /** Steps 2 to 6 and the audit intent: everything that can refuse a call before its tool does anything. */
    method Gates() returns (end: Option<Ending>)
      requires trace == [] && outcome == Denied
      requires w.tool.Some? ==> Mounts(core, w.tool.value)
      modifies this
      ensures Before(trace, RUN) && outcome != Ok
      ensures EndsAs(end, outcome, Stopped(core, w))
      ensures end.None? ==> GatesPassed(core, w.tool, id, trace)
    {
      end := Admit();
      if end.Some? { return; }
      end := Approve();
      if end.Some? { return; }
      if w.tool.Some? && core.availability {
        end := Gate(w.up, ServiceUp, Unavailable);
        if end.Some? {
          outcome := Error;
          return;
        }
      }
      if w.tool.Some? && w.tool.value.audit.Audit? && core.sink.Some? {
        end := WriteIntent(w.tool.value);
      }
    }

    /** Who is asking, for what, and with what: steps 2 and 3. */
    method Admit() returns (end: Option<Ending>)
      requires trace == [] && outcome == Denied
      modifies this
      ensures Before(trace, 3) && outcome != Ok && (end.None? ==> outcome == Denied)
      ensures EndsAs(end, outcome, NotAdmitted(core, w))
      ensures end.None? ==> WritesOk in trace && InputValid in trace && (w.tool.Some? ==> SawTool in trace)
    {
      if !w.principal {
        return Some(Return(None, Some(Unauthenticated)));
      }
      if w.tool.Some? {
        if !w.visible {
          return Some(Return(None, Some(NotFound)));
        }
        Emit(SawTool);
      }
      if !w.request {
        outcome := Error;
        return Some(Return(None, Some(Internal)));
      }
      if w.tool.None? && !w.requestPlan {
        return Some(Return(None, Some(Unimplemented)));
      }
      end := Gate(w.writes, WritesOk, PermissionDenied);
      if end.Some? { return; }
      end := Gate(w.valid, InputValid, InvalidArgument);
    }

    /** Steps 4 and 5: this instance, and this approval. */
    method Approve() returns (end: Option<Ending>)
      requires Before(trace, 3) && outcome == Denied
      modifies this`trace
      ensures Before(trace, 5) && Keeps(old(trace), trace)
      ensures EndsAs(end, outcome, NotApproved(core, w))
      ensures end.None? ==> (core.fga ==> InstanceOk in trace) && (core.grants ==> GrantOk in trace)
    {
      if core.fga {
        end := Gate(w.fgaPre, InstanceOk, PermissionDenied);
        if end.Some? { return; }
      }
      end := None;
      if core.grants {
        end := Gate(w.grant, GrantOk, GrantRefused);
      }
    }

    /** A write that fails refuses only where the tool asked for that. */
    method WriteIntent(t: Tool) returns (end: Option<Ending>)
      requires Before(trace, Rank(IntentWritten(id))) && outcome != Ok && w.tool == Some(t)
      modifies this
      ensures outcome != Ok && Before(trace, RUN) && Keeps(old(trace), trace)
      ensures EndsAs(end, outcome, NotIntended(w))
      ensures end.None? && t.failClosed ==> IntentWritten(id) in trace
    {
      match w.intent {
        case Panicked => return Some(Panic);
        case Aborted => return Some(Abort);
        case Returned(ok) =>
          if ok {
            Emit(IntentWritten(id));
          } else if t.failClosed {
            outcome := Denied;
            return Some(Return(None, Some(Unavailable)));
          }
          return None;
      }
    }

    /** The resolver, and what is done to its answer before anyone sees it. */
    method Act() returns (end: Ending)
      requires Before(trace, RUN) && outcome != Ok
      modifies this
      ensures old(trace) <= trace && Before(trace, CLOSE)
      ensures w.resolver ==> |trace| > |old(trace)| && trace[|old(trace)|] == Ran(id)
      ensures !w.resolver ==> trace == old(trace)
      ensures EndsAs(Some(end), outcome, Some(Acted(core, w)))
      ensures end.Return? && end.resp.Some? ==>
                && |trace| > 0 && trace[|trace| - 1] == SanitisedStep(end.resp.value)
                && (core.fga ==> PostChecked in trace)
    {
      if !w.resolver {
        outcome := Error;
        return Return(None, Some(Unimplemented));
      }
      Emit(Ran(id));
      match w.resolve {
        case Panicked => return Panic;
        case Aborted => return Abort;
        case Returned(RefusedByTool) =>
          outcome := Denied;
          return Return(None, Some(ToolRefusal));
        case Returned(Failed) =>
          outcome := Error;
          return Return(None, Some(ResolverError));
        case Returned(Answered(resp)) =>
          if resp.None? {
            outcome := Ok;
            return Return(None, None);
          }
          end := Finish(resp.value);
      }
    }

    method Finish(m: Message) returns (end: Ending)
      requires Before(trace, RUN + 1)
      modifies this
      ensures old(trace) <= trace && Before(trace, CLOSE)
      ensures EndsAs(Some(end), outcome, Some(Finished(core, w, m)))
      ensures end.Return? && end.resp.Some? ==>
                && end.resp.value == m && |trace| > 0 && trace[|trace| - 1] == SanitisedStep(m)
                && (core.fga ==> PostChecked in trace)
    {
      if core.fga {
        match w.fgaPost {
          case Panicked => return Panic;
          case Aborted => return Abort;
          case Returned(post) =>
            if !post.Same? {
              outcome := Error;
              return Return(None, Some(if post.Refused? then PermissionDenied else Internal));
            }
            Emit(PostChecked);
        }
      }
      match w.sanitise {
        case Panicked => return Panic;
        case Aborted => return Abort;
        case Returned(CardGone) =>
          outcome := Denied;
          return Return(None, Some(NotFound));
        case Returned(Clean) =>
          Emit(SanitisedStep(m));
          outcome := Ok;
          return Return(Some(m), None);
        case Returned(_) =>
          outcome := Error;
          return Return(None, Some(Internal));
      }
    }

    /** The whole call. Whatever the body did, closing it writes the one row, then the audit row
        under the same id; only an abort, or an audit sink that panics, is raised to the surface. */
    method Invoke() returns (answer: Answer)
      requires trace == [] && outcome == Denied
      requires w.tool.Some? ==> Mounts(core, w.tool.value)
      modifies this
      ensures InOrder(trace) && Recorded(id, outcome, trace)
      ensures answer.Answer? ==> (answer.err.None? <==> outcome == Ok)
      ensures answer.Raised? && outcome == Ok ==> w.auditPanics
      ensures answer.Answer? && answer.resp.Some? ==>
                SanitisedStep(answer.resp.value) in trace && (core.fga ==> PostChecked in trace)
      ensures RunsBehindGates(core, w.tool, id, trace)
      ensures Ran(id) in trace <==> Through(core, w) && w.resolver
      ensures outcome == Come(core, w).outcome
      ensures answer == if Audited(core, w) && w.auditPanics then Raised else Answering(Come(core, w).end)
      ensures forall m :: answer == Answer(Some(m), None) <==>
                            Serves(core, w, m) && !(Audited(core, w) && w.auditPanics)
      ensures w.principal && w.tool.Some? && w.tool.value.audit.Audit? ==> AuditRow(id, outcome) in trace
      ensures w.tool.Some? && w.tool.value.approval.Notify? && !w.recorderPanics ==> Notified in trace
      ensures (Notified in trace <==> core.notifier && !w.recorderPanics)
              && (AuditRow(id, outcome) in trace <==> Audited(core, w))
    {
      var end := Body();
      AnswersWhatComes(core, w);
      answer := Settle(end, Come(core, w));
    }

    /** Closing a call that came to `c`, panics included. */
    method Settle(end: Ending, ghost c: Closing) returns (answer: Answer)
      requires EndsAs(Some(end), outcome, Some(c)) && (c.end.Return? || c.outcome == Error)
      requires Before(trace, CLOSE) && RunsBehindGates(core, w.tool, id, trace)
      modifies this
      ensures outcome == c.outcome
      ensures answer == if Audited(core, w) && w.auditPanics then Raised else Answering(c.end)
      ensures InOrder(trace) && Recorded(id, outcome, trace) && RunsBehindGates(core, w.tool, id, trace)
      ensures Keeps(old(trace), trace) && (Ran(id) in trace <==> Ran(id) in old(trace))
      ensures Notified in trace <==> core.notifier && !w.recorderPanics
      ensures AuditRow(id, outcome) in trace <==> Audited(core, w)
    {
      if !end.Return? {
        outcome := Error;
      }
      ghost var body := trace;
      var audited := w.principal && w.tool.Some? && w.tool.value.audit.Audit? && core.sink.Some?;
      Close(audited);
      CloseRecords(core, w.tool, id, outcome, body, core.notifier && !w.recorderPanics, audited);
      RowsSay(id, outcome, body, core.notifier && !w.recorderPanics, audited);
      return if audited && w.auditPanics then Raised else Answering(end);
    }

    /** Steps 9 and 10. The recorder is called, once, whether or not it then panics; a panic of its own keeps the
        notifier from being called and changes nothing else. */
    method Close(audited: bool)
      requires Before(trace, CLOSE)
      modifies this`trace
      ensures trace == old(trace) + Rows(id, outcome, core.notifier && !w.recorderPanics, audited) && InOrder(trace)
    {
      Emit(Row(id, outcome));
      if core.notifier && !w.recorderPanics {
        Emit(Notified);
      }
      if audited {
        Emit(AuditRow(id, outcome));
      }
    }

    method Body() returns (end: Ending)
      requires trace == [] && outcome == Denied
      requires w.tool.Some? ==> Mounts(core, w.tool.value)
      modifies this
      ensures Before(trace, CLOSE)
      ensures EndsAs(Some(end), outcome, Some(Come(core, w)))
      ensures Ran(id) in trace <==> Stopped(core, w).None? && w.resolver
      ensures end.Return? && end.resp.Some? ==>
                SanitisedStep(end.resp.value) in trace && (core.fga ==> PostChecked in trace)
      ensures RunsBehindGates(core, w.tool, id, trace)
    {
      var refused := Gates();
      if refused.Some? {
        return refused.value;
      }
      ghost var k := |trace|;
      ghost var before := trace;
      end := Act();
      if w.resolver {
        assert trace[..k] == before;
        assert forall i | 0 <= i < |trace| && trace[i].Ran? :: i == k;
      }
    }
  }

  /** Wherever the resolver runs, it is this call's and its gates are behind it. */
  ghost predicate RunsBehindGates(core: Core, tool: Option<Tool>, id: nat, trace: seq<Step>) {
    forall k | 0 <= k < |trace| && trace[k].Ran? :: trace[k] == Ran(id) && GatesPassed(core, tool, id, trace[..k])
  }

  /** What closing a call leaves. */
  function Rows(id: nat, outcome: Outcome, notified: bool, audited: bool): seq<Step> {
    [Row(id, outcome)] + (if notified then [Notified] else []) + if audited then [AuditRow(id, outcome)] else []
  }

  lemma CloseRecords(
      core: Core, tool: Option<Tool>, id: nat, outcome: Outcome, body: seq<Step>, notified: bool, audited: bool)
    requires RunsBehindGates(core, tool, id, body) && Before(body, CLOSE)
    ensures var trace := body + Rows(id, outcome, notified, audited);
            RunsBehindGates(core, tool, id, trace) && Recorded(id, outcome, trace)
  {
    var rows := Rows(id, outcome, notified, audited);
    var trace := body + rows;
    assert rows[0] == Row(id, outcome);
    assert forall x | x in rows :: !x.Ran? && (x.AuditRow? ==> x == AuditRow(id, outcome));
    forall k | 0 <= k < |trace| && trace[k].Ran?
      ensures trace[k] == Ran(id) && GatesPassed(core, tool, id, trace[..k])
    {
      assert trace[k] in rows || k < |body|;
      assert trace[..k] == body[..k];
    }
  }

  lemma RowsSay(id: nat, outcome: Outcome, body: seq<Step>, notified: bool, audited: bool)
    requires Before(body, CLOSE)
    ensures var trace := body + Rows(id, outcome, notified, audited);
            && Keeps(body, trace) && (Ran(id) in trace <==> Ran(id) in body)
            && (Notified in trace <==> notified) && (AuditRow(id, outcome) in trace <==> audited)
  {
    var rows := Rows(id, outcome, notified, audited);
    assert (notified ==> rows[1] == Notified) && (audited ==> rows[|rows| - 1] == AuditRow(id, outcome));
    assert forall x | x in body :: Rank(x) < CLOSE;
  }

  /** The row is there under this id with this outcome, and the audit row agrees with it. In order, there is
      no second of either, and the audit row comes last. */
  ghost predicate Recorded(id: nat, outcome: Outcome, trace: seq<Step>) {
    Row(id, outcome) in trace && forall x | x in trace && x.AuditRow? :: x == AuditRow(id, outcome)
  }
}
