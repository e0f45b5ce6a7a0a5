/** The agent loop as a machine whose every step writes at most one log line, with crashes after any line,
    resumption from the log, and fresh starts on a log that may have lines already.  Model replies, tool
    behaviour, permissions, interruptions and the turn counter a resume is given are arbitrary: each is an event. */
module AgentLoop {
  import opened Common
  import opened Compaction
  import opened Rollout

  datatype Phase =
    | Boot                                    // writing the task and its context
    | Repair(open: OpenTurn)                  // resumed; the interrupted turn's result is due
    | RepairRecord(repaired: nat)
    | Between                                 // at a turn boundary
    | TurnOpen                                // steering and the compaction gate are ahead
    | SteerRecord
    | Gated                                   // the model call is ahead
    | CompactRecord(overflow: bool)
    | Doomed                                  // overflow or a step timeout: only the end is left
    | FinishChosen
    | Chosen(tool: string)                    // a tool action is logged, not yet admitted
    | Running(id: ActionId)                   // the started marker is logged
    | Invoked(id: ActionId)                   // the tool has been called
    | CommitDue(id: ActionId, result: Entry)  // a successful effect awaits its ledger line
    | Closing(tool: string)                   // the finished marker is due
    | RecordDue

  datatype Memory = Memory(transcript: seq<Entry>, effects: map<ActionId, Entry>, turn: nat, phase: Phase)

  /** A tool call, with the length of the log when it was made. */
  datatype Call = Call(turn: nat, id: ActionId, at: nat)

  datatype Session = Session(log: seq<Line>, mem: Option<Memory>, calls: seq<Call>)

  datatype Event =
    | Begin
    | AddContext(name: string, data: string)
    | WriteMeta
    | Crash
    | Resume(priorTurns: nat)
    | WriteRepair(note: string)
    | WriteRecord
    | End
    | NextTurn
    | SteerIn(text: string)
    | RunGate(summary: string)
    | InvalidReply(message: string)
    | ChooseFinish
    | RejectFinish(message: string)
    | ChooseTool(tool: string, args: string)
    | UnknownTool(message: string)
    | Refuse(reason: string)
    | Deduplicate(id: ActionId)
    | StartTool(id: ActionId)
    | Invoke
    | Hang(reason: string)
    | Return(ok: bool, payload: string, truncated: bool, spilledTo: Option<string>, untrusted: bool)
    | Commit
    | FinishTool

  const EMPTY := Session([], None, [])

  function LineTurn(line: Line): nat {
    match line
    case Item(e) => if e.UseTool? || e.FinishAction? || e.ToolResult? || e.ErrorNote? then e.turn else 0
    case Started(t, _) => t
    case Finished(t, _) => t
    case TurnRecord(t) => t
    case _ => 0
  }

  /** The counter is at least as high as every turn number in the log. */
  predicate CounterOk(log: seq<Line>, counter: nat) { forall i :: 0 <= i < |log| ==> LineTurn(log[i]) <= counter }

  function Plain(turn: nat, tool: string, payload: string): Entry {
    ToolResult(turn, tool, false, payload, false, None, None, None, false)
  }

  /** The entry that replays an earlier success. */
  function ReplayEntry(turn: nat, tool: string, id: ActionId, prior: Entry): Entry
    requires prior.ToolResult?
  {
    ToolResult(turn, tool, true, prior.payload, prior.truncated, Some(id), Some(prior.turn), prior.spilledTo, prior.untrusted)
  }

  predicate Enabled(cfg: Config, s: Session, ev: Event) {
    if s.mem.None? then
      match ev
      case Begin => true
      case Resume(_) => s.log != []
      case _ => false
    else
      var phase := s.mem.value.phase;
      match ev
      case Crash => true
      case End => true
      case AddContext(_, _) => phase.Boot?
      case WriteMeta => phase.Boot?
      case WriteRepair(_) => phase.Repair?
      case WriteRecord => phase.RepairRecord? || phase.SteerRecord? || phase.CompactRecord? || phase.RecordDue? || phase.FinishChosen?
                          || phase.Gated?
      case NextTurn => phase.Between?
      case SteerIn(_) => phase.TurnOpen?
      case RunGate(summary) => phase.TurnOpen? && summary != "" && cfg.keepLast >= 1
      case InvalidReply(_) => phase.Gated?
      case ChooseFinish => phase.Gated?
      case RejectFinish(_) => phase.FinishChosen?
      case ChooseTool(_, _) => phase.Gated?
      case UnknownTool(_) => phase.Chosen?
      case Refuse(_) => phase.Chosen?
      case Deduplicate(id) => phase.Chosen? && id.tool == phase.tool && Effectful(id) && id in s.mem.value.effects && s.mem.value.effects[id].ToolResult?
      case StartTool(id) => phase.Chosen? && id.tool == phase.tool && !(Effectful(id) && id in s.mem.value.effects)
      case Invoke => phase.Running?
      case Hang(_) => phase.Invoked?
      case Return(_, _, _, _, _) => phase.Invoked?
      case Commit => phase.CommitDue?
      case FinishTool => phase.Closing?
      case _ => false
  }

  /** Append a line that is also pushed onto the transcript. */
  function Push(s: Session, m: Memory, e: Entry, phase: Phase): Session {
    Session(s.log + [Item(e)], Some(m.(transcript := m.transcript + [e], phase := phase)), s.calls)
  }

  /** Append a line that is not. */
  function Note(s: Session, m: Memory, line: Line, phase: Phase): Session {
    Session(s.log + [line], Some(m.(phase := phase)), s.calls)
  }

  function Step(cfg: Config, s: Session, ev: Event): Session
    requires Enabled(cfg, s, ev)
  {
    if ev.Begin? then
      Session(s.log + [Item(Task(cfg.task))], Some(Memory([Task(cfg.task)], map[], 0, Boot)), s.calls)
    else if ev.Resume? then
      var r := Reconstruct(s.log);
      Session(s.log + [Resumed(ev.priorTurns)],
              Some(Memory(r.transcript, AddResults(r.effects, r.transcript), ev.priorTurns,
                          if r.open.Some? then Repair(r.open.value) else Between)),
              s.calls)
    else
      var m := s.mem.value;
      var phase := m.phase;
      match ev
      case Crash => s.(mem := None)
      case End => Session(s.log + [SessionEnd], None, s.calls)
      case AddContext(name, data) => Push(s, m, Context(name, data), Boot)
      case WriteMeta => Note(s, m, Meta(cfg.task), Between)
      case WriteRepair(note) => Push(s, m, Plain(phase.open.turn, phase.open.tool, note), RepairRecord(phase.open.turn))
      case WriteRecord =>
        (match phase
         case RepairRecord(turn) => Note(s, m, TurnRecord(turn), Between)
         case SteerRecord => Note(s, m, TurnRecord(m.turn), TurnOpen)
         case CompactRecord(overflow) => Note(s, m, TurnRecord(m.turn), if overflow then Doomed else Gated)
         case Gated => Note(s, m, TurnRecord(m.turn), Doomed)
         case _ => Note(s, m, TurnRecord(m.turn), Between))
      case NextTurn => s.(mem := Some(m.(turn := m.turn + 1, phase := TurnOpen)))
      case SteerIn(text) => Push(s, m, Steer(text), SteerRecord)
      case RunGate(summary) =>
        (match Gate(cfg, m.transcript, summary)
         case Unchanged => s.(mem := Some(m.(phase := Gated)))
         case Summarised(tr) => s.(mem := Some(m.(transcript := tr, phase := Gated)))
         case Condensed(tr, logged, kept, overflow) =>
           Session(s.log + [Compacted(logged, kept)], Some(m.(transcript := tr, phase := CompactRecord(overflow))), s.calls))
      case InvalidReply(message) => Push(s, m, ErrorNote(m.turn, message), RecordDue)
      case ChooseFinish => Push(s, m, FinishAction(m.turn), FinishChosen)
      case RejectFinish(message) => Push(s, m, ErrorNote(m.turn, message), RecordDue)
      case ChooseTool(tool, args) => Push(s, m, UseTool(m.turn, tool, args), Chosen(tool))
      case UnknownTool(message) => Push(s, m, ErrorNote(m.turn, message), RecordDue)
      case Refuse(reason) => Push(s, m, Plain(m.turn, phase.tool, reason), RecordDue)
      case Deduplicate(id) => Push(s, m, ReplayEntry(m.turn, phase.tool, id, m.effects[id]), RecordDue)
      case StartTool(id) => Note(s, m, Started(m.turn, id.tool), Running(id))
      case Invoke => Session(s.log, Some(m.(phase := Invoked(phase.id))), s.calls + [Call(m.turn, phase.id, |s.log|)])
      case Hang(reason) => Push(s, m, Plain(m.turn, phase.id.tool, reason), RecordDue)
      case Return(ok, payload, truncated, spilledTo, untrusted) =>
        var e := ToolResult(m.turn, phase.id.tool, ok, payload, truncated, Some(phase.id), None, spilledTo, untrusted);
        Push(s, m, e, if ok && Effectful(phase.id) then CommitDue(phase.id, e) else Closing(phase.id.tool))
      case Commit =>
        Note(s, m.(effects := m.effects[phase.id := phase.result]), EffectCommitted(phase.result), Closing(phase.id.tool))
      case FinishTool => Note(s, m, Finished(m.turn, phase.tool), RecordDue)
  }

  /** Disabled events are passed over, so every sequence of events is a run. */
  function Run(cfg: Config, evs: seq<Event>): Session {
    if evs == [] then EMPTY
    else
      var s := Run(cfg, evs[..|evs| - 1]);
      if Enabled(cfg, s, evs[|evs| - 1]) then Step(cfg, s, evs[|evs| - 1]) else s
  }
}
