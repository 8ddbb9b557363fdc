/**
 * The byte codes of the diagnostics IPC protocol header: the command set and,
 * within each set, the command id; and the server's response ids. A request
 * is identified by the pair (command set, command id), so ids may repeat
 * across sets, but the server set's command ids must not overlap its
 * response ids.
 */
module IpcCommands {
  import opened Common

  /** A byte on the wire. */
  type Byte = x: nat | x < 0x100

  /** DiagnosticsServerCommandSet. */
  datatype CommandSet = DumpSet | EventPipeSet | ProfilerSet | ServerSet

  function CommandSetCode(c: CommandSet): Byte {
    match c
    case DumpSet => 0x01
    case EventPipeSet => 0x02
    case ProfilerSet => 0x03
    case ServerSet => 0xFF
  }

  /** Reads a command-set byte; unknown bytes are rejected. */
  function ParseCommandSet(b: Byte): (r: Option<CommandSet>)
    ensures r.Some? <==> b in {0x01, 0x02, 0x03, 0xFF}
    ensures r.Some? ==> CommandSetCode(r.value) == b
  {
    if b == 0x01 then Some(DumpSet)
    else if b == 0x02 then Some(EventPipeSet)
    else if b == 0x03 then Some(ProfilerSet)
    else if b == 0xFF then Some(ServerSet)
    else None
  }

  /** The command-set codes are pairwise distinct, and each reads back as itself. */
  lemma CommandSetCodes(c1: CommandSet, c2: CommandSet)
    ensures ParseCommandSet(CommandSetCode(c1)) == Some(c1)
    ensures CommandSetCode(c1) == CommandSetCode(c2) ==> c1 == c2
  {
  }

  /** DiagnosticsServerCommandId. */
  datatype ServerCommandId = ResumeRuntime

  /** DiagnosticsServerResponseId. */
  datatype ServerResponseId = OK | Error

  function ServerCommandCode(c: ServerCommandId): Byte {
    match c
    case ResumeRuntime => 0x01
  }

  function ServerResponseCode(r: ServerResponseId): Byte {
    match r
    case OK => 0x00
    case Error => 0xFF
  }

  /** Reads a response byte; unknown bytes are rejected. */
  function ParseServerResponse(b: Byte): (r: Option<ServerResponseId>)
    ensures r.Some? <==> b in {0x00, 0xFF}
    ensures r.Some? ==> ServerResponseCode(r.value) == b
  {
    if b == 0x00 then Some(OK) else if b == 0xFF then Some(Error) else None
  }

  /** The non-overlap rule: no server command id is also a response id, so a
      response byte can never be read as a command and vice versa. */
  lemma ServerIdsDisjoint(c: ServerCommandId, r: ServerResponseId)
    ensures ServerCommandCode(c) != ServerResponseCode(r)
    ensures ParseServerResponse(ServerCommandCode(c)).None?
    ensures ParseServerResponse(ServerResponseCode(r)) == Some(r)
  {
  }

  /** EventPipeCommandId. */
  datatype EventPipeCommandId = StopTracing | CollectTracing | CollectTracing2

  function EventPipeCommandCode(c: EventPipeCommandId): Byte {
    match c
    case StopTracing => 0x01
    case CollectTracing => 0x02
    case CollectTracing2 => 0x03
  }

  /** DumpCommandId. */
  datatype DumpCommandId = GenerateCoreDump

  /** ProfilerCommandId. */
  datatype ProfilerCommandId = AttachProfiler

  function DumpCommandCode(c: DumpCommandId): Byte {
    match c
    case GenerateCoreDump => 0x01
  }

  function ProfilerCommandCode(c: ProfilerCommandId): Byte {
    match c
    case AttachProfiler => 0x01
  }

  /** A request command: its set together with its id within the set. */
  datatype Command =
    | Dump(dump: DumpCommandId)
    | EventPipe(eventPipe: EventPipeCommandId)
    | Profiler(profiler: ProfilerCommandId)
    | Server(server: ServerCommandId)

  function SetOf(c: Command): CommandSet {
    match c
    case Dump(_) => DumpSet
    case EventPipe(_) => EventPipeSet
    case Profiler(_) => ProfilerSet
    case Server(_) => ServerSet
  }

  function IdCode(c: Command): Byte {
    match c
    case Dump(d) => DumpCommandCode(d)
    case EventPipe(e) => EventPipeCommandCode(e)
    case Profiler(p) => ProfilerCommandCode(p)
    case Server(s) => ServerCommandCode(s)
  }

  /** The two header bytes that name a command. */
  function Header(c: Command): (h: (Byte, Byte))
    ensures h.0 == CommandSetCode(SetOf(c)) && h.1 == IdCode(c)
  {
    (CommandSetCode(SetOf(c)), IdCode(c))
  }

  /** Reads the command named by a header; a pair naming no command is rejected. */
  function ParseHeader(setCode: Byte, id: Byte): (r: Option<Command>)
    ensures r.Some? ==> Header(r.value) == (setCode, id)
  {
    match ParseCommandSet(setCode)
    case None => None
    case Some(DumpSet) => if id == 0x01 then Some(Dump(GenerateCoreDump)) else None
    case Some(EventPipeSet) =>
      if id == 0x01 then Some(EventPipe(StopTracing))
      else if id == 0x02 then Some(EventPipe(CollectTracing))
      else if id == 0x03 then Some(EventPipe(CollectTracing2))
      else None
    case Some(ProfilerSet) => if id == 0x01 then Some(Profiler(AttachProfiler)) else None
    case Some(ServerSet) => if id == 0x01 then Some(Server(ResumeRuntime)) else None
  }

  /** Every command's header reads back as that command, so the header is
      injective although ids repeat across sets. */
  lemma HeaderRoundTrip(c: Command)
    ensures ParseHeader(Header(c).0, Header(c).1) == Some(c)
  {
    match c {
      case Dump(d) =>
        assert d == GenerateCoreDump && ParseCommandSet(0x01) == Some(DumpSet);
      case EventPipe(e) =>
        assert ParseCommandSet(0x02) == Some(EventPipeSet);
      case Profiler(p) =>
        assert p == AttachProfiler && ParseCommandSet(0x03) == Some(ProfilerSet);
      case Server(s) =>
        assert s == ResumeRuntime && ParseCommandSet(0xFF) == Some(ServerSet);
    }
  }

  lemma HeaderInjective(c1: Command, c2: Command)
    ensures Header(c1) == Header(c2) ==> c1 == c2
  {
    HeaderRoundTrip(c1);
    HeaderRoundTrip(c2);
  }

  /** Within EventPipe the ids are pairwise distinct. */
  lemma EventPipeIdsDistinct(a: EventPipeCommandId, b: EventPipeCommandId)
    ensures EventPipeCommandCode(a) == EventPipeCommandCode(b) ==> a == b
  {
  }

  /** GenerateCoreDump and AttachProfiler share the id 0x01; only the command
      set tells them apart. */
  lemma DumpAndProfilerShareId()
    ensures DumpCommandCode(GenerateCoreDump) == ProfilerCommandCode(AttachProfiler)
    ensures Header(Dump(GenerateCoreDump)) != Header(Profiler(AttachProfiler))
  {
  }
}
