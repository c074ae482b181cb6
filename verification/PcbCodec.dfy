/** The PCB on the wire: an instruction code with its own parameters, the numbers, the name, the registers and the
    open files. */
module PcbCodec {
  import opened Bytes
  import opened Wire

  type OtherCode = c: int | 13 < c < 0x1_0000_0000 witness 14

  /** The reason and its params; the codes are those of the enum, and a code outside it carries nothing. */
  datatype Instruction =
    | Normal | Finish
    | Signal(resource: Text) | Wait(resource: Text)
    | Sleep(time: Int32)
    | Interrupted | InterruptFinish
    | FOpen(file: Text, mode: Text)
    | PageFault(page: Int32)
    | FClose(file: Text)
    | FSeek(file: Text, value: Int32)
    | FRead(file: Text, target: Page) | FWrite(file: Text, target: Page)
    | FTruncate(file: Text, value: Int32)
    | Unknown(code: OtherCode)

  datatype Header = Header(pid: Word, size: Word, programCounter: Word, priority: Word)

  datatype Registers = Registers(ax: Word, bx: Word, cx: Word, dx: Word)

  datatype OpenFile = OpenFile(file: Text, seek: Int32)

  datatype Pcb = Pcb(
    endState: Word, instruction: Instruction, header: Header, name: Text, registers: Registers, state: Word,
    openFiles: seq<OpenFile>)

  function Code(i: Instruction): Word {
    match i
    case Normal => 0
    case Finish => 1
    case Signal(_) => 2
    case Wait(_) => 3
    case Sleep(_) => 4
    case Interrupted => 5
    case InterruptFinish => 6
    case FOpen(_, _) => 7
    case PageFault(_) => 8
    case FClose(_) => 9
    case FSeek(_, _) => 10
    case FRead(_, _) => 11
    case FWrite(_, _) => 12
    case FTruncate(_, _) => 13
    case Unknown(code) => code
  }

  // ----- the separately computed sizes

  function FOpenSize(file: Text, mode: Text): nat {
    (|file| + 1) + (|mode| + 1) + 8
  }

  function FChangeSize(file: Text): nat {
    (|file| + 1) + 8
  }

  function FModifySize(file: Text): nat {
    PAGE_SIZE + (|file| + 1) + 4
  }

  /** The instructions whose parameters go through a buffer of their own. */
  predicate OnFile(i: Instruction) {
    i.FOpen? || i.FSeek? || i.FTruncate? || i.FWrite? || i.FRead?
  }

  function ContentSize(i: Instruction): nat
    requires OnFile(i)
  {
    match i
    case FOpen(file, mode) => FOpenSize(file, mode)
    case FSeek(file, _) => FChangeSize(file)
    case FTruncate(file, _) => FChangeSize(file)
    case FWrite(file, _) => FModifySize(file)
    case FRead(file, _) => FModifySize(file)
  }

  function InstructionSize(i: Instruction): nat {
    if OnFile(i) then ContentSize(i) + 4 else
    match i
    case Wait(t) => |t| + 1 + 4
    case Signal(t) => |t| + 1 + 4
    case FClose(t) => |t| + 1 + 4
    case PageFault(_) => 4
    case Sleep(_) => 4
    case _ => 0
  }

  function OpenFileSize(o: OpenFile): nat {
    (|o.file| + 1) + 8
  }

  function OpenFilesSize(files: seq<OpenFile>): nat {
    if files == [] then 0 else OpenFileSize(files[0]) + OpenFilesSize(files[1..])
  }

  /** serialized_pcb_size. */
  function PcbSize(p: Pcb): nat {
    9 * 4 + (|p.name| + 1) + 2 * 4 + InstructionSize(p.instruction) + (4 + OpenFilesSize(p.openFiles))
  }

  /** The size, which is an int, does not overflow. */
  predicate Fits(p: Pcb) {
    PcbSize(p) < INT_LIMIT
  }

  // ----- printing

  /** serialize_fopen, serialize_fchange and serialize_fmodify. */
  function Content(i: Instruction): seq<Byte>
    requires OnFile(i)
  {
    match i
    case FOpen(file, mode) => PutText(file, PutText(mode, []))
    case FSeek(file, value) => PutText(file, PutInt(value, []))
    case FTruncate(file, value) => PutText(file, PutInt(value, []))
    case FWrite(file, target) => PutText(file, PutPage(target, []))
    case FRead(file, target) => PutText(file, PutPage(target, []))
  }

  /** A declared size and then the bytes. */
  function PutSized(size: Word, content: seq<Byte>, rest: seq<Byte>): seq<Byte> {
    PutWord(size, content + rest)
  }

  function PutParams(i: Instruction, rest: seq<Byte>): seq<Byte>
    requires InstructionSize(i) < INT_LIMIT
  {
    if OnFile(i) then PutSized(ContentSize(i), Content(i), rest) else
    match i
    case Wait(t) => PutText(t, rest)
    case Signal(t) => PutText(t, rest)
    case FClose(t) => PutText(t, rest)
    case PageFault(page) => PutInt(page, rest)
    case Sleep(time) => PutInt(time, rest)
    case _ => rest
  }

  function PutInstruction(i: Instruction, rest: seq<Byte>): seq<Byte>
    requires InstructionSize(i) < INT_LIMIT
  {
    PutWord(Code(i), PutParams(i, rest))
  }

  function PutHeader(h: Header, rest: seq<Byte>): seq<Byte> {
    PutWord(h.pid, PutWord(h.size, PutWord(h.programCounter, PutWord(h.priority, rest))))
  }

  function PutRegisters(r: Registers, rest: seq<Byte>): seq<Byte> {
    PutWord(r.ax, PutWord(r.bx, PutWord(r.cx, PutWord(r.dx, rest))))
  }

  /** serialize_open_file. */
  function PutFile(o: OpenFile, rest: seq<Byte>): seq<Byte> {
    PutText(o.file, PutInt(o.seek, rest))
  }

  function PutFiles(files: seq<OpenFile>, rest: seq<Byte>): seq<Byte> {
    if files == [] then rest else PutFile(files[0], PutFiles(files[1..], rest))
  }

  function PutTail(state: Word, files: seq<OpenFile>, rest: seq<Byte>): seq<Byte>
    requires |files| < INT_LIMIT
  {
    PutWord(state, PutWord(|files|, PutFiles(files, rest)))
  }

  lemma {:induction false} FilesAreBounded(files: seq<OpenFile>)
    ensures |files| <= OpenFilesSize(files)
  {
    if files != [] {
      FilesAreBounded(files[1..]);
    }
  }

  /** serialize_pcb, in front of what follows. */
  function PutPcb(p: Pcb, rest: seq<Byte>): seq<Byte>
    requires Fits(p)
  {
    FilesAreBounded(p.openFiles);
    PutInstruction(p.instruction, PutHeader(p.header,
      PutText(p.name, PutRegisters(p.registers, PutTail(p.state, p.openFiles, rest)))))
  }

  // ----- parsing

  function ReadFOpen(b: seq<Byte>): Option<Instruction> {
    match ReadText(b)
    case None => None
    case Some(Read(file, b1)) =>
    match ReadText(b1)
    case None => None
    case Some(Read(mode, _)) => Some(FOpen(file, mode))
  }

  function ReadFChange(b: seq<Byte>, truncate: bool): Option<Instruction> {
    match ReadText(b)
    case None => None
    case Some(Read(file, b1)) =>
    match ReadInt(b1)
    case None => None
    case Some(Read(value, _)) => Some(if truncate then FTruncate(file, value) else FSeek(file, value))
  }

  function ReadFModify(b: seq<Byte>, write: bool): Option<Instruction> {
    match ReadText(b)
    case None => None
    case Some(Read(file, b1)) =>
    match ReadPage(b1)
    case None => None
    case Some(Read(target, _)) => Some(if write then FWrite(file, target) else FRead(file, target))
  }

  function ReadContent(code: Word, content: seq<Byte>): Option<Instruction> {
    if code == 7 then ReadFOpen(content)
    else if code == 10 || code == 13 then ReadFChange(content, code == 13)
    else ReadFModify(content, code == 12)
  }

  /** The parameters of a file instruction are copied to a buffer of the declared size and parsed from there. */
  function ReadSized(code: Word, b: seq<Byte>): Option<Read<Instruction>> {
    match ReadCounted(b)
    case None => None
    case Some(Read(content, rest)) =>
    match ReadContent(code, content)
    case None => None
    case Some(i) => Some(Read(i, rest))
  }

  function ReadNamed(code: Word, b: seq<Byte>): Option<Read<Instruction>> {
    match ReadText(b)
    case None => None
    case Some(Read(t, rest)) =>
      Some(Read(if code == 2 then Signal(t) else if code == 3 then Wait(t) else FClose(t), rest))
  }

  function ReadNumbered(code: Word, b: seq<Byte>): Option<Read<Instruction>> {
    match ReadInt(b)
    case None => None
    case Some(Read(n, rest)) => Some(Read(if code == 4 then Sleep(n) else PageFault(n), rest))
  }

  function ReadParams(code: Word, b: seq<Byte>): Option<Read<Instruction>> {
    if code == 0 then Some(Read(Normal, b))
    else if code == 1 then Some(Read(Finish, b))
    else if code == 5 then Some(Read(Interrupted, b))
    else if code == 6 then Some(Read(InterruptFinish, b))
    else if code > 13 then Some(Read(Unknown(code), b))
    else if code == 2 || code == 3 || code == 9 then ReadNamed(code, b)
    else if code == 4 || code == 8 then ReadNumbered(code, b)
    else ReadSized(code, b)
  }

  function ReadInstruction(b: seq<Byte>): Option<Read<Instruction>> {
    match ReadWord(b)
    case None => None
    case Some(Read(code, rest)) => ReadParams(code, rest)
  }

  function ReadFour(b: seq<Byte>): Option<Read<Registers>> {
    match ReadWord(b)
    case None => None
    case Some(Read(w, b1)) =>
    match ReadWord(b1)
    case None => None
    case Some(Read(x, b2)) =>
    match ReadWord(b2)
    case None => None
    case Some(Read(y, b3)) =>
    match ReadWord(b3)
    case None => None
    case Some(Read(z, rest)) => Some(Read(Registers(w, x, y, z), rest))
  }

  function ReadFile(b: seq<Byte>): Option<Read<OpenFile>> {
    match ReadText(b)
    case None => None
    case Some(Read(file, b1)) =>
    match ReadInt(b1)
    case None => None
    case Some(Read(seek, rest)) => Some(Read(OpenFile(file, seek), rest))
  }

  function ReadFiles(n: nat, b: seq<Byte>): Option<Read<seq<OpenFile>>> {
    if n == 0 then Some(Read([], b))
    else
      match ReadFile(b)
      case None => None
      case Some(Read(o, b1)) =>
      match ReadFiles(n - 1, b1)
      case None => None
      case Some(Read(files, rest)) => Some(Read([o] + files, rest))
  }

  datatype Tail = Tail(state: Word, files: seq<OpenFile>)

  function ReadTail(b: seq<Byte>): Option<Read<Tail>> {
    match ReadWord(b)
    case None => None
    case Some(Read(state, b1)) =>
    match ReadWord(b1)
    case None => None
    case Some(Read(n, b2)) =>
    match ReadFiles(if n < INT_LIMIT then n else 0, b2)
    case None => None
    case Some(Read(files, rest)) => Some(Read(Tail(state, files), rest))
  }

  /** deserialize_pcb: the end state starts over. */
  function ReadPcb(b: seq<Byte>): Option<Read<Pcb>> {
    match ReadInstruction(b)
    case None => None
    case Some(Read(i, b1)) =>
    match ReadFour(b1)
    case None => None
    case Some(Read(h, b2)) =>
    match ReadText(b2)
    case None => None
    case Some(Read(name, b3)) =>
    match ReadFour(b3)
    case None => None
    case Some(Read(registers, b4)) =>
    match ReadTail(b4)
    case None => None
    case Some(Read(tail, rest)) =>
      Some(Read(Pcb(0, i, Header(h.ax, h.bx, h.cx, h.dx), name, registers, tail.state, tail.files), rest))
  }

  // ----- what is printed is read back, and is as long as it was said to be

  lemma SizedTrip(size: Word, content: seq<Byte>, rest: seq<Byte>)
    requires size == |content| < INT_LIMIT
    ensures ReadCounted(PutSized(size, content, rest)) == Some(Read(content, rest))
    ensures |PutSized(size, content, rest)| == 4 + |content| + |rest|
  {
    CountedTrip(content, rest);
  }

  lemma FOpenTrip(file: Text, mode: Text)
    ensures ReadFOpen(PutText(file, PutText(mode, []))) == Some(FOpen(file, mode))
    ensures |PutText(file, PutText(mode, []))| == FOpenSize(file, mode)
  {
    TextTrip(mode, []);
    TextTrip(file, PutText(mode, []));
  }

  lemma FChangeTrip(file: Text, value: Int32, truncate: bool)
    ensures ReadFChange(PutText(file, PutInt(value, [])), truncate) ==
            Some(if truncate then FTruncate(file, value) else FSeek(file, value))
    ensures |PutText(file, PutInt(value, []))| == FChangeSize(file)
  {
    IntTrip(value, []);
    TextTrip(file, PutInt(value, []));
  }

  lemma FModifyTrip(file: Text, target: Page, write: bool)
    ensures ReadFModify(PutText(file, PutPage(target, [])), write) ==
            Some(if write then FWrite(file, target) else FRead(file, target))
    ensures |PutText(file, PutPage(target, []))| == FModifySize(file)
  {
    PageTrip(target, []);
    TextTrip(file, PutPage(target, []));
  }

  /** The code selects the parser. */
  lemma FOpenParser(code: Word, content: seq<Byte>)
    requires code == 7
    ensures ReadContent(code, content) == ReadFOpen(content)
  {
  }

  lemma FChangeParser(code: Word, content: seq<Byte>)
    requires code == 10 || code == 13
    ensures ReadContent(code, content) == ReadFChange(content, code == 13)
  {
  }

  lemma FModifyParser(code: Word, content: seq<Byte>)
    requires code == 11 || code == 12
    ensures ReadContent(code, content) == ReadFModify(content, code == 12)
  {
  }

  lemma ContentTrip(i: Instruction)
    requires OnFile(i)
    ensures ReadContent(Code(i), Content(i)) == Some(i) && |Content(i)| == ContentSize(i)
  {
    if i.FOpen? {
      FOpenParser(7, Content(i));
      FOpenTrip(i.file, i.mode);
    } else if i.FSeek? || i.FTruncate? {
      FChangeParser(Code(i), Content(i));
      FChangeTrip(i.file, i.value, i.FTruncate?);
    } else {
      FModifyParser(Code(i), Content(i));
      FModifyTrip(i.file, i.target, i.FWrite?);
    }
  }

  lemma OnFileTrip(i: Instruction, rest: seq<Byte>)
    requires InstructionSize(i) < INT_LIMIT && OnFile(i)
    ensures ReadSized(Code(i), PutParams(i, rest)) == Some(Read(i, rest))
    ensures |PutParams(i, rest)| == InstructionSize(i) + |rest|
  {
    ContentTrip(i);
    SizedTrip(ContentSize(i), Content(i), rest);
  }

  predicate Named(i: Instruction) {
    i.Wait? || i.Signal? || i.FClose?
  }

  lemma NamedTrip(i: Instruction, rest: seq<Byte>)
    requires InstructionSize(i) < INT_LIMIT && Named(i)
    ensures ReadNamed(Code(i), PutParams(i, rest)) == Some(Read(i, rest))
    ensures |PutParams(i, rest)| == InstructionSize(i) + |rest|
  {
    if i.FClose? {
      TextTrip(i.file, rest);
    } else {
      TextTrip(i.resource, rest);
    }
  }

  predicate Numbered(i: Instruction) {
    i.PageFault? || i.Sleep?
  }

  lemma NumberedTrip(i: Instruction, rest: seq<Byte>)
    requires Numbered(i)
    ensures ReadNumbered(Code(i), PutParams(i, rest)) == Some(Read(i, rest))
    ensures |PutParams(i, rest)| == InstructionSize(i) + |rest|
  {
    IntTrip(if i.Sleep? then i.time else i.page, rest);
  }

  lemma BareTrip(i: Instruction, rest: seq<Byte>)
    requires !OnFile(i) && !Named(i) && !Numbered(i)
    ensures ReadParams(Code(i), PutParams(i, rest)) == Some(Read(i, rest))
    ensures |PutParams(i, rest)| == InstructionSize(i) + |rest|
  {
  }

  lemma SizedParser(code: Word, b: seq<Byte>)
    requires code == 7 || 10 <= code <= 13
    ensures ReadParams(code, b) == ReadSized(code, b)
  {
  }

  lemma NamedParser(code: Word, b: seq<Byte>)
    requires code == 2 || code == 3 || code == 9
    ensures ReadParams(code, b) == ReadNamed(code, b)
  {
  }

  lemma NumberedParser(code: Word, b: seq<Byte>)
    requires code == 4 || code == 8
    ensures ReadParams(code, b) == ReadNumbered(code, b)
  {
  }

  lemma ParamsTrip(i: Instruction, rest: seq<Byte>)
    requires InstructionSize(i) < INT_LIMIT
    ensures ReadParams(Code(i), PutParams(i, rest)) == Some(Read(i, rest))
    ensures |PutParams(i, rest)| == InstructionSize(i) + |rest|
  {
    if OnFile(i) {
      OnFileTrip(i, rest);
      SizedParser(Code(i), PutParams(i, rest));
    } else if Named(i) {
      NamedTrip(i, rest);
      NamedParser(Code(i), PutParams(i, rest));
    } else if Numbered(i) {
      NumberedTrip(i, rest);
      NumberedParser(Code(i), PutParams(i, rest));
    } else {
      BareTrip(i, rest);
    }
  }

  lemma InstructionTrip(i: Instruction, rest: seq<Byte>)
    requires InstructionSize(i) < INT_LIMIT
    ensures ReadInstruction(PutInstruction(i, rest)) == Some(Read(i, rest))
    ensures |PutInstruction(i, rest)| == 4 + InstructionSize(i) + |rest|
  {
    WordTrip(Code(i), PutParams(i, rest));
    ParamsTrip(i, rest);
  }

  lemma FourTrip(r: Registers, rest: seq<Byte>)
    ensures ReadFour(PutRegisters(r, rest)) == Some(Read(r, rest)) && |PutRegisters(r, rest)| == 16 + |rest|
  {
    var b3 := PutWord(r.dx, rest);
    var b2 := PutWord(r.cx, b3);
    var b1 := PutWord(r.bx, b2);
    WordTrip(r.dx, rest);
    WordTrip(r.cx, b3);
    WordTrip(r.bx, b2);
    WordTrip(r.ax, b1);
  }

  lemma HeaderIsFour(h: Header, rest: seq<Byte>)
    ensures PutHeader(h, rest) == PutRegisters(Registers(h.pid, h.size, h.programCounter, h.priority), rest)
  {
  }

  lemma FileTrip(o: OpenFile, rest: seq<Byte>)
    ensures ReadFile(PutFile(o, rest)) == Some(Read(o, rest)) && |PutFile(o, rest)| == OpenFileSize(o) + |rest|
  {
    IntTrip(o.seek, rest);
    TextTrip(o.file, PutInt(o.seek, rest));
  }

  lemma {:induction false} FilesTrip(files: seq<OpenFile>, rest: seq<Byte>)
    ensures ReadFiles(|files|, PutFiles(files, rest)) == Some(Read(files, rest))
    ensures |PutFiles(files, rest)| == OpenFilesSize(files) + |rest|
  {
    if files != [] {
      FilesTrip(files[1..], rest);
      FileTrip(files[0], PutFiles(files[1..], rest));
      assert [files[0]] + files[1..] == files;
    }
  }

  lemma TailTrip(state: Word, files: seq<OpenFile>, rest: seq<Byte>)
    requires |files| < INT_LIMIT
    ensures ReadTail(PutTail(state, files, rest)) == Some(Read(Tail(state, files), rest))
    ensures |PutTail(state, files, rest)| == 8 + OpenFilesSize(files) + |rest|
  {
    FilesTrip(files, rest);
    WordTrip(|files|, PutFiles(files, rest));
    WordTrip(state, PutWord(|files|, PutFiles(files, rest)));
  }

  /** Main theorem: for every instruction with every parameter and any number of open files, the parser takes exactly
      the printed bytes and gives the same PCB with its end state reset, and their number is the separately computed
      size. */
  lemma PcbTrip(p: Pcb, rest: seq<Byte>)
    requires Fits(p)
    ensures ReadPcb(PutPcb(p, rest)) == Some(Read(p.(endState := 0), rest))
    ensures |PutPcb(p, rest)| == PcbSize(p) + |rest|
  {
    FilesAreBounded(p.openFiles);
    var b4 := PutTail(p.state, p.openFiles, rest);
    var b3 := PutRegisters(p.registers, b4);
    var b2 := PutText(p.name, b3);
    var b1 := PutHeader(p.header, b2);
    TailTrip(p.state, p.openFiles, rest);
    FourTrip(p.registers, b4);
    TextTrip(p.name, b3);
    HeaderIsFour(p.header, b2);
    FourTrip(Registers(p.header.pid, p.header.size, p.header.programCounter, p.header.priority), b2);
    InstructionTrip(p.instruction, b1);
  }

  /** So no two PCBs that differ in more than the end state are printed alike. */
  lemma PrintedAlike(p: Pcb, q: Pcb)
    requires Fits(p) && Fits(q) && PutPcb(p, []) == PutPcb(q, [])
    ensures p.(endState := 0) == q.(endState := 0)
  {
    PcbTrip(p, []);
    PcbTrip(q, []);
  }
}
