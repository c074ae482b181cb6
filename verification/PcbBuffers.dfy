/** serialize_pcb and deserialize_pcb as loops over a buffer with a running offset. */
module PcbBuffers {
  import opened Bytes
  import opened Wire
  import opened PcbCodec

  /** A buffer that is filled from the left. What is written and what is still to come make up the whole message. */
  class Writer {
    const buffer: array<Byte>
    var offset: nat
    ghost const total: seq<Byte>
    ghost var todo: seq<Byte>

    ghost predicate Valid()
      reads this, buffer
    {
      buffer.Length == |total| && offset <= buffer.Length && buffer[..offset] + todo == total
    }

    constructor (size: nat, ghost total: seq<Byte>)
      requires size == |total|
      ensures Valid() && todo == total && this.total == total && fresh(buffer)
    {
      buffer := new Byte[size](_ => 0);
      offset := 0;
      this.total := total;
      this.todo := total;
    }

    /** With nothing to come the buffer is full. */
    lemma Complete()
      requires Valid() && todo == []
      ensures buffer[..] == total
    {
      assert buffer[..offset] + [] == buffer[..offset];
    }

    /** memcpy at the offset, and the offset moves on. */
    method Copy(b: seq<Byte>, ghost rest: seq<Byte>)
      requires Valid() && todo == b + rest
      modifies this`offset, this`todo, buffer
      ensures Valid() && todo == rest
    {
      assert |total| == offset + |b| + |rest|;
      ghost var before := buffer[..offset];
      var start := offset;
      for i := 0 to |b|
        invariant offset == start && buffer[..start + i] == before + b[..i]
      {
        buffer[start + i] := b[i];
        assert buffer[..start + i + 1] == buffer[..start + i] + [b[i]];
        assert b[..i + 1] == b[..i] + [b[i]];
      }
      assert before + b + rest == before + (b + rest);
      assert b[..|b|] == b;
      offset := offset + |b|;
      todo := rest;
    }

    method Number(w: Word, ghost rest: seq<Byte>)
      requires Valid() && todo == PutWord(w, rest)
      modifies this`offset, this`todo, buffer
      ensures Valid() && todo == rest
    {
      Copy(WordBytes(w), rest);
    }

    /** The length with the NUL, then the string with its NUL. */
    method Characters(t: Text, ghost rest: seq<Byte>)
      requires Valid() && todo == PutText(t, rest)
      modifies this`offset, this`todo, buffer
      ensures Valid() && todo == rest
    {
      Number(|t| + 1, t + ([0] + rest));
      assert t + ([0] + rest) == (t + [0]) + rest;
      Copy(t + [0], rest);
    }

    /** The switch of serialize_pcb. */
    method Params(i: Instruction, ghost rest: seq<Byte>)
      requires InstructionSize(i) < INT_LIMIT
      requires Valid() && todo == PutParams(i, rest)
      modifies this`offset, this`todo, buffer
      ensures Valid() && todo == rest
    {
      if OnFile(i) {
        Number(ContentSize(i), Content(i) + rest);
        Copy(Content(i), rest);
      } else {
        match i {
          case Wait(t) => Characters(t, rest);
          case Signal(t) => Characters(t, rest);
          case FClose(t) => Characters(t, rest);
          case PageFault(page) => Number(ToWord(page), rest);
          case Sleep(time) => Number(ToWord(time), rest);
          case _ =>
        }
      }
    }

    method Instruction(i: Instruction, ghost rest: seq<Byte>)
      requires InstructionSize(i) < INT_LIMIT
      requires Valid() && todo == PutInstruction(i, rest)
      modifies this`offset, this`todo, buffer
      ensures Valid() && todo == rest
    {
      Number(Code(i), PutParams(i, rest));
      Params(i, rest);
    }

    method HeaderNumbers(h: Header, ghost rest: seq<Byte>)
      requires Valid() && todo == PutHeader(h, rest)
      modifies this`offset, this`todo, buffer
      ensures Valid() && todo == rest
    {
      HeaderIsFour(h, rest);
      FourNumbers(Registers(h.pid, h.size, h.programCounter, h.priority), rest);
    }

    method StateAndFiles(state: Word, files: seq<OpenFile>, ghost rest: seq<Byte>)
      requires |files| < INT_LIMIT
      requires Valid() && todo == PutTail(state, files, rest)
      modifies this`offset, this`todo, buffer
      ensures Valid() && todo == rest
    {
      Number(state, PutWord(|files|, PutFiles(files, rest)));
      Number(|files|, PutFiles(files, rest));
      Files(files, rest);
    }

    /** The body of serialize_pcb. */
    method Whole(p: Pcb)
      requires Fits(p) && |p.openFiles| < INT_LIMIT
      requires Valid() && todo == PutPcb(p, [])
      modifies this`offset, this`todo, buffer
      ensures Valid() && todo == []
    {
      ghost var b4 := PutTail(p.state, p.openFiles, []);
      ghost var b3 := PutRegisters(p.registers, b4);
      ghost var b2 := PutText(p.name, b3);
      Instruction(p.instruction, PutHeader(p.header, b2));
      HeaderNumbers(p.header, b2);
      Characters(p.name, b3);
      FourNumbers(p.registers, b4);
      StateAndFiles(p.state, p.openFiles, []);
    }

    method FourNumbers(r: Registers, ghost rest: seq<Byte>)
      requires Valid() && todo == PutRegisters(r, rest)
      modifies this`offset, this`todo, buffer
      ensures Valid() && todo == rest
    {
      Number(r.ax, PutWord(r.bx, PutWord(r.cx, PutWord(r.dx, rest))));
      Number(r.bx, PutWord(r.cx, PutWord(r.dx, rest)));
      Number(r.cx, PutWord(r.dx, rest));
      Number(r.dx, rest);
    }

    method Files(files: seq<OpenFile>, ghost rest: seq<Byte>)
      requires Valid() && todo == PutFiles(files, rest)
      modifies this`offset, this`todo, buffer
      ensures Valid() && todo == rest
    {
      for i := 0 to |files|
        invariant Valid() && todo == PutFiles(files[i..], rest)
      {
        ghost var after := PutFiles(files[i + 1..], rest);
        assert files[i..][1..] == files[i + 1..];
        Characters(files[i].file, PutInt(files[i].seek, after));
        Number(ToWord(files[i].seek), after);
      }
    }
  }

  /** serialized_pcb_size: the open files are added up in a loop. */
  method SerializedSize(p: Pcb) returns (size: nat)
    ensures size == PcbSize(p)
  {
    var filesSize := 4;
    for i := 0 to |p.openFiles|
      invariant filesSize + OpenFilesSize(p.openFiles[i..]) == 4 + OpenFilesSize(p.openFiles)
    {
      assert p.openFiles[i..][1..] == p.openFiles[i + 1..];
      filesSize := filesSize + OpenFileSize(p.openFiles[i]);
    }
    size := 9 * 4 + (|p.name| + 1) + 2 * 4 + InstructionSize(p.instruction) + filesSize;
  }

  /** serialize_pcb: the buffer that was allocated by the computed size is filled exactly. */
  method SerializePcb(p: Pcb) returns (buffer: array<Byte>)
    requires Fits(p)
    ensures fresh(buffer) && buffer[..] == PutPcb(p, [])
  {
    var size := SerializedSize(p);
    PcbLength(p);
    FilesAreBounded(p.openFiles);
    var w := new Writer(size, PutPcb(p, []));
    w.Whole(p);
    w.Complete();
    buffer := w.buffer;
  }

  lemma PcbLength(p: Pcb)
    requires Fits(p)
    ensures |PutPcb(p, [])| == PcbSize(p)
  {
    PcbTrip(p, []);
  }

  /** The loop of deserialize_pcb over the open files; rest is what lies behind the offset. */
  method DeserializeFiles(b: seq<Byte>, count: nat) returns (files: Option<seq<OpenFile>>)
    ensures match ReadFiles(count, b)
      case None => files == None
      case Some(Read(all, _)) => files == Some(all)
  {
    var found, rest := [], b;
    ResumeNothing(ReadFiles(count, b));
    for i := 0 to count
      invariant ReadFiles(count, b) == Resumed(found, ReadFiles(count - i, rest))
    {
      ResumeOnce(found, count - i, rest);
      var next := ReadFile(rest);
      if next == None {
        return None;
      }
      found := found + [next.value.value];
      rest := next.value.rest;
    }
    assert found + [] == found;
    return Some(found);
  }

  /** The files found so far and what the parser makes of the rest. */
  function Resumed(found: seq<OpenFile>, r: Option<Read<seq<OpenFile>>>): Option<Read<seq<OpenFile>>> {
    match r
    case None => None
    case Some(Read(files, rest)) => Some(Read(found + files, rest))
  }

  lemma ResumeNothing(r: Option<Read<seq<OpenFile>>>)
    ensures Resumed([], r) == r
  {
    if r.Some? {
      assert [] + r.value.value == r.value.value;
    }
  }

  lemma ResumeOnce(found: seq<OpenFile>, n: nat, b: seq<Byte>)
    requires n > 0
    ensures ReadFile(b) == None ==> ReadFiles(n, b) == None
    ensures ReadFile(b).Some? ==>
      Resumed(found, ReadFiles(n, b)) ==
      Resumed(found + [ReadFile(b).value.value], ReadFiles(n - 1, ReadFile(b).value.rest))
  {
    if ReadFile(b).Some? && ReadFiles(n - 1, ReadFile(b).value.rest).Some? {
      var files := ReadFiles(n - 1, ReadFile(b).value.rest).value.value;
      assert found + ([ReadFile(b).value.value] + files) == (found + [ReadFile(b).value.value]) + files;
    }
  }
}
