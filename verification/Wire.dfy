/** The wire format: PCBs, pages, lists and packages as bytes, and the parsers that read them back. A Put function
    writes a value in front of the bytes that follow it; a Read function takes it off again. */
module Wire {
  import opened Bytes

  /** A C string: no NUL inside, and with its NUL a length that fits an int. */
  type Text = s: seq<Byte> | 0 !in s && |s| < 0x7FFF_FFFF

  datatype Read<+T> = Read(value: T, rest: seq<Byte>)

  const INT_LIMIT: nat := 0x8000_0000

  // ----- numbers and strings

  function PutWord(w: Word, rest: seq<Byte>): seq<Byte> {
    WordBytes(w) + rest
  }

  function ReadWord(b: seq<Byte>): Option<Read<Word>> {
    if |b| < 4 then None else Some(Read(WordOf(b[..4]), b[4..]))
  }

  lemma WordTrip(w: Word, rest: seq<Byte>)
    ensures ReadWord(PutWord(w, rest)) == Some(Read(w, rest)) && |PutWord(w, rest)| == 4 + |rest|
  {
    WordRoundTrip(w);
    assert PutWord(w, rest)[..4] == WordBytes(w) && PutWord(w, rest)[4..] == rest;
  }

  function PutInt(i: Int32, rest: seq<Byte>): seq<Byte> {
    PutWord(ToWord(i), rest)
  }

  function ReadInt(b: seq<Byte>): Option<Read<Int32>> {
    match ReadWord(b)
    case None => None
    case Some(Read(w, rest)) => Some(Read(ToInt(w), rest))
  }

  lemma IntTrip(i: Int32, rest: seq<Byte>)
    ensures ReadInt(PutInt(i, rest)) == Some(Read(i, rest)) && |PutInt(i, rest)| == 4 + |rest|
  {
    WordTrip(ToWord(i), rest);
  }

  /** The characters before the first NUL. */
  function UpToNul(s: seq<Byte>): (r: seq<Byte>)
    ensures 0 !in r && |r| <= |s| && (0 in s ==> |r| < |s|)
  {
    if s == [] || s[0] == 0 then [] else [s[0]] + UpToNul(s[1..])
  }

  lemma {:induction false} TextEnds(t: seq<Byte>, rest: seq<Byte>)
    requires 0 !in t
    ensures UpToNul(t + [0] + rest) == t
  {
    var s := t + [0] + rest;
    if t != [] {
      assert s[1..] == t[1..] + [0] + rest;
      TextEnds(t[1..], rest);
    }
  }

  /** The length with the NUL, the characters and the NUL. */
  function PutText(t: Text, rest: seq<Byte>): seq<Byte> {
    PutWord(|t| + 1, t + ([0] + rest))
  }

  /** The length says how much is copied; the string in the copy ends at its first NUL. */
  function ReadText(b: seq<Byte>): Option<Read<Text>> {
    match ReadWord(b)
    case None => None
    case Some(Read(n, rest)) =>
      if n >= INT_LIMIT || n > |rest| || 0 !in rest[..n] then None
      else
        var t: Text := UpToNul(rest[..n]);
        Some(Read(t, rest[n..]))
  }

  function TextSize(t: Text): nat {
    4 + |t| + 1
  }

  lemma TextTrip(t: Text, rest: seq<Byte>)
    ensures ReadText(PutText(t, rest)) == Some(Read(t, rest)) && |PutText(t, rest)| == TextSize(t) + |rest|
  {
    var body := t + ([0] + rest);
    WordTrip(|t| + 1, body);
    assert body[..|t| + 1] == t + [0] + [] && body[|t| + 1..] == rest;
    assert body[..|t| + 1][|t|] == 0;
    TextEnds(t, []);
  }

  // ----- pages

  datatype Page = Page(number: Int32, displacement: Int32, pid: Word)

  function PutPage(p: Page, rest: seq<Byte>): seq<Byte> {
    PutInt(p.number, PutInt(p.displacement, PutWord(p.pid, rest)))
  }

  function ReadPage(b: seq<Byte>): Option<Read<Page>> {
    match ReadInt(b)
    case None => None
    case Some(Read(number, b1)) =>
    match ReadInt(b1)
    case None => None
    case Some(Read(displacement, b2)) =>
    match ReadWord(b2)
    case None => None
    case Some(Read(pid, rest)) => Some(Read(Page(number, displacement, pid), rest))
  }

  const PAGE_SIZE: nat := 12

  lemma PageTrip(p: Page, rest: seq<Byte>)
    ensures ReadPage(PutPage(p, rest)) == Some(Read(p, rest)) && |PutPage(p, rest)| == PAGE_SIZE + |rest|
  {
    var b2 := PutWord(p.pid, rest);
    var b1 := PutInt(p.displacement, b2);
    WordTrip(p.pid, rest);
    IntTrip(p.displacement, b2);
    IntTrip(p.number, b1);
  }

  /** What MOV_OUT carries. */
  datatype MovOutPage = MovOutPage(page: Page, value: Word)

  function PutMovOut(m: MovOutPage, rest: seq<Byte>): seq<Byte> {
    PutPage(m.page, PutWord(m.value, rest))
  }

  function ReadMovOut(b: seq<Byte>): Option<Read<MovOutPage>> {
    match ReadPage(b)
    case None => None
    case Some(Read(page, b1)) =>
    match ReadWord(b1)
    case None => None
    case Some(Read(value, rest)) => Some(Read(MovOutPage(page, value), rest))
  }

  lemma MovOutTrip(m: MovOutPage, rest: seq<Byte>)
    ensures ReadMovOut(PutMovOut(m, rest)) == Some(Read(m, rest)) && |PutMovOut(m, rest)| == 16 + |rest|
  {
    WordTrip(m.value, rest);
    PageTrip(m.page, PutWord(m.value, rest));
  }

  /** A length that fits an int and the bytes it counts. */
  function PutCounted(content: seq<Byte>, rest: seq<Byte>): seq<Byte>
    requires |content| < INT_LIMIT
  {
    PutWord(|content|, content + rest)
  }

  function ReadCounted(b: seq<Byte>): Option<Read<seq<Byte>>> {
    match ReadWord(b)
    case None => None
    case Some(Read(n, rest)) => if n >= INT_LIMIT || n > |rest| then None else Some(Read(rest[..n], rest[n..]))
  }

  lemma CountedTrip(content: seq<Byte>, rest: seq<Byte>)
    requires |content| < INT_LIMIT
    ensures ReadCounted(PutCounted(content, rest)) == Some(Read(content, rest))
    ensures |PutCounted(content, rest)| == 4 + |content| + |rest|
  {
    WordTrip(|content|, content + rest);
    assert (content + rest)[..|content|] == content && (content + rest)[|content|..] == rest;
  }

  /** A page of a file on its way to memory, and a page on its way to its swap block. */
  datatype Transfer = ForFile(page: Page, content: seq<Byte>) | ForSwap(block: Int32, content: seq<Byte>)

  function PutTransfer(t: Transfer, rest: seq<Byte>): seq<Byte>
    requires |t.content| < INT_LIMIT
  {
    match t
    case ForFile(page, content) => PutPage(page, PutCounted(content, rest))
    case ForSwap(block, content) => PutInt(block, PutCounted(content, rest))
  }

  function ReadForFile(b: seq<Byte>): Option<Read<Transfer>> {
    match ReadPage(b)
    case None => None
    case Some(Read(page, b1)) =>
    match ReadCounted(b1)
    case None => None
    case Some(Read(content, rest)) => Some(Read(ForFile(page, content), rest))
  }

  function ReadForSwap(b: seq<Byte>): Option<Read<Transfer>> {
    match ReadInt(b)
    case None => None
    case Some(Read(block, b1)) =>
    match ReadCounted(b1)
    case None => None
    case Some(Read(content, rest)) => Some(Read(ForSwap(block, content), rest))
  }

  lemma TransferTrip(t: Transfer, rest: seq<Byte>)
    requires |t.content| < INT_LIMIT
    ensures Some(Read(t, rest)) ==
      if t.ForFile? then ReadForFile(PutTransfer(t, rest)) else ReadForSwap(PutTransfer(t, rest))
    ensures |PutTransfer(t, rest)| == (if t.ForFile? then 16 else 8) + |t.content| + |rest|
  {
    CountedTrip(t.content, rest);
    match t
    case ForFile(page, content) => PageTrip(page, PutCounted(content, rest));
    case ForSwap(block, content) => IntTrip(block, PutCounted(content, rest));
  }

  // ----- lists of ints

  function PutInts(list: seq<Int32>, rest: seq<Byte>): seq<Byte> {
    if list == [] then rest else PutInt(list[0], PutInts(list[1..], rest))
  }

  function ReadInts(n: nat, b: seq<Byte>): Option<Read<seq<Int32>>> {
    if n == 0 then Some(Read([], b))
    else
      match ReadInt(b)
      case None => None
      case Some(Read(i, b1)) =>
      match ReadInts(n - 1, b1)
      case None => None
      case Some(Read(list, rest)) => Some(Read([i] + list, rest))
  }

  lemma {:induction false} IntsTrip(list: seq<Int32>, rest: seq<Byte>)
    ensures ReadInts(|list|, PutInts(list, rest)) == Some(Read(list, rest))
    ensures |PutInts(list, rest)| == 4 * |list| + |rest|
  {
    if list != [] {
      IntTrip(list[0], PutInts(list[1..], rest));
      IntsTrip(list[1..], rest);
      assert [list[0]] + list[1..] == list;
    }
  }

  /** serialize_list and deserialize_list, with the count in front. */
  function PutList(list: seq<Int32>, rest: seq<Byte>): seq<Byte>
    requires |list| < INT_LIMIT
  {
    PutWord(|list|, PutInts(list, rest))
  }

  function ReadList(b: seq<Byte>): Option<Read<seq<Int32>>> {
    match ReadWord(b)
    case None => None
    case Some(Read(n, rest)) => if n >= INT_LIMIT then Some(Read([], rest)) else ReadInts(n, rest)
  }

  lemma ListTrip(list: seq<Int32>, rest: seq<Byte>)
    requires |list| < INT_LIMIT
    ensures ReadList(PutList(list, rest)) == Some(Read(list, rest)) && |PutList(list, rest)| == 4 + 4 * |list| + |rest|
  {
    WordTrip(|list|, PutInts(list, rest));
    IntsTrip(list, rest);
  }

  // ----- packages

  datatype Package = Package(op: Int32, payload: seq<Byte>)

  function PutPackage(p: Package, rest: seq<Byte>): seq<Byte>
    requires |p.payload| < INT_LIMIT
  {
    PutInt(p.op, PutCounted(p.payload, rest))
  }

  ghost predicate Sendable(packages: seq<Package>) {
    forall i :: 0 <= i < |packages| ==> |packages[i].payload| < INT_LIMIT
  }

  /** Everything that goes through a socket. */
  function Stream(packages: seq<Package>): seq<Byte>
    requires Sendable(packages)
  {
    if packages == [] then [] else PutPackage(packages[0], Stream(packages[1..]))
  }

  /** A message as its receiver sees it: receive_buffer answers NULL when recv delivers no byte, which it takes for a
      closed connection. */
  datatype Message = Message(op: Int32, payload: Option<seq<Byte>>)

  /** receive_op_code and receive_buffer in turn, until there is no op code, or one that reads as -1. */
  function Receive(b: seq<Byte>): seq<Message>
    decreases |b|
  {
    match ReadInt(b)
    case None => []
    case Some(Read(op, b1)) =>
      if op == -1 then []
      else
        match ReadCounted(b1)
        case None => []
        case Some(Read(payload, rest)) =>
          [Message(op, if payload == [] then None else Some(payload))] + Receive(rest)
  }

  predicate Plain(p: Package) {
    p.op != -1 && p.payload != []
  }

  function Sent(p: Package): Message {
    Message(p.op, Some(p.payload))
  }

  /** What arrives of a package: an empty payload is no payload. */
  function Got(p: Package): Message {
    Message(p.op, if p.payload == [] then None else Some(p.payload))
  }

  function AllSent(packages: seq<Package>): seq<Message> {
    if packages == [] then [] else [Sent(packages[0])] + AllSent(packages[1..])
  }

  predicate AllPlain(packages: seq<Package>) {
    forall i :: 0 <= i < |packages| ==> Plain(packages[i])
  }

  lemma ReceiveOne(p: Package, rest: seq<Byte>)
    requires |p.payload| < INT_LIMIT
    ensures Receive(PutPackage(p, rest)) == if p.op == -1 then [] else [Got(p)] + Receive(rest)
  {
    IntTrip(p.op, PutCounted(p.payload, rest));
    CountedTrip(p.payload, rest);
  }

  lemma PlainSplit(packages: seq<Package>)
    requires packages != []
    ensures AllPlain(packages) <==> Plain(packages[0]) && AllPlain(packages[1..])
  {
    if Plain(packages[0]) && AllPlain(packages[1..]) {
      assert forall i :: 0 < i < |packages| ==> packages[i] == packages[1..][i - 1];
    }
  }

  lemma SameHeads<T>(x: T, y: T, a: seq<T>, b: seq<T>)
    ensures [x] + a == [y] + b <==> x == y && a == b
  {
    if [x] + a == [y] + b {
      assert ([x] + a)[0] == x && ([y] + b)[0] == y;
      assert ([x] + a)[1..] == a && ([y] + b)[1..] == b;
    }
  }

  /** Any sequence of packages is received as it was sent if and only if none of them is empty and none has the op
      code -1. */
  lemma {:induction false} ReceivedAsSentIff(packages: seq<Package>)
    requires Sendable(packages)
    ensures Receive(Stream(packages)) == AllSent(packages) <==> AllPlain(packages)
  {
    if packages != [] {
      var p, rest := packages[0], packages[1..];
      ReceiveOne(p, Stream(rest));
      ReceivedAsSentIff(rest);
      PlainSplit(packages);
      SameHeads(Got(p), Sent(p), Receive(Stream(rest)), AllSent(rest));
    }
  }
}
