/**
 * The current-page query and the history-page request of the pump driver.
 * The command executor and the paged downloader are inputs: the executor is
 * a function from a command code to the decoded reply it produced (payload
 * plus the error state it left behind), the downloader a function from a
 * command code and its argument to the bytes it assembled.
 */
module PumpHistory {
  import opened Wrappers

  type byte = b: int | 0 <= b < 0x100

  type CommandCode = byte

  /** Command that asks the pump for the number of its current history page. */
  const CurrentPageCommand: CommandCode := 0x9D

  /** Command that downloads one history page. */
  const HistoryCommand: CommandCode := 0x80

  /** The tag byte a well-formed current-page reply starts with. */
  const PageReplyTag: byte := 4

  const TwoTo32: nat := 0x1_0000_0000

  /** The error state the pump session carries after a command. */
  datatype PumpError =
    | ExecuteFailure(reason: string)
    | BadResponse(command: CommandCode, data: seq<byte>)

  /** What the command executor hands back: the payload and the error state. */
  datatype Reply = Reply(data: seq<byte>, err: Option<PumpError>)

  /** The integer the query returns together with the session's error state. */
  datatype PageQuery = PageQuery(page: int, err: Option<PumpError>)

  /** The four big-endian bytes of an unsigned 32-bit value. */
  function FourBytes(n: nat): (b: seq<byte>)
    requires n < TwoTo32
    ensures |b| == 4
  {
    var n1 := n / 0x100;
    var n2 := n1 / 0x100;
    [n2 / 0x100, n2 % 0x100, n1 % 0x100, n % 0x100]
  }

  /** Division by 256 splits `q * 256 + r` back into `q` and `r`. */
  lemma ShiftByte(q: nat, r: byte)
    ensures (q * 0x100 + r) / 0x100 == q
    ensures (q * 0x100 + r) % 0x100 == r
  {
  }

  /** The unsigned 32-bit value whose big-endian bytes are `b`. */
  function FourByteInt(b: seq<byte>): (n: nat)
    requires |b| == 4
    ensures n < TwoTo32
    ensures FourBytes(n) == b
  {
    var n2 := (b[0] as int) * 0x100 + b[1];
    var n1 := n2 * 0x100 + b[2];
    var n := n1 * 0x100 + b[3];
    ShiftByte(n1, b[3]);
    ShiftByte(n2, b[2]);
    ShiftByte(b[0], b[1]);
    n
  }

  /** Encoding a 32-bit value and decoding it again gives the value back. */
  lemma FourBytesRoundTrip(n: nat)
    requires n < TwoTo32
    ensures FourByteInt(FourBytes(n)) == n
  {
  }

  /** A current-page payload the decoder accepts. */
  predicate WellFormedPageReply(data: seq<byte>)
  {
    |data| >= 5 && data[0] == PageReplyTag
  }

  /**
   * Runs the current-page command and decodes its reply. An executor error
   * is passed through with result 0; a short or mistagged payload records a
   * bad response with result 0; otherwise bytes 1 to 4 are the page number.
   */
  function CurrentPage(execute: CommandCode -> Reply): (q: PageQuery)
    ensures execute(CurrentPageCommand).err.Some? ==>
              q == PageQuery(0, execute(CurrentPageCommand).err)
    ensures q.err.None? <==>
              execute(CurrentPageCommand).err.None? && WellFormedPageReply(execute(CurrentPageCommand).data)
    ensures execute(CurrentPageCommand).err.None? && q.err.Some? ==>
              q.err == Some(BadResponse(CurrentPageCommand, execute(CurrentPageCommand).data))
    ensures q.err.Some? ==> q.page == 0
    ensures q.err.None? ==>
              0 <= q.page < TwoTo32 && FourBytes(q.page) == execute(CurrentPageCommand).data[1..5]
  {
    var reply := execute(CurrentPageCommand);
    if reply.err.Some? then
      PageQuery(0, reply.err)
    else if |reply.data| < 5 || reply.data[0] != PageReplyTag then
      PageQuery(0, Some(BadResponse(CurrentPageCommand, reply.data)))
    else
      PageQuery(FourByteInt(reply.data[1..5]), None)
  }

  /** A reply `[4, b3, b2, b1, b0, ...]` decodes to the big-endian value of `b3 b2 b1 b0`. */
  lemma CurrentPageDecodesEncoded(execute: CommandCode -> Reply, n: nat, rest: seq<byte>)
    requires n < TwoTo32
    requires execute(CurrentPageCommand) == Reply([PageReplyTag] + FourBytes(n) + rest, None)
    ensures CurrentPage(execute) == PageQuery(n, None)
  {
    var data := [PageReplyTag] + FourBytes(n) + rest;
    assert data[1..5] == FourBytes(n);
    FourBytesRoundTrip(n);
  }

  /** A successful query's payload is the tag, the encoded result, then anything. */
  lemma CurrentPageAcceptsOnlyEncoded(execute: CommandCode -> Reply)
    requires CurrentPage(execute).err.None?
    ensures var data := execute(CurrentPageCommand).data;
            data == [PageReplyTag] + FourBytes(CurrentPage(execute).page) + data[5..]
  {
    var data := execute(CurrentPageCommand).data;
    assert data == [data[0]] + data[1..5] + data[5..];
  }

  /** When the executor fails the payload is never looked at. */
  lemma CurrentPageIgnoresPayloadOnError(e1: CommandCode -> Reply, e2: CommandCode -> Reply)
    requires e1(CurrentPageCommand).err.Some?
    requires e1(CurrentPageCommand).err == e2(CurrentPageCommand).err
    ensures CurrentPage(e1) == CurrentPage(e2)
  {
  }

  /**
   * The outcome of a successful query depends only on bytes 0 to 4 of the
   * payload: appending bytes, or changing any beyond index 4, changes nothing.
   */
  lemma CurrentPageUsesOnlyHeader(e1: CommandCode -> Reply, e2: CommandCode -> Reply)
    requires e1(CurrentPageCommand).err.None? && e2(CurrentPageCommand).err.None?
    requires |e1(CurrentPageCommand).data| >= 5 && |e2(CurrentPageCommand).data| >= 5
    requires e1(CurrentPageCommand).data[..5] == e2(CurrentPageCommand).data[..5]
    ensures CurrentPage(e1).page == CurrentPage(e2).page
    ensures CurrentPage(e1).err.None? <==> CurrentPage(e2).err.None?
  {
    var d1, d2 := e1(CurrentPageCommand).data, e2(CurrentPageCommand).data;
    assert d1[0] == d1[..5][0] && d2[0] == d2[..5][0];
    assert d1[1..5] == d1[..5][1..5] && d2[1..5] == d2[..5][1..5];
  }

  /** Reads one history page: a plain delegation to the paged downloader. */
  function History(download: (CommandCode, int) -> seq<byte>, page: int): (r: seq<byte>)
    ensures r == download(HistoryCommand, page)
  {
    download(HistoryCommand, page)
  }

  /**
   * A page read depends only on the downloader's answer to the history
   * command for that page: answers to other commands or pages do not matter.
   */
  lemma HistoryAsksOnlyForPage(d1: (CommandCode, int) -> seq<byte>, d2: (CommandCode, int) -> seq<byte>, page: int)
    requires d1(HistoryCommand, page) == d2(HistoryCommand, page)
    ensures History(d1, page) == History(d2, page)
  {
  }
}
