/** The JSON framer of CjsonContext as a pure machine over the received bytes. It counts the brackets of one kind,
    those inside strings too. One `Step` reads one byte; `Run` is a whole call of `analysis`. */
module JsonParser {
  import opened Bytes

  const OPEN_BRACE: byte := 123
  const CLOSE_BRACE: byte := 125
  const OPEN_BRACKET: byte := 91
  const CLOSE_BRACKET: byte := 93

  datatype Phase = Start | Object | Array | Done | Bad

  datatype Parser = Parser(buf: seq<byte>, phase: Phase, index: nat, depth: nat, start: nat)

  function Fresh(buf: seq<byte>): Parser {
    Parser(buf, Start, 0, 0, 0)
  }

  predicate InMessage(p: Parser) {
    p.phase == Object || p.phase == Array
  }

  predicate Ok(p: Parser) {
    && p.start <= p.index <= |p.buf|
    && (p.phase == Start ==> p.depth == 0)
    && (InMessage(p) ==> 0 < p.depth && p.start < p.index)
    && (p.phase == Done ==> p.start < p.index)
  }

  predicate Enabled(p: Parser) {
    p.phase != Done && p.phase != Bad && p.index < |p.buf|
  }

  function Opener(phase: Phase): byte {
    if phase == Object then OPEN_BRACE else OPEN_BRACKET
  }

  function Closer(phase: Phase): byte {
    if phase == Object then CLOSE_BRACE else CLOSE_BRACKET
  }

  function StartByte(p: Parser): Parser
    requires Enabled(p)
  {
    var ch := p.buf[p.index];
    if IsSpace(ch) then p.(index := p.index + 1)
    else if ch == OPEN_BRACE then p.(phase := Object, depth := p.depth + 1, start := p.index, index := p.index + 1)
    else if ch == OPEN_BRACKET then p.(phase := Array, depth := p.depth + 1, start := p.index, index := p.index + 1)
    else p.(phase := Bad)
  }

  function MessageByte(p: Parser): Parser
    requires Ok(p) && Enabled(p) && InMessage(p)
  {
    var ch := p.buf[p.index];
    if ch == Opener(p.phase) then p.(depth := p.depth + 1, index := p.index + 1)
    else if ch == Closer(p.phase) then
      p.(depth := p.depth - 1, phase := if p.depth == 1 then Done else p.phase, index := p.index + 1)
    else p.(index := p.index + 1)
  }

  function Step(p: Parser): Parser
    requires Ok(p) && Enabled(p)
  {
    if p.phase == Start then StartByte(p) else MessageByte(p)
  }

  lemma StepOk(p: Parser)
    requires Ok(p) && Enabled(p)
    ensures Ok(Step(p)) && Step(p).buf == p.buf
    ensures Step(p).index > p.index || Step(p) == p.(phase := Bad)
  {
  }

  function Run(p: Parser): (r: Parser)
    requires Ok(p)
    ensures Ok(r) && !Enabled(r) && r.buf == p.buf
    decreases |p.buf| - p.index, if p.phase == Bad then 0 else 1
  {
    if Enabled(p) then
      StepOk(p);
      Run(Step(p))
    else p
  }

  function Append(p: Parser, x: seq<byte>): Parser {
    p.(buf := p.buf + x)
  }

  /** Removes `k` bytes that no recorded position needs any more. */
  function Drop(p: Parser, k: nat): Parser
    requires k <= p.start && Ok(p)
  {
    p.(buf := p.buf[k..], index := p.index - k, start := p.start - k)
  }

  /** restart. */
  function Restarted(p: Parser): Parser {
    p.(phase := Start, depth := 0, start := p.index)
  }

  /** clear. */
  function Cleared(p: Parser): Parser
    requires Ok(p)
  {
    if p.phase == Done then Fresh(p.buf[p.index..])
    else if p.phase == Bad || p.start == 0 then p
    else Drop(p, p.start)
  }

  /** The bytes that `extract` and `referenceContent` hand out. */
  function Text(p: Parser): seq<byte>
    requires Ok(p)
  {
    p.buf[p.start..p.index]
  }

  lemma {:induction false} RunAppend(p: Parser, x: seq<byte>)
    requires Ok(p)
    ensures Ok(Append(p, x)) && Ok(Append(Run(p), x))
    ensures Run(Append(Run(p), x)) == Run(Append(p, x))
    decreases |p.buf| - p.index, if p.phase == Bad then 0 else 1
  {
    if Enabled(p) {
      StepOk(p);
      assert Step(Append(p, x)) == Append(Step(p), x);
      RunAppend(Step(p), x);
    }
  }

  lemma StepDrop(p: Parser, k: nat)
    requires Ok(p) && Enabled(p) && k <= p.start
    ensures k <= Step(p).start && Ok(Drop(p, k)) && Enabled(Drop(p, k)) && Ok(Step(p))
    ensures Step(Drop(p, k)) == Drop(Step(p), k)
  {
    StepOk(p);
  }

  lemma {:induction false} RunDrop(p: Parser, k: nat)
    requires Ok(p) && k <= p.start
    ensures k <= Run(p).start && Ok(Drop(p, k)) && Ok(Drop(Run(p), k))
    ensures Run(Drop(p, k)) == Drop(Run(p), k)
    decreases |p.buf| - p.index, if p.phase == Bad then 0 else 1
  {
    hide Step;
    if Enabled(p) {
      StepDrop(p, k);
      StepOk(p);
      RunDrop(Step(p), k);
    }
  }

  /** The messages of a stream: the reference that frames it once, then again behind the message. */
  function MessagesOf(s: seq<byte>): seq<seq<byte>>
    decreases |s|
  {
    var r := Run(Fresh(s));
    if r.phase == Done then [Text(r)] + MessagesOf(s[r.index..]) else []
  }

  /** The messages a framer will still deliver from the bytes it holds. */
  function Pending(p: Parser): seq<seq<byte>>
    requires Ok(p)
  {
    var r := Run(p);
    if r.phase == Done then [Text(r)] + MessagesOf(r.buf[r.index..]) else []
  }

  lemma PendingFresh(s: seq<byte>)
    ensures Pending(Fresh(s)) == MessagesOf(s)
  {
  }

  lemma PendingRunAppend(p: Parser, x: seq<byte>)
    requires Ok(p)
    ensures Ok(Append(p, x)) && Ok(Append(Run(p), x))
    ensures Pending(Append(Run(p), x)) == Pending(Append(p, x))
  {
    RunAppend(p, x);
  }

  lemma TextDrop(p: Parser, k: nat)
    requires Ok(p) && k <= p.start
    ensures Ok(Drop(p, k)) && Text(Drop(p, k)) == Text(p)
    ensures Drop(p, k).buf[Drop(p, k).index..] == p.buf[p.index..]
  {
  }

  /** Removing bytes that no recorded position needs changes no message. */
  lemma PendingDrop(p: Parser, k: nat)
    requires Ok(p) && k <= p.start
    ensures Ok(Drop(p, k)) && Pending(Drop(p, k)) == Pending(p)
  {
    RunDrop(p, k);
    TextDrop(Run(p), k);
  }

  /** Framing on behind a message is framing the rest of the stream. */
  lemma PendingRestarted(p: Parser, x: seq<byte>)
    requires Ok(p)
    ensures Ok(Append(Restarted(p), x)) && Pending(Append(Restarted(p), x)) == MessagesOf(p.buf[p.index..] + x)
  {
    var q := Append(Restarted(p), x);
    assert (p.buf + x)[p.index..] == p.buf[p.index..] + x;
    assert Drop(q, p.index) == Fresh(p.buf[p.index..] + x);
    PendingDrop(q, p.index);
    PendingFresh(p.buf[p.index..] + x);
  }

  /** A finished message does not change when more bytes arrive behind it. */
  lemma PendingDone(p: Parser, x: seq<byte>)
    requires Ok(p) && p.phase == Done
    ensures Ok(Append(p, x)) && Pending(Append(p, x)) == [Text(p)] + MessagesOf(p.buf[p.index..] + x)
  {
    assert (p.buf + x)[p.index..] == p.buf[p.index..] + x;
    assert (p.buf + x)[p.start..p.index] == p.buf[p.start..p.index];
  }

  /** What compaction frees: everything in front of the message at hand, or up to the end of a finished one, and nothing
      of a bad framer, so that the buffer begins with the first byte that is still needed. */
  lemma ClearFreesSpace(p: Parser)
    requires Ok(p)
    ensures var k := if p.phase == Done then p.index else if p.phase == Bad then 0 else p.start; var q := Cleared(p);
      && q.buf == p.buf[k..] && q.index == p.index - k && (p.phase != Bad ==> q.start == 0)
      && q.phase == (if p.phase == Done then Start else p.phase) && (p.phase != Done ==> q.depth == p.depth)
  {
    assert p.buf[0..] == p.buf;
  }

  /** Compaction is transparent: `clear` in the middle of a message, or before one, changes nothing that is delivered
      later, whatever arrives; behind a message it does what `restart` does. */
  lemma ClearIsTransparent(p: Parser, x: seq<byte>)
    requires Ok(p)
    ensures Ok(Cleared(p)) && Ok(Append(Cleared(p), x)) && Ok(Append(p, x)) && Ok(Append(Restarted(p), x))
    ensures Pending(Append(Cleared(p), x)) == Pending(Append(if p.phase == Done then Restarted(p) else p, x))
  {
    if p.phase == Done {
      PendingRestarted(p, x);
      PendingFresh(p.buf[p.index..] + x);
    } else if p.phase != Bad && p.start != 0 {
      var q := Append(p, x);
      PendingDrop(q, p.start);
      assert (p.buf + x)[p.start..] == p.buf[p.start..] + x;
      assert Append(Drop(p, p.start), x) == Drop(q, p.start);
    }
  }
}
