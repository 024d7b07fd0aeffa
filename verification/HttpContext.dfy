/** ChttpContext: the framer that works in place on the receive buffer, proved against the machine of HttpParser. */
module HttpContexts {
  import opened Bytes
  import opened Buffers
  import opened RecvBuffers
  import opened HttpHeader
  import P = HttpParser
  import B = HttpBoundary
  import F = HttpFraming
  import L = HttpPipeline
  import C = HttpContents

  /** Every closed line is followed by a NUL, which stops the C-string scans that start in it. */
  predicate Terminated(buf: seq<byte>, lines: seq<P.Line>) {
    forall i :: 0 <= i < |lines| && lines[i].Closed? ==>
      lines[i].start + lines[i].length < |buf| && buf[lines[i].start + lines[i].length] == NUL
  }

  lemma NextLineTerminated(p: P.Parser)
    requires P.AtLineEnd(p) && Terminated(p.buf, p.lines) && P.LastLine(p).start < p.index - 1
    ensures Terminated(P.NextLine(p).buf, P.NextLine(p).lines)
  {
    CloseTerminated(p);
  }

  lemma EndLinesTerminated(p: P.Parser)
    requires P.AtLineEnd(p) && Terminated(p.buf, p.lines) && P.LastLine(p).start == p.index - 1
    ensures Terminated(P.EndLines(p).buf, P.EndLines(p).lines)
  {
    hide P.EndLines;
    CloseTerminated(p);
    P.CloseLineOk(p);
    F.EndLinesFields(p);
  }

  lemma LineByteTerminated(p: P.Parser)
    requires P.Ok(p) && P.Enabled(p) && P.InLine(p) && Terminated(p.buf, p.lines)
    ensures Terminated(P.LineByte(p).buf, P.LineByte(p).lines)
  {
    hide P.EndLines, P.NextLine, Terminated;
    if P.AtLineEnd(p) {
      P.CloseLineOk(p);
      if p.index - 1 > P.LastLine(p).start {
        NextLineTerminated(p);
      } else {
        EndLinesTerminated(p);
      }
    }
  }

  lemma SizeByteTerminated(p: P.Parser)
    requires 0 < p.index < |p.buf| && Terminated(p.buf, p.lines)
    ensures Terminated(P.SizeByte(p).buf, P.SizeByte(p).lines)
  {
  }

  lemma StepTerminated(p: P.Parser)
    requires P.Ok(p) && P.Enabled(p) && Terminated(p.buf, p.lines)
    ensures Terminated(P.Step(p).buf, P.Step(p).lines)
  {
    hide P.LineByte, P.SizeByte;
    if P.InLine(p) {
      LineByteTerminated(p);
    } else if p.phase == P.ChunkHeader {
      SizeByteTerminated(p);
    }
  }

  /** The scans of decoderHeaderAndUpdateState over one line of the buffer. */
  method SkipSpacesAt(a: array<byte>, start: nat, end: nat, from: nat) returns (i: nat)
    requires start <= from <= end < a.Length && a[end] == NUL
    ensures from <= i <= end && i - start == SkipSpaces(a[start..end], from - start)
    ensures i < end ==> !IsSpace(a[i])
  {
    i := from;
    while IsSpace(a[i])
      invariant from <= i <= end
      invariant SkipSpaces(a[start..end], i - start) == SkipSpaces(a[start..end], from - start)
      decreases end - i
    {
      assert a[start..end][i - start] == a[i];
      i := i + 1;
    }
    assert i < end ==> a[start..end][i - start] == a[i];
  }

  method TrimEndAt(a: array<byte>, start: nat, hi: nat, end: nat, head: nat) returns (i: nat)
    requires start <= head < hi <= end <= a.Length && !IsSpace(a[head])
    ensures head < i <= hi && i - start == TrimEnd(a[start..end], hi - start)
  {
    i := hi;
    while IsSpace(a[i - 1])
      invariant head < i <= hi
      invariant TrimEnd(a[start..end], i - start) == TrimEnd(a[start..end], hi - start)
      decreases i
    {
      assert a[start..end][i - 1 - start] == a[i - 1];
      i := i - 1;
    }
    assert a[start..end][i - 1 - start] == a[i - 1];
  }

  /** strchr for a colon; `found` is false for a null result. */
  method FindColonAt(a: array<byte>, start: nat, end: nat, from: nat) returns (found: bool, i: nat)
    requires start <= from <= end < a.Length && a[end] == NUL
    ensures i <= end && start <= from <= i
    ensures FindColon(a[start..end], from - start) == if found then i - start else end - start
    ensures found ==> i < end && a[i] == COLON
  {
    i := from;
    while a[i] != COLON && a[i] != NUL
      invariant from <= i <= end
      invariant FindColon(a[start..end], i - start) == FindColon(a[start..end], from - start)
      decreases end - i
    {
      assert a[start..end][i - start] == a[i];
      i := i + 1;
    }
    found := a[i] == COLON;
    assert i < end ==> a[start..end][i - start] == a[i];
  }

  lemma DecodeNothing(line: seq<byte>, head: nat, colon: nat)
    requires SkipSpaces(line, 0) == head && FindColon(line, head) == colon <= |line|
    requires colon == |line| || colon == head || SkipSpaces(line, colon + 1) == |line|
    ensures DecodeField(line) == NoField
  {
  }

  /** Where the scans stopped, as positions in the buffer `s`. */
  lemma DecodeAtOffsets(s: seq<byte>, start: nat, end: nat, nameHead: nat, nameTail: nat, colon: nat,
      valueHead: nat, valueTail: nat)
    requires start <= nameHead <= nameTail <= colon <= valueHead <= valueTail <= end <= |s|
    requires Scans(s[start..end], nameHead - start, nameTail - start, colon - start,
      valueHead - start, valueTail - start)
    ensures DecodeField(s[start..end]) == Field(s[nameHead..nameTail], s[valueHead..valueTail], s[valueHead..end])
  {
    hide Scans, DecodeField;
    SubSlice(s, start, end, nameHead, nameTail);
    SubSlice(s, start, end, valueHead, valueTail);
    SubSlice(s, start, end, valueHead, end);
    DecodeBy(s[start..end], nameHead - start, nameTail - start, colon - start, valueHead - start, valueTail - start,
      Field(s[nameHead..nameTail], s[valueHead..valueTail], s[valueHead..end]));
  }

  /** The part of the scan behind the colon. */
  method DecodeValueAt(a: array<byte>, start: nat, end: nat, nameHead: nat, nameTail: nat, colon: nat)
    returns (f: Field)
    requires start <= nameHead < nameTail <= colon < end < a.Length && a[end] == NUL
    requires var line := a[start..end];
      && SkipSpaces(line, 0) == nameHead - start && FindColon(line, nameHead - start) == colon - start
      && TrimEnd(line, colon - start) == nameTail - start
    ensures f == DecodeField(a[start..end])
  {
    hide SkipSpaces, FindColon, TrimEnd, DecodeField;
    var valueHead := SkipSpacesAt(a, start, end, colon + 1);
    if end == valueHead {
      DecodeNothing(a[start..end], nameHead - start, colon - start);
      return NoField;
    }
    var valueTail := TrimEndAt(a, start, end, end, valueHead);
    f := Field(a[nameHead..nameTail], a[valueHead..valueTail], a[valueHead..end]);
    assert Scans(a[start..end], nameHead - start, nameTail - start, colon - start,
      valueHead - start, valueTail - start);
    hide Scans;
    assert a[..][start..end] == a[start..end];
    DecodeAtOffsets(a[..], start, end, nameHead, nameTail, colon, valueHead, valueTail);
  }

  /** The name and value of the line in a[start..end], found by scanning the buffer itself. */
  method DecodeFieldAt(a: array<byte>, start: nat, end: nat) returns (f: Field)
    requires start <= end < a.Length && a[end] == NUL
    ensures f == DecodeField(a[start..end])
  {
    hide SkipSpaces, FindColon, TrimEnd, DecodeField;
    var nameHead := SkipSpacesAt(a, start, end, start);
    var found, colon := FindColonAt(a, start, end, nameHead);
    if !found || colon == nameHead {
      DecodeNothing(a[start..end], nameHead - start, if found then colon - start else end - start);
      return NoField;
    }
    var nameTail := TrimEndAt(a, start, colon, end, nameHead);
    f := DecodeValueAt(a, start, end, nameHead, nameTail, colon);
  }

  /** A call of `analysis`, as a function of the state before it. */
  function Analysed(p: P.Parser, overflow: bool): P.Parser
    requires p.phase != P.Uninit && p.phase != P.Bad ==> P.Ok(p)
  {
    if overflow then p.(phase := P.Bad)
    else if p.phase == P.Uninit then
      B.FreshOk(p.buf);
      P.Run(P.Fresh(p.buf))
    else if p.phase == P.Bad then p
    else P.Run(p)
  }

  predicate Good(p: P.Parser) {
    p.phase != P.Uninit && p.phase != P.Bad ==> P.Ok(p) && Terminated(p.buf, p.lines)
  }

  /** The pair a line contributes to the parameters of a message. */
  function ParameterOf(line: seq<byte>): seq<(seq<byte>, seq<byte>)> {
    var f := DecodeField(line);
    if f.NoField? then [] else [(f.name, f.value)]
  }

  function Parameters(ls: seq<seq<byte>>): seq<(seq<byte>, seq<byte>)> {
    if ls == [] then [] else Parameters(ls[..|ls| - 1]) + ParameterOf(ls[|ls| - 1])
  }

  class HttpContext {
    const recv: RecvBuffer
    var phase: P.Phase
    var index: nat
    var lines: seq<P.Line>
    var headerSize: nat
    var keepAlive: bool
    var chunked: bool
    var contentLength: nat
    var chunkSize: nat
    var sizeStart: bool
    var sizeDone: bool
    var chunks: seq<P.Range>

    /** The whole state as a value: the mutated received bytes and every field. */
    ghost function Abs(): P.Parser
      requires recv.Valid()
      reads this, recv, recv.buffer, recv.buffer.data
    {
      P.Parser(recv.Received(), phase, index, lines, headerSize, Flags(keepAlive, chunked, contentLength),
        chunkSize, sizeStart, sizeDone, chunks)
    }

    ghost predicate Valid()
      reads this, recv, recv.buffer, recv.buffer.data
    {
      recv.Valid() && Good(Abs())
    }

    constructor (initial: nat, max: nat)
      ensures Valid() && fresh(recv) && fresh(recv.buffer) && fresh(recv.buffer.data)
      ensures phase == P.Uninit && recv.State() == Recv([], [], false, [])
    {
      recv := new RecvBuffer(initial, max);
      phase := P.Uninit;
      index, lines, headerSize, chunks := 0, [], 0, [];
      keepAlive, chunked, contentLength := true, false, 0;
      chunkSize, sizeStart, sizeDone := 0, false, false;
    }

    method Init()
      requires recv.Valid()
      modifies this
      ensures Abs() == P.Fresh(recv.Received())
    {
      hide RecvBuffer.Valid, RecvBuffer.Received;
      phase := P.Start;
      index, lines, headerSize, chunks := 0, [], 0, [];
      keepAlive, chunked, contentLength := true, false, 0;
      chunkSize, sizeStart, sizeDone := 0, false, false;
    }

    /** Overwrites the CR LF that ends at `i`. */
    method NulPair(i: nat)
      requires recv.Valid() && 0 < i < recv.now
      modifies recv.buffer.data
      ensures recv.Received() == old(recv.Received())[i - 1 := NUL][i := NUL]
    {
      recv.buffer.data[i - 1] := NUL;
      recv.buffer.data[i] := NUL;
    }

    method KvDecoder(f: Field)
      requires recv.Valid() && f.Field?
      modifies this`keepAlive, this`chunked, this`contentLength
      ensures Flags(keepAlive, chunked, contentLength) == ApplyField(old(Flags(keepAlive, chunked, contentLength)), f)
    {
      if SameText(CONNECTION, f.name) {
        keepAlive := SameText(KEEP_ALIVE, f.value);
      } else if SameText(CONTENT_LENGTH, f.name) {
        contentLength := Atoi(f.text) % SIZE_MOD;
      } else if SameText(TRANSFER_ENCODING, f.name) {
        chunked := SameText(CHUNKED, f.value);
      }
    }

    ghost function Selected(): Flags
      reads this
    {
      Flags(keepAlive, chunked, contentLength)
    }

    method DecodeLine(line: P.Line)
      requires recv.Valid() && line.Closed?
      requires line.start + line.length < recv.now && recv.buffer.data[line.start + line.length] == NUL
      modifies this`keepAlive, this`chunked, this`contentLength
      ensures Selected() == ApplyField(old(Selected()), DecodeField(P.LineText(recv.Received(), line)))
    {
      hide DecodeField;
      var f := DecodeFieldAt(recv.buffer.data, line.start, line.start + line.length);
      PrefixSlice(recv.buffer.data[..], recv.now, line.start, line.start + line.length);
      if f.Field? {
        KvDecoder(f);
      }
    }

    /** The flags that the recorded header lines select, decoded in place. */
    method DecodeHeaderLines()
      requires recv.Valid() && Terminated(recv.Received(), lines)
      modifies this`keepAlive, this`chunked, this`contentLength
      ensures Selected() == P.DecodeLines(recv.Received(), lines, headerSize, old(Selected()))
    {
      hide ApplyField, DecodeField, P.LineText;
      ghost var goal := P.DecodeLines(recv.Received(), lines, headerSize, Selected());
      var i := 0;
      while i < |lines|
        invariant 0 <= i <= |lines|
        invariant P.DecodeLines(recv.Received(), lines[i..], headerSize, Selected()) == goal
      {
        var line := lines[i];
        assert lines[i..][0] == line && lines[i..][1..] == lines[i + 1..];
        if line.start > headerSize {
          break;
        }
        if line.Closed? {
          assert recv.Received()[line.start + line.length] == recv.buffer.data[line.start + line.length];
          DecodeLine(line);
        }
        i := i + 1;
      }
    }

    /** decoderHeaderAndUpdateState. */
    method DecoderHeaderAndUpdateState()
      requires recv.Valid() && Terminated(recv.Received(), lines)
      modifies this
      ensures Abs() == P.EnterBody(old(Abs()))
    {
      hide P.DecodeLines;
      DecodeHeaderLines();
      if chunked {
        phase := P.ChunkHeader;
        chunkSize, sizeStart, sizeDone := 0, false, false;
      } else if contentLength > 0 {
        phase := P.ReadBody;
      } else {
        phase := P.Done;
      }
    }

    /** Writes the NULs over the CR LF at `index` and gives the open line its length. */
    method CloseOpenLine()
      requires recv.Valid() && lines != [] && 0 < index < recv.now && P.LastLine(Abs()).start < index
      modifies this`lines, recv.buffer.data
      ensures Abs() == P.CloseLine(old(Abs()))
    {
      NulPair(index);
      var last := lines[|lines| - 1];
      lines := lines[..|lines| - 1] + [P.Closed(last.start, index - 1 - last.start)];
    }

    /** A CR LF ends at `index` and the line is empty: the header is over. */
    method EndHeader(ghost p: P.Parser)
      requires recv.Valid() && P.AtLineEnd(p) && P.LastLine(p).start == p.index - 1
      requires Abs() == P.CloseLine(p) && phase == P.ReadHeader && Terminated(p.buf, p.lines)
      modifies this
      ensures Abs() == P.EndLines(p)
    {
      hide P.EnterBody, P.EndLines;
      CloseTerminated(p);
      EndHeaderValue(p);
      lines := lines[..|lines| - 1];
      index := index + 1;
      headerSize := index;
      DecoderHeaderAndUpdateState();
    }

    /** A CR LF ends at `index`: the header is over (true), or the next line is opened (false). */
    method HeaderLineEnd(ghost p: P.Parser) returns (over: bool)
      requires recv.Valid() && Abs() == p && P.AtLineEnd(p) && P.LastLine(p).start < p.index
      requires p.phase == P.ReadHeader && Terminated(p.buf, p.lines)
      modifies this, recv.buffer.data
      ensures over <==> P.LastLine(p).start == p.index - 1
      ensures Abs() == if over then P.EndLines(p) else P.NextLine(p).(index := p.index)
    {
      hide P.AtLineEnd, P.EndLines, Terminated;
      LineEndFacts(p);
      CloseOpenLine();
      if lines[|lines| - 1].length == 0 {
        EndHeader(p);
        return true;
      }
      lines := lines + [P.Open(index + 1)];
      return false;
    }

    /** One round of the `state_read_header` loop. */
    method HeaderByte(ghost p: P.Parser)
      requires recv.Valid() && Abs() == p && P.Ok(p) && p.phase == P.ReadHeader && p.index < |p.buf|
      requires Terminated(p.buf, p.lines)
      modifies this, recv.buffer.data
      ensures Abs() == P.LineByte(p)
    {
      hide P.Ok, P.Run, P.EndLines, P.NextLine, P.LineByte, Terminated;
      LineCases(p);
      var b := recv.buffer.data[index];
      assert b == p.buf[p.index];
      if b == LF {
        assert recv.buffer.data[index - 1] == p.buf[p.index - 1];
        if recv.buffer.data[index - 1] != CR {
          phase := P.Bad;
          return;
        }
        var over := HeaderLineEnd(p);
        if over {
          return;
        }
        F.NextLineFields(p);
      }
      index := index + 1;
    }

    /** The `state_read_header` case: `again` is `goto _again`, otherwise the loop went bad or ran out of bytes. */
    method ReadHeaderCase(ghost p0: P.Parser) returns (again: bool, ghost p: P.Parser)
      requires recv.Valid() && Abs() == p0 && Good(p0) && p0.phase == P.ReadHeader && p0.index < |p0.buf|
      modifies this, recv.buffer.data
      ensures Abs() == p && Good(p) && Reached(p0, p)
      ensures again ==> p.index > p0.index
      ensures !again ==> P.Finished(p) || p.index == |p.buf|
    {
      hide P.Ok, P.Run, Terminated, P.LineByte, Good, Reached;
      ReachedSelf(p0);
      p := p0;
      while true
        invariant recv.Valid() && Abs() == p && Good(p) && p.phase == P.ReadHeader && p.index < |p.buf|
        invariant Reached(p0, p) && p0.index <= p.index
        decreases |p.buf| - p.index
      {
        GoodOk(p);
        HeaderByte(p);
        LineStep(p);
        ReachedOn(p0, p, P.LineByte(p));
        p := P.LineByte(p);
        if phase != P.ReadHeader {
          return phase != P.Bad, p;
        }
        if index >= recv.now {
          break;
        }
      }
      return false, p;
    }

    /** A CR LF ends at `index` and the line is empty: the trailer is over. */
    method EndTrailer(ghost p: P.Parser)
      requires recv.Valid() && P.AtLineEnd(p) && P.LastLine(p).start == p.index - 1
      requires Abs() == P.CloseLine(p) && phase == P.ChunkFooter
      modifies this
      ensures Abs() == P.EndLines(p)
    {
      lines := lines[..|lines| - 1];
      index := index + 1;
      phase := P.Done;
    }

    /** A CR LF ends at `index` in the trailer: it is over (true), or the next line is opened (false). */
    method TrailerLineEnd(ghost p: P.Parser) returns (over: bool)
      requires recv.Valid() && Abs() == p && P.AtLineEnd(p) && P.LastLine(p).start < p.index
      requires p.phase == P.ChunkFooter
      modifies this, recv.buffer.data
      ensures over <==> P.LastLine(p).start == p.index - 1
      ensures Abs() == if over then P.EndLines(p) else P.NextLine(p).(index := p.index)
    {
      hide P.AtLineEnd, P.EndLines;
      LineEndFacts(p);
      CloseOpenLine();
      if lines[|lines| - 1].length == 0 {
        EndTrailer(p);
        return true;
      }
      lines := lines + [P.Open(index + 1)];
      return false;
    }

    /** One round of the `state_read_chunk_footer` loop. */
    method FooterByte(ghost p: P.Parser)
      requires recv.Valid() && Abs() == p && P.Ok(p) && p.phase == P.ChunkFooter && p.index < |p.buf|
      modifies this, recv.buffer.data
      ensures Abs() == P.LineByte(p)
    {
      hide P.Ok, P.Run, P.EndLines, P.NextLine, P.LineByte;
      LineCases(p);
      var b := recv.buffer.data[index];
      assert b == p.buf[p.index];
      if b == LF {
        assert recv.buffer.data[index - 1] == p.buf[p.index - 1];
        if recv.buffer.data[index - 1] != CR {
          phase := P.Bad;
          return;
        }
        var over := TrailerLineEnd(p);
        if over {
          return;
        }
        F.NextLineFields(p);
      }
      index := index + 1;
    }

    /** The `state_read_chunk_footer` case. */
    method ReadFooterCase(ghost p0: P.Parser) returns (ghost p: P.Parser)
      requires recv.Valid() && Abs() == p0 && Good(p0) && p0.phase == P.ChunkFooter && p0.index < |p0.buf|
      modifies this, recv.buffer.data
      ensures Abs() == p && Good(p) && Reached(p0, p)
      ensures P.Finished(p) || p.index == |p.buf|
    {
      hide P.Ok, P.Run, Terminated, P.LineByte, Good, Reached;
      ReachedSelf(p0);
      p := p0;
      while true
        invariant recv.Valid() && Abs() == p && Good(p) && p.phase == P.ChunkFooter && p.index < |p.buf|
        invariant Reached(p0, p)
        decreases |p.buf| - p.index
      {
        GoodOk(p);
        FooterByte(p);
        LineStep(p);
        ReachedOn(p0, p, P.LineByte(p));
        p := P.LineByte(p);
        if phase != P.ChunkFooter {
          return p;
        }
        if index >= recv.now {
          assert p.index == |p.buf|;
          return p;
        }
      }
    }

    /** The line of a chunk size ends at `index`. */
    method EndSize(ghost p: P.Parser)
      requires recv.Valid() && Abs() == p && p.phase == P.ChunkHeader && 0 < p.index < |p.buf|
      modifies this, recv.buffer.data
      ensures Abs() == P.SizeEnd(p)
    {
      NulPair(index);
      index := index + 1;
      if chunkSize > 0 {
        phase := P.ChunkBody;
      } else {
        phase := P.ChunkFooter;
        lines := lines + [P.Open(index)];
      }
    }

    /** One round of the `state_read_chunk_header` loop. */
    method SizeByteInPlace(ghost p: P.Parser)
      requires recv.Valid() && Abs() == p && p.phase == P.ChunkHeader && 0 < p.index < |p.buf|
      modifies this, recv.buffer.data
      ensures Abs() == P.SizeByte(p)
    {
      hide P.SizeEnd;
      var ch := recv.buffer.data[index];
      assert ch == p.buf[p.index] && recv.buffer.data[index - 1] == p.buf[p.index - 1];
      if ch == LF {
        if recv.buffer.data[index - 1] != CR {
          phase := P.Bad;
        } else {
          EndSize(p);
        }
        return;
      }
      if !sizeDone {
        if 48 <= ch <= 57 {
          chunkSize, sizeStart := (chunkSize * 16 + (ch - 48)) % SIZE_MOD, true;
        } else if 97 <= ch <= 102 {
          chunkSize, sizeStart := (chunkSize * 16 + (ch - 97 + 10)) % SIZE_MOD, true;
        } else if 65 <= ch <= 70 {
          chunkSize, sizeStart := (chunkSize * 16 + (ch - 65 + 10)) % SIZE_MOD, true;
        } else if sizeStart || !IsSpace(ch) {
          sizeDone := true;
        }
      }
      index := index + 1;
    }

    /** The `state_read_chunk_header` case. */
    method ReadSizeCase(ghost p0: P.Parser) returns (again: bool, ghost p: P.Parser)
      requires recv.Valid() && Abs() == p0 && Good(p0) && p0.phase == P.ChunkHeader && p0.index < |p0.buf|
      modifies this, recv.buffer.data
      ensures Abs() == p && Good(p) && Reached(p0, p)
      ensures again ==> p.index > p0.index
      ensures !again ==> P.Finished(p) || p.index == |p.buf|
    {
      hide P.Ok, P.Run, Terminated, P.SizeByte, Good, Reached;
      ReachedSelf(p0);
      p := p0;
      while true
        invariant recv.Valid() && Abs() == p && Good(p) && p.phase == P.ChunkHeader && p.index < |p.buf|
        invariant Reached(p0, p) && p0.index <= p.index
        decreases |p.buf| - p.index
      {
        GoodOk(p);
        SizeStep(p);
        SizeByteInPlace(p);
        ReachedOn(p0, p, P.SizeByte(p));
        p := P.SizeByte(p);
        if phase != P.ChunkHeader {
          return phase != P.Bad, p;
        }
        if index >= recv.now {
          break;
        }
      }
      return false, p;
    }

    /** The `state_start` case. */
    method StartCase(ghost p: P.Parser)
      requires recv.Valid() && Abs() == p && p.phase == P.Start && p.buf != []
      modifies this
      ensures Abs() == P.Start1(p)
    {
      assert recv.buffer.data[0] == p.buf[0];
      if index != 0 || recv.buffer.data[0] == LF {
        phase := P.Bad;
      } else {
        phase := P.ReadHeader;
        lines := lines + [P.Open(0)];
      }
    }

    /** The `state_read_body` case, when the whole body has arrived. */
    method BodyCase(ghost p: P.Parser)
      requires recv.Valid() && Abs() == p
      modifies this
      ensures Abs() == P.BodyStep(p)
    {
      chunks := chunks + [P.Range(index, contentLength)];
      index := index + contentLength;
      phase := P.Done;
    }

    /** The `state_read_chunk_body` case, when the chunk and two more bytes have arrived. */
    method ChunkCase(ghost p: P.Parser)
      requires recv.Valid() && Abs() == p
      modifies this
      ensures Abs() == P.ChunkStep(p)
    {
      chunks := chunks + [P.Range(index, chunkSize)];
      index := index + (chunkSize + 2) % SIZE_MOD;
      phase := P.ChunkHeader;
      chunkSize, sizeStart, sizeDone := 0, false, false;
    }

    /** One pass through the switch: `again` is `goto _again`. */
    method Case(ghost p: P.Parser) returns (again: bool, ghost q: P.Parser)
      requires recv.Valid() && Abs() == p && Good(p) && p.phase != P.Uninit && !P.Finished(p) && p.index < |p.buf|
      modifies this, recv.buffer.data
      ensures Abs() == q && Good(q) && q.phase != P.Uninit && Reached(p, q)
      ensures again ==> q.index > p.index || (q.index == p.index && P.Rank(q.phase) < P.Rank(p.phase))
      ensures !again ==> !P.Enabled(q)
    {
      hide P.Ok, P.Run, Terminated, P.Start1, P.BodyStep, P.ChunkStep;
      q := p;
      match phase {
        case Start =>
          OtherStep(p);
          StartCase(p);
          return phase != P.Bad, P.Start1(p);
        case ReadHeader =>
          again, q := ReadHeaderCase(p);
        case ReadBody =>
          if recv.now - index >= contentLength {
            OtherStep(p);
            BodyCase(p);
            return false, P.BodyStep(p);
          }
          return false, p;
        case ChunkHeader =>
          again, q := ReadSizeCase(p);
        case ChunkBody =>
          if recv.now - index >= (chunkSize + 2) % SIZE_MOD {
            OtherStep(p);
            ChunkCase(p);
            return true, P.ChunkStep(p);
          }
          return false, p;
        case ChunkFooter =>
          q := ReadFooterCase(p);
          return false, q;
        case _ =>
      }
    }

    /** The code behind the label `_again`. */
    method RunCases(ghost p0: P.Parser) returns (finished: bool)
      requires recv.Valid() && Abs() == p0 && Good(p0) && p0.phase != P.Uninit && p0.phase != P.Bad
      modifies this, recv.buffer.data
      ensures P.Ok(p0) && Abs() == P.Run(p0) && Good(Abs())
      ensures finished <==> P.Finished(Abs())
    {
      ghost var p := p0;
      while true
        invariant recv.Valid() && Abs() == p && Good(p) && P.Ok(p) && p.phase != P.Uninit
        invariant P.Run(p) == P.Run(p0)
        decreases |p.buf| - p.index, P.Rank(p.phase)
      {
        hide P.Run, P.Ok;
        if !P.Enabled(p) {
          RunIdle(p);
        }
        if phase == P.Done || phase == P.Bad {
          return true;
        }
        if recv.now <= index {
          return false;
        }
        var again;
        again, p := Case(p);
        if !again {
          RunIdle(p);
          return phase == P.Done || phase == P.Bad;
        }
      }
    }

    /** `analysis`: runs the framer on everything received, and says whether it is done or bad. */
    method Analysis() returns (finished: bool)
      requires Valid()
      modifies this, recv.buffer.data
      ensures Valid()
      ensures Abs() == Analysed(old(Abs()), recv.overflow)
      ensures finished <==> P.Finished(Abs())
    {
      hide P.Run, P.Ok;
      if recv.overflow {
        phase := P.Bad;
        return true;
      }
      if phase == P.Uninit {
        Init();
        B.FreshOk(recv.Received());
      }
      if phase == P.Bad {
        return true;
      }
      finished := RunCases(Abs());
    }

    /** Drops the finished message and moves the bytes behind it to the front. */
    method Clear() returns (r: bool)
      requires Valid()
      modifies this, recv`now, recv.buffer.data
      ensures Valid() && recv.raws == old(recv.raws) && recv.overflow == old(recv.overflow)
      ensures r <==> old(phase) == P.Done
      ensures var p := old(Abs());
        Abs() == if p.phase == P.Done then P.Fresh(p.buf[p.index..]) else p
    {
      if phase != P.Done {
        return false;
      }
      recv.DropFront(index);
      Init();
      return true;
    }

    /** Gives `copy`, which already has the bytes of the message, the rest of the state of `p`. */
    method CopyFields(copy: HttpContext, ghost p: P.Parser)
      requires recv.Valid() && copy.recv.Valid() && copy != this && Abs() == p && p.index <= |p.buf|
      requires copy.recv.Received() == p.buf[..p.index] && p.phase == P.Done
      modifies copy
      ensures copy.Abs() == L.Extract(p)
    {
      hide RecvBuffer.Valid, RecvBuffer.Received;
      copy.phase, copy.index, copy.lines, copy.headerSize := P.Done, index, lines, headerSize;
      copy.keepAlive, copy.chunked, copy.contentLength := keepAlive, chunked, contentLength;
      copy.chunkSize, copy.sizeStart, copy.sizeDone, copy.chunks := 0, false, false, chunks;
    }

    /** Copies the finished message, without the bytes behind it, into another context. */
    method Extract(copy: HttpContext) returns (r: bool)
      requires Valid() && copy.Valid()
      requires copy != this && copy.recv != recv && copy.recv.buffer != recv.buffer
      requires copy.recv.buffer.data != recv.buffer.data
      modifies copy, copy.recv, copy.recv.buffer, copy.recv.buffer.data
      ensures Valid() && copy.Valid() && (r <==> phase == P.Done)
      ensures Abs() == old(Abs()) && copy.Abs() == if r then L.Extract(Abs()) else old(copy.Abs())
      ensures r ==> copy.recv.Received() == recv.Received()[..index] && copy.phase == P.Done && copy.index == index
      ensures r ==> copy.lines == lines && copy.headerSize == headerSize && copy.chunks == chunks
      ensures r ==> copy.Selected() == Selected() && copy.recv.overflow == recv.overflow
      ensures r ==> copy.recv.initialSize == recv.initialSize && copy.recv.maxSize == recv.maxSize
    {
      if phase != P.Done {
        return false;
      }
      hide Good;
      ghost var p := Abs();
      ExtractGood(p);
      copy.recv.CopyFront(recv, index);
      CopyFields(copy, p);
      return true;
    }

    method GetParameterAt(i: nat) returns (params: seq<(seq<byte>, seq<byte>)>)
      requires recv.Valid() && i < |lines| && lines[i].Closed? && Terminated(recv.Received(), lines)
      ensures params == ParameterOf(P.LineText(recv.Received(), lines[i]))
    {
      hide DecodeField, Terminated, P.LineText;
      var line := lines[i];
      LineInBuffer(recv.buffer.data[..], recv.now, lines, i);
      var f := DecodeFieldAt(recv.buffer.data, line.start, line.start + line.length);
      params := if f.Field? then [(f.name, f.value)] else [];
    }

    /** The loop of getParameter. */
    method CollectParameters(ghost buf: seq<byte>) returns (params: seq<(seq<byte>, seq<byte>)>)
      requires recv.Valid() && buf == recv.Received() && Terminated(buf, lines) && AllClosed(lines)
      ensures params == Parameters(F.LineTexts(buf, lines))
    {
      hide Parameters, ParameterOf, F.LineTexts, Terminated, P.LineText;
      ParametersEnds(buf, lines);
      params := [];
      for i := 0 to |lines|
        invariant params == Parameters(F.LineTexts(buf, lines[..i]))
      {
        ParametersSnoc(buf, lines, i);
        var more := GetParameterAt(i);
        params := params + more;
      }
    }

    /** getParameter: the name and value of every line that has both, first line and trailer included, in the order
        of insertion. */
    method GetParameter() returns (r: bool, params: seq<(seq<byte>, seq<byte>)>)
      requires Valid()
      ensures r <==> phase == P.Done
      ensures params == if r then Parameters(F.LineTexts(recv.Received(), lines)) else []
    {
      params := [];
      if phase != P.Done {
        return false, params;
      }
      DoneLines(Abs());
      params := CollectParameters(recv.Received());
      return true, params;
    }

    /** One round of the loop of getContent that copies. */
    method CopyOut(buffer: Buffer, dst: nat, from: nat, n: nat)
      requires recv.Valid() && buffer.Valid() && buffer != recv.buffer && buffer.data != recv.buffer.data
      requires from + n <= recv.now && dst + n <= buffer.length
      modifies buffer.data
      ensures buffer.data[..dst + n] == old(buffer.data[..dst]) + recv.Received()[from..from + n]
    {
      forall k | 0 <= k < n {
        buffer.data[dst + k] := recv.buffer.data[from + k];
      }
    }

    /** The length of all the pieces, added up as a `size_t`. */
    method TotalLength(ghost p: P.Parser) returns (total: nat)
      requires recv.Valid() && Abs() == p && C.Inside(p) && |p.buf| < SIZE_MOD
      ensures total == |F.Content(p)|
    {
      hide C.Copied, F.Content, C.Inside;
      C.CopiedEnds(p);
      total := 0;
      for i := 0 to |chunks|
        invariant total == |C.Copied(p, i)|
      {
        C.CopiedNext(p, i);
        total := (total + chunks[i].length) % SIZE_MOD;
      }
    }

    method CopyPieces(buffer: Buffer, ghost p: P.Parser)
      requires recv.Valid() && buffer.Valid() && buffer != recv.buffer && buffer.data != recv.buffer.data
      requires Abs() == p && C.Inside(p) && buffer.length == |F.Content(p)|
      modifies buffer.data
      ensures Abs() == p && buffer.data[..buffer.length] == F.Content(p)
    {
      hide C.Copied, F.Content, C.Inside, Good;
      C.CopiedEnds(p);
      var dst := 0;
      for i := 0 to |chunks|
        invariant recv.Valid() && Abs() == p
        invariant dst == |C.Copied(p, i)| <= buffer.length && buffer.data[..dst] == C.Copied(p, i)
      {
        dst := CopyPiece(buffer, i, dst, p);
      }
    }

    /** One round of that loop. */
    method CopyPiece(buffer: Buffer, i: nat, dst: nat, ghost p: P.Parser) returns (next: nat)
      requires recv.Valid() && buffer.Valid() && buffer != recv.buffer && buffer.data != recv.buffer.data
      requires Abs() == p && C.Inside(p) && buffer.length == |F.Content(p)| && i < |chunks|
      requires dst == |C.Copied(p, i)| <= buffer.length && buffer.data[..dst] == C.Copied(p, i)
      modifies buffer.data
      ensures Abs() == p && next == |C.Copied(p, i + 1)| <= buffer.length
      ensures buffer.data[..next] == C.Copied(p, i + 1)
    {
      hide C.Copied, F.Content, C.Inside, Good;
      C.CopiedNext(p, i);
      CopyOut(buffer, dst, chunks[i].start, chunks[i].length);
      next := dst + chunks[i].length;
    }

    /** getContent: the pieces of content, one behind the other, in `buffer`. */
    method GetContent(buffer: Buffer) returns (r: bool)
      requires Valid() && buffer.Valid() && buffer != recv.buffer && buffer.data != recv.buffer.data
      requires phase == P.Done ==> C.Inside(Abs()) && recv.now < SIZE_MOD
      modifies buffer, buffer.data
      ensures buffer.Valid() && Valid() && Abs() == old(Abs()) && (r <==> phase == P.Done)
      ensures r ==> buffer.data[..buffer.length] == F.Content(Abs())
    {
      if phase != P.Done {
        return false;
      }
      hide F.Content, C.Inside, Good;
      ghost var p := Abs();
      var total := TotalLength(p);
      buffer.Resize(total, 0);
      CopyPieces(buffer, p);
      return true;
    }
  }

  predicate AllClosed(lines: seq<P.Line>) {
    forall i :: 0 <= i < |lines| ==> lines[i].Closed?
  }

  lemma DoneLines(p: P.Parser)
    requires Good(p) && p.phase == P.Done
    ensures Terminated(p.buf, p.lines) && AllClosed(p.lines)
  {
  }

  /** Where the text of a recorded line is in the block `s` of which the first `n` bytes are received. */
  lemma LineInBuffer(s: seq<byte>, n: nat, lines: seq<P.Line>, i: nat)
    requires n <= |s| && i < |lines| && lines[i].Closed? && Terminated(s[..n], lines)
    ensures var end := lines[i].start + lines[i].length;
      end < n && s[end] == NUL && s[lines[i].start..end] == P.LineText(s[..n], lines[i])
  {
    PrefixSlice(s, n, lines[i].start, lines[i].start + lines[i].length);
    assert s[..n][lines[i].start + lines[i].length] == s[lines[i].start + lines[i].length];
  }

  lemma ParametersEnds(buf: seq<byte>, lines: seq<P.Line>)
    ensures Parameters(F.LineTexts(buf, lines[..0])) == [] && lines[..|lines|] == lines
  {
  }

  lemma ParametersSnoc(buf: seq<byte>, lines: seq<P.Line>, i: nat)
    requires i < |lines|
    ensures Parameters(F.LineTexts(buf, lines[..i + 1]))
         == Parameters(F.LineTexts(buf, lines[..i])) + ParameterOf(P.LineText(buf, lines[i]))
  {
    var texts, text := F.LineTexts(buf, lines[..i]), P.LineText(buf, lines[i]);
    assert lines[..i + 1][..i] == lines[..i];
    assert (texts + [text])[..|texts|] == texts;
  }

  lemma ExtractGood(p: P.Parser)
    requires p.phase == P.Done && Good(p)
    ensures 0 < p.index <= |p.buf| && Good(L.Extract(p))
  {
  }

  lemma RunIdle(p: P.Parser)
    requires P.Ok(p) && !P.Enabled(p)
    ensures P.Run(p) == p
  {
  }

  /** The steps outside the scanning loops. */
  lemma OtherStep(p: P.Parser)
    requires P.Ok(p) && P.Enabled(p) && Terminated(p.buf, p.lines)
    requires p.phase == P.Start || p.phase == P.ReadBody || p.phase == P.ChunkBody
    ensures var q := P.Step(p);
      && Good(q) && Reached(p, q) && q.phase != P.Uninit
      && (q.index > p.index || (q.index == p.index && P.Rank(q.phase) < P.Rank(p.phase)))
      && (P.Finished(q) ==> !P.Enabled(q)) && (p.phase == P.ReadBody ==> q.phase == P.Done)
  {
    hide P.Run;
    F.RunStep(p);
    P.StepOk(p);
    StepTerminated(p);
  }

  /** What one byte of a chunk-size line keeps. */
  lemma SizeStep(p: P.Parser)
    requires P.Ok(p) && p.phase == P.ChunkHeader && p.index < |p.buf| && Terminated(p.buf, p.lines)
    ensures p.index > 0
    ensures var q := P.SizeByte(p);
      && Good(q) && Reached(p, q) && q.index <= |q.buf|
      && (q.index > p.index || q.phase == P.Bad)
  {
    hide P.SizeByte, P.Run;
    F.RunStep(p);
    StepTerminated(p);
    P.SizeByteOk(p);
  }

  /** `q` is on the run of `p`. */
  predicate Reached(p: P.Parser, q: P.Parser) {
    && |p.buf| == |q.buf|
    && (P.Ok(p) ==> P.Ok(q) && q.phase != P.Uninit && P.Run(p) == P.Run(q))
  }

  lemma LineEndFacts(p: P.Parser)
    requires P.AtLineEnd(p)
    ensures p.lines != [] && 0 < p.index < |p.buf|
  {
  }

  lemma ReachedSelf(p: P.Parser)
    requires Good(p) && p.phase != P.Uninit
    ensures Reached(p, p)
  {
  }

  lemma ReachedOn(p0: P.Parser, p: P.Parser, q: P.Parser)
    requires Reached(p0, p) && Reached(p, q)
    ensures Reached(p0, q)
  {
  }

  lemma GoodOk(p: P.Parser)
    requires Good(p) && p.phase != P.Uninit && p.phase != P.Bad
    ensures P.Ok(p) && Terminated(p.buf, p.lines)
  {
  }

  lemma EndHeaderValue(p: P.Parser)
    requires P.AtLineEnd(p) && p.phase == P.ReadHeader && P.LastLine(p).start == p.index - 1
    ensures P.EndLines(p)
         == P.EnterBody(P.DropLastLine(P.CloseLine(p)).(index := p.index + 1, headerSize := p.index + 1))
  {
    hide P.EnterBody;
  }

  lemma CloseTerminated(p: P.Parser)
    requires P.AtLineEnd(p) && Terminated(p.buf, p.lines)
    ensures P.LastLine(p).start < p.index
    ensures var c := P.CloseLine(p); Terminated(c.buf, c.lines) && Terminated(c.buf, P.DropLastLine(c).lines)
  {
    P.CloseLineOk(p);
  }

  /** What one byte of a line does, case by case. */
  lemma LineCases(p: P.Parser)
    requires P.Ok(p) && P.InLine(p) && p.index < |p.buf|
    ensures p.lines != [] && (p.buf[p.index] == LF ==> p.index > 0)
    ensures P.AtLineEnd(p) ==> P.LastLine(p).start < p.index
    ensures var q := P.LineByte(p);
      && (p.buf[p.index] != LF ==> q == p.(index := p.index + 1))
      && (p.buf[p.index] == LF && p.buf[p.index - 1] != CR ==> q == p.(phase := P.Bad))
      && (p.buf[p.index] == LF && p.buf[p.index - 1] == CR ==> P.AtLineEnd(p))
      && (P.AtLineEnd(p) ==>
           q == if p.index - 1 > P.LastLine(p).start then P.NextLine(p) else P.EndLines(p))
  {
    hide P.EndLines, P.NextLine;
    if P.AtLineEnd(p) {
      P.CloseLineOk(p);
    }
  }

  /** What one byte of a line keeps. */
  lemma LineStep(p: P.Parser)
    requires P.Ok(p) && P.InLine(p) && p.index < |p.buf| && Terminated(p.buf, p.lines)
    ensures var q := P.LineByte(p);
      && Good(q) && Reached(p, q) && q.index <= |q.buf|
      && (q.index > p.index || q.phase == P.Bad)
      && (p.phase == P.ChunkFooter ==> q.phase == p.phase || P.Finished(q))
  {
    hide P.LineByte, Terminated;
    F.RunStep(p);
    LineByteTerminated(p);
    P.LineByteOk(p);
    if p.phase == P.ChunkFooter {
      FooterPhases(p);
    }
  }

  lemma FooterPhases(p: P.Parser)
    requires P.Ok(p) && P.InLine(p) && p.index < |p.buf| && p.phase == P.ChunkFooter
    ensures P.LineByte(p).phase == p.phase || P.Finished(P.LineByte(p))
  {
  }
}
