/** Messages by bracket balance, and the proof that the framer delivers exactly them. */
module JsonFraming {
  import opened Bytes
  import opened JsonParser

  predicate Kind(phase: Phase) {
    phase == Object || phase == Array
  }

  /** Opening minus closing brackets of one kind. */
  function Net(kind: Phase, s: seq<byte>): int {
    if s == [] then 0
    else
      var b := s[|s| - 1];
      Net(kind, s[..|s| - 1]) + (if b == Opener(kind) then 1 else if b == Closer(kind) then -1 else 0)
  }

  /** The shortest prefix that is balanced in the kind of its first bracket. */
  predicate Balanced(kind: Phase, m: seq<byte>) {
    && m != [] && m[0] == Opener(kind)
    && Net(kind, m) == 0
    && forall k :: 0 < k < |m| ==> Net(kind, m[..k]) > 0
  }

  predicate IsMessage(m: seq<byte>) {
    Balanced(Object, m) || Balanced(Array, m)
  }

  lemma NetSnoc(kind: Phase, s: seq<byte>, b: byte)
    ensures Net(kind, s + [b])
         == Net(kind, s) + (if b == Opener(kind) then 1 else if b == Closer(kind) then -1 else 0)
  {
    assert (s + [b])[..|s|] == s;
  }

  lemma NetOne(kind: Phase)
    ensures Net(kind, [Opener(kind)]) == 1
  {
    assert [Opener(kind)] == [] + [Opener(kind)];
    NetSnoc(kind, [], Opener(kind));
  }

  /** Inside a message the depth is the bracket balance since its first byte, and it has never been zero. */
  predicate InsideOk(p: Parser)
    requires Ok(p) && InMessage(p)
  {
    && p.buf[p.start] == Opener(p.phase)
    && p.depth == Net(p.phase, p.buf[p.start..p.index])
    && forall k :: p.start < k <= p.index ==> Net(p.phase, p.buf[p.start..k]) > 0
  }

  /** The framer knows what it has read: white space up to the start of a message, and then the message so far. */
  predicate Knows(p: Parser)
    requires Ok(p)
  {
    match p.phase
    case Start => AllSpace(p.buf[..p.index])
    case Object => AllSpace(p.buf[..p.start]) && InsideOk(p)
    case Array => AllSpace(p.buf[..p.start]) && InsideOk(p)
    case Done => AllSpace(p.buf[..p.start]) && IsMessage(Text(p))
    case Bad => true
  }

  lemma SpaceSnoc(s: seq<byte>, i: nat)
    requires i < |s| && AllSpace(s[..i]) && IsSpace(s[i])
    ensures AllSpace(s[..i + 1])
  {
    assert s[..i + 1] == s[..i] + [s[i]];
  }

  lemma OpenKnows(p: Parser)
    requires Ok(p) && Enabled(p) && p.phase == Start && Knows(p)
    ensures Ok(Step(p)) && Knows(Step(p))
  {
    hide Net;
    StepOk(p);
    var q := Step(p);
    if q.phase == Start {
      SpaceSnoc(p.buf, p.index);
    } else if q.phase != Bad {
      assert q.buf[q.start..q.index] == [Opener(q.phase)];
      NetOne(q.phase);
    }
  }

  lemma InsideBalanced(buf: seq<byte>, kind: Phase, start: nat, i: nat)
    requires start < i < |buf| && buf[start] == Opener(kind)
    requires forall k :: start < k <= i ==> Net(kind, buf[start..k]) > 0
    requires Net(kind, buf[start..i + 1]) == 0
    ensures Balanced(kind, buf[start..i + 1])
  {
    var m := buf[start..i + 1];
    forall k | 0 < k < |m|
      ensures Net(kind, m[..k]) > 0
    {
      assert m[..k] == buf[start..start + k];
    }
  }

  lemma ByteKnows(p: Parser)
    requires Ok(p) && Enabled(p) && InMessage(p) && Knows(p)
    ensures Ok(Step(p)) && Knows(Step(p))
  {
    hide Net;
    StepOk(p);
    assert p.buf[p.start..p.index + 1] == p.buf[p.start..p.index] + [p.buf[p.index]];
    NetSnoc(p.phase, p.buf[p.start..p.index], p.buf[p.index]);
    if Step(p).phase == Done {
      InsideBalanced(p.buf, p.phase, p.start, p.index);
    }
  }

  /** The depth never underflows: it is the bracket balance since the message began, for every run on any stream. */
  lemma {:induction false} RunKnows(p: Parser)
    requires Ok(p) && Knows(p)
    ensures Knows(Run(p))
    decreases |p.buf| - p.index, if p.phase == Bad then 0 else 1
  {
    hide Knows, Step;
    if Enabled(p) {
      StepOk(p);
      if p.phase == Start {
        OpenKnows(p);
      } else {
        ByteKnows(p);
      }
      RunKnows(Step(p));
    }
  }

  lemma FreshKnows(s: seq<byte>)
    ensures Knows(Run(Fresh(s)))
  {
    RunKnows(Fresh(s));
  }

  lemma RunStep(p: Parser)
    requires Ok(p) && Enabled(p)
    ensures Ok(Step(p)) && Run(p) == Run(Step(p))
  {
    StepOk(p);
  }

  lemma {:induction false} ScanSpaces(s: seq<byte>, i: nat, n: nat)
    requires i <= n <= |s| && forall k :: i <= k < n ==> IsSpace(s[k])
    ensures Ok(Fresh(s).(index := i)) && Ok(Fresh(s).(index := n))
    ensures Run(Fresh(s).(index := i)) == Run(Fresh(s).(index := n))
    decreases n - i
  {
    if i < n {
      RunStep(Fresh(s).(index := i));
      ScanSpaces(s, i + 1, n);
    }
  }

  /** The parser in the middle of the message that starts at `start`. */
  function Middle(s: seq<byte>, kind: Phase, start: nat, i: nat): Parser
    requires start < i <= |s|
  {
    var depth := Net(kind, s[start..i]);
    Parser(s, kind, i, if depth < 0 then 0 else depth, start)
  }

  lemma {:induction false} ScanMessage(s: seq<byte>, kind: Phase, start: nat, i: nat, end: nat)
    requires Kind(kind) && start < i < end <= |s|
    requires Net(kind, s[start..end]) == 0 && forall k :: start < k < end ==> Net(kind, s[start..k]) > 0
    ensures Ok(Middle(s, kind, start, i)) && Run(Middle(s, kind, start, i)) == Parser(s, Done, end, 0, start)
    decreases end - i
  {
    hide Net;
    var p := Middle(s, kind, start, i);
    assert s[start..i + 1] == s[start..i] + [s[i]];
    NetSnoc(kind, s[start..i], s[i]);
    RunStep(p);
    if i + 1 < end {
      assert Step(p) == Middle(s, kind, start, i + 1);
      ScanMessage(s, kind, start, i + 1, end);
    }
  }

  lemma EnterMessage(s: seq<byte>, kind: Phase, start: nat)
    requires Kind(kind) && start < |s| && s[start] == Opener(kind)
    ensures Ok(Fresh(s).(index := start)) && Ok(Middle(s, kind, start, start + 1))
    ensures Run(Fresh(s).(index := start)) == Run(Middle(s, kind, start, start + 1))
  {
    assert s[start..start + 1] == [Opener(kind)];
    NetOne(kind);
    RunStep(Fresh(s).(index := start));
  }

  lemma BalancedAt(s: seq<byte>, kind: Phase, start: nat, end: nat)
    requires start <= end <= |s| && Balanced(kind, s[start..end])
    ensures start + 1 < end && s[start] == Opener(kind) && Net(kind, s[start..end]) == 0
    ensures forall k :: start < k < end ==> Net(kind, s[start..k]) > 0
  {
    var m := s[start..end];
    assert m == [m[0]] + m[1..];
    NetOne(kind);
    forall k | start < k < end
      ensures Net(kind, s[start..k]) > 0
    {
      assert m[..k - start] == s[start..k];
    }
  }

  /** White space and one message in front: the framer stops right behind it with its exact bounds. */
  lemma OneMessage(gap: seq<byte>, m: seq<byte>, rest: seq<byte>)
    requires AllSpace(gap) && IsMessage(m)
    ensures Run(Fresh(gap + m + rest)) == Parser(gap + m + rest, Done, |gap| + |m|, 0, |gap|)
    ensures Text(Run(Fresh(gap + m + rest))) == m
  {
    hide Run, Net;
    var s := gap + m + rest;
    var kind := if Balanced(Object, m) then Object else Array;
    assert s[|gap|..|gap| + |m|] == m;
    BalancedAt(s, kind, |gap|, |gap| + |m|);
    ScanSpaces(s, 0, |gap|);
    assert Fresh(s) == Fresh(s).(index := 0);
    EnterMessage(s, kind, |gap|);
    ScanMessage(s, kind, |gap|, |gap| + 1, |gap| + |m|);
  }

  datatype Item = Item(gap: seq<byte>, text: seq<byte>)

  predicate ItemsOk(items: seq<Item>) {
    forall i :: 0 <= i < |items| ==> AllSpace(items[i].gap) && IsMessage(items[i].text)
  }

  function Join(items: seq<Item>): seq<byte> {
    if items == [] then [] else items[0].gap + items[0].text + Join(items[1..])
  }

  function Texts(items: seq<Item>): seq<seq<byte>> {
    if items == [] then [] else [items[0].text] + Texts(items[1..])
  }

  /** Messages joined by white space come out one by one, exactly, whatever follows them. */
  lemma {:induction false} JsonRoundTrip(items: seq<Item>, rest: seq<byte>)
    requires ItemsOk(items)
    ensures MessagesOf(Join(items) + rest) == Texts(items) + MessagesOf(rest)
    decreases |items|
  {
    hide Run, Net, IsMessage, AllSpace;
    if items == [] {
      assert Join(items) + rest == rest;
    } else {
      var gap, m, more := items[0].gap, items[0].text, Join(items[1..]) + rest;
      Assoc(gap + m, Join(items[1..]), rest);
      OneMessage(gap, m, more);
      assert (gap + m + more)[|gap| + |m|..] == more;
      JsonRoundTrip(items[1..], rest);
      Assoc([m], Texts(items[1..]), MessagesOf(rest));
    }
  }

  /** The stream begins with white space and a message. */
  ghost predicate HasMessage(s: seq<byte>) {
    exists gap, m, rest :: s == gap + m + rest && AllSpace(gap) && IsMessage(m)
  }

  /** The framer finishes exactly on the streams that begin with white space and a message. */
  lemma DoneIff(s: seq<byte>)
    ensures Run(Fresh(s)).phase == Done <==> HasMessage(s)
  {
    hide Run, Net, IsMessage;
    FreshKnows(s);
    var r := Run(Fresh(s));
    if r.phase == Done {
      assert s == s[..r.start] + s[r.start..r.index] + s[r.index..];
    } else if HasMessage(s) {
      var gap, m, rest :| s == gap + m + rest && AllSpace(gap) && IsMessage(m);
      OneMessage(gap, m, rest);
    }
  }

  /** Every stream is its messages with white space before each, and a rest that no message begins: the framer invents
      nothing, skips nothing but white space and stops only where no further message is complete. */
  lemma {:induction false} JsonDecomposition(s: seq<byte>) returns (items: seq<Item>, rest: seq<byte>)
    ensures ItemsOk(items) && s == Join(items) + rest
    ensures MessagesOf(s) == Texts(items) && !HasMessage(rest)
    decreases |s|
  {
    hide Run, Net, IsMessage, AllSpace;
    DoneIff(s);
    var r := Run(Fresh(s));
    if r.phase != Done {
      return [], s;
    }
    FreshKnows(s);
    var gap, m, more := s[..r.start], s[r.start..r.index], s[r.index..];
    var tail;
    tail, rest := JsonDecomposition(more);
    items := [Item(gap, m)] + tail;
    assert s == gap + m + more;
    Assoc(gap + m, Join(tail), rest);
    assert items[1..] == tail;
  }
}
