/** How a JSON session ends: on exactly which streams it closes its connection, wherever the packets were cut and
    wherever the buffer was compacted. */
module JsonEnds {
  import opened Bytes
  import opened JsonParser
  import opened JsonFraming
  import opened JsonReferences
  import opened JsonSessions

  /** The bytes behind the last message of a stream. */
  function Behind(s: seq<byte>): seq<byte>
    decreases |s|
  {
    var r := Run(Fresh(s));
    if r.phase == Done then Behind(s[r.index..]) else s
  }

  /** The phase of the framer at the end of the stream. */
  function EndOf(s: seq<byte>): Phase {
    Run(Fresh(Behind(s))).phase
  }

  /** And from the middle of a message on. */
  function EndFrom(p: Parser): Phase
    requires Ok(p)
  {
    var r := Run(p);
    if r.phase == Done then EndOf(r.buf[r.index..]) else r.phase
  }

  lemma EndFresh(s: seq<byte>)
    ensures EndFrom(Fresh(s)) == EndOf(s)
  {
  }

  lemma EndRunAppend(p: Parser, x: seq<byte>)
    requires Ok(p)
    ensures Ok(Append(p, x)) && Ok(Append(Run(p), x))
    ensures EndFrom(Append(Run(p), x)) == EndFrom(Append(p, x))
  {
    RunAppend(p, x);
  }

  lemma EndDrop(p: Parser, k: nat)
    requires Ok(p) && k <= p.start
    ensures Ok(Drop(p, k)) && EndFrom(Drop(p, k)) == EndFrom(p)
  {
    hide Run;
    RunDrop(p, k);
    TextDrop(Run(p), k);
  }

  lemma EndDone(p: Parser, x: seq<byte>)
    requires Ok(p) && p.phase == Done
    ensures Ok(Append(p, x)) && EndFrom(Append(p, x)) == EndOf(p.buf[p.index..] + x)
  {
    assert (p.buf + x)[p.index..] == p.buf[p.index..] + x;
  }

  lemma EndRestarted(p: Parser, x: seq<byte>)
    requires Ok(p)
    ensures Ok(Append(Restarted(p), x)) && EndFrom(Append(Restarted(p), x)) == EndOf(p.buf[p.index..] + x)
  {
    hide Run, EndOf;
    var q := Append(Restarted(p), x);
    assert (p.buf + x)[p.index..] == p.buf[p.index..] + x;
    assert Drop(q, p.index) == Fresh(p.buf[p.index..] + x);
    EndDrop(q, p.index);
    EndFresh(p.buf[p.index..] + x);
  }

  lemma EndCleared(p: Parser, x: seq<byte>)
    requires Ok(p) && p.phase != Done
    ensures Ok(Cleared(p)) && Ok(Append(Cleared(p), x)) && Ok(Append(p, x))
    ensures EndFrom(Append(Cleared(p), x)) == EndFrom(Append(p, x))
  {
    hide Run, EndOf, EndFrom;
    if p.phase != Bad && p.start != 0 {
      var q := Append(p, x);
      EndDrop(q, p.start);
      assert (p.buf + x)[p.start..] == p.buf[p.start..] + x;
      assert Append(Drop(p, p.start), x) == Drop(q, p.start);
    }
  }

  /** Whatever arrives next, the framer ends as on everything received; the close has been pushed exactly if it is
      bad. */
  ghost predicate EndInv(s: Session) {
    && Inv(s) && (s.closed <==> s.ctx.phase == Bad)
    && (!s.lost ==> forall x :: EndFrom(Append(s.ctx, s.raw + x)) == EndOf(s.total + x))
  }

  lemma InitialEnd(limit: nat)
    ensures EndInv(Initial(limit))
  {
    InitialInv(limit);
    var s := Initial(limit);
    forall x
      ensures EndFrom(Append(s.ctx, s.raw + x)) == EndOf(s.total + x)
    {
      assert [] + x == x;
      EndFresh(x);
    }
  }

  lemma ClosedStays(s: Session, e: Event)
    requires Ok(s.ctx) && (s.closed <==> s.ctx.phase == Bad) && s.ctx.phase != Done
    ensures Do(s, e).closed <==> Do(s, e).ctx.phase == Bad
  {
    if e == Clear {
      hide Run;
    } else if e == Analyse && s.ctx.phase == Bad {
      assert Run(s.ctx) == s.ctx;
    } else {
      hide Run;
    }
  }

  lemma AnalyseEnd(s: Session, x: seq<byte>)
    requires Ok(s.ctx)
    ensures Ok(Do(s, Analyse).ctx)
    ensures EndFrom(Append(Do(s, Analyse).ctx, s.raw + x)) == EndFrom(Append(s.ctx, s.raw + x))
  {
    hide Run, EndOf, EndFrom;
    var p := Run(s.ctx);
    EndRunAppend(s.ctx, s.raw + x);
    if p.phase == Done {
      EndDone(p, s.raw + x);
      EndRestarted(p, s.raw + x);
    }
  }

  lemma DoEndAt(s: Session, e: Event, x: seq<byte>)
    requires EndInv(s) && !Do(s, e).lost
    ensures var s' := Do(s, e); Ok(s'.ctx) && EndFrom(Append(s'.ctx, s'.raw + x)) == EndOf(s'.total + x)
  {
    hide Run, EndOf, EndFrom;
    assert EndFrom(Append(s.ctx, s.raw + x)) == EndOf(s.total + x);
    match e
    case Receive(b) =>
      Assoc(s.total, b, x);
      Assoc(s.raw, b, x);
      assert EndFrom(Append(s.ctx, s.raw + (b + x))) == EndOf(s.total + (b + x));
    case Merge =>
      Assoc(s.ctx.buf, s.raw, x);
      assert [] + x == x;
    case Analyse => AnalyseEnd(s, x);
    case Clear => EndCleared(s.ctx, s.raw + x);
  }

  lemma DoEnd(s: Session, e: Event)
    requires EndInv(s)
    ensures EndInv(Do(s, e))
  {
    DoInv(s, e);
    ClosedStays(s, e);
    if !Do(s, e).lost {
      forall x
        ensures EndFrom(Append(Do(s, e).ctx, Do(s, e).raw + x)) == EndOf(Do(s, e).total + x)
      {
        DoEndAt(s, e, x);
      }
    }
    hide Inv, Do, EndFrom, EndOf;
  }

  lemma {:induction false} RunEnd(s: Session, events: seq<Event>)
    requires EndInv(s)
    ensures Ok(s.ctx) && EndInv(RunEvents(s, events))
    decreases |events|
  {
    InvOk(s);
    hide EndInv, Do;
    if events != [] {
      DoOk(s, events[0]);
      DoEnd(s, events[0]);
      RunEnd(Do(s, events[0]), events[1..]);
    }
  }

  /** In every run without overflow: once everything received has been merged and read, the session has closed its
      connection exactly if the first byte behind the last message and white space is no opening bracket. */
  lemma ClosedIff(limit: nat, events: seq<Event>)
    ensures Ok(Initial(limit).ctx)
    ensures var s := RunEvents(Initial(limit), events); var b := Behind(s.total); var f := FirstSolid(b);
      !s.lost && s.raw == [] && !Enabled(s.ctx) ==> (s.closed <==> f < |b| && b[f] != 123 && b[f] != 91)
  {
    hide RunEvents, Behind, FirstSolid, EndInv;
    InitialEnd(limit);
    RunEnd(Initial(limit), events);
    var s := RunEvents(Initial(limit), events);
    if !s.lost && s.raw == [] && !Enabled(s.ctx) {
      ReadToEnd(s);
      JsonVerdict(Behind(s.total));
    }
  }

  lemma ReadToEnd(s: Session)
    requires EndInv(s) && !s.lost && s.raw == [] && !Enabled(s.ctx)
    ensures s.closed <==> EndOf(s.total) == Bad
  {
    assert Append(s.ctx, [] + []) == s.ctx && s.total + [] == s.total;
    assert EndFrom(Append(s.ctx, s.raw + [])) == EndOf(s.total + []);
    hide EndOf;
  }

  /** The bytes behind the messages of a stream are what its decomposition leaves. */
  lemma {:induction false} BehindJoin(items: seq<Item>, rest: seq<byte>)
    requires ItemsOk(items)
    ensures Behind(Join(items) + rest) == Behind(rest)
    decreases |items|
  {
    hide Run, IsMessage, AllSpace;
    if items == [] {
      assert Join(items) + rest == rest;
    } else {
      var gap, m, more := items[0].gap, items[0].text, Join(items[1..]) + rest;
      Assoc(gap + m, Join(items[1..]), rest);
      OneMessage(gap, m, more);
      assert (gap + m + more)[|gap| + |m|..] == more;
      BehindJoin(items[1..], rest);
    }
  }

  /** Messages joined by white space and a rest: the connection is closed exactly if the rest can begin no message. */
  lemma ClosedByRest(limit: nat, events: seq<Event>, items: seq<Item>, rest: seq<byte>)
    requires ItemsOk(items) && !HasText(rest)
    ensures Ok(Initial(limit).ctx)
    ensures var s := RunEvents(Initial(limit), events); var f := FirstSolid(rest);
      s.total == Join(items) + rest && !s.lost && s.raw == [] && !Enabled(s.ctx) ==>
        (s.closed <==> f < |rest| && rest[f] != 123 && rest[f] != 91)
  {
    hide RunEvents, FirstSolid, HasText, Join;
    ClosedIff(limit, events);
    BehindJoin(items, rest);
    JsonVerdict(rest);
  }
}
