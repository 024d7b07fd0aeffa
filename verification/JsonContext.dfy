/** CjsonContext: the framer that advances over the receive buffer, and the loop of CjsonTask::run. */
module JsonContexts {
  import opened Bytes
  import opened Buffers
  import opened RecvBuffers
  import J = JsonParser

  /** `q` is on the run of `p`. */
  predicate Reached(p: J.Parser, q: J.Parser) {
    J.Ok(p) && J.Ok(q) && q.buf == p.buf && J.Run(p) == J.Run(q) && p.index <= q.index
  }

  lemma ReachedStep(p0: J.Parser, p: J.Parser)
    requires Reached(p0, p) && J.Enabled(p)
    ensures Reached(p0, J.Step(p))
    ensures J.Step(p).index > p.index || J.Step(p).phase == J.Bad
  {
    J.StepOk(p);
  }

  lemma RunIdle(p: J.Parser)
    requires J.Ok(p) && !J.Enabled(p)
    ensures J.Run(p) == p
  {
  }

  class JsonContext {
    const recv: RecvBuffer
    var phase: J.Phase
    var index: nat
    var depth: nat
    var start: nat

    ghost function Abs(): J.Parser
      requires recv.Valid()
      reads this, recv, recv.buffer, recv.buffer.data
    {
      J.Parser(recv.Received(), phase, index, depth, start)
    }

    ghost predicate Valid()
      reads this, recv, recv.buffer, recv.buffer.data
    {
      recv.Valid() && J.Ok(Abs())
    }

    constructor (initial: nat, max: nat)
      ensures Valid() && fresh(recv) && fresh(recv.buffer) && fresh(recv.buffer.data)
      ensures Abs() == J.Fresh([]) && recv.State() == Recv([], [], false, [])
    {
      recv := new RecvBuffer(initial, max);
      index, phase, depth, start := 0, J.Start, 0, 0;
    }

    /** The `state_start` case: `again` is `goto _again`. */
    method StartCase(ghost p0: J.Parser) returns (again: bool, ghost p: J.Parser)
      requires Valid() && Abs() == p0 && p0.phase == J.Start && p0.index < |p0.buf|
      modifies this
      ensures Valid() && Abs() == p && Reached(p0, p)
      ensures again ==> p.index > p0.index && J.InMessage(p)
      ensures !again ==> p.phase == J.Bad || (p.phase == J.Start && p.index == |p.buf|)
    {
      p := p0;
      while true
        invariant Valid() && Abs() == p && Reached(p0, p) && p.phase == J.Start && p.index < |p.buf|
        decreases |p.buf| - p.index
      {
        hide J.Run;
        var ch := recv.buffer.data[index];
        assert ch == p.buf[p.index];
        ReachedStep(p0, p);
        p := J.Step(p);
        if !IsSpace(ch) {
          if ch == J.OPEN_BRACE {
            phase := J.Object;
            depth := depth + 1;
            start := index;
            index := index + 1;
            return true, p;
          } else if ch == J.OPEN_BRACKET {
            phase := J.Array;
            depth := depth + 1;
            start := index;
            index := index + 1;
            return true, p;
          } else {
            phase := J.Bad;
            return false, p;
          }
        }
        index := index + 1;
        if index >= recv.now {
          assert p.index == |p.buf|;
          return false, p;
        }
      }
    }

    /** The `state_object` and `state_array` cases, which differ only in the kind of bracket. */
    method MessageCase(open: byte, close: byte, ghost p0: J.Parser) returns (ghost p: J.Parser)
      requires Valid() && Abs() == p0 && J.InMessage(p0) && p0.index < |p0.buf|
      requires open == J.Opener(p0.phase) && close == J.Closer(p0.phase)
      modifies this
      ensures Valid() && Abs() == p && Reached(p0, p)
      ensures p.phase == J.Done || (p.phase == p0.phase && p.index == |p.buf|)
    {
      p := p0;
      while true
        invariant Valid() && Abs() == p && Reached(p0, p) && p.phase == p0.phase && p.index < |p.buf|
        decreases |p.buf| - p.index
      {
        hide J.Run;
        var ch := recv.buffer.data[index];
        assert ch == p.buf[p.index];
        ReachedStep(p0, p);
        p := J.Step(p);
        if ch == open {
          depth := depth + 1;
        } else if ch == close {
          depth := depth - 1;
          if depth == 0 {
            phase := J.Done;
            index := index + 1;
            return p;
          }
        }
        index := index + 1;
        if index >= recv.now {
          assert p.index == |p.buf|;
          return p;
        }
      }
    }

    /** `analysis`. */
    method Analysis() returns (finished: bool)
      requires Valid()
      modifies this
      ensures Valid() && Abs() == J.Run(old(Abs()))
      ensures finished <==> phase == J.Done || phase == J.Bad
    {
      hide J.Run;
      ghost var p0 := Abs();
      ghost var p := p0;
      while true
        invariant Valid() && Abs() == p && Reached(p0, p)
        decreases |p.buf| - p.index
      {
        if !J.Enabled(p) {
          RunIdle(p);
        }
        if phase == J.Done || phase == J.Bad {
          return true;
        }
        if recv.now <= index {
          return false;
        }
        if phase == J.Start {
          var again;
          ghost var before := p;
          again, p := StartCase(before);
          if !again {
            RunIdle(p);
            return phase == J.Bad;
          }
        } else {
          var open, close := J.Opener(phase), J.Closer(phase);
          p := MessageCase(open, close, p);
          RunIdle(p);
          return phase == J.Done;
        }
      }
    }

    /** The bounds of the finished message inside the buffer. */
    method ReferenceContent() returns (r: bool, from: nat, length: nat)
      requires Valid()
      ensures r <==> phase == J.Done
      ensures r ==> from + length <= recv.now && recv.buffer.data[from..from + length] == J.Text(Abs())
    {
      if phase != J.Done {
        return false, 0, 0;
      }
      PrefixSlice(recv.buffer.data[..], recv.now, start, index);
      return true, start, index - start;
    }

    /** Copies the finished message out. */
    method Extract(copy: Buffer) returns (r: bool)
      requires Valid() && copy.Valid() && copy != recv.buffer && copy.data != recv.buffer.data
      modifies copy, copy.data
      ensures Valid() && copy.Valid() && Abs() == old(Abs()) && (r <==> phase == J.Done)
      ensures r ==> copy.data[..copy.length] == J.Text(Abs())
    {
      if phase != J.Done {
        return false;
      }
      PrefixSlice(recv.buffer.data[..], recv.now, start, index);
      ghost var text := J.Text(Abs());
      assert text == recv.buffer.data[start..index];
      copy.Set(recv.buffer.data[start..index]);
      return true;
    }

    method Restart()
      requires Valid()
      modifies this
      ensures Valid() && Abs() == J.Restarted(old(Abs()))
    {
      phase := J.Start;
      depth := 0;
      start := index;
    }

    /** `clear`: compacts the buffer. */
    method Clear()
      requires Valid()
      modifies this, recv`now, recv.buffer.data
      ensures Valid() && Abs() == J.Cleared(old(Abs()))
    {
      if phase == J.Done {
        recv.DropFront(index);
        index, phase, depth, start := 0, J.Start, 0, 0;
      } else if phase != J.Bad && start != 0 {
        recv.DropFront(start);
        index, start := index - start, 0;
      }
    }
  }
}
