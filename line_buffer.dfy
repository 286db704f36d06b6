/**
  The `LineBuffer` of src/lib/utils.ts: text arrives in chunks, every complete
  `'\n'`-terminated line is handed to the line listeners as soon as it is seen, and
  the unterminated remainder waits in `buf` until `done`.

  Listeners are callbacks in the source; here a listener is an id and each call made
  to it is recorded, in order, in a log that the methods extend.
 */
module LineBuffers {
  import opened Wrappers
  import opened JsStrings

  type ListenerId = nat

  /** One call `listener(arg)`. */
  datatype Call<T> = Call(listener: ListenerId, arg: T)

  /** The complete lines of a text, in order, and the unterminated tail after the last `'\n'`. */
  datatype Lines = Lines(complete: seq<string>, rest: string)

  /** What the `append` loop extracts from a text: it cuts at each first `'\n'` in turn. */
  function SplitLines(s: string): Lines
    decreases |s|
  {
    var idx := IndexOfChar(s, '\n');
    if idx == -1 then Lines([], s)
    else
      var tail := SplitLines(s[idx + 1..]);
      Lines([s[..idx]] + tail.complete, tail.rest)
  }

  /** The text made of the given lines, each followed by `'\n'`. */
  function Terminated(lines: seq<string>): string {
    if lines == [] then "" else lines[0] + "\n" + Terminated(lines[1..])
  }

  predicate NoNewline(lines: seq<string>) {
    forall i :: 0 <= i < |lines| ==> '\n' !in lines[i]
  }

  /** One step of the split: the text up to the first `'\n'` is the first line. */
  lemma SplitLinesStep(s: string, idx: int)
    requires idx == IndexOfChar(s, '\n') && idx >= 0
    ensures SplitLines(s) == Lines([s[..idx]] + SplitLines(s[idx + 1..]).complete, SplitLines(s[idx + 1..]).rest)
  {
  }

  /** Splitting loses and duplicates nothing: the lines, each followed by `'\n'`, then the tail, are the text. */
  lemma {:induction false} SplitLinesRoundTrip(s: string)
    ensures Terminated(SplitLines(s).complete) + SplitLines(s).rest == s
    decreases |s|
  {
    var idx := IndexOfChar(s, '\n');
    if idx != -1 {
      var line, t := s[..idx], s[idx + 1..];
      SplitLinesRoundTrip(t);
      var tail := SplitLines(t);
      SplitLinesStep(s, idx);
      TerminatedCons(line, tail.complete);
      ConcatAssoc(line + "\n", Terminated(tail.complete), tail.rest);
      CutAt(s, idx);
      assert [s[idx]] == "\n";
    }
  }

  /** No fired line and not the kept tail contains `'\n'`. */
  lemma {:induction false} SplitLinesNoNewline(s: string)
    ensures NoNewline(SplitLines(s).complete)
    ensures '\n' !in SplitLines(s).rest
    decreases |s|
  {
    var idx := IndexOfChar(s, '\n');
    if idx != -1 {
      var t := s[idx + 1..];
      SplitLinesNoNewline(t);
      var tail := SplitLines(t);
      SplitLinesStep(s, idx);
      NoNewlineCons(s[..idx], tail.complete);
    }
  }

  lemma NoNewlineCons(line: string, lines: seq<string>)
    requires '\n' !in line && NoNewline(lines)
    ensures NoNewline([line] + lines)
  {
    forall i | 0 <= i < |[line] + lines| ensures '\n' !in ([line] + lines)[i] {
      if i > 0 {
        assert ([line] + lines)[i] == lines[i - 1];
      }
    }
  }

  lemma TerminatedCons(line: string, lines: seq<string>)
    ensures Terminated([line] + lines) == line + "\n" + Terminated(lines)
  {
    assert ([line] + lines)[1..] == lines;
  }

  /** The split is the only one with those properties: text order is kept line by line. */
  lemma {:induction false} SplitLinesUnique(lines: seq<string>, rest: string)
    requires NoNewline(lines) && '\n' !in rest
    ensures SplitLines(Terminated(lines) + rest) == Lines(lines, rest)
  {
    if lines != [] {
      var a := lines[0];
      var s := Terminated(lines) + rest;
      var t := Terminated(lines[1..]) + rest;
      ConcatAssoc(a + "\n", Terminated(lines[1..]), rest);
      Pieces(a, '\n', t);
      assert '\n' !in a;
      forall j | 0 <= j < |a| ensures s[j] != '\n' {
        assert s[j] == a[j];
      }
      IndexOfCharIs(s, '\n', |a|);
      SplitLinesUnique(lines[1..], rest);
      SplitLinesStep(s, |a|);
      HeadTail(lines);
    }
  }

  /** One call per listener, in registration order, all with the same argument. */
  function Calls<T>(listeners: seq<ListenerId>, arg: T): (r: seq<Call<T>>)
    ensures |r| == |listeners|
    ensures forall i :: 0 <= i < |r| ==> r[i] == Call(listeners[i], arg)
  {
    if listeners == [] then []
    else Calls(listeners[..|listeners| - 1], arg) + [Call(listeners[|listeners| - 1], arg)]
  }

  /** The calls made when `lines` fire one after another. */
  function Deliveries(listeners: seq<ListenerId>, lines: seq<string>): seq<Call<string>> {
    if lines == [] then []
    else Deliveries(listeners, lines[..|lines| - 1]) + Calls(listeners, lines[|lines| - 1])
  }

  lemma DeliveriesSnoc(listeners: seq<ListenerId>, lines: seq<string>, line: string)
    ensures Deliveries(listeners, lines + [line]) == Deliveries(listeners, lines) + Calls(listeners, line)
  {
    assert (lines + [line])[..|lines|] == lines;
  }

  /** How often `l` is registered. */
  function Registrations(listeners: seq<ListenerId>, l: ListenerId): nat {
    if listeners == [] then 0
    else Registrations(listeners[..|listeners| - 1], l) + if listeners[|listeners| - 1] == l then 1 else 0
  }

  /** The arguments of the calls that went to `l`, in order. */
  function ReceivedBy<T>(calls: seq<Call<T>>, l: ListenerId): seq<T> {
    if calls == [] then []
    else ReceivedBy(calls[..|calls| - 1], l) + if calls[|calls| - 1].listener == l then [calls[|calls| - 1].arg] else []
  }

  lemma {:induction false} ReceivedByAppend<T>(a: seq<Call<T>>, b: seq<Call<T>>, l: ListenerId)
    ensures ReceivedBy(a + b, l) == ReceivedBy(a, l) + ReceivedBy(b, l)
    decreases |b|
  {
    if b == [] {
      assert a + b == a;
    } else {
      var b' := b[..|b| - 1];
      assert (a + b)[..|a + b| - 1] == a + b';
      ReceivedByAppend(a, b', l);
    }
  }

  lemma {:induction false} ReceivedOneLine(listeners: seq<ListenerId>, line: string, l: ListenerId)
    requires Registrations(listeners, l) == 1
    ensures ReceivedBy(Calls(listeners, line), l) == [line]
  {
    var n := |listeners|;
    var init := listeners[..n - 1];
    ReceivedByAppend(Calls(init, line), [Call(listeners[n - 1], line)], l);
    if listeners[n - 1] == l {
      assert ReceivedBy(Calls(init, line), l) == [] by {
        NotRegisteredReceivesNothing(init, line, l);
      }
      assert ReceivedBy([Call(listeners[n - 1], line)], l) == [line] by {
        assert [Call(listeners[n - 1], line)][..0] == [];
      }
    } else {
      ReceivedOneLine(init, line, l);
      assert ReceivedBy([Call(listeners[n - 1], line)], l) == [] by {
        assert [Call(listeners[n - 1], line)][..0] == [];
      }
    }
  }

  lemma {:induction false} NotRegisteredReceivesNothing(listeners: seq<ListenerId>, line: string, l: ListenerId)
    requires Registrations(listeners, l) == 0
    ensures ReceivedBy(Calls(listeners, line), l) == []
  {
    if listeners != [] {
      var n := |listeners|;
      var init := listeners[..n - 1];
      ReceivedByAppend(Calls(init, line), [Call(listeners[n - 1], line)], l);
      NotRegisteredReceivesNothing(init, line, l);
      assert ReceivedBy([Call(listeners[n - 1], line)], l) == [] by {
        assert [Call(listeners[n - 1], line)][..0] == [];
      }
    }
  }

  /** A listener registered once receives every fired line exactly once, in firing order. */
  lemma {:induction false} EveryListenerGetsEveryLine(listeners: seq<ListenerId>, lines: seq<string>, l: ListenerId)
    requires Registrations(listeners, l) == 1
    ensures ReceivedBy(Deliveries(listeners, lines), l) == lines
  {
    if lines != [] {
      var init, last := lines[..|lines| - 1], lines[|lines| - 1];
      EveryListenerGetsEveryLine(listeners, init, l);
      assert Deliveries(listeners, lines) == Deliveries(listeners, init) + Calls(listeners, last);
      ReceivedByAppend(Deliveries(listeners, init), Calls(listeners, last), l);
      ReceivedOneLine(listeners, last, l);
      InitLast(lines);
    }
  }

  /** The loop of `append` keeps the split of the whole text when it cuts one more line off. */
  lemma SplitInvariantStep(text: string, fired: seq<string>, buf: string, idx: int, next: string)
    requires idx == IndexOfChar(buf, '\n') && idx >= 0 && next == buf[idx + 1..]
    requires SplitLines(text) == Lines(fired + SplitLines(buf).complete, SplitLines(buf).rest)
    ensures SplitLines(text) == Lines((fired + [buf[..idx]]) + SplitLines(next).complete, SplitLines(next).rest)
  {
    SplitLinesStep(buf, idx);
    ConcatAssoc(fired, [buf[..idx]], SplitLines(next).complete);
  }

  lemma DeliveriesInvariantStep(calls0: seq<Call<string>>, listeners: seq<ListenerId>, fired: seq<string>, line: string)
    ensures calls0 + Deliveries(listeners, fired) + Calls(listeners, line) == calls0 + Deliveries(listeners, fired + [line])
  {
    DeliveriesSnoc(listeners, fired, line);
    ConcatAssoc(calls0, Deliveries(listeners, fired), Calls(listeners, line));
  }

  class LineBuffer {
    var buf: string
    var lineListeners: seq<ListenerId>
    var lastListeners: seq<ListenerId>
    /** Every call made so far to a line listener. */
    var lineCalls: seq<Call<string>>
    /** Every call made so far to a done listener; `None` stands for `null`. */
    var doneCalls: seq<Call<Option<string>>>

    constructor ()
      ensures buf == "" && lineListeners == [] && lastListeners == []
      ensures lineCalls == [] && doneCalls == []
    {
      buf := "";
      lineListeners := [];
      lastListeners := [];
      lineCalls := [];
      doneCalls := [];
    }

    /**
      Adds a chunk and fires every line it completes. The fired lines and the new
      buffer are exactly the split of the old buffer followed by the chunk.
     */
    method Append(chunk: string)
      modifies this`buf, this`lineCalls
      ensures buf == SplitLines(old(buf) + chunk).rest
      ensures '\n' !in buf
      ensures lineCalls == old(lineCalls) + Deliveries(lineListeners, SplitLines(old(buf) + chunk).complete)
    {
      buf := buf + chunk;
      ghost var text := buf;
      ghost var fired: seq<string> := [];
      while true
        invariant SplitLines(text) == Lines(fired + SplitLines(buf).complete, SplitLines(buf).rest)
        invariant lineCalls == old(lineCalls) + Deliveries(lineListeners, fired)
        decreases |buf|
      {
        var idx := IndexOfChar(buf, '\n');
        if idx == -1 {
          assert SplitLines(buf) == Lines([], buf);
          assert fired + [] == fired;
          break;
        }
        var line, next := buf[..idx], buf[idx + 1..];
        FireLine(line);
        SplitInvariantStep(text, fired, buf, idx, next);
        DeliveriesInvariantStep(old(lineCalls), lineListeners, fired, line);
        fired := fired + [line];
        buf := next;
      }
      SplitLinesRoundTrip(text);
      SplitLinesNoNewline(text);
    }

    /** Reports the pending text, or `null` when nothing is pending; the buffer is kept. */
    method Done()
      modifies this`doneCalls
      ensures doneCalls == old(doneCalls) + Calls(lastListeners, if buf != "" then Some(buf) else None)
    {
      FireDone(if buf != "" then Some(buf) else None);
    }

    method FireLine(line: string)
      modifies this`lineCalls
      ensures lineCalls == old(lineCalls) + Calls(lineListeners, line)
    {
      var i := 0;
      while i < |lineListeners|
        invariant 0 <= i <= |lineListeners|
        invariant lineCalls == old(lineCalls) + Calls(lineListeners[..i], line)
      {
        assert lineListeners[..i + 1][..i] == lineListeners[..i];
        lineCalls := lineCalls + [Call(lineListeners[i], line)];
        i := i + 1;
      }
      assert lineListeners[..i] == lineListeners;
    }

    method FireDone(last: Option<string>)
      modifies this`doneCalls
      ensures doneCalls == old(doneCalls) + Calls(lastListeners, last)
    {
      var i := 0;
      while i < |lastListeners|
        invariant 0 <= i <= |lastListeners|
        invariant doneCalls == old(doneCalls) + Calls(lastListeners[..i], last)
      {
        assert lastListeners[..i + 1][..i] == lastListeners[..i];
        doneCalls := doneCalls + [Call(lastListeners[i], last)];
        i := i + 1;
      }
      assert lastListeners[..i] == lastListeners;
    }

    method OnLine(listener: ListenerId)
      modifies this`lineListeners
      ensures lineListeners == old(lineListeners) + [listener]
    {
      lineListeners := lineListeners + [listener];
    }

    method OnDone(listener: ListenerId)
      modifies this`lastListeners
      ensures lastListeners == old(lastListeners) + [listener]
    {
      lastListeners := lastListeners + [listener];
    }
  }
}
