/** The attach terminal's keypress listener: every key is forwarded to the
    session, and two Ctrl-C presses in a row end the connector. The listener
    keeps one bit of state, `isClose`, which is set by a Ctrl-C and cleared by
    any other key. */
module KeyForwarding {
  import opened Wrappers
  import JsValues

  /** The `key` argument of a keypress event. */
  datatype Key = Key(ctrl: bool, name: Option<string>, sequence: string)

  /** A keypress event: the character typed, when there is one, and the
      decoded key, when the key is recognised. */
  datatype KeyEvent = KeyEvent(ch: Option<string>, key: Option<Key>)

  /** `key && key.ctrl && key.name == 'c'`. */
  predicate IsCtrlC(e: KeyEvent) {
    e.key.Some? && e.key.value.ctrl && e.key.value.name == Some("c")
  }

  /** `if (ch)`: the event carries a non-empty character. */
  predicate HasChar(e: KeyEvent) {
    JsValues.TruthyText(e.ch)
  }

  /** The keypress library emits an event only when it has a key or a
      non-empty character. */
  predicate IsEmitted(e: KeyEvent) {
    e.key.Some? || HasChar(e)
  }

  /** What is sent for an event: the character when it is non-empty, otherwise
      the key's escape sequence. None when the listener would read `sequence`
      of an undefined key and throw. */
  function Payload(e: KeyEvent): (r: Option<string>)
    ensures r.None? <==> !IsEmitted(e)
    ensures HasChar(e) ==> r == e.ch
    ensures !HasChar(e) && e.key.Some? ==> r == Some(e.key.value.sequence)
  {
    if HasChar(e) then e.ch
    else if e.key.Some? then Some(e.key.value.sequence)
    else None
  }

  datatype Action = Exit | Forward(payload: string) | Crash

  /** One keypress: the new `isClose` flag and what the listener does. A Ctrl-C
      while the flag is set exits the process without sending anything. */
  function KeyStep(isClose: bool, e: KeyEvent): (r: (bool, Action))
    ensures r.1 == Exit <==> isClose && IsCtrlC(e)
    ensures r.1 != Exit ==> r.0 == IsCtrlC(e)
    ensures r.1.Forward? ==> Payload(e) == Some(r.1.payload)
    ensures r.1 == Crash <==> !(isClose && IsCtrlC(e)) && !IsEmitted(e)
  {
    if IsCtrlC(e) && isClose then (isClose, Exit)
    else
      var flag := IsCtrlC(e);
      match Payload(e)
      case Some(p) => (flag, Forward(p))
      case None => (flag, Crash)
  }

  /** How a series of keypresses ends: the process exited, the listener threw,
      or it is still listening with the given flag. */
  datatype End = Exited | Crashed | Listening(isClose: bool)

  datatype Trace = Trace(sent: seq<string>, end: End)

  /** Feeds events to the listener until it exits or throws. */
  function Press(isClose: bool, events: seq<KeyEvent>): (t: Trace)
    ensures |t.sent| <= |events|
    ensures t.end.Listening? ==> |t.sent| == |events|
    decreases |events|
  {
    if |events| == 0 then Trace([], Listening(isClose))
    else
      var (flag, action) := KeyStep(isClose, events[0]);
      match action
      case Exit => Trace([], Exited)
      case Crash => Trace([], Crashed)
      case Forward(p) =>
        var rest := Press(flag, events[1..]);
        Trace([p] + rest.sent, rest.end)
  }

  /** Every event before the listener stops is forwarded exactly once and in
      order, and no two of them are consecutive Ctrl-C presses. */
  lemma {:induction false} PressForwards(isClose: bool, events: seq<KeyEvent>)
    ensures var t := Press(isClose, events);
      && (forall i :: 0 <= i < |t.sent| ==> Payload(events[i]) == Some(t.sent[i]))
      && (forall j :: 0 < j < |t.sent| ==> !(IsCtrlC(events[j - 1]) && IsCtrlC(events[j])))
      && (|t.sent| > 0 ==> !(isClose && IsCtrlC(events[0])))
    decreases |events|
  {
    if |events| > 0 {
      var (flag, action) := KeyStep(isClose, events[0]);
      if action.Forward? {
        var tail := events[1..];
        var rest := Press(flag, tail);
        var t := Press(isClose, events);
        assert t == Trace([action.payload] + rest.sent, rest.end);
        PressForwards(flag, tail);
        forall i | 0 < i < |t.sent|
          ensures Payload(events[i]) == Some(t.sent[i])
        {
          assert tail[i - 1] == events[i] && t.sent[i] == rest.sent[i - 1];
        }
        forall j | 1 < j < |t.sent|
          ensures !(IsCtrlC(events[j - 1]) && IsCtrlC(events[j]))
        {
          assert tail[j - 2] == events[j - 1] && tail[j - 1] == events[j];
        }
        if |rest.sent| > 0 {
          assert tail[0] == events[1];
        }
      }
    }
  }

  /** How the listener stops: the exiting Ctrl-C is the event right after the
      forwarded ones and follows another Ctrl-C (or the flag was already set);
      a throw happens on the first event that carries neither a key nor a
      character; a listener still running holds the flag of the last event. */
  lemma {:induction false} PressStops(isClose: bool, events: seq<KeyEvent>)
    ensures var t := Press(isClose, events);
      && (t.end.Listening? ==> t.end.isClose == if |events| == 0 then isClose else IsCtrlC(events[|events| - 1]))
      && (t.end == Exited ==>
            |t.sent| < |events| && IsCtrlC(events[|t.sent|])
            && (if |t.sent| == 0 then isClose else IsCtrlC(events[|t.sent| - 1])))
      && (t.end == Crashed ==> |t.sent| < |events| && !IsEmitted(events[|t.sent|]))
    decreases |events|
  {
    if |events| > 0 {
      var (flag, action) := KeyStep(isClose, events[0]);
      if action.Forward? {
        var tail := events[1..];
        var rest := Press(flag, tail);
        var t := Press(isClose, events);
        assert t == Trace([action.payload] + rest.sent, rest.end);
        PressStops(flag, tail);
        if |tail| > 0 {
          assert tail[|tail| - 1] == events[|events| - 1];
        }
        if rest.end == Exited || rest.end == Crashed {
          assert tail[|rest.sent|] == events[|t.sent|];
          if |rest.sent| > 0 {
            assert tail[|rest.sent| - 1] == events[|t.sent| - 1];
          }
        }
      }
    }
  }

  predicate DoubleCtrlCAt(events: seq<KeyEvent>, i: int) {
    0 < i < |events| && IsCtrlC(events[i - 1]) && IsCtrlC(events[i])
  }

  lemma {:induction false} ExitsIffPair(isClose: bool, events: seq<KeyEvent>)
    requires forall i :: 0 <= i < |events| ==> IsEmitted(events[i])
    ensures Press(isClose, events).end == Exited <==>
      (|events| > 0 && isClose && IsCtrlC(events[0])) || exists i :: DoubleCtrlCAt(events, i)
    decreases |events|
  {
    if |events| > 0 && !(isClose && IsCtrlC(events[0])) {
      var tail := events[1..];
      assert IsEmitted(events[0]);
      assert Press(isClose, events).end == Press(IsCtrlC(events[0]), tail).end;
      ExitsIffPair(IsCtrlC(events[0]), tail);
      if exists i :: DoubleCtrlCAt(events, i) {
        var i :| DoubleCtrlCAt(events, i);
        if i > 1 {
          assert DoubleCtrlCAt(tail, i - 1);
        }
      }
      if |tail| > 0 && IsCtrlC(events[0]) && IsCtrlC(tail[0]) {
        assert DoubleCtrlCAt(events, 1);
      }
      if exists i :: DoubleCtrlCAt(tail, i) {
        var i :| DoubleCtrlCAt(tail, i);
        assert DoubleCtrlCAt(events, i + 1);
      }
    }
  }

  /** Starting with the flag clear, the connector exits exactly when two Ctrl-C
      events arrive consecutively. */
  lemma ExitsIffDoubleCtrlC(events: seq<KeyEvent>)
    requires forall i :: 0 <= i < |events| ==> IsEmitted(events[i])
    ensures Press(false, events).end == Exited <==> exists i :: DoubleCtrlCAt(events, i)
    ensures Press(false, events).end != Crashed
  {
    ExitsIffPair(false, events);
  }
}
