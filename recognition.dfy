/**
 * The events a continuous speech recognizer delivers to the callbacks the views connect
 * (vocalearn/views.py:129-137 and :209-214). Both views connect `stop_cb` to `session_stopped`
 * and to `canceled`, so either of them ends the wait.
 */
module Recognition {

  /** One recognizer event; `R` is what a final `recognized` result carries. */
  datatype Event<R> =
    | Recognizing(interim: string)
    | Recognized(result: R)
    | SessionStarted
    | SessionStopped
    | Canceled

  /** The events connected to `stop_cb`. */
  predicate IsTerminal<R>(e: Event<R>) {
    e.SessionStopped? || e.Canceled?
  }

  predicate HasTerminal<R>(events: seq<Event<R>>) {
    exists t :: 0 <= t < |events| && IsTerminal(events[t])
  }

  /** Inserting a non-terminal event keeps whether the session ends. */
  lemma StopsAfter<R>(a: seq<Event<R>>, e: Event<R>, b: seq<Event<R>>)
    requires !IsTerminal(e)
    ensures HasTerminal(a + [e] + b) == HasTerminal(a + b)
  {
    var s := a + [e] + b;
    var r := a + b;
    if HasTerminal(s) {
      var t :| 0 <= t < |s| && IsTerminal(s[t]);
      if t < |a| {
        assert r[t] == s[t];
      } else {
        assert r[t - 1] == s[t];
      }
    }
    if HasTerminal(r) {
      var t :| 0 <= t < |r| && IsTerminal(r[t]);
      if t < |a| {
        assert s[t] == r[t];
      } else {
        assert s[t + 1] == r[t];
      }
    }
  }
}
