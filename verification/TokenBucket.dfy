// The per-connection token bucket of the WebSocket read loop (internal/api/websocket.go):
// exactly which message closes the connection, in terms of arrival times alone.
module TokenBucket {
  import opened LogLines

  const WS_MSG_RATE_LIMIT := 10.0
  const WS_MSG_RATE_BURST := 20.0

  /** A client message: when it was read, in seconds, and whether it is a text message. */
  datatype Message = Message(at: real, text: bool)

  /** The clock never goes back, and no message precedes the connection. */
  ghost predicate Monotone(start: real, msgs: seq<Message>) {
    && (forall i :: 0 <= i < |msgs| ==> start <= msgs[i].at)
    && (forall i, j :: 0 <= i <= j < |msgs| ==> msgs[i].at <= msgs[j].at)
  }

  /** How many of the messages lo..hi-1 are text messages. */
  function Texts(msgs: seq<Message>, lo: nat, hi: nat): nat
    requires lo <= hi <= |msgs|
    decreases hi
  {
    if lo == hi then 0 else Texts(msgs, lo, hi - 1) + (if msgs[hi - 1].text then 1 else 0)
  }

  /** Text message j arrives too fast: some text message i up to j starts a window, ending with j,
      that holds more text messages than the burst plus the sustained rate allow. */
  ghost predicate TooFast(msgs: seq<Message>, j: nat)
    requires j < |msgs|
  {
    && msgs[j].text
    && exists i :: 0 <= i <= j && msgs[i].text && Crowded(msgs, i, j)
  }

  ghost predicate Crowded(msgs: seq<Message>, i: nat, j: nat)
    requires i <= j < |msgs|
  {
    Texts(msgs, i, j + 1) as real > 20.0 + 10.0 * (msgs[j].at - msgs[i].at)
  }

  /** What a bucket that was full at message i holds at time `now`, after the messages before n. */
  ghost function LevelSince(msgs: seq<Message>, i: nat, n: nat, now: real): real
    requires i < n <= |msgs|
  {
    WS_MSG_RATE_BURST + WS_MSG_RATE_LIMIT * (now - msgs[i].at) - Texts(msgs, i, n) as real
  }

  /** The bucket holds the minimum, over all earlier messages, of what it would hold had it been
      full then. */
  ghost predicate RunningMinimum(msgs: seq<Message>, n: nat, now: real, tokens: real)
    requires n <= |msgs|
  {
    && (forall i :: 0 <= i < n ==> tokens <= LevelSince(msgs, i, n, now))
    && (n == 0 ==> tokens == WS_MSG_RATE_BURST)
    && (n > 0 ==> exists i :: 0 <= i < n && tokens == LevelSince(msgs, i, n, now))
  }

  /** Refilling at the arrival of message n: the minimum also ranges over n itself, the cap. */
  function Refill(tokens: real, last: real, now: real): real {
    var t := tokens + (now - last) * WS_MSG_RATE_LIMIT;
    if t > WS_MSG_RATE_BURST then WS_MSG_RATE_BURST else t
  }

  lemma RefillShiftsLevels(msgs: seq<Message>, n: nat, last: real, now: real, tokens: real)
    requires n < |msgs| && last <= now && msgs[n].at == now
    requires RunningMinimum(msgs, n, last, tokens)
    ensures var t := Refill(tokens, last, now);
            && t <= WS_MSG_RATE_BURST
            && (forall i :: 0 <= i < n ==> t <= LevelSince(msgs, i, n, now))
            && (t == WS_MSG_RATE_BURST || exists i :: 0 <= i < n && t == LevelSince(msgs, i, n, now))
  {
    forall i | 0 <= i < n ensures LevelSince(msgs, i, n, now) == LevelSince(msgs, i, n, last) + (now - last) * 10.0 {
    }
    if n > 0 {
      var i :| 0 <= i < n && tokens == LevelSince(msgs, i, n, last);
      assert tokens + (now - last) * 10.0 == LevelSince(msgs, i, n, now);
    }
  }

  /** Counting message n, and taking a token if it is a text message, keeps the minimum. */
  lemma CountShiftsLevels(msgs: seq<Message>, n: nat, now: real, t: real)
    requires n < |msgs| && msgs[n].at == now && t <= WS_MSG_RATE_BURST
    requires forall i :: 0 <= i < n ==> t <= LevelSince(msgs, i, n, now)
    requires t == WS_MSG_RATE_BURST || exists i :: 0 <= i < n && t == LevelSince(msgs, i, n, now)
    ensures RunningMinimum(msgs, n + 1, now, if msgs[n].text then t - 1.0 else t)
  {
    var cost := if msgs[n].text then 1.0 else 0.0;
    assert Texts(msgs, n, n + 1) as real == cost by { assert Texts(msgs, n, n) == 0; }
    assert LevelSince(msgs, n, n + 1, now) == WS_MSG_RATE_BURST - cost;
    var next := n + 1;
    forall i | 0 <= i < next ensures t - cost <= LevelSince(msgs, i, next, now) {
      if i < n { assert LevelSince(msgs, i, next, now) == LevelSince(msgs, i, n, now) - cost; }
    }
    var w := n;
    if t != WS_MSG_RATE_BURST {
      w :| 0 <= w < n && t == LevelSince(msgs, w, n, now);
    }
    assert 0 <= w < n + 1 && t - cost == LevelSince(msgs, w, n + 1, now);
  }

  /** A crowded window that starts with a non-text message can start later, with a text message. */
  lemma {:induction false} StartWithText(msgs: seq<Message>, start: real, i: nat, j: nat)
    requires Monotone(start, msgs) && i <= j < |msgs| && msgs[j].text && Crowded(msgs, i, j)
    ensures TooFast(msgs, j)
    decreases j - i
  {
    if !msgs[i].text {
      TextsFromNext(msgs, i, j + 1);
      assert msgs[i].at <= msgs[i + 1].at;
      StartWithText(msgs, start, i + 1, j);
    }
  }

  lemma {:induction false} TextsFromNext(msgs: seq<Message>, i: nat, n: nat)
    requires i < n <= |msgs|
    ensures Texts(msgs, i, n) == Texts(msgs, i + 1, n) + (if msgs[i].text then 1 else 0)
    decreases n - i
  {
    if i + 1 < n {
      TextsFromNext(msgs, i, n - 1);
    } else {
      assert Texts(msgs, i, i) == 0;
    }
  }

  /** Less than one token is left for a text message exactly when it arrives too fast. */
  lemma EmptyIffTooFast(msgs: seq<Message>, start: real, j: nat, t: real)
    requires Monotone(start, msgs) && j < |msgs| && msgs[j].text && t <= WS_MSG_RATE_BURST
    requires forall i :: 0 <= i < j ==> t <= LevelSince(msgs, i, j, msgs[j].at)
    requires t == WS_MSG_RATE_BURST || exists i :: 0 <= i < j && t == LevelSince(msgs, i, j, msgs[j].at)
    ensures t < 1.0 <==> TooFast(msgs, j)
  {
    if t < 1.0 {
      var i :| 0 <= i < j && t == LevelSince(msgs, i, j, msgs[j].at);
      assert Texts(msgs, i, j + 1) == Texts(msgs, i, j) + 1;
      StartWithText(msgs, start, i, j);
    }
    if TooFast(msgs, j) {
      var i :| 0 <= i <= j && msgs[i].text && Crowded(msgs, i, j);
      assert Texts(msgs, i, j + 1) == Texts(msgs, i, j) + 1;
      if i == j {
        assert Texts(msgs, j, j) == 0;
      } else {
        assert t <= LevelSince(msgs, i, j, msgs[j].at);
      }
    }
  }

  /** The read loop up to the end of the input: `closedBy` is the message whose arrival closed the
      connection. It is the first text message that arrives too fast, and there is one exactly
      when the connection is closed. */
  method ReadPump(start: real, msgs: seq<Message>) returns (closedBy: Option<nat>)
    requires Monotone(start, msgs)
    ensures closedBy.Some? ==> closedBy.value < |msgs| && TooFast(msgs, closedBy.value)
    ensures forall j :: 0 <= j < (if closedBy.Some? then closedBy.value else |msgs|) ==> !TooFast(msgs, j)
  {
    var tokens := WS_MSG_RATE_BURST;
    var last := start;
    for n := 0 to |msgs|
      invariant start <= last && (n < |msgs| ==> last <= msgs[n].at)
      invariant RunningMinimum(msgs, n, last, tokens)
      invariant forall j :: 0 <= j < n ==> !TooFast(msgs, j)
    {
      var now := msgs[n].at;
      RefillShiftsLevels(msgs, n, last, now, tokens);
      tokens := tokens + (now - last) * WS_MSG_RATE_LIMIT;
      if tokens > WS_MSG_RATE_BURST {
        tokens := WS_MSG_RATE_BURST;
      }
      last := now;
      CountShiftsLevels(msgs, n, now, tokens);
      if msgs[n].text {
        EmptyIffTooFast(msgs, start, n, tokens);
        if tokens < 1.0 {
          return Some(n);
        }
        tokens := tokens - 1.0;
      }
    }
    return None;
  }

  /** While the connection stays open, no window lets more text messages through than the burst
      plus the sustained rate times its length. */
  lemma OpenMeansBounded(start: real, msgs: seq<Message>, i: nat, j: nat)
    requires Monotone(start, msgs) && i <= j < |msgs|
    requires forall k :: 0 <= k <= j ==> !TooFast(msgs, k)
    ensures Texts(msgs, i, j + 1) as real <= 20.0 + 10.0 * (msgs[j].at - msgs[i].at)
    decreases j - i
  {
    if msgs[j].text {
      if Crowded(msgs, i, j) { StartWithText(msgs, start, i, j); }
    } else if i < j {
      OpenMeansBounded(start, msgs, i, j - 1);
      assert Texts(msgs, i, j + 1) == Texts(msgs, i, j);
    } else {
      assert Texts(msgs, j, j) == 0;
      assert Texts(msgs, j, j + 1) == 0;
    }
  }

  /** The allowance cannot be lowered: a client that sends its burst at once is let through. */
  lemma BurstAccepted(start: real, msgs: seq<Message>, j: nat)
    requires Monotone(start, msgs) && j < |msgs| && j < 20
    ensures !TooFast(msgs, j)
  {
    forall i | 0 <= i <= j ensures !Crowded(msgs, i, j) {
      TextsAtMost(msgs, i, j + 1);
      assert msgs[i].at <= msgs[j].at;
    }
  }

  lemma {:induction false} TextsIsCount(msgs: seq<Message>, lo: nat, hi: nat)
    requires lo <= hi <= |msgs|
    ensures Texts(msgs, lo, hi) == |set i | lo <= i < hi && msgs[i].text|
    decreases hi
  {
    if lo < hi {
      TextsIsCount(msgs, lo, hi - 1);
      var before := set i | lo <= i < hi - 1 && msgs[i].text;
      assert (set i | lo <= i < hi && msgs[i].text) == before + if msgs[hi - 1].text then {hi - 1} else {};
    }
  }

  /** A client that floods is disconnected: more text messages in a row than twenty, and ten for each
      second they take, do not get through. */
  lemma FloodRefused(msgs: seq<Message>, i: nat, j: nat)
    requires i <= j < |msgs| && forall k :: i <= k <= j ==> msgs[k].text
    requires (j - i + 1) as real > 20.0 + 10.0 * (msgs[j].at - msgs[i].at)
    ensures TooFast(msgs, j)
  {
    AllTexts(msgs, i, j + 1);
  }

  lemma {:induction false} AllTexts(msgs: seq<Message>, lo: nat, hi: nat)
    requires lo <= hi <= |msgs| && forall k :: lo <= k < hi ==> msgs[k].text
    ensures Texts(msgs, lo, hi) == hi - lo
    decreases hi
  {
    if lo < hi { AllTexts(msgs, lo, hi - 1); }
  }

  lemma {:induction false} TextsAtMost(msgs: seq<Message>, i: nat, n: nat)
    requires i <= n <= |msgs|
    ensures Texts(msgs, i, n) <= n - i
    decreases n - i
  {
    if i < n { TextsAtMost(msgs, i, n - 1); }
  }
}
