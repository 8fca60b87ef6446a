/**
 * The stateful controller: it classifies a user message, produces the
 * reply and records the exchange in a history that keeps the last 20.
 */
module Conversation {
  import opened Hud
  import opened Intents
  import opened Replies

  /** The number of exchanges the history keeps. */
  const HistoryLimit := 20

  /** Timestamps are microseconds on the server clock; a day is this many of them. */
  const MicrosPerDay := 86_400_000_000

  /** One recorded exchange: when it happened, what the user said, what the bot answered. */
  datatype Exchange = Exchange(timestamp: int, user: string, bot: string)

  /**
   * The history after recording `e`: `e` goes last, and when the history
   * was full the oldest entry gives way, so the result is the longest
   * suffix of `history + [e]` that fits the limit.
   */
  function Appended(history: seq<Exchange>, e: Exchange): (r: seq<Exchange>)
    ensures |r| > 0 && r[|r| - 1] == e
    ensures |r| <= |history| + 1 && r == (history + [e])[|history| + 1 - |r|..]
    ensures |history| < HistoryLimit ==> |r| == |history| + 1
    ensures |history| >= HistoryLimit ==> |r| == |history|
  {
    var h := history + [e];
    if |h| > HistoryLimit then h[1..] else h
  }

  /** A full history drops exactly its oldest entry and keeps the order of the rest. */
  lemma AppendedToFull(history: seq<Exchange>, e: Exchange)
    requires |history| == HistoryLimit
    ensures Appended(history, e) == history[1..] + [e]
  {
    assert (history + [e])[1..] == history[1..] + [e];
  }

  /** The reply `process_message` gives: the reply for the message's intent. */
  function Respond(message: string, pick: nat, daysSince: int, hud: HudState): string {
    Reply(AnalyzeMessage(message).intent, pick, daysSince, hud)
  }

  class Controller {
    /** The recorded exchanges, oldest first. */
    var history: seq<Exchange>
    /** When the system was last serviced; set once, seven days before the controller started. */
    const lastMaintenance: int

    ghost predicate Valid()
      reads this
    {
      |history| <= HistoryLimit
    }

    constructor (now: int)
      ensures Valid() && history == []
      ensures lastMaintenance == now - 7 * MicrosPerDay
    {
      history := [];
      lastMaintenance := now - 7 * MicrosPerDay;
    }

    /** Whole days since the last maintenance, rounded down, as `timedelta.days` gives them. */
    function DaysSince(now: int): (d: int)
      ensures d * MicrosPerDay <= now - lastMaintenance < (d + 1) * MicrosPerDay
    {
      (now - lastMaintenance) / MicrosPerDay
    }

    /** `add_to_history`: append the exchange, then drop the oldest one if the history grew past the limit. */
    method AddToHistory(user: string, bot: string, now: int)
      requires Valid()
      modifies this
      ensures Valid()
      ensures history == Appended(old(history), Exchange(now, user, bot))
    {
      history := history + [Exchange(now, user, bot)];
      if |history| > HistoryLimit {
        history := history[1..];
      }
    }

    /** `process_message`: classify, reply, record the exchange, return the reply. */
    method ProcessMessage(message: string, pick: nat, now: int, hud: HudState) returns (response: string)
      requires Valid()
      modifies this
      ensures Valid()
      ensures response == Respond(message, pick, DaysSince(now), hud)
      ensures history == Appended(old(history), Exchange(now, message, response))
    {
      var analysis := AnalyzeMessage(message);
      response := Reply(analysis.intent, pick, DaysSince(now), hud);
      AddToHistory(message, response, now);
    }
  }
}
