/**
 * The keepalive tracker of the client's main loop: probes are numbered by a
 * counter that a reset sets back to zero, every probe sent is remembered with
 * the tick it left at, and a reply is matched to its probe by id to measure
 * the round-trip time and fold it into an integer running average.
 *
 * The C code keeps the outstanding probes in a linked list; since ids are
 * never reused between resets, a map from id to send tick holds the same
 * information.
 */
module Keepalive {
  import opened CInt

  datatype Tracker = Tracker(
    probes: map<int, Uint32>,  // outstanding probes: id -> tick when sent
    lastId: int,               // keepalive_id, the id of the latest probe
    ping: int,                 // keepalive_ping, the latest round-trip time
    pingAvg: int,              // keepalive_ping_avg
    pingNum: int,              // keepalive_ping_num, replies matched so far
    lastSent: Uint32)          // last_keepalive

  /**
   * Since the last reset every probe sent has either been answered or is
   * still outstanding, and outstanding ids are among those handed out.
   */
  predicate Valid(t: Tracker) {
    && t.pingNum >= 0
    && t.pingNum + |t.probes| == t.lastId
    && forall id :: id in t.probes ==> 1 <= id <= t.lastId
  }

  /** `keepalive_reset`: forget every outstanding probe and zero the statistics. */
  function Reset(now: Uint32): (t: Tracker)
    ensures Valid(t)
    ensures |t.probes| == 0
    ensures t.lastId == 0 && t.ping == 0 && t.pingAvg == 0 && t.pingNum == 0
    ensures t.lastSent == now
  {
    Tracker(map[], 0, 0, 0, 0, now)
  }

  /**
   * `keepalive_send`: the next id is one past the last, the probe is
   * recorded as outstanding with the current tick, and that tick becomes the
   * time of the last keepalive. The id transmitted is `r.lastId`.
   */
  function Send(t: Tracker, now: Uint32): (r: Tracker)
    ensures r.lastId == t.lastId + 1
    ensures r.probes == t.probes[r.lastId := now]
    ensures r.lastSent == now
    ensures r.ping == t.ping && r.pingAvg == t.pingAvg && r.pingNum == t.pingNum
    ensures Valid(t) ==> r.lastId !in t.probes && |r.probes| == |t.probes| + 1 && Valid(r)
  {
    var id := t.lastId + 1;
    t.(probes := t.probes[id := now], lastId := id, lastSent := now)
  }

  /** One step of the running average: `avg + (ping - avg) / n` with C division. */
  function AvgStep(avg: int, n: int, ping: int): int
    requires n >= 1
  {
    avg + TruncDiv(ping - avg, n)
  }

  datatype Reply = Reply(tracker: Tracker, matched: bool)

  /**
   * `socket_command_keepalive`: a reply whose id is outstanding removes that
   * probe, records its round-trip time (a `uint32_t` difference stored into an
   * `int`) and folds it into the average; any other id changes nothing and is
   * only reported.
   */
  function OnReply(t: Tracker, id: Uint32, now: Uint32): (r: Reply)
    ensures r.matched <==> id in t.probes
    ensures !r.matched ==> r.tracker == t
    ensures r.matched ==>
      && r.tracker.probes == t.probes - {id}
      && r.tracker.ping == ToInt32(Sub32(now, t.probes[id]))
      && r.tracker.pingNum == t.pingNum + 1
      && r.tracker.lastId == t.lastId
      && r.tracker.lastSent == t.lastSent
    ensures Valid(t) ==> Valid(r.tracker)
  {
    if id in t.probes then
      var ping := ToInt32(Sub32(now, t.probes[id]));
      var num := t.pingNum + 1;
      var avg := if num >= 1 then AvgStep(t.pingAvg, num, ping) else t.pingAvg;
      Reply(t.(probes := t.probes - {id}, ping := ping, pingAvg := avg, pingNum := num), true)
    else
      Reply(t, false)
  }

  /** The "missed" figure of `keepalive_ping_stats`: probes sent minus replies received. */
  function Missed(t: Tracker): int {
    t.lastId - t.pingNum
  }

  /** The number of missed replies is exactly the number of outstanding probes, so never negative. */
  lemma MissedIsOutstanding(t: Tracker)
    requires Valid(t)
    ensures Missed(t) == |t.probes| >= 0
  {
  }

  /** A reply to the probe just sent takes the outstanding set back to what it was. */
  lemma ReplyUndoesSend(t: Tracker, sentAt: Uint32, now: Uint32)
    requires Valid(t) && t.lastId + 1 < Two32
    ensures var s := Send(t, sentAt);
            var r := OnReply(s, s.lastId, now);
            r.matched && r.tracker.probes == t.probes && r.tracker.pingNum == t.pingNum + 1
            && r.tracker.ping == ToInt32(Sub32(now, sentAt))
  {
    var s := Send(t, sentAt);
    assert s.lastId !in t.probes;
    assert s.probes - {s.lastId} == t.probes;
  }

  // ---------------------------------------------------------------------
  // The running average over a whole session
  // ---------------------------------------------------------------------

  /** The average the tracker holds after matching replies with these round-trip times since a reset. */
  function ReplayAvg(pings: seq<int>): int {
    if |pings| == 0 then 0
    else AvgStep(ReplayAvg(pings[..|pings| - 1]), |pings|, pings[|pings| - 1])
  }

  /** Matching a reply extends the replayed history by its round-trip time. */
  lemma OnReplyExtendsReplay(t: Tracker, pings: seq<int>, id: Uint32, now: Uint32)
    requires t.pingAvg == ReplayAvg(pings) && t.pingNum == |pings|
    requires id in t.probes
    ensures var r := OnReply(t, id, now).tracker;
            r.pingAvg == ReplayAvg(pings + [r.ping]) && r.pingNum == |pings + [r.ping]|
  {
    var r := OnReply(t, id, now).tracker;
    assert (pings + [r.ping])[..|pings|] == pings;
  }

  lemma ReplayAvgSnoc(pings: seq<int>, p: int)
    ensures ReplayAvg(pings + [p]) == AvgStep(ReplayAvg(pings), |pings| + 1, p)
  {
    assert (pings + [p])[..|pings|] == pings;
  }

  /** The first reply after a reset sets the average to its round-trip time exactly. */
  lemma FirstReplySetsAverage(p: int)
    ensures ReplayAvg([p]) == p
  {
    assert [p][..0] == [];
  }

  /**
   * The running average never leaves the range of the round-trip times it
   * was computed from: truncation only ever moves it part of the way
   * toward the new sample.
   */
  lemma {:induction false} AverageWithinRange(pings: seq<int>, lo: int, hi: int)
    requires |pings| > 0
    requires forall i :: 0 <= i < |pings| ==> lo <= pings[i] <= hi
    ensures lo <= ReplayAvg(pings) <= hi
  {
    var n := |pings|;
    var last := pings[n - 1];
    if n == 1 {
      FirstReplySetsAverage(last);
      assert pings == [last];
    } else {
      var prefix := pings[..n - 1];
      AverageWithinRange(prefix, lo, hi);
      var avg := ReplayAvg(prefix);
      TruncDivBetween(last - avg, n);
    }
  }

  /**
   * The average is not the arithmetic mean: replies of 0, 3, 3 and 3 ticks
   * leave it at 1, while their mean is 9/4.
   */
  lemma AverageIsNotTheMean()
    ensures ReplayAvg([0, 3, 3, 3]) == 1
    ensures (0 + 3 + 3 + 3) / 4 == 2
  {
    FirstReplySetsAverage(0);
    ReplayAvgSnoc([0], 3);
    assert [0] + [3] == [0, 3];
    assert AvgStep(0, 2, 3) == 1;
    ReplayAvgSnoc([0, 3], 3);
    assert [0, 3] + [3] == [0, 3, 3];
    assert AvgStep(1, 3, 3) == 1;
    ReplayAvgSnoc([0, 3, 3], 3);
    assert [0, 3, 3] + [3] == [0, 3, 3, 3];
    assert AvgStep(1, 4, 3) == 1;
  }
}
