/**
 * The packet sniffer status indicator: one `online` flag, refreshed by a
 * status request at mount and then on a timer, shown as "online" or
 * "offline". The timer handle is kept so that teardown can clear it.
 */
module SnifferStatus {
  import opened Wrappers

  /** An opaque handle returned by `setInterval`. */
  type TimerId = int

  class PacketSnifferStatus {
    var online: bool
    var timer: Option<TimerId>

    /** The indicator starts offline, with no timer. */
    constructor ()
      ensures !online && timer.None?
    {
      online := false;
      timer := None;
    }

    /** The label rendered for the current flag. */
    function Label(): (r: string)
      reads this
      ensures r == "online" || r == "offline"
      ensures r == "online" <==> online
    {
      if online then "online" else "offline"
    }

    /** A status reply: the flag is set to the reported value. */
    method OnStatusReply(reported: bool)
      modifies this
      ensures online == reported && timer == old(timer)
    {
      online := reported;
    }

    /** A failed status request: the indicator goes offline; nothing is raised. */
    method OnStatusFailure()
      modifies this
      ensures !online && timer == old(timer)
    {
      online := false;
    }

    /** The first status request has settled and the interval is installed. */
    method StartTimer(id: TimerId)
      modifies this
      ensures timer == Some(id) && online == old(online)
    {
      timer := Some(id);
    }

    /** Teardown: the interval to clear, none if it was never set; the fields are left as they are. */
    method Teardown() returns (cleared: Option<TimerId>)
      ensures cleared.Some? <==> timer.Some?
      ensures cleared.Some? ==> cleared == timer
    {
      cleared := timer;
    }
  }

  /**
   * Teardown while the first status request is still out clears nothing; when
   * that request settles the interval is installed anyway and never cleared.
   */
  method TeardownBeforeFirstReply(id: TimerId, reply: Option<bool>)
    returns (cleared: Option<TimerId>, left: Option<TimerId>)
    ensures cleared.None? && left == Some(id)
  {
    var status := new PacketSnifferStatus();
    cleared := status.Teardown();
    if reply.Some? {
      status.OnStatusReply(reply.value);
    } else {
      status.OnStatusFailure();
    }
    status.StartTimer(id);
    left := status.timer;
  }

  /** The label follows the last status settled: a reply in either direction, then a failure. */
  method LabelFollowsLastStatus(reported: bool) returns (afterReply: string, afterFailure: string)
    ensures afterReply == (if reported then "online" else "offline")
    ensures afterFailure == "offline"
  {
    var status := new PacketSnifferStatus();
    status.OnStatusReply(reported);
    afterReply := status.Label();
    status.OnStatusFailure();
    afterFailure := status.Label();
  }
}
