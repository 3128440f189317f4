/**
 * The alert decision of `send_discord_if_threshold_exceeded`. The chat
 * webhook is an outside channel; its outcome (`ok` in the dict the sender
 * returns) is a parameter here.
 */
module Threshold {

  /** The alert posted to the chat channel, reduced to the two numbers its text reports. */
  datatype Alert = Alert(amount: real, threshold: real)

  /** What one call did: the alerts handed to the channel, and the Boolean it returned. */
  datatype Decision = Decision(sent: seq<Alert>, notified: bool)

  /**
   * Decide whether to alert on `totalComputedAmount`. `channelOk` is what the
   * channel would report for the attempt; it is consulted only when an attempt is made.
   */
  function SendIfThresholdExceeded(totalComputedAmount: real, threshold: real, channelOk: bool): (r: Decision)
    ensures |r.sent| <= 1
    ensures r.sent != [] <==> totalComputedAmount > threshold
    ensures forall a :: a in r.sent ==> a == Alert(totalComputedAmount, threshold)
    ensures r.notified <==> totalComputedAmount > threshold && channelOk
  {
    if totalComputedAmount > threshold then
      Decision([Alert(totalComputedAmount, threshold)], channelOk)
    else
      Decision([], false)
  }

  /** The comparison is strict: a total equal to the threshold sends nothing and returns false. */
  lemma AtThresholdNoAlert(threshold: real, channelOk: bool)
    ensures SendIfThresholdExceeded(threshold, threshold, channelOk) == Decision([], false)
  {
  }

  /** At or below the threshold the channel is never consulted: its outcome cannot matter. */
  lemma ChannelIrrelevantAtOrBelow(total: real, threshold: real)
    requires total <= threshold
    ensures SendIfThresholdExceeded(total, threshold, true) == SendIfThresholdExceeded(total, threshold, false)
    ensures SendIfThresholdExceeded(total, threshold, true).sent == []
  {
  }

  /** Above the threshold exactly one alert is attempted, and a failing channel makes the call return false. */
  lemma ChannelFailureReturnsFalse(total: real, threshold: real)
    requires total > threshold
    ensures SendIfThresholdExceeded(total, threshold, false) == Decision([Alert(total, threshold)], false)
  {
  }

  /** Raising the total never withdraws an alert that a smaller total already triggered. */
  lemma AlertMonotoneInTotal(total: real, larger: real, threshold: real, channelOk: bool)
    requires total <= larger
    ensures |SendIfThresholdExceeded(total, threshold, channelOk).sent|
         <= |SendIfThresholdExceeded(larger, threshold, channelOk).sent|
    ensures SendIfThresholdExceeded(total, threshold, channelOk).notified
        ==> SendIfThresholdExceeded(larger, threshold, channelOk).notified
  {
  }
}
