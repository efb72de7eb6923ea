/**
 The bounded reading history: a first-in first-out window over the readings
 accepted so far, of capacity MaxHistoryLength.
 */
module History {
  import opened Config

  /** Reference definition: the last (at most) n elements of s, in order. */
  function LastN<T>(s: seq<T>, n: nat): (w: seq<T>)
    ensures |w| <= n && |w| <= |s|
    ensures |s| <= n ==> |w| == |s|
    ensures |s| > n ==> |w| == n
    ensures w == s[|s| - |w|..]
  {
    if |s| <= n then s else s[|s| - n..]
  }

  /**
   One append to the history: the reading is pushed at the end and, if the
   history then holds more than MaxHistoryLength readings, the oldest one is
   shifted off the front.
   */
  function Pushed(h: seq<Reading>, r: Reading): (h': seq<Reading>)
    ensures |h'| > 0 && h'[|h'| - 1] == r
    ensures |h| < MaxHistoryLength ==> h' == h + [r]
    ensures |h| == MaxHistoryLength ==> h' == h[1..] + [r]
    ensures |h| <= MaxHistoryLength ==> |h'| <= MaxHistoryLength
  {
    var pushed := h + [r];
    if |pushed| > MaxHistoryLength then pushed[1..] else pushed
  }

  /**
   Pushing onto the window of the readings so far gives the window of the
   readings so far followed by the new one: the history is always the last
   min(n, 100) accepted readings in arrival order.
   */
  lemma PushedSlidesWindow(s: seq<Reading>, r: Reading)
    ensures Pushed(LastN(s, MaxHistoryLength), r) == LastN(s + [r], MaxHistoryLength)
  {
  }

  /**
   Once a reading is in the history it stays there, one place nearer the
   front per eviction, until it is evicted: a push moves the reading at
   position i to position i - 1 when the history was full and leaves it at
   i otherwise.
   */
  lemma PushedKeepsReadings(h: seq<Reading>, r: Reading, i: nat)
    requires |h| <= MaxHistoryLength && i < |h|
    ensures |h| < MaxHistoryLength ==> Pushed(h, r)[i] == h[i]
    ensures |h| == MaxHistoryLength && i > 0 ==> Pushed(h, r)[i - 1] == h[i]
  {
  }
}
