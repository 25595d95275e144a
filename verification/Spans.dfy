/**
 Millisecond intervals on a recording, and what it means for a list of them to be a timeline.
 */
module Spans {
  datatype Span = Span(start: nat, end: nat) {
    predicate Covers(t: nat) {
      start <= t < end
    }
  }

  /** Non-empty intervals inside the recording, in order, none overlapping another. */
  predicate Timeline(spans: seq<Span>, duration: nat) {
    && (forall i :: 0 <= i < |spans| ==> spans[i].start < spans[i].end <= duration)
    && (forall i, j :: 0 <= i < j < |spans| ==> spans[i].end <= spans[j].start)
  }

  /** What a scan that only remembers the previous end has to check to extend a timeline. */
  predicate Extends(previousEnd: nat, span: Span, duration: nat) {
    previousEnd <= span.start < span.end <= duration
  }

  function LastEnd(spans: seq<Span>): nat {
    if spans == [] then 0 else spans[|spans| - 1].end
  }

  /** Checking against the previous end alone is exactly checking against every earlier interval. */
  lemma {:induction false} ExtendTimeline(spans: seq<Span>, span: Span, duration: nat)
    ensures Timeline(spans + [span], duration)
       <==> Timeline(spans, duration) && Extends(LastEnd(spans), span, duration)
  {
    var all := spans + [span];
    if Timeline(all, duration) {
      assert forall i :: 0 <= i < |spans| ==> all[i] == spans[i];
      assert all[|spans|] == span;
    }
    if Timeline(spans, duration) && Extends(LastEnd(spans), span, duration) {
      forall i, j | 0 <= i < j < |all| ensures all[i].end <= all[j].start {
        if j == |spans| && i < |spans| - 1 {
          assert spans[i].end <= spans[|spans| - 1].start;
        }
      }
    }
  }
}
