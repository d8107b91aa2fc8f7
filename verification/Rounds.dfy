/** What the window protocol of module Windows achieves when nothing is lost: resending one
    window repairs any earlier loss, and a whole transfer succeeds exactly within the capacity
    of its window. */
module Rounds {
  import opened Apdus
  import opened Segmentation
  import opened Windows

  function Copies(m: Move, k: nat): seq<Move> {
    seq(k, i => m)
  }

  /** The server takes everything under way, in order. */
  function TakeSegments(n: nat, w: byte, v: View): View {
    Run(n, w, v, Copies(TakeSegment, |v.segments|))
  }

  function TakeAcks(n: nat, w: byte, v: View): View {
    Run(n, w, v, Copies(TakeAck, |v.acks|))
  }

  lemma RunCopies(n: nat, w: byte, v: View, m: Move, k: nat)
    requires 0 < k
    ensures Run(n, w, v, Copies(m, k)) == Run(n, w, Step(n, w, v, m), Copies(m, k - 1))
  {
    assert Copies(m, k)[1..] == Copies(m, k - 1);
  }

  /** A client that has finished does not move. */
  lemma {:induction false} Settled(n: nat, w: byte, v: View, m: Move, k: nat)
    requires v.finished
    ensures Run(n, w, v, Copies(m, k)) == v
  {
    if k > 0 { RunCopies(n, w, v, m, k); Settled(n, w, v, m, k - 1); }
  }

  function Repeat(a: nat, k: nat): (r: seq<nat>)
    ensures |r| == k && forall i :: 0 <= i < k ==> r[i] == a
  {
    seq(k, i => a)
  }

  // ----- runs of one kind of move

  predicate Live(n: nat, v: View) {
    v.base < n && v.base < 256 && !v.finished && !v.overrun
  }

  lemma RunSplit(n: nat, w: byte, v: View, m: Move, k: nat, l: nat)
    ensures Run(n, w, v, Copies(m, k + l)) == Run(n, w, Run(n, w, v, Copies(m, k)), Copies(m, l))
    decreases k
  {
    if k == 0 {
      assert Copies(m, 0) == [];
    } else {
      RunCopies(n, w, v, m, k + l);
      RunCopies(n, w, v, m, k);
      RunSplit(n, w, Step(n, w, v, m), m, k - 1, l);
    }
  }

  /** Segments the server already has are each answered with its last group number. */
  lemma {:induction false} StaleSegments(n: nat, w: byte, v: View, k: nat)
    requires Live(n, v) && !v.complete && v.taken != [] && k <= |v.segments|
    requires forall i :: 0 <= i < k ==> v.segments[i] % 256 != |v.taken| % 256
    ensures Run(n, w, v, Copies(TakeSegment, k)) == v.(segments := v.segments[k..], acks := v.acks + Repeat(v.group, k))
    decreases k
  {
    if k > 0 {
      RunCopies(n, w, v, TakeSegment, k);
      StaleSegments(n, w, Segment(n, w, v), k - 1);
      assert v.acks + [v.group] + Repeat(v.group, k - 1) == v.acks + Repeat(v.group, k);
    } else {
      assert v.acks + Repeat(v.group, 0) == v.acks;
    }
  }

  /** A server that has handed the request up ignores the rest. */
  lemma {:induction false} IgnoredSegments(n: nat, w: byte, v: View, k: nat)
    requires Live(n, v) && v.complete && v.taken != [] && k <= |v.segments|
    ensures Run(n, w, v, Copies(TakeSegment, k)) == v.(segments := v.segments[k..])
    decreases k
  {
    if k > 0 {
      RunCopies(n, w, v, TakeSegment, k);
      IgnoredSegments(n, w, Segment(n, w, v), k - 1);
    }
  }

  /** The client's numbers and the server's counts agree but for whole laps of 256: the next
      segment is the one the server expects, in the window that the server has begun. */
  predicate InStep(n: nat, w: byte, v: View, lap: nat) {
    && Live(n, v) && 0 < w < 128 && !v.complete && v.taken != [] && v.segments != []
    && v.group == v.base - 1 + 256 * lap && |v.taken| == v.segments[0] + 256 * lap
    && v.base <= v.segments[0] < End(n, w, v.base)
    && v.segments == Range(v.segments[0], End(n, w, v.base))
  }

  lemma WholeLaps(a: nat, lap: nat)
    ensures (a + 256 * lap) % 256 == a % 256
  {
  }

  lemma DifferMod(a: nat, b: nat)
    requires a < b < a + 256
    ensures a % 256 != b % 256
  {
  }

  lemma FreshMiddle(n: nat, w: byte, v: View, lap: nat)
    requires InStep(n, w, v, lap) && v.segments[0] + 1 < End(n, w, v.base)
    ensures Segment(n, w, v) == v.(segments := v.segments[1..], taken := v.taken + [v.segments[0]])
    ensures InStep(n, w, Segment(n, w, v), lap)
  {
    FreshMiddleStep(n, w, v, lap);
  }

  lemma FreshMiddleStep(n: nat, w: byte, v: View, lap: nat)
    requires InStep(n, w, v, lap) && v.segments[0] + 1 < End(n, w, v.base)
    ensures Segment(n, w, v) == v.(segments := v.segments[1..], taken := v.taken + [v.segments[0]])
  {
    var k := v.segments[0];
    WholeLaps(k, lap);
    WholeLaps(v.base - 1 + w, lap);
    DifferMod(k, v.base - 1 + w);
    assert k % 256 == |v.taken| % 256 && k != n - 1 && k % 256 != (v.group + w) % 256;
  }

  lemma FreshLast(n: nat, w: byte, v: View, lap: nat)
    requires InStep(n, w, v, lap) && v.segments[0] + 1 == End(n, w, v.base)
    ensures var last := End(n, w, v.base) - 1;
      Segment(n, w, v)
      == v.(segments := [], taken := v.taken + [last], acks := v.acks + [last + 256 * lap],
            complete := last == n - 1, group := if last == n - 1 then v.group else last + 256 * lap)
  {
    WholeLaps(v.segments[0], lap);
    WholeLaps(v.base - 1 + w, lap);
  }

  /** What the server has once it has taken all that is under way, up to the end of the window. */
  function Caught(n: nat, end: nat, v: View, lap: nat): View
    requires 0 < end
  {
    var last := end - 1;
    v.(segments := [], taken := v.taken + v.segments, acks := v.acks + [last + 256 * lap],
       complete := last == n - 1, group := if last == n - 1 then v.group else last + 256 * lap)
  }

  lemma CaughtStep(n: nat, end: nat, v: View, lap: nat)
    requires 0 < end && v.segments != []
    ensures Caught(n, end, v.(segments := v.segments[1..], taken := v.taken + [v.segments[0]]), lap)
        == Caught(n, end, v, lap)
  {
    assert v.taken + [v.segments[0]] + v.segments[1..] == v.taken + v.segments;
  }

  /** Segments that come in the order the server expects them, up to the end of a window, are
      all taken, once each, and only the last of them is answered. */
  lemma {:induction false} FreshSegments(n: nat, w: byte, v: View, lap: nat)
    requires InStep(n, w, v, lap)
    ensures TakeSegments(n, w, v) == Caught(n, End(n, w, v.base), v, lap)
    decreases |v.segments|
  {
    var v1 := Segment(n, w, v);
    RunCopies(n, w, v, TakeSegment, |v.segments|);
    if |v.segments| == 1 {
      FreshLast(n, w, v, lap);
      assert v.segments == [v.segments[0]];
      assert Run(n, w, v1, Copies(TakeSegment, 0)) == v1;
    } else {
      FreshMiddle(n, w, v, lap);
      FreshSegments(n, w, v1, lap);
      CaughtStep(n, End(n, w, v.base), v, lap);
    }
  }

  /** Acknowledgements outside the window are ignored. */
  lemma {:induction false} OldAcks(n: nat, w: byte, v: View, k: nat)
    requires Live(n, v) && k <= |v.acks|
    requires forall i :: 0 <= i < k ==> !InWindow(v.acks[i] % 256, v.base, w)
    ensures Run(n, w, v, Copies(TakeAck, k)) == v.(acks := v.acks[k..])
    decreases k
  {
    if k > 0 {
      RunCopies(n, w, v, TakeAck, k);
      OldAcks(n, w, Acknowledge(n, w, v), k - 1);
    }
  }

  // ----- resending a window

  /** The segment after the window that starts at base; segment 0 is a window of its own. */
  function Through(n: nat, w: nat, base: nat): nat {
    if base == 0 then 1 else End(n, w, base)
  }

  /** Where the next window starts. */
  function Past(w: nat, base: nat): nat {
    if base == 0 then 1 else base + w
  }

  /** What a client finds after the acknowledgements for its window: it has moved one window
      on, or it is done. */
  predicate MovedOn(w: nat, v: View, u: View) {
    u.finished || u.base == Past(w, v.base)
  }

  lemma OnlyGroupAcks(n: nat, w: byte, v: View)
    requires Flowing(n, w, v) && !v.complete && v.acks != [] && v.acks[0] == v.group != v.base - 1
    ensures forall i :: 0 <= i < |v.acks| ==> v.acks[i] == v.group
  {
    forall i | 0 <= i < |v.acks| ensures v.acks[i] == v.group {
      assert v.acks[i] in v.acks;
      if i > 0 { assert v.acks[0] <= v.acks[i]; }
    }
  }

  lemma OldAcksOnly(n: nat, w: byte, v: View)
    requires Live(n, v) && 0 < v.base && 0 < w < 128 && forall i :: 0 <= i < |v.acks| ==> v.acks[i] == v.base - 1
    ensures TakeAcks(n, w, v) == v.(acks := [])
  {
    OldAcks(n, w, v, |v.acks|);
  }

  lemma GroupAckMovesOn(n: nat, w: byte, v: View)
    requires Inv(n, w, v) && Flowing(n, w, v) && Live(n, v) && n <= Capacity(w)
    requires !v.complete && v.acks != [] && v.acks[0] == v.group != v.base - 1
    ensures MovedOn(w, v, TakeAcks(n, w, v))
  {
    var v1 := Acknowledge(n, w, v);
    RunCopies(n, w, v, TakeAck, |v.acks|);
    GroupAcknowledge(n, w, v);
    OnlyGroupAcks(n, w, v);
    assert v1.acks == v.acks[1..];
    OldAcksOnly(n, w, v1);
  }

  lemma FinalAckMovesOn(n: nat, w: byte, v: View)
    requires Inv(n, w, v) && Flowing(n, w, v) && Live(n, v)
    requires v.complete && v.acks != [] && v.acks[0] == n - 1
    ensures MovedOn(w, v, TakeAcks(n, w, v))
  {
    RunCopies(n, w, v, TakeAck, |v.acks|);
    FinalAcknowledge(n, w, v);
    Settled(n, w, Acknowledge(n, w, v), TakeAck, |v.acks| - 1);
  }

  /** One acknowledgement in the window moves the client on, whatever old ones surround it. */
  lemma {:induction false} AcksMoveOn(n: nat, w: byte, v: View, k: nat)
    requires Inv(n, w, v) && Flowing(n, w, v) && Live(n, v) && n <= Capacity(w)
    requires k < |v.acks| && v.acks[k] != v.base - 1
    ensures MovedOn(w, v, TakeAcks(n, w, v))
    decreases k
  {
    assert v.acks[0] in v.acks;
    if v.acks[0] == v.base - 1 {
      OldAcknowledge(n, w, v);
      RunCopies(n, w, v, TakeAck, |v.acks|);
      AcksMoveOn(n, w, Acknowledge(n, w, v), k - 1);
    } else if v.complete {
      FinalAckMovesOn(n, w, v);
    } else {
      GroupAckMovesOn(n, w, v);
    }
  }

  /** The client resends its window into empty channels and nothing more is lost. */
  function ResendWindow(n: nat, w: byte, v: View): View {
    TakeSegments(n, w, Step(n, w, v, Timeout))
  }

  /** The state in which every message of a window has been lost. */
  ghost predicate AllLost(n: nat, w: byte, v: View) {
    Inv(n, w, v) && Live(n, v) && v.segments == [] && v.acks == []
  }

  /** A resent window of which the server has the front. */
  predicate Resent(n: nat, w: byte, v: View, end: nat) {
    && Live(n, v) && 0 < w < 128 && !v.complete && v.acks == [] && v.group == v.base - 1
    && end == End(n, w, v.base) && v.segments == Range(v.base, end) && 0 < v.base <= |v.taken| < end
  }

  lemma StaleFront(n: nat, w: byte, v: View, end: nat)
    requires Resent(n, w, v, end)
    ensures Run(n, w, v, Copies(TakeSegment, |v.taken| - v.base))
         == v.(segments := Range(|v.taken|, end), acks := Repeat(v.group, |v.taken| - v.base))
  {
    var k := |v.taken| - v.base;
    StaleSegments(n, w, v, k);
    assert v.segments[k..] == Range(|v.taken|, end) && v.acks + Repeat(v.group, k) == Repeat(v.group, k);
  }

  /** The front is answered with the last group number, the rest is taken. */
  lemma StaleThenFresh(n: nat, w: byte, v: View, end: nat)
    requires Resent(n, w, v, end)
    ensures var u := TakeSegments(n, w, v);
      u == v.(segments := [], taken := v.taken + Range(|v.taken|, end),
          acks := Repeat(v.group, |v.taken| - v.base) + [end - 1],
              complete := end == n, group := if end == n then v.group else end - 1)
  {
    var k := |v.taken| - v.base;
    var v2 := v.(segments := Range(|v.taken|, end), acks := Repeat(v.group, k));
    StaleFront(n, w, v, end);
    RunSplit(n, w, v, TakeSegment, k, |v2.segments|);
    FreshSegments(n, w, v2, 0);
  }

  /** The server took part of the window before the rest was lost. */
  lemma ResendCompletes(n: nat, w: byte, v: View)
    requires AllLost(n, w, v) && Flowing(n, w, v) && !v.complete && v.group == v.base - 1
    ensures var u := ResendWindow(n, w, v);
      && u.taken == Range(0, End(n, w, v.base)) && u.base == v.base && Live(n, u)
      && u.acks != [] && u.acks[|u.acks| - 1] == End(n, w, v.base) - 1
  {
    var v1, end := Step(n, w, v, Timeout), End(n, w, v.base);
    assert v1 == v.(segments := Range(v.base, end));
    StaleThenFresh(n, w, v1, end);
    assert Range(0, |v.taken|) + Range(|v.taken|, end) == Range(0, end);
  }

  /** Only the acknowledgement of the window was lost: the first segment sent again draws it. */
  lemma ResendRedraws(n: nat, w: byte, v: View)
    requires AllLost(n, w, v) && Flowing(n, w, v) && v.group != v.base - 1
    ensures var u := ResendWindow(n, w, v);
      && u.taken == v.taken == Range(0, End(n, w, v.base)) && u.base == v.base && Live(n, u)
      && u.acks != [] && u.acks[|u.acks| - 1] == End(n, w, v.base) - 1
  {
    var v1, end := Step(n, w, v, Timeout), End(n, w, v.base);
    assert v1 == v.(segments := Range(v.base, end));
    StaleSegments(n, w, v1, |v1.segments|);
  }

  lemma OpeningSegmentTaken(n: nat, w: byte, v: View)
    requires Inv(n, w, v) && Opening(v) && v.segments == [0] && v.acks == []
    ensures Segment(n, w, v) == v.(segments := [], taken := [0], acks := [0])
  {
  }

  lemma OpeningAck(n: nat, w: byte, v: View)
    requires 1 < n && 0 < w < 128 && v.base == 0 && !v.sentAll && v.acks == [0]
    ensures Acknowledge(n, w, v).base == 1
  {
  }

  /** Before the first acknowledgement the client resends segment 0, which opens the server or
      draws its acknowledgement again. */
  lemma ResendOpens(n: nat, w: byte, v: View)
    requires AllLost(n, w, v) && Opening(v)
    ensures var u := ResendWindow(n, w, v); u.taken == [0] && TakeAcks(n, w, u).base == 1
  {
    var v1 := Step(n, w, v, Timeout);
    assert v1 == v.(segments := [0]);
    var u := Segment(n, w, v1);
    OpeningSegmentTaken(n, w, v1);
    OpeningAck(n, w, u);
    RunCopies(n, w, v1, TakeSegment, 1);
    RunCopies(n, w, u, TakeAck, 1);
    assert Copies(TakeSegment, 0) == [] && Copies(TakeAck, 0) == [];
  }

  /** Resynchronisation: after any loss in a window, the first included, one resend of it without
      loss makes the server hold all of it. The acknowledgements this draws move the client past
      the window, unless the server had the whole request before: then it no longer answers. */
  lemma Resynchronises(n: nat, w: byte, v: View)
    requires AllLost(n, w, v) && n <= Capacity(w)
    ensures var u := ResendWindow(n, w, v);
      && u.taken == Range(0, Through(n, w, v.base))
      && (MovedOn(w, v, TakeAcks(n, w, u)) <==> !v.complete)
  {
    var v1, u := Step(n, w, v, Timeout), ResendWindow(n, w, v);
    if Opening(v) {
      ResendOpens(n, w, v);
    } else if v.complete {
      IgnoredSegments(n, w, v1, |v1.segments|);
      assert u.acks == [];
      assert Copies(TakeAck, 0) == [];
    } else {
      if v.group == v.base - 1 { ResendCompletes(n, w, v); } else { ResendRedraws(n, w, v); }
      ResendInv(n, w, v);
      KeepsFlowing(n, w, v1, |v1.segments|);
      AcksMoveOn(n, w, u, |u.acks| - 1);
    }
  }

  lemma {:induction false} KeepsFlowing(n: nat, w: byte, v: View, k: nat)
    requires Inv(n, w, v) && Flowing(n, w, v) && Live(n, v)
    ensures var u := Run(n, w, v, Copies(TakeSegment, k));
      Inv(n, w, u) && Flowing(n, w, u) && Live(n, u) && u.base == v.base
    decreases k
  {
    if k > 0 {
      RunCopies(n, w, v, TakeSegment, k);
      if v.segments != [] { FlowingSegment(n, w, v); }
      KeepsFlowing(n, w, Step(n, w, v, TakeSegment), k - 1);
    }
  }

  // ----- a transfer without loss

  /** The server takes all that is under way, then the client all the answers. */
  function Exchange(n: nat, w: byte, v: View): View {
    TakeAcks(n, w, TakeSegments(n, w, v))
  }

  function Exchanges(n: nat, w: byte, r: nat): View {
    if r == 0 then START else Exchange(n, w, Exchanges(n, w, r - 1))
  }

  /** A window has just been sent, and the server is at its start, whole laps of 256 apart. */
  predicate AtWindow(n: nat, w: byte, v: View, lap: nat) {
    && InStep(n, w, v, lap) && v.segments[0] == v.base && v.acks == []
    && v.sentAll == (n <= v.base + w)
  }

  /** The end of the window, as the server's count of it comes back mod 256. */
  lemma AckNumbers(last: nat, lap: nat, base: nat, w: byte)
    requires base <= last < base + w && w < 128 && base < 256
    ensures InWindow((last + 256 * lap) % 256, base, w)
    ensures (last + 256 * lap + 1) % 256 == (last + 1) % 256 == if last + 1 < 256 then last + 1 else last + 1 - 256
  {
    WholeLaps(last, lap);
    WholeLaps(last + 1, lap);
    assert last % 256 == if last < 256 then last else last - 256;
  }

  lemma OneAck(n: nat, w: byte, v: View, last: nat, lap: nat)
    requires Live(n, v) && v.base <= last < v.base + w && w < 128 && v.acks == [last + 256 * lap]
    ensures var next := (last + 1) % 256;
      TakeAcks(n, w, v) ==
      if v.sentAll then v.(acks := [], finished := true)
      else if n <= next then v.(acks := [], overrun := true)
      else v.(acks := [], base := next, turn := if v.base == 0 then 0 else v.turn + 1,
              segments := v.segments + Window(n, w, next), sentAll := n <= next + w)
  {
    AckNumbers(last, lap, v.base, w);
    RunCopies(n, w, v, TakeAck, 1);
    assert Copies(TakeAck, 0) == [];
  }

  /** In one exchange the server takes each segment of the window once, in order, and answers
      once. */
  lemma ServerHalf(n: nat, w: byte, v: View, lap: nat)
    requires AtWindow(n, w, v, lap)
    ensures var u, end := TakeSegments(n, w, v), End(n, w, v.base);
      && u == v.(segments := [], taken := v.taken + v.segments, acks := [end - 1 + 256 * lap],
                 complete := end == n, group := if end == n then v.group else end - 1 + 256 * lap)
      && |u.taken| == end + 256 * lap
  {
    FreshSegments(n, w, v, lap);
  }

  lemma LastExchange(n: nat, w: byte, v: View, lap: nat)
    requires AtWindow(n, w, v, lap) && n <= v.base + w
    ensures var u := Exchange(n, w, v);
      u.complete && u.finished && u.taken == v.taken + v.segments && |u.taken| == n + 256 * lap
  {
    ServerHalf(n, w, v, lap);
    OneAck(n, w, TakeSegments(n, w, v), n - 1, lap);
  }

  /** The client then sends the next window; its number starts over at 256, the server's does not. */
  lemma NextExchange(n: nat, w: byte, v: View, lap: nat)
    requires AtWindow(n, w, v, lap) && v.base + w < n
    ensures var u, next := Exchange(n, w, v), v.base + w;
      && u.taken == v.taken + v.segments
      && if next < 256 then AtWindow(n, w, u, lap) && u.base == next
         else AtWindow(n, w, u, lap + 1) && u.base == next - 256
  {
    var s, next := TakeSegments(n, w, v), if v.base + w < 256 then v.base + w else v.base + w - 256;
    assert (v.base + w) % 256 == next;
    ServerHalf(n, w, v, lap);
    OneAck(n, w, s, v.base + w - 1, lap);
    assert s.segments + Window(n, w, next) == Window(n, w, next);
    assert Exchange(n, w, v).segments == Window(n, w, next);
  }

  /** The first exchange: segment 0 opens the server, and the client sends the first window. */
  lemma FirstExchange(n: nat, w: byte)
    requires 1 < n && 0 < w < 128
    ensures var u := Exchanges(n, w, 1); AtWindow(n, w, u, 0) && u.base == 1 && u.turn == 0 && u.taken == [0]
  {
    var v1 := Segment(n, w, START);
    RunCopies(n, w, START, TakeSegment, 1);
    assert Copies(TakeSegment, 0) == [] && TakeSegments(n, w, START) == v1;
    OneAck(n, w, v1, 0, 0);
    assert [] + Window(n, w, 1) == Window(n, w, 1);
    assert Exchanges(n, w, 0) == START;
  }

  /** The state after r exchanges: still at a window some laps on, or complete after them. */
  ghost predicate After(n: nat, w: byte, v: View, lap: nat) {
    if v.finished then v.complete && |v.taken| == n + 256 * lap
    else AtWindow(n, w, v, lap)
  }

  lemma {:induction false} AfterExchanges(n: nat, w: byte, r: nat) returns (lap: nat)
    requires 1 < n && 0 < w < 128 && 0 < r
    ensures After(n, w, Exchanges(n, w, r), lap)
  {
    if r == 1 {
      FirstExchange(n, w);
      lap := 0;
    } else {
      var v := Exchanges(n, w, r - 1);
      lap := AfterExchanges(n, w, r - 1);
      if v.finished {
        FinishedStays(n, w, v);
      } else if n <= v.base + w {
        LastExchange(n, w, v, lap);
      } else {
        NextExchange(n, w, v, lap);
        if 256 <= v.base + w { lap := lap + 1; }
      }
    }
  }

  lemma FinishedStays(n: nat, w: byte, v: View)
    requires v.finished
    ensures Exchange(n, w, v) == v
  {
    Settled(n, w, v, TakeSegment, |v.segments|);
    Settled(n, w, v, TakeAck, |v.acks|);
  }

  /** As long as windows start below 256, the r-th exchange is at window r - 1 and nothing is
      wrong. */
  lemma {:induction false} FirstLap(n: nat, w: byte, r: nat)
    requires 1 < n && 0 < w < 128 && 0 < r && 1 + (r - 1) * w < 256 && 1 + (r - 1) * w < n
    ensures var v := Exchanges(n, w, r);
      AtWindow(n, w, v, 0) && v.base == 1 + (r - 1) * w && v.taken == Range(0, v.base)
  {
    if r == 1 {
      FirstExchange(n, w);
    } else {
      var v := Exchanges(n, w, r - 1);
      assert (r - 1) * w == (r - 2) * w + w;
      FirstLap(n, w, r - 1);
      NextExchange(n, w, v, 0);
      assert Range(0, v.base) + Range(v.base, v.base + w) == Range(0, v.base + w);
    }
  }

  /** The window that holds segment n - 1. */
  lemma LastWindow(n: nat, w: nat) returns (r: nat)
    requires 0 < w && 1 < n <= Capacity(w)
    ensures 0 < r && 1 + (r - 1) * w < n <= 1 + r * w && 1 + (r - 1) * w < 256
  {
    r := (n - 2) / w + 1;
    assert (r - 1) * w <= n - 2 < r * w;
    CapacityMeaning(w);
    if 254 / w < r - 1 {
      MulMono(254 / w + 1, r - 1, w);
    } else {
      MulMono(r - 1, 254 / w, w);
    }
  }

  /** Everything the client sends in the first r exchanges. */
  function AllSegments(n: nat, w: byte, r: nat): seq<nat> {
    if r == 0 then [] else AllSegments(n, w, r - 1) + Exchanges(n, w, r - 1).segments
  }

  /** Everything the server answers in them. */
  function AllAcks(n: nat, w: byte, r: nat): seq<nat> {
    if r == 0 then [] else AllAcks(n, w, r - 1) + TakeSegments(n, w, Exchanges(n, w, r - 1)).acks
  }

  /** The last segment of the i-th group: segment 0 first, then one group for each window. */
  function GroupEnd(n: nat, w: nat, i: nat): nat
    requires 0 < n
  {
    if i * w < n - 1 then i * w else n - 1
  }

  lemma OpeningHalf(n: nat, w: byte)
    requires 1 < n && 0 < w < 128
    ensures TakeSegments(n, w, START).acks == [0]
  {
    RunCopies(n, w, START, TakeSegment, 1);
    assert Copies(TakeSegment, 0) == [];
  }

  /** After segment 0 and r - 1 windows, each segment so far was sent once, in order, and each
      group was answered once, with its last segment. */
  lemma {:induction false} SentOnce(n: nat, w: byte, r: nat)
    requires 1 < n && 0 < w < 128 && 0 < r && 1 + (r - 1) * w < 256 && 1 + (r - 1) * w < n
    ensures AllSegments(n, w, r) == Range(0, 1 + (r - 1) * w)
    ensures |AllAcks(n, w, r)| == r && forall i :: 0 <= i < r ==> AllAcks(n, w, r)[i] == GroupEnd(n, w, i)
  {
    if r == 1 {
      OpeningHalf(n, w);
      assert AllSegments(n, w, 0) == [] && AllAcks(n, w, 0) == [] && Exchanges(n, w, 0) == START;
      assert AllAcks(n, w, 1) == [0] && 0 * w == 0;
    } else {
      assert (r - 1) * w == (r - 2) * w + w;
      SentOnce(n, w, r - 1);
      WindowSentOnce(n, w, r - 1);
    }
  }

  /** The window of exchange r. */
  lemma WindowSentOnce(n: nat, w: byte, r: nat)
    requires 1 < n && 0 < w < 128 && 0 < r && 1 + (r - 1) * w < 256 && 1 + (r - 1) * w < n
    requires AllSegments(n, w, r) == Range(0, 1 + (r - 1) * w)
    requires |AllAcks(n, w, r)| == r && forall i :: 0 <= i < r ==> AllAcks(n, w, r)[i] == GroupEnd(n, w, i)
    ensures AllSegments(n, w, r + 1) == Range(0, End(n, w, 1 + (r - 1) * w))
    ensures |AllAcks(n, w, r + 1)| == r + 1
    ensures forall i :: 0 <= i < r + 1 ==> AllAcks(n, w, r + 1)[i] == GroupEnd(n, w, i)
  {
    var base := 1 + (r - 1) * w;
    FirstLap(n, w, r);
    ServerHalf(n, w, Exchanges(n, w, r), 0);
    assert r * w == (r - 1) * w + w;
    assert Range(0, base) + Range(base, End(n, w, base)) == Range(0, End(n, w, base));
  }

  /** Within the capacity, a transfer without loss ends with both sides done after one exchange
      for segment 0 and one for each window, and the server has taken every segment once. */
  lemma TransferWithin(n: nat, w: byte) returns (r: nat)
    requires 0 < w < 128 && 1 < n <= Capacity(w)
    ensures var v := Exchanges(n, w, r + 1);
      v.finished && v.complete && v.taken == Range(0, n) && v.segments == [] && v.acks == [] && !v.overrun
    ensures 0 < r && 1 + (r - 1) * w < n <= 1 + r * w
    ensures AllSegments(n, w, r + 1) == Range(0, n)
    ensures |AllAcks(n, w, r + 1)| == r + 1 && forall i :: 0 <= i <= r ==> AllAcks(n, w, r + 1)[i] == GroupEnd(n, w, i)
  {
    r := LastWindow(n, w);
    var v := Exchanges(n, w, r);
    FirstLap(n, w, r);
    assert r * w == (r - 1) * w + w;
    LastExchange(n, w, v, 0);
    ServerHalf(n, w, v, 0);
    OneAck(n, w, TakeSegments(n, w, v), n - 1, 0);
    assert Range(0, v.base) + Range(v.base, n) == Range(0, n);
    SentOnce(n, w, r);
    WindowSentOnce(n, w, r);
  }

  /** Beyond the capacity the client's segment numbers start over before it has sent the last
      segment, so the server counts at least one lap too many. */
  lemma {:induction false} Beyond(n: nat, w: byte, r: nat) returns (lap: nat)
    requires 0 < w < 128 && Capacity(w) < n && 0 < r
    ensures var v := Exchanges(n, w, r);
      && After(n, w, v, lap)
      && if 1 + (r - 1) * w < 256 then lap == 0 && !v.finished && v.base == 1 + (r - 1) * w else 0 < lap
  {
    CapacityMeaning(w);
    assert (r - 1) * w + w == r * w;
    if r == 1 {
      FirstExchange(n, w);
      lap := 0;
    } else {
      var v := Exchanges(n, w, r - 1);
      assert (r - 2) * w + w == (r - 1) * w;
      lap := Beyond(n, w, r - 1);
      if v.finished {
        FinishedStays(n, w, v);
      } else if n <= v.base + w {
        LastExchange(n, w, v, lap);
        assert 0 < lap by { if lap == 0 { WindowsFit(n, w, r - 2); } }
      } else {
        NextExchange(n, w, v, lap);
        if 256 <= v.base + w { lap := lap + 1; }
      }
    }
  }

  /** A window that starts below 256 ends within the capacity. */
  lemma WindowsFit(n: nat, w: nat, k: nat)
    requires 0 < w && 1 + k * w < 256
    ensures 1 + k * w + w <= Capacity(w)
  {
    CapacityMeaning(w);
    if 254 / w < k { MulMono(254 / w + 1, k, w); }
    MulMono(k + 1, 254 / w + 1, w);
    assert (k + 1) * w == k * w + w;
  }

  /** A transfer without loss delivers segments 0 to n - 1, each once and in order, exactly when
      n is within the capacity of the window; otherwise it never ends or ends with too many. */
  lemma TransferSucceedsWithinCapacity(n: nat, w: byte)
    requires 0 < w < 128 && 1 < n
    ensures (exists r :: Exchanges(n, w, r).complete && Exchanges(n, w, r).taken == Range(0, n)) <==> n <= Capacity(w)
    ensures Capacity(w) < n ==> forall r :: Exchanges(n, w, r).complete ==> n < |Exchanges(n, w, r).taken|
  {
    if n <= Capacity(w) {
      var r := TransferWithin(n, w);
      assert Exchanges(n, w, r + 1).complete;
    } else {
      forall r | Exchanges(n, w, r).complete ensures n < |Exchanges(n, w, r).taken| {
        if r > 0 { var lap := Beyond(n, w, r); }
      }
    }
  }
}
