/** The window protocol between a sending client and its server, seen through segment numbers
    only: which segments and which acknowledgements are under way, and what each side has
    counted. Channels keep their order and may lose anything. Numbers on the server's side and
    in acknowledgements are true counts; every comparison the code makes is made mod 256. */
module Windows {
  import opened Apdus
  import opened Segmentation

  /** The client is at segment base, which starts a new window for the turn-th time after the
      first, and has sent that window; taken lists the segments the server
      has appended, the first of them the one that opened it; group is the number of its last
      group acknowledgement. */
  datatype View = View(
    base: nat, turn: nat, sentAll: bool, finished: bool, overrun: bool,
    taken: seq<nat>, group: nat, complete: bool,
    segments: seq<nat>, acks: seq<nat>)

  datatype Move = TakeSegment | LoseSegment(i: nat) | TakeAck | LoseAck(i: nat) | Timeout

  function Range(lo: nat, hi: nat): (r: seq<nat>)
    requires lo <= hi
    ensures |r| == hi - lo && forall i :: 0 <= i < |r| ==> r[i] == lo + i
  {
    seq(hi - lo, i => lo + i)
  }

  /** The end of the window that starts at base. */
  function End(n: nat, w: nat, base: nat): nat {
    if base + w < n then base + w else n
  }

  function Window(n: nat, w: nat, base: nat): seq<nat>
    requires base < n
  {
    Range(base, End(n, w, base))
  }

  function Without(s: seq<nat>, i: nat): seq<nat>
    requires i < |s|
  {
    s[..i] + s[i + 1..]
  }

  /** ServerSSM.idle, segmented_request and await_response. */
  function Segment(n: nat, w: nat, v: View): View
    requires v.segments != []
  {
    var k := v.segments[0];
    var next := |v.taken|;
    var v1 := v.(segments := v.segments[1..]);
    if v.taken == [] then v1.(taken := [k], group := 0, acks := v.acks + [0])
    else if v.complete then v1
    else if k % 256 != next % 256 then v1.(acks := v.acks + [v.group])
    else if k == n - 1 then v1.(taken := v.taken + [k], complete := true, acks := v.acks + [next])
    else if k % 256 == (v.group + w) % 256 then v1.(taken := v.taken + [k], group := next, acks := v.acks + [next])
    else v1.(taken := v.taken + [k])
  }

  /** ClientSSM.segmented_request on a segment ack. */
  function Acknowledge(n: nat, w: byte, v: View): View
    requires v.acks != [] && v.base < 256
  {
    var a := v.acks[0];
    var v1 := v.(acks := v.acks[1..]);
    var next := (a + 1) % 256;
    if !InWindow(a % 256, v.base, w) then v1
    else if v.sentAll then v1.(finished := true)
    else if n <= next then v1.(overrun := true)
    else v1.(base := next, turn := if v.base == 0 then 0
        else v.turn + 1, segments := v.segments + Window(n, w, next), sentAll := n <= next + w)
  }

  /** ClientSSM.segmented_request_timeout. */
  function Resend(n: nat, w: nat, v: View): View
    requires v.base < n
  {
    if v.base == 0 then v.(segments := v.segments + [0])
    else v.(segments := v.segments + Window(n, w, v.base), sentAll := v.sentAll || n <= v.base + w)
  }

  predicate Enabled(n: nat, v: View, m: Move) {
    && v.base < n && v.base < 256 && !v.finished && !v.overrun
    && match m {
      case TakeSegment => v.segments != []
      case LoseSegment(i) => i < |v.segments|
      case TakeAck => v.acks != []
      case LoseAck(i) => i < |v.acks|
      case Timeout => true
    }
  }

  function Step(n: nat, w: byte, v: View, m: Move): View {
    if !Enabled(n, v, m) then v
    else
      match m
      case TakeSegment => Segment(n, w, v)
      case LoseSegment(i) => v.(segments := Without(v.segments, i))
      case TakeAck => Acknowledge(n, w, v)
      case LoseAck(i) => v.(acks := Without(v.acks, i))
      case Timeout => Resend(n, w, v)
  }

  function Run(n: nat, w: byte, v: View, moves: seq<Move>): View
    decreases |moves|
  {
    if moves == [] then v else Run(n, w, Step(n, w, v, moves[0]), moves[1..])
  }

  /** The client has just sent segment 0. */
  const START := View(0, 0, false, false, false, [], 0, false, [0], [])

  /** The most segments a transfer with window w can have: windows start at 0, 1, 1 + w, 1 + 2w
      and so on, and the start of each must be a sequence number. */
  function Capacity(w: nat): nat
    requires 0 < w
  {
    w * (254 / w + 1) + 1
  }

  // ----- the invariant

  predicate Sorted(s: seq<nat>) {
    forall i, j :: 0 <= i < j < |s| ==> s[i] <= s[j]
  }

  /** Once a segment of the current window is under way, everything behind it is, too. */
  predicate NewAfterOld(s: seq<nat>, base: nat) {
    forall i, j :: 0 <= i < j < |s| && base <= s[i] ==> base <= s[j]
  }

  /** Before the first acknowledgement. */
  ghost predicate Opening(v: View) {
    && v.base == 0 && !v.sentAll && v.group == 0 && !v.complete && !v.finished
    && (forall k :: k in v.segments ==> k == 0)
    && (forall a :: a in v.acks ==> a == 0)
    && (v.taken == [0] || (v.taken == [] && v.acks == []))
  }

  /** Afterwards: the server's group is the client's base minus one, or one window further. */
  ghost predicate Flowing(n: nat, w: nat, v: View) {
    && 0 < v.base < n && v.base < 256 && v.base == 1 + v.turn * w
    && v.sentAll == (n <= v.base + w)
    && (v.finished ==> v.complete)
    && 0 < |v.taken| <= n && v.taken == Range(0, |v.taken|)
    && v.complete == (|v.taken| == n)
    && (v.group == v.base - 1 || (v.group == v.base + w - 1 && |v.taken| == v.base + w))
    && v.group < |v.taken| <= v.group + w + (if v.complete then 1 else 0)
    && (v.complete ==> v.group == v.base - 1 && n <= v.base + w)
    && (forall k :: k in v.segments ==> v.group + 1 <= k + w && k < v.base + w && k < n)
    && NewAfterOld(v.segments, v.base)
    && (forall a :: a in v.acks ==> a == v.base - 1 || a == if v.complete then n - 1 else v.group)
    && Sorted(v.acks)
  }

  ghost predicate Inv(n: nat, w: byte, v: View) {
    && 1 < n && 0 < w < 128 && !v.overrun
    && (Opening(v) || Flowing(n, w, v))
  }

  lemma MulMono(a: nat, b: nat, w: nat)
    requires a <= b
    ensures a * w <= b * w
  {
    assert b * w == a * w + (b - a) * w;
  }

  lemma CapacityMeaning(w: nat)
    requires 0 < w
    ensures 254 / w * w <= 254 < (254 / w + 1) * w == Capacity(w) - 1
  {
  }

  /** A window that is not the last is followed by one that still starts below 256. */
  lemma NextBase(n: nat, w: nat, turn: nat)
    requires 0 < w && n <= Capacity(w) && 1 + turn * w + w < n
    ensures 1 + turn * w + w < 256 && 1 + (turn + 1) * w == 1 + turn * w + w
  {
    CapacityMeaning(w);
    if 255 <= turn * w + w {
      if turn + 1 <= 254 / w { MulMono(turn + 1, 254 / w, w); }
      MulMono(254 / w + 1, turn + 1, w);
      assert false;
    }
  }

  lemma RangeStep(hi: nat)
    ensures Range(0, hi + 1) == Range(0, hi) + [hi]
  {
  }

  lemma Tail(s: seq<nat>, base: nat)
    requires s != [] && NewAfterOld(s, base)
    ensures NewAfterOld(s[1..], base)
    ensures forall k :: k in s[1..] ==> k in s && (base <= s[0] ==> base <= k)
  {
    forall k | k in s[1..] ensures k in s && (base <= s[0] ==> base <= k) {
      var j :| 0 <= j < |s[1..]| && s[1..][j] == k;
      assert s[j + 1] == k;
    }
  }

  lemma Removed(s: seq<nat>, i: nat, base: nat)
    requires i < |s|
    ensures forall k :: k in Without(s, i) ==> k in s
    ensures Sorted(s) ==> Sorted(Without(s, i))
    ensures NewAfterOld(s, base) ==> NewAfterOld(Without(s, i), base)
  {
    var t := Without(s, i);
    assert forall j :: 0 <= j < |t| ==> t[j] == if j < i then s[j] else s[j + 1];
  }

  lemma Appended(s: seq<nat>, x: nat)
    requires Sorted(s) && forall a :: a in s ==> a <= x
    ensures Sorted(s + [x])
  {
    forall i | 0 <= i < |s| ensures s[i] <= x { assert s[i] in s; }
  }

  lemma Extended(s: seq<nat>, t: seq<nat>, base: nat)
    requires (forall k :: k in s ==> k < base) && (forall k :: k in t ==> base <= k)
    ensures NewAfterOld(s + t, base)
  {
    forall i | 0 <= i < |s| ensures s[i] < base { assert s[i] in s; }
    forall i | 0 <= i < |t| ensures base <= t[i] { assert t[i] in t; }
  }

  lemma RestOfAcks(s: seq<nat>)
    requires s != [] && Sorted(s)
    ensures Sorted(s[1..]) && forall a :: a in s[1..] ==> a in s && s[0] <= a
  {
    forall a | a in s[1..] ensures a in s && s[0] <= a {
      var j :| 0 <= j < |s[1..]| && s[1..][j] == a;
      assert s[j + 1] == a;
    }
  }

  lemma OpeningSegment(n: nat, w: byte, v: View)
    requires Inv(n, w, v) && Opening(v) && Enabled(n, v, TakeSegment)
    ensures Inv(n, w, Segment(n, w, v))
  {
    assert v.segments[0] in v.segments;
    Tail(v.segments, 0);
    assert Opening(Segment(n, w, v));
  }

  /** A segment the server does not take next is answered with its last group number. */
  lemma StaleSegment(n: nat, w: byte, v: View)
    requires Inv(n, w, v) && Flowing(n, w, v) && Enabled(n, v, TakeSegment) && !v.finished
    requires v.complete || v.segments[0] % 256 != |v.taken| % 256
    ensures Flowing(n, w, Segment(n, w, v))
  {
    Tail(v.segments, v.base);
    if !v.complete { Appended(v.acks, v.group); }
  }

  /** Within the window, equal numbers mod 256 are equal. */
  lemma NextSegment(n: nat, w: byte, v: View)
    requires Inv(n, w, v) && Flowing(n, w, v) && Enabled(n, v, TakeSegment) && !v.complete
    requires v.segments[0] % 256 == |v.taken| % 256
    ensures v.segments[0] == |v.taken| && v.group == v.base - 1
    ensures v.segments[0] % 256 == (v.group + w) % 256 <==> v.segments[0] == v.base + w - 1
  {
    assert v.segments[0] in v.segments;
  }

  lemma LastSegment(n: nat, w: byte, v: View)
    requires Inv(n, w, v) && Flowing(n, w, v) && Enabled(n, v, TakeSegment) && !v.complete && !v.finished
    requires v.segments[0] % 256 == |v.taken| % 256 && v.segments[0] == n - 1
    ensures Flowing(n, w, Segment(n, w, v))
  {
    NextSegment(n, w, v);
    Tail(v.segments, v.base);
    RangeStep(|v.taken|);
    Appended(v.acks, n - 1);
  }

  lemma GroupSegment(n: nat, w: byte, v: View)
    requires Inv(n, w, v) && Flowing(n, w, v) && Enabled(n, v, TakeSegment) && !v.complete && !v.finished
    requires v.segments[0] % 256 == |v.taken| % 256 && v.segments[0] != n - 1
    requires v.segments[0] % 256 == (v.group + w) % 256
    ensures Flowing(n, w, Segment(n, w, v))
  {
    NextSegment(n, w, v);
    Tail(v.segments, v.base);
    RangeStep(|v.taken|);
    Appended(v.acks, v.base + w - 1);
  }

  lemma MiddleSegment(n: nat, w: byte, v: View)
    requires Inv(n, w, v) && Flowing(n, w, v) && Enabled(n, v, TakeSegment) && !v.complete && !v.finished
    requires v.segments[0] % 256 == |v.taken| % 256 && v.segments[0] != n - 1
    requires v.segments[0] % 256 != (v.group + w) % 256
    ensures Flowing(n, w, Segment(n, w, v))
  {
    NextSegment(n, w, v);
    Tail(v.segments, v.base);
    RangeStep(|v.taken|);
  }

  lemma OldAcknowledge(n: nat, w: byte, v: View)
    requires Inv(n, w, v) && Flowing(n, w, v) && Enabled(n, v, TakeAck) && v.acks[0] == v.base - 1
    ensures Flowing(n, w, Acknowledge(n, w, v)) && Acknowledge(n, w, v) == v.(acks := v.acks[1..])
  {
    RestOfAcks(v.acks);
  }

  lemma GroupAcknowledge(n: nat, w: byte, v: View)
    requires Inv(n, w, v) && Flowing(n, w, v) && Enabled(n, v, TakeAck) && n <= Capacity(w)
    requires !v.complete && v.acks[0] == v.group != v.base - 1
    ensures Flowing(n, w, Acknowledge(n, w, v))
    ensures Acknowledge(n, w, v).base == v.base + w && !Acknowledge(n, w, v).overrun
  {
    RestOfAcks(v.acks);
    assert !v.sentAll;
    NextBase(n, w, v.turn);
    var next := v.base + w;
    Extended(v.segments, Window(n, w, next), next);
    assert Acknowledge(n, w, v) == v.(acks := v.acks[1..], base := next, turn := v.turn + 1,
                                      segments := v.segments + Window(n, w, next), sentAll := n <= next + w);
  }

  lemma FinalAcknowledge(n: nat, w: byte, v: View)
    requires Inv(n, w, v) && Flowing(n, w, v) && Enabled(n, v, TakeAck)
    requires v.complete && v.acks[0] == n - 1
    ensures Flowing(n, w, Acknowledge(n, w, v)) && Acknowledge(n, w, v).finished
  {
    RestOfAcks(v.acks);
  }

  lemma FlowingAcknowledge(n: nat, w: byte, v: View)
    requires Inv(n, w, v) && Flowing(n, w, v) && Enabled(n, v, TakeAck) && n <= Capacity(w)
    ensures Inv(n, w, Acknowledge(n, w, v))
  {
    assert v.acks[0] in v.acks;
    if v.acks[0] == v.base - 1 { OldAcknowledge(n, w, v); }
    else if v.complete { FinalAcknowledge(n, w, v); }
    else { GroupAcknowledge(n, w, v); }
  }

  lemma OpeningAcknowledge(n: nat, w: byte, v: View)
    requires Inv(n, w, v) && Opening(v) && Enabled(n, v, TakeAck)
    ensures Flowing(n, w, Acknowledge(n, w, v))
  {
    assert v.acks[0] in v.acks;
    assert Sorted(v.acks) by {
      forall i | 0 <= i < |v.acks| ensures v.acks[i] == 0 { assert v.acks[i] in v.acks; }
    }
    RestOfAcks(v.acks);
    Extended(v.segments, Window(n, w, 1), 1);
    assert Acknowledge(n, w, v) == v.(acks := v.acks[1..], base := 1, turn := 0,
                                      segments := v.segments + Window(n, w, 1), sentAll := n <= 1 + w);
  }

  lemma ResendInv(n: nat, w: byte, v: View)
    requires Inv(n, w, v) && Enabled(n, v, Timeout)
    ensures Inv(n, w, Resend(n, w, v))
  {
  }

  lemma LossInv(n: nat, w: byte, v: View, m: Move)
    requires Inv(n, w, v) && Enabled(n, v, m) && (m.LoseSegment? || m.LoseAck?)
    ensures Inv(n, w, Step(n, w, v, m))
  {
    if m.LoseSegment? { Removed(v.segments, m.i, v.base); } else { Removed(v.acks, m.i, v.base); }
  }

  /** Every move keeps the invariant. */
  lemma StepInv(n: nat, w: byte, v: View, m: Move)
    requires Inv(n, w, v) && n <= Capacity(w)
    ensures Inv(n, w, Step(n, w, v, m))
  {
    if Enabled(n, v, m) {
      match m {
        case TakeSegment =>
          if Opening(v) { OpeningSegment(n, w, v); }
          else { FlowingSegment(n, w, v); }
        case TakeAck =>
          if Opening(v) { OpeningAcknowledge(n, w, v); } else { FlowingAcknowledge(n, w, v); }
        case Timeout => ResendInv(n, w, v);
        case _ => LossInv(n, w, v, m);
      }
    }
  }

  lemma FlowingSegment(n: nat, w: byte, v: View)
    requires Inv(n, w, v) && Flowing(n, w, v) && Enabled(n, v, TakeSegment)
    ensures Flowing(n, w, Segment(n, w, v))
  {
    if v.complete || v.segments[0] % 256 != |v.taken| % 256 { StaleSegment(n, w, v); }
    else if v.segments[0] == n - 1 { LastSegment(n, w, v); }
    else if v.segments[0] % 256 == (v.group + w) % 256 { GroupSegment(n, w, v); }
    else { MiddleSegment(n, w, v); }
  }

  lemma {:induction false} RunInv(n: nat, w: byte, v: View, moves: seq<Move>)
    requires Inv(n, w, v) && n <= Capacity(w)
    ensures Inv(n, w, Run(n, w, v, moves))
    decreases |moves|
  {
    if moves != [] {
      StepInv(n, w, v, moves[0]);
      RunInv(n, w, Step(n, w, v, moves[0]), moves[1..]);
    }
  }

  /** Completion is sound: within the capacity of the window, whatever is lost and however
      often the client times out, it never asks for a segment that does not exist, and when an
      acknowledgement tells it that it is done, the server holds every segment, in order. */
  lemma CompletionIsSound(n: nat, w: byte, moves: seq<Move>)
    requires 0 < w < 128 && 1 < n <= Capacity(w)
    ensures var v := Run(n, w, START, moves);
      !v.overrun && (v.finished ==> v.complete && v.taken == Range(0, n))
  {
    assert Opening(START);
    RunInv(n, w, START, moves);
  }
}
