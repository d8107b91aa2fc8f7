/** What the window protocol means for the two transactions themselves: the theorems of modules
    Windows and Rounds, carried over to the states of ClientSSM and ServerSSM. */
module Transfers {
  import opened Apdus
  import opened Segmentation
  import opened Pieces
  import opened Windows
  import opened Stream
  import Client = ClientSteps
  import Rounds

  lemma BeginSim(p: Transfer)
    requires Valid(p)
    ensures Rel(p, Begin(p), START)
  {
    var s := Client.Start(Client.Prepare(NewSsm(p.cc), p.cc, p.size, p.req), p.cc);
    SegmentOf(p, s, 0);
    SentOne(GetSegment(s, p.cc, 0).value);
    assert Client.Indication(NewSsm(p.cc), p.cc, p.ci, p.req, true)
        == Outcome(s, [Down(GetSegment(s, p.cc, 0).value)], false);
  }

  /** Every run of the link is a run of its view. */
  lemma {:induction false} RunSim(p: Transfer, l: Link, v: View, moves: seq<Move>) returns (seen: seq<Move>)
    requires Valid(p) && p.Count() <= Capacity(p.window) && Rel(p, l, v) && Inv(p.Count(), p.window, v)
    ensures Rel(p, Stream.Run(p, l, moves), Windows.Run(p.Count(), p.window, v, seen))
    decreases |moves|
  {
    if moves == [] {
      seen := [];
    } else {
      var m := moves[0];
      StepInv(p.Count(), p.window, v, m);
      StepSim(p, l, v, m);
      if m.Timeout? && !Stream.Enabled(p, l, m) {
        seen := RunSim(p, Stream.Step(p, l, m), v, moves[1..]);
      } else {
        var rest := RunSim(p, Stream.Step(p, l, m), Windows.Step(p.Count(), p.window, v, m), moves[1..]);
        seen := [m] + rest;
      }
    }
  }

  lemma {:induction false} ContentIsAssembled(p: Transfer, last: nat)
    requires last < p.Count()
    ensures Content(p, Range(0, last + 1)) == Assembled(p.pieces, 0, last)
  {
    ContentStep(p, Range(0, last), last);
    RangeStep(last);
    if last == 0 {
      assert Range(0, 0) == [];
    } else {
      ContentIsAssembled(p, last - 1);
      AssembledStep(p.pieces, 0, last - 1);
    }
  }

  /** All segments in order are the request. */
  lemma ContentIsRequest(p: Transfer)
    requires Valid(p)
    ensures Content(p, Range(0, p.Count())) == p.req.data
  {
    ContentIsAssembled(p, p.Count() - 1);
    CutIsUnique(p.pieces, p.req.data, p.size);
    AssembledAll(p.req.data, p.size);
  }

  lemma ReachedView(p: Transfer, moves: seq<Move>) returns (v: View)
    requires Valid(p) && p.Count() <= Capacity(p.window)
    ensures Rel(p, Stream.Run(p, Begin(p), moves), v) && Inv(p.Count(), p.window, v)
  {
    BeginSim(p);
    assert Opening(START);
    var seen := RunSim(p, Begin(p), START, moves);
    v := Windows.Run(p.Count(), p.window, START, seen);
    RunInv(p.Count(), p.window, START, seen);
  }

  /** Client-to-server completion is sound. In every run over channels that lose whatever they
      like, no handler raises an exception, what is handed up is the request, and when a segment
      ack has moved the client on to await its confirmation, the server has handed the whole
      request to its application. */
  lemma ClientMovesOnlyWhenServerHasAll(p: Transfer, moves: seq<Move>)
    requires Valid(p) && p.Count() <= Capacity(p.window)
    ensures var l := Stream.Run(p, Begin(p), moves);
      && !l.raised
      && (l.handed == [] || l.handed == [p.req.data])
      && (l.client.state == AWAIT_CONFIRMATION ==>
            l.handed == [p.req.data] && l.server.Some? && l.server.value.state == AWAIT_RESPONSE)
  {
    var v := ReachedView(p, moves);
    ContentIsRequest(p);
  }

  // ----- resending a window

  lemma {:induction false} CopiesSim(p: Transfer, l: Link, v: View, m: Move, k: nat)
    requires Valid(p) && p.Count() <= Capacity(p.window) && Rel(p, l, v) && Inv(p.Count(), p.window, v) && !m.Timeout?
    ensures var u := Windows.Run(p.Count(), p.window, v, Rounds.Copies(m, k));
      Rel(p, Stream.Run(p, l, Rounds.Copies(m, k)), u) && Inv(p.Count(), p.window, u)
    decreases k
  {
    if k > 0 {
      StepInv(p.Count(), p.window, v, m);
      StepSim(p, l, v, m);
      assert Rounds.Copies(m, k)[1..] == Rounds.Copies(m, k - 1);
      CopiesSim(p, Stream.Step(p, l, m), Windows.Step(p.Count(), p.window, v, m), m, k - 1);
    }
  }

  /** The client's timer expires, and the server takes everything that is then sent. */
  function ResendWindow(p: Transfer, l: Link): Link {
    var l1 := Stream.Step(p, l, Timeout);
    Stream.Run(p, l1, Rounds.Copies(TakeSegment, |l1.toServer|))
  }

  function TakeAnswers(p: Transfer, l: Link): Link {
    Stream.Run(p, l, Rounds.Copies(TakeAck, |l.toClient|))
  }

  /** What the server's transaction holds of the request. */
  predicate Holds(l: Link, data: Bytes) {
    && l.server.Some?
    && if l.server.value.state == AWAIT_RESPONSE then l.handed == [data]
       else l.server.value.segmentAPDU.Some? && l.server.value.segmentAPDU.value.data == data
  }

  /** The resend, seen by its view. */
  lemma ResendSim(p: Transfer, l: Link, v: View)
    requires Valid(p) && p.Count() <= Capacity(p.window) && Rel(p, l, v) && Rounds.AllLost(p.Count(), p.window, v)
    requires l.client.segmentRetryCount < p.cc.numberOfApduRetries && Stream.Enabled(p, l, Timeout)
    ensures var u, r := ResendWindow(p, l), Rounds.ResendWindow(p.Count(), p.window, v);
      Rel(p, u, r) && Rel(p, TakeAnswers(p, u), Rounds.TakeAcks(p.Count(), p.window, r))
  {
    var n, w := p.Count(), p.window;
    StepInv(n, w, v, Timeout);
    StepSim(p, l, v, Timeout);
    var l1, v1 := Stream.Step(p, l, Timeout), Windows.Step(n, w, v, Timeout);
    CopiesSim(p, l1, v1, TakeSegment, |v1.segments|);
    CopiesSim(p, ResendWindow(p, l), Rounds.ResendWindow(n, w, v), TakeAck, |Rounds.ResendWindow(n, w, v).acks|);
  }

  /** A client that has sent a window and seen both channels run empty. */
  predicate Stalled(p: Transfer, l: Link) {
    && l.client.state == SEGMENTED_REQUEST && l.client.segmentRetryCount < p.cc.numberOfApduRetries
    && l.toServer == [] && l.toClient == []
  }

  lemma HoldsView(p: Transfer, u: Link, r: View)
    requires Rel(p, u, r) && r.taken != []
    ensures Holds(u, Content(p, r.taken))
  {
  }

  /** The client has left its window behind. */
  predicate MovedOn(p: Transfer, base: nat, z: Link) {
    z.client.state == AWAIT_CONFIRMATION || z.client.initialSequenceNumber == Rounds.Past(p.window, base)
  }

  lemma MovedView(p: Transfer, v: View, z: Link, r: View)
    requires Rel(p, z, r)
    ensures MovedOn(p, v.base, z) <==> Rounds.MovedOn(p.window, v, r)
  {
  }

  /** Resynchronisation: wherever a run has come to with both channels empty, a timeout resends
      the window, segment 0 alone before the first acknowledgement, and if nothing more is lost
      the server then holds the request up to the end of it. The client moves on past the window exactly when the server
      had not handed the request up before; after that it is the answer that moves it. */
  lemma ResendRepairs(p: Transfer, moves: seq<Move>)
    requires Valid(p) && p.Count() <= Capacity(p.window) && Stalled(p, Stream.Run(p, Begin(p), moves))
    ensures var l := Stream.Run(p, Begin(p), moves);
      var u, base := ResendWindow(p, l), l.client.initialSequenceNumber;
      var z := TakeAnswers(p, u);
      && base < p.Count()
      && Holds(u, Content(p, Range(0, Rounds.Through(p.Count(), p.window, base))))
      && (MovedOn(p, base, z) <==> l.handed == [])
  {
    var l := Stream.Run(p, Begin(p), moves);
    var v := ReachedView(p, moves);
    var n, w := p.Count(), p.window;
    var r := Rounds.ResendWindow(n, w, v);
    assert Rounds.AllLost(n, w, v);
    ResendSim(p, l, v);
    Rounds.Resynchronises(n, w, v);
    HoldsView(p, ResendWindow(p, l), r);
    MovedView(p, v, TakeAnswers(p, ResendWindow(p, l)), Rounds.TakeAcks(n, w, r));
  }

  // ----- a request handed up before its client knows

  lemma FillKeeps(s: Ssm, c: Config, seqNum: byte)
    ensures FillWindow(s, c, seqNum, true, true).ssm.segmentRetryCount == s.segmentRetryCount
  {
  }

  /** Two segments arrive, and the acknowledgement of the second is lost. */
  const LAST_ACK_LOST := [TakeSegment, TakeAck, TakeSegment, LoseAck(0)]

  lemma TwoSegmentsView(w: byte)
    requires 0 < w < 128
    ensures var v1 := Windows.Step(2, w, START, TakeSegment);
      var v2 := Windows.Step(2, w, v1, TakeAck);
      var v3 := Windows.Step(2, w, v2, TakeSegment);
      && v1 == START.(segments := [], taken := [0], acks := [0])
      && v2 == v1.(acks := [], base := 1, segments := [1], sentAll := true)
      && v3 == v2.(segments := [], taken := [0, 1], complete := true, acks := [1])
      && Windows.Step(2, w, v3, LoseAck(0)) == v3.(acks := [])
  {
    assert Window(2, w, 1) == [1];
  }

  /** The client's second window is its first try. */
  lemma FirstTry(p: Transfer, l: Link, v: View)
    requires Valid(p) && Rel(p, l, v) && !v.finished && !v.sentAll && v.acks == [0] && v.base == 0
    ensures Stream.Step(p, l, TakeAck).client.segmentRetryCount == 0
  {
    assert IsAck(p, l.toClient[0], 0);
    NextAckIsFill(p, l.client, l.toClient[0], 0);
    FillKeeps(l.client.(actualWindowSize := Some(p.window), initialSequenceNumber := 1, segmentRetryCount := 0), p.cc,
        1);
  }

  lemma FirstMove(p: Transfer, l: Link, m: Move, moves: seq<Move>)
    ensures Stream.Run(p, l, [m] + moves) == Stream.Run(p, Stream.Step(p, l, m), moves)
  {
    assert ([m] + moves)[1..] == moves;
  }

  lemma FourMoves(p: Transfer, l: Link)
    ensures Stream.Run(p, l, LAST_ACK_LOST)
         == Stream.Step(p, Stream.Step(p, Stream.Step(p, Stream.Step(p, l, TakeSegment), TakeAck), TakeSegment),
             LoseAck(0))
  {
    var l1 := Stream.Step(p, l, TakeSegment);
    var l2 := Stream.Step(p, l1, TakeAck);
    FirstMove(p, l, TakeSegment, [TakeAck, TakeSegment, LoseAck(0)]);
    FirstMove(p, l1, TakeAck, [TakeSegment, LoseAck(0)]);
    FirstMove(p, l2, TakeSegment, [LoseAck(0)]);
    FirstMove(p, Stream.Step(p, l2, TakeSegment), LoseAck(0), []);
    assert LAST_ACK_LOST == [TakeSegment] + [TakeAck, TakeSegment, LoseAck(0)];
    assert [TakeAck, TakeSegment, LoseAck(0)] == [TakeAck] + [TakeSegment, LoseAck(0)];
    assert [TakeSegment, LoseAck(0)] == [TakeSegment] + [LoseAck(0)] && [LoseAck(0)] == [LoseAck(0)] + [];
  }

  const AFTER_LOSS := View(1, 0, true, false, false, [0, 1], 0, true, [], [])

  /** The first two moves. */
  lemma SecondWindowSent(p: Transfer)
    requires Valid(p) && p.Count() == 2
    ensures var l2 := Stream.Step(p, Stream.Step(p, Begin(p), TakeSegment), TakeAck);
      Rel(p, l2, View(1, 0, true, false, false, [0], 0, false, [1], [])) && l2.client.segmentRetryCount == 0
  {
    var l1, v1 := Stream.Step(p, Begin(p), TakeSegment), Windows.Step(2, p.window, START, TakeSegment);
    TwoSegmentsView(p.window);
    BeginSim(p);
    StepSim(p, Begin(p), START, TakeSegment);
    FirstTry(p, l1, v1);
    StepSim(p, l1, v1, TakeAck);
  }

  lemma LastAckLost(p: Transfer)
    requires Valid(p) && p.Count() == 2
    ensures var l := Stream.Run(p, Begin(p), LAST_ACK_LOST); Rel(p, l, AFTER_LOSS) && l.client.segmentRetryCount == 0
  {
    var l2 := Stream.Step(p, Stream.Step(p, Begin(p), TakeSegment), TakeAck);
    var v2 := View(1, 0, true, false, false, [0], 0, false, [1], []);
    var l3, v3 := Stream.Step(p, l2, TakeSegment), Windows.Step(2, p.window, v2, TakeSegment);
    FourMoves(p, Begin(p));
    TwoSegmentsView(p.window);
    SecondWindowSent(p);
    StepSim(p, l2, v2, TakeSegment);
    StepSim(p, l3, v3, LoseAck(0));
    ClientWaits(p, l2, TakeSegment);
    ClientWaits(p, l3, LoseAck(0));
  }

  lemma ClientWaits(p: Transfer, l: Link, m: Move)
    requires m.TakeSegment? || m.LoseAck?
    ensures Stream.Step(p, l, m).client == l.client
  {
  }

  /** There are runs in which the server has handed the request up, both channels are empty and
      the client is stalled; a resend, even without loss, does not move it. */
  lemma HandedUpBefore(p: Transfer)
    requires Valid(p) && p.Count() == 2 && 0 < p.cc.numberOfApduRetries
    ensures var l := Stream.Run(p, Begin(p), LAST_ACK_LOST);
      && Stalled(p, l) && l.handed == [p.req.data]
      && !MovedOn(p, l.client.initialSequenceNumber, TakeAnswers(p, ResendWindow(p, l)))
  {
    LastAckLost(p);
    ContentIsRequest(p);
    assert Range(0, 2) == [0, 1];
    CapacityMeaning(p.window);
    ResendRepairs(p, LAST_ACK_LOST);
  }

  /** Two devices of the same settings, and a request of two segments. */
  function TwoSegments(data: Bytes): Transfer {
    var c := Config(3, 3000, 3000, 3000, SegmentedBoth, None, 50, 1);
    Transfer(ConfirmedRequest(false, false, true, 0, 0, 1, 0, 0, 12, data), c, c, None, None, 50, Cut(data, 50), 1)
  }

  /** And there are such transfers. */
  lemma TwoSegmentsAreHandedUpBefore(data: Bytes)
    requires 50 < |data| <= 100
    ensures var p := TwoSegments(data);
      var l := Stream.Run(p, Begin(p), LAST_ACK_LOST);
      && Valid(p) && Stalled(p, l) && l.handed == [data]
      && !MovedOn(p, l.client.initialSequenceNumber, TakeAnswers(p, ResendWindow(p, l)))
  {
    CutIsUnique(Cut(data, 50), data, 50);
    HandedUpBefore(TwoSegments(data));
  }

  // ----- a transfer without loss

  /** The server takes all that is under way, then the client all the answers. */
  function Exchange(p: Transfer, l: Link): Link {
    TakeAnswers(p, Stream.Run(p, l, Rounds.Copies(TakeSegment, |l.toServer|)))
  }

  function Exchanges(p: Transfer, r: nat): Link {
    if r == 0 then Begin(p) else Exchange(p, Exchanges(p, r - 1))
  }

  /** Only the segment that completes the request can be the last one. */
  predicate Proper(n: nat, v: View) {
    && (forall i :: 0 <= i < |v.taken| - 1 ==> v.taken[i] < n - 1)
    && (v.taken != [] ==> if v.complete then v.taken[|v.taken| - 1] == n - 1 else v.taken[|v.taken| - 1] < n - 1)
  }

  /** Segment numbers the client asks for next exist: by the invariant within the capacity, and
      because they stay below 256 beyond it. */
  ghost predicate Tracked(p: Transfer, l: Link, v: View)
    requires Valid(p)
  {
    && Rel(p, l, v) && Proper(p.Count(), v)
    && (p.Count() <= Capacity(p.window) ==> Inv(p.Count(), p.window, v))
  }

  lemma ProperStep(p: Transfer, l: Link, v: View, m: Move)
    requires Valid(p) && Rel(p, l, v) && Proper(p.Count(), v)
    ensures Proper(p.Count(), Windows.Step(p.Count(), p.window, v, m))
  {
    if m.TakeSegment? && v.segments != [] { assert IsSegment(p, l.toServer[0], v.segments[0]); }
  }

  lemma TrackedStep(p: Transfer, l: Link, v: View, m: Move)
    requires Valid(p) && Tracked(p, l, v) && !m.Timeout?
    ensures Tracked(p, Stream.Step(p, l, m), Windows.Step(p.Count(), p.window, v, m))
  {
    if p.Count() <= Capacity(p.window) {
      StepInv(p.Count(), p.window, v, m);
    } else {
      Rounds.WindowsFit(p.Count(), p.window, 0);
      CapacityMeaning(p.window);
      assert !Windows.Step(p.Count(), p.window, v, m).overrun;
    }
    ProperStep(p, l, v, m);
    StepSim(p, l, v, m);
  }

  lemma {:induction false} TrackedCopies(p: Transfer, l: Link, v: View, m: Move, k: nat)
    requires Valid(p) && Tracked(p, l, v) && !m.Timeout?
    ensures Tracked(p, Stream.Run(p, l, Rounds.Copies(m, k)), Windows.Run(p.Count(), p.window, v, Rounds.Copies(m, k)))
    decreases k
  {
    if k > 0 {
      TrackedStep(p, l, v, m);
      assert Rounds.Copies(m, k)[1..] == Rounds.Copies(m, k - 1);
      TrackedCopies(p, Stream.Step(p, l, m), Windows.Step(p.Count(), p.window, v, m), m, k - 1);
    }
  }

  lemma {:induction false} TrackedExchanges(p: Transfer, r: nat)
    requires Valid(p)
    ensures Tracked(p, Exchanges(p, r), Rounds.Exchanges(p.Count(), p.window, r))
  {
    if r == 0 {
      BeginSim(p);
      assert Opening(START);
    } else {
      var l, v := Exchanges(p, r - 1), Rounds.Exchanges(p.Count(), p.window, r - 1);
      TrackedExchanges(p, r - 1);
      TrackedCopies(p, l, v, TakeSegment, |v.segments|);
      var l1, v1 := Stream.Run(p, l, Rounds.Copies(TakeSegment, |l.toServer|)),
          Rounds.TakeSegments(p.Count(), p.window, v);
      TrackedCopies(p, l1, v1, TakeAck, |v1.acks|);
    }
  }

  /** Everything the client sends in the first r exchanges. */
  function AllSegments(p: Transfer, r: nat): seq<Apdu> {
    if r == 0 then [] else AllSegments(p, r - 1) + Exchanges(p, r - 1).toServer
  }

  /** Everything the server answers in them. */
  function AllAcks(p: Transfer, r: nat): seq<Apdu> {
    if r == 0 then []
    else
      var l := Exchanges(p, r - 1);
      AllAcks(p, r - 1) + Stream.Run(p, l, Rounds.Copies(TakeSegment, |l.toServer|)).toClient
  }

  ghost predicate AreAcks(p: Transfer, apdus: seq<Apdu>, numbers: seq<nat>) {
    |apdus| == |numbers| && forall i :: 0 <= i < |numbers| ==> IsAck(p, apdus[i], numbers[i])
  }

  lemma {:induction false} TrackedMessages(p: Transfer, r: nat)
    requires Valid(p)
    ensures AreSegments(p, AllSegments(p, r), Rounds.AllSegments(p.Count(), p.window, r))
    ensures AreAcks(p, AllAcks(p, r), Rounds.AllAcks(p.Count(), p.window, r))
  {
    if r > 0 {
      TrackedMessages(p, r - 1);
      MessagesOfExchange(p, r - 1);
    }
  }

  lemma MessagesOfExchange(p: Transfer, r: nat)
    requires Valid(p)
    requires AreSegments(p, AllSegments(p, r), Rounds.AllSegments(p.Count(), p.window, r))
    requires AreAcks(p, AllAcks(p, r), Rounds.AllAcks(p.Count(), p.window, r))
    ensures AreSegments(p, AllSegments(p, r + 1), Rounds.AllSegments(p.Count(), p.window, r + 1))
    ensures AreAcks(p, AllAcks(p, r + 1), Rounds.AllAcks(p.Count(), p.window, r + 1))
  {
    var l, v := Exchanges(p, r), Rounds.Exchanges(p.Count(), p.window, r);
    TrackedExchanges(p, r);
    TrackedCopies(p, l, v, TakeSegment, |v.segments|);
    MoreSegments(p, AllSegments(p, r), Rounds.AllSegments(p.Count(), p.window, r), l.toServer, v.segments);
    var u := Stream.Run(p, l, Rounds.Copies(TakeSegment, |l.toServer|));
    MoreAcks(p, AllAcks(p, r), Rounds.AllAcks(p.Count(), p.window, r), u.toClient,
        Rounds.TakeSegments(p.Count(), p.window, v).acks);
  }

  lemma MoreAcks(p: Transfer, apdus: seq<Apdu>, numbers: seq<nat>, more: seq<Apdu>, moreNumbers: seq<nat>)
    requires AreAcks(p, apdus, numbers) && AreAcks(p, more, moreNumbers)
    ensures AreAcks(p, apdus + more, numbers + moreNumbers)
  {
  }

  lemma FullPiece(p: Transfer, k: nat)
    requires Valid(p) && k < p.Count() - 1
    ensures |p.pieces[k]| == p.size
  {
    var n, size := p.Count(), p.size;
    assert p.pieces[k] == Chunk(p.req.data, size, k);
    MulMono(k + 1, n - 1, size);
    assert (k + 1) * size == k * size + size;
    assert n == CountSegments(|p.req.data|, size);
  }

  lemma {:induction false} FullContent(p: Transfer, taken: seq<nat>)
    requires Valid(p) && forall i :: 0 <= i < |taken| ==> taken[i] < p.Count() - 1
    ensures |Content(p, taken)| == |taken| * p.size
    decreases |taken|
  {
    if taken != [] {
      FullContent(p, taken[..|taken| - 1]);
      FullPiece(p, taken[|taken| - 1]);
      assert |taken| * p.size == (|taken| - 1) * p.size + p.size;
    }
  }

  lemma ContentLength(p: Transfer, taken: seq<nat>)
    requires Valid(p) && taken != [] && taken[|taken| - 1] == p.Count() - 1
    requires forall i :: 0 <= i < |taken| - 1 ==> taken[i] < p.Count() - 1
    ensures |Content(p, taken)| == (|taken| - 1) * p.size + |p.pieces[p.Count() - 1]|
  {
    FullContent(p, taken[..|taken| - 1]);
  }

  lemma MoreIsLonger(m: nat, n: nat, size: nat)
    requires n < m && 0 < size
    ensures n * size < m * size
  {
    MulMono(n + 1, m, size);
    assert (n + 1) * size == n * size + size;
  }

  /** A server that took more than the n segments has handed up something longer. */
  lemma TooMuchContent(p: Transfer, v: View)
    requires Valid(p) && Proper(p.Count(), v) && v.complete && p.Count() < |v.taken|
    ensures Content(p, v.taken) != p.req.data
  {
    ContentLength(p, v.taken);
    ContentLength(p, Range(0, p.Count()));
    ContentIsRequest(p);
    MoreIsLonger(|v.taken| - 1, p.Count() - 1, p.size);
  }

  /** The client awaits its confirmation, the server its application's answer, nothing is under
      way and no handler has raised. */
  predicate Over(l: Link) {
    && l.client.state == AWAIT_CONFIRMATION && l.server.Some? && l.server.value.state == AWAIT_RESPONSE
    && l.toServer == [] && l.toClient == [] && !l.raised
  }

  /** Within the capacity both machines end where they should, after one exchange for segment 0
      and one for each window: each segment has been sent once, in order, and the server has
      acknowledged each group once, by its last segment. */
  lemma LosslessEnd(p: Transfer) returns (r: nat)
    requires Valid(p) && p.Count() <= Capacity(p.window)
    ensures Over(Exchanges(p, r + 1)) && Exchanges(p, r + 1).handed == [p.req.data]
    ensures 0 < r && 1 + (r - 1) * p.window < p.Count() <= 1 + r * p.window
    ensures AreSegments(p, AllSegments(p, r + 1), Range(0, p.Count()))
    ensures |AllAcks(p, r + 1)| == r + 1
    ensures forall i :: 0 <= i <= r ==> IsAck(p, AllAcks(p, r + 1)[i], Rounds.GroupEnd(p.Count(), p.window, i))
  {
    r := Rounds.TransferWithin(p.Count(), p.window);
    TrackedExchanges(p, r + 1);
    TrackedMessages(p, r + 1);
    ContentIsRequest(p);
  }

  /** Without loss, a segmented request of n segments is handed up as it was sent, within some
      number of exchanges, exactly when n is within the capacity of the agreed window; and then
      the transfer is over on both sides. */
  lemma LosslessTransfer(p: Transfer)
    requires Valid(p)
    ensures (exists r :: Exchanges(p, r).handed == [p.req.data]) <==> p.Count() <= Capacity(p.window)
    ensures p.Count() <= Capacity(p.window) ==>
      exists r :: Exchanges(p, r).handed == [p.req.data] && Over(Exchanges(p, r))
  {
    var n, w := p.Count(), p.window;
    if n <= Capacity(w) {
      var r := LosslessEnd(p);
      assert Exchanges(p, r + 1).handed == [p.req.data];
    } else {
      Rounds.TransferSucceedsWithinCapacity(n, w);
      forall r ensures Exchanges(p, r).handed != [p.req.data] {
        var v := Rounds.Exchanges(n, w, r);
        TrackedExchanges(p, r);
        if v.complete { TooMuchContent(p, v); }
      }
    }
  }
}
