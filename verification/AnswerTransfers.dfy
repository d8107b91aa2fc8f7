/** A segmented answer on its way from the server machine to the client machine when nothing is
    lost, and what the server sends again when it is. */
module AnswerTransfers {
  import opened Apdus
  import opened Segmentation
  import opened Pieces
  import opened Receivers
  import opened Requests
  import Answers
  import Client = ClientSteps
  import ClientLife
  import Server = ServerSteps
  import Rounds
  import Windows

  // ----- the server

  /** The server is sending the answer in n pieces. */
  predicate Answering(s: Ssm, answer: Apdu, size: nat, n: nat) {
    && s.state == SEGMENTED_RESPONSE && s.segmentAPDU == Some(answer) && answer.ComplexAck? && s.invokeID.Some?
    && 0 < size && s.segmentSize == size && s.segmentCount == n && n == CountSegments(|answer.data|, size) && 1 < n
  }

  /** It has sent segment 0, and heard nothing. */
  predicate Opening(s: Ssm, answer: Apdu, size: nat, n: nat) {
    Answering(s, answer, size, n) && s.initialSequenceNumber == 0 && !s.sentAllSegments
  }

  /** It has sent the window of w segments that starts at base. */
  predicate Sending(s: Ssm, answer: Apdu, size: nat, n: nat, w: byte, base: nat) {
    && Answering(s, answer, size, n) && s.initialSequenceNumber == base && base < n
    && s.actualWindowSize == Some(w) && 0 < w && s.sentAllSegments == (n <= base + w)
  }

  /** The pieces of the answer from one on, in order. */
  predicate Row(answer: Apdu, size: nat, apdus: seq<Apdu>, first: nat) {
    forall i :: 0 <= i < |apdus| ==> Answers.IsPiece(answer, size, apdus[i], first + i)
  }

  lemma RowStep(answer: Apdu, size: nat, a: Apdu, apdus: seq<Apdu>, first: nat)
    requires Answers.IsPiece(answer, size, a, first) && Row(answer, size, apdus, first + 1)
    ensures Row(answer, size, [a] + apdus, first)
  {
    forall i | 0 <= i < |[a] + apdus| ensures Answers.IsPiece(answer, size, ([a] + apdus)[i], first + i) {
      if 0 < i { assert Answers.IsPiece(answer, size, apdus[i - 1], first + 1 + (i - 1)); }
    }
  }

  lemma PieceOf(s: Ssm, c: Config, answer: Apdu, size: nat, n: nat, k: nat)
    requires s.segmentAPDU == Some(answer) && answer.ComplexAck? && 0 < size && s.segmentSize == size
    requires s.segmentCount == n == CountSegments(|answer.data|, size) && 1 < n
    requires k < n && (k != 0 ==> s.actualWindowSize.Some?)
    ensures GetSegment(s, c, k).Some? && Answers.IsPiece(answer, size, GetSegment(s, c, k).value, k)
    ensures GetSegment(s, c, k).value.mor == (k < n - 1)
  {
    PieceBounds(|answer.data|, size, k);
    PieceIs(answer.data, size, k);
  }

  lemma FillNext(s: Ssm, c: Config, base: nat, ix: nat, w: byte)
    requires ix < w && GetSegment(s, c, base + ix).Some?
    ensures var a, rest := GetSegment(s, c, base + ix).value, FillFrom(s, c, base, ix + 1, w);
      FillFrom(s, c, base, ix, w)
      == if a.mor then Fill([a] + rest.sent, rest.last, rest.raised) else Fill([a], true, false)
  {
  }

  lemma {:induction false} FillRow(s: Ssm, c: Config, answer: Apdu, size: nat, n: nat, base: nat, ix: nat, w: byte)
    requires s.segmentAPDU == Some(answer) && answer.ComplexAck? && 0 < size && s.segmentSize == size
    requires s.segmentCount == n == CountSegments(|answer.data|, size) && 1 < n && s.actualWindowSize == Some(w)
    requires base < n && base + ix <= Windows.End(n, w, base)
    requires ix == 0 || base + ix < n || ix == w
    ensures var f, end := FillFrom(s, c, base, ix, w), Windows.End(n, w, base);
      && !f.raised && f.last == (base + ix < end == n) && |f.sent| == end - (base + ix)
      && Row(answer, size, f.sent, base + ix)
    decreases w - ix
  {
    if ix < w {
      PieceOf(s, c, answer, size, n, base + ix);
      FillNext(s, c, base, ix, w);
      if base + ix < n - 1 {
        FillRow(s, c, answer, size, n, base, ix + 1, w);
        RowStep(answer, size, GetSegment(s, c, base + ix).value, FillFrom(s, c, base, ix + 1, w).sent, base + ix);
      }
    }
  }

  lemma DownsAreSent(apdus: seq<Apdu>)
    ensures SentBy(Downs(apdus)) == apdus && ClientLife.Results(Downs(apdus)) == []
    decreases |apdus|
  {
    if apdus != [] {
      DownsAreSent(apdus[1..]);
      assert Downs(apdus)[1..] == Downs(apdus[1..]);
    }
  }

  /** What fill_window sends and leaves, for an answer. */
  lemma WindowOf(s: Ssm, c: Config, answer: Apdu, size: nat, n: nat, base: byte, w: byte, restart: bool)
    requires s.segmentAPDU == Some(answer) && answer.ComplexAck? && 0 < size && s.segmentSize == size
    requires s.segmentCount == n == CountSegments(|answer.data|, size) && 1 < n && s.actualWindowSize == Some(w)
    requires base < n && 0 < w
    ensures var o := FillWindow(s, c, base, true, restart);
      && !o.raised && Row(answer, size, SentBy(o.out), base)
      && |SentBy(o.out)| == Windows.End(n, w, base) - base
      && o.ssm == s.(timer := if restart then Some(c.segmentTimeout) else s.timer,
                     sentAllSegments := s.sentAllSegments || n <= base + w)
  {
    FillRow(s, c, answer, size, n, base, 0, w);
    DownsAreSent(FillFrom(s, c, base, 0, w).sent);
  }

  /** The acknowledgement of the end of a window, or of segment 0: the next window goes out, from
      the segment whose number comes next. */
  lemma AckMovesServer(s: Ssm, c: Config, answer: Apdu, size: nat, n: nat, w: byte, ack: Apdu, next: byte)
    requires Answering(s, answer, size, n) && !s.sentAllSegments
    requires 0 < w && ack.SegmentAck? && ack.win == w && InWindow(ack.seqNo, s.initialSequenceNumber, w)
    requires next == (ack.seqNo + 1) % 256 && next < n
    ensures var o := Server.SegmentedResponse(s, c, ack, true);
      && !o.raised && Sending(o.ssm, answer, size, n, w, next) && o.ssm.invokeID == s.invokeID
      && Row(answer, size, SentBy(o.out), next) && |SentBy(o.out)| == Windows.End(n, w, next) - next
  {
    var t := s.(actualWindowSize := Some(w), initialSequenceNumber := next, segmentRetryCount := 0);
    WindowOf(t, c, answer, size, n, next, w, true);
    assert Server.SegmentedResponse(s, c, ack, true) == FillWindow(t, c, next, true, true);
  }

  /** Once all is sent, the acknowledgement of the end of the window ends the transaction. */
  lemma AckEndsServer(s: Ssm, c: Config, ack: Apdu)
    requires s.state == SEGMENTED_RESPONSE && s.sentAllSegments && ack.SegmentAck? && ack.win != 0
    requires InWindow(ack.seqNo, s.initialSequenceNumber, ack.win)
    ensures var o := Server.SegmentedResponse(s, c, ack, true); o.ssm.state == COMPLETED && o.out == [] && !o.raised
  {
  }

  /** A timeout with a retry left sends the window once more, or only segment 0 if that is the first
      of it; without one the transaction is aborted and nobody is told. */
  lemma TimeoutResends(s: Ssm, c: Config, answer: Apdu, size: nat, n: nat, w: byte, base: nat)
    requires if base == 0 then Opening(s, answer, size, n) else Sending(s, answer, size, n, w, base)
    ensures var o := Server.TimerExpired(s, c, true);
      if s.segmentRetryCount < c.numberOfApduRetries then
        && !o.raised && o.ssm.timer == Some(c.segmentTimeout) && o.ssm.segmentRetryCount == s.segmentRetryCount + 1
        && (if base == 0 then Opening(o.ssm, answer, size, n) else Sending(o.ssm, answer, size, n, w, base))
        && Row(answer, size, SentBy(o.out), base)
        && |SentBy(o.out)| == if base == 0 then 1 else Windows.End(n, w, base) - base
      else o.ssm.state == ABORTED && o.out == []
  {
    if s.segmentRetryCount < c.numberOfApduRetries {
      var t := Restart(s.(timer := None, segmentRetryCount := s.segmentRetryCount + 1), c.segmentTimeout);
      if base == 0 {
        PieceOf(t, c, answer, size, n, 0);
        OnlyUp(GetSegment(t, c, 0).value);
      } else {
        WindowOf(t, c, answer, size, n, base, w, false);
      }
    }
  }

  /** The application gives an answer that goes out in pieces. */
  lemma AnswerOpens(s: Ssm, c: Config, info: Option<DeviceInfo>, answer: Apdu)
    requires s.state == AWAIT_RESPONSE && s.invokeID.Some? && !s.sentAllSegments && answer.ComplexAck?
    requires Server.Confirmation(s, c, info, answer, true).ssm.state == SEGMENTED_RESPONSE
    ensures var o, size := Server.Confirmation(s, c, info, answer, true), Server.ResponseSegmentSize(s, info);
      && 0 < size && Opening(o.ssm, answer, size, CountSegments(|answer.data|, size))
      && |SentBy(o.out)| == 1 && Answers.IsPiece(answer, size, SentBy(o.out)[0], 0)
      && SentBy(o.out)[0].win == c.proposedWindowSize
  {
    var size := Server.ResponseSegmentSize(s, info);
    var n := CountSegments(|answer.data|, size);
    var t := s.(segmentAPDU := Some(answer), segmentSize := size, segmentCount := n,
                segmentRetryCount := 0, initialSequenceNumber := 0, actualWindowSize := None);
    assert Server.Confirmation(s, c, info, answer, true) == Server.AnswerFirst(t, c, true);
    PieceOf(t, c, answer, size, n, 0);
    OnlyUp(GetSegment(t, c, 0).value);
  }

  // ----- the client

  /** What the client machine does on these segments, and all its effects. */
  function Hears(s: Ssm, c: Config, apdus: seq<Apdu>): (Ssm, seq<Effect>)
    decreases |apdus|
  {
    if apdus == [] || !Client.Running(s) then (s, [])
    else
      var o := Client.Confirmation(s, c, apdus[0], true);
      var rest := Hears(o.ssm, c, apdus[1..]);
      (rest.0, o.out + rest.1)
  }

  /** The first k pieces, one after the other. */
  function Front(pieces: seq<Bytes>, k: nat): Bytes
    requires k <= |pieces|
  {
    if k == 0 then [] else Assembled(pieces, 0, k - 1)
  }

  /** The client holds the first k pieces, or more than that much once the numbers of the server
      have started over. */
  predicate HoldsData(data: Bytes, pieces: seq<Bytes>, k: nat, lap: nat)
    requires k <= |pieces|
  {
    if lap == 0 then data == Front(pieces, k) else |Front(pieces, k)| < |data|
  }

  /** An answer, its pieces and the size of the windows. */
  datatype Given = Given(answer: Apdu, pieces: seq<Bytes>, w: byte)

  predicate Whole(g: Given) {
    g.answer.ComplexAck? && 0 < g.w && g.pieces != [] && Front(g.pieces, |g.pieces|) == g.answer.data
  }

  predicate IsSegment(g: Given, a: Apdu, k: nat) {
    k < |g.pieces| && a.ComplexAck? && Carries(a, Delivery(k, g.pieces[k], k < |g.pieces| - 1))
  }

  /** Segments from one on, in order. */
  predicate Segments(g: Given, apdus: seq<Apdu>, first: nat) {
    forall i :: 0 <= i < |apdus| ==> IsSegment(g, apdus[i], first + i)
  }

  /** The client has taken place + 1 segments, and acknowledged the one at group. The numbers of the
      server have started over lap times, and the segment due next is segment k. */
  predicate Holds(s: Ssm, g: Given, place: nat, group: nat, lap: nat, k: nat)
  {
    && g.answer.ComplexAck? && Client.Running(s) && s.segmentAPDU.value.ComplexAck?
    && place + 1 == k + 256 * lap && k <= |g.pieces|
    && ClientRel(s, g.w, Receiver(place, group, s.segmentAPDU.value.data, k == |g.pieces|))
    && s.segmentAPDU.value.invokeID == g.answer.invokeID && s.segmentAPDU.value.service == g.answer.service
    && HoldsData(s.segmentAPDU.value.data, g.pieces, k, lap)
  }

  lemma OneMorePiece(held: Bytes, pieces: seq<Bytes>, k: nat, lap: nat)
    requires k < |pieces| && HoldsData(held, pieces, k, lap)
    ensures HoldsData(held + pieces[k], pieces, k + 1, lap)
  {
    if k > 0 { AssembledStep(pieces, 0, k - 1); }
    assert Front(pieces, k + 1) == Front(pieces, k) + pieces[k];
  }

  /** The group a client is in after a segment. */
  function NextGroup(place: nat, group: nat, w: byte, last: bool): nat {
    if !last && place == group + w then place else group
  }

  lemma Taken(s: Ssm, c: Config, w: byte, place: nat, group: nat, piece: Bytes, last: bool, a: Apdu)
    requires s.segmentAPDU.Some? && s.segmentAPDU.value.ComplexAck?
    requires ClientRel(s, w, Receiver(place, group, s.segmentAPDU.value.data, false))
    requires a.ComplexAck? && Carries(a, Delivery(place + 1, piece, !last))
    ensures var o, next := Client.Confirmation(s, c, a, true), NextGroup(place + 1, group, w, last);
      var ack := SegmentAckOf(false, false, s.invokeID.value, (place + 1) % 256, w);
      && ClientRel(o.ssm, w, Receiver(place + 1, next, s.segmentAPDU.value.data + piece, last))
      && o.out == (if last then [Down(ack), Up(o.ssm.segmentAPDU.value)]
                   else if place + 1 == group + w then [Down(ack)] else [])
  {
    var r, d := Receiver(place, group, s.segmentAPDU.value.data, false), Delivery(place + 1, piece, !last);
    ClientTakes(s, c, w, r, d, a);
  }

  lemma HoldsMore(t: Ssm, g: Given, place: nat, group: nat, lap: nat, k: nat, held: Bytes)
    requires k < |g.pieces| && HoldsData(held, g.pieces, k, lap)
    requires g.answer.ComplexAck? && Client.Running(t) && t.segmentAPDU.value.ComplexAck? && place == k + 256 * lap
    requires t.segmentAPDU.value.invokeID == g.answer.invokeID && t.segmentAPDU.value.service == g.answer.service
    requires ClientRel(t, g.w, Receiver(place, group, held + g.pieces[k], k == |g.pieces| - 1))
    ensures Holds(t, g, place, group, lap, k + 1)
  {
    OneMorePiece(held, g.pieces, k, lap);
  }

  lemma SameNumber(k: nat, lap: nat)
    ensures (k + 256 * lap) % 256 == k % 256
  {
  }

  lemma SegmentCarries(g: Given, a: Apdu, k: nat, place: nat, lap: nat)
    requires IsSegment(g, a, k) && place == k + 256 * lap
    ensures Carries(a, Delivery(place, g.pieces[k], k < |g.pieces| - 1))
  {
    SameNumber(k, lap);
  }

  /** What the client sends and hands up. */
  function Reply(s: Ssm, g: Given, place: nat, group: nat, last: bool, t: Ssm): seq<Effect>
    requires s.invokeID.Some? && t.segmentAPDU.Some?
  {
    var ack := SegmentAckOf(false, false, s.invokeID.value, place % 256, g.w);
    if last then [Down(ack), Up(t.segmentAPDU.value)] else if place == group + g.w then [Down(ack)] else []
  }

  lemma SegmentTaken(s: Ssm, c: Config, g: Given, place: nat, group: nat, lap: nat, k: nat, a: Apdu)
    requires 0 < place && Holds(s, g, place - 1, group, lap, k) && IsSegment(g, a, k)
    ensures var o, last := Client.Confirmation(s, c, a, true), k == |g.pieces| - 1;
      && ClientRel(o.ssm, g.w, Receiver(place, NextGroup(place, group, g.w, last),
                                        s.segmentAPDU.value.data + g.pieces[k], last))
      && o.out == Reply(s, g, place, group, last, o.ssm)
  {
    SegmentCarries(g, a, k, place, lap);
    Taken(s, c, g.w, place - 1, group, g.pieces[k], k == |g.pieces| - 1, a);
  }

  /** The next segment is taken, and acknowledged at the end of the group and of the answer. */
  lemma TakesPiece(s: Ssm, c: Config, g: Given, place: nat, group: nat, lap: nat, k: nat, a: Apdu)
    requires 0 < place && Holds(s, g, place - 1, group, lap, k) && IsSegment(g, a, k)
    ensures var o, last := Client.Confirmation(s, c, a, true), k == |g.pieces| - 1;
      && Holds(o.ssm, g, place, NextGroup(place, group, g.w, last), lap, k + 1)
      && o.ssm.invokeID == s.invokeID && o.out == Reply(s, g, place, group, last, o.ssm)
  {
    var o, last := Client.Confirmation(s, c, a, true), k == |g.pieces| - 1;
    SegmentTaken(s, c, g, place, group, lap, k, a);
    KeepsHeader(s, c, a);
    HoldsMore(o.ssm, g, place, NextGroup(place, group, g.w, last), lap, k, s.segmentAPDU.value.data);
  }

  lemma KeepsHeader(s: Ssm, c: Config, a: Apdu)
    requires Client.Receiving(s) && s.state == SEGMENTED_CONFIRMATION && a.ComplexAck? && a.seg
    ensures var t := Client.Confirmation(s, c, a, true).ssm;
      && t.invokeID == s.invokeID && Client.Running(t) && t.segmentAPDU.value.ComplexAck?
      && t.segmentAPDU.value.invokeID == s.segmentAPDU.value.invokeID
      && t.segmentAPDU.value.service == s.segmentAPDU.value.service
  {
  }

  lemma AckAndUp(ack: Apdu, whole: Apdu)
    ensures SentBy([Down(ack), Up(whole)]) == [ack] && ClientLife.Results([Down(ack), Up(whole)]) == [whole]
    ensures SentBy([Down(ack)]) == [ack] && ClientLife.Results([Down(ack)]) == []
  {
    ClientLife.FewResults(ack, whole);
    OnlyUp(ack);
    OnlyUp(whole);
    assert [Down(ack), Up(whole)][1..] == [Up(whole)];
  }

  /** The answer as it was given. */
  predicate IsAnswer(answer: Apdu, x: Apdu)
    requires answer.ComplexAck?
  {
    x.ComplexAck? && x.invokeID == answer.invokeID && x.service == answer.service && x.data == answer.data
  }

  /** A window of segments has been taken, up to the one at end, and segment k is due next: one
      acknowledgement has gone back, of its last segment. With the last segment of all something has
      been handed up, and it is the answer only if the numbers have not started over. */
  predicate WindowTaken(s: Ssm, g: Given, group: nat, end: nat, lap: nat, k: nat, t: Ssm,
                        out: seq<Effect>)
    requires g.answer.ComplexAck? && s.invokeID.Some?
  {
    var last := k == |g.pieces|;
    && SentBy(out) == [SegmentAckOf(false, false, s.invokeID.value, end % 256, g.w)]
    && Holds(t, g, end, if last then group else end, lap, k) && t.invokeID == s.invokeID
    && if last then |ClientLife.Results(out)| == 1 && (IsAnswer(g.answer, ClientLife.Results(out)[0]) <==> lap == 0)
       else ClientLife.Results(out) == []
  }

  lemma RowRest(g: Given, apdus: seq<Apdu>, first: nat)
    requires Segments(g, apdus, first) && apdus != []
    ensures IsSegment(g, apdus[0], first) && Segments(g, apdus[1..], first + 1)
  {
    assert IsSegment(g, apdus[0], first + 0);
    forall i | 0 <= i < |apdus[1..]| ensures IsSegment(g, apdus[1..][i], first + 1 + i) {
      assert IsSegment(g, apdus[i + 1], first + (i + 1));
    }
  }

  lemma HearsOne(s: Ssm, c: Config, apdus: seq<Apdu>)
    requires apdus != [] && Client.Running(s)
    ensures var o := Client.Confirmation(s, c, apdus[0], true);
      var rest := Hears(o.ssm, c, apdus[1..]);
      Hears(s, c, apdus) == (rest.0, o.out + rest.1)
  {
  }

  lemma EndsMiddle(s: Ssm, t: Ssm, g: Given, group: nat, end: nat, lap: nat, k: nat,
                   out: seq<Effect>)
    requires s.invokeID.Some? && t.invokeID == s.invokeID && Holds(t, g, end, end, lap, k)
    requires k != |g.pieces|
    requires out == [Down(SegmentAckOf(false, false, s.invokeID.value, end % 256, g.w))]
    ensures WindowTaken(s, g, group, end, lap, k, t, out)
  {
    AckAndUp(SegmentAckOf(false, false, s.invokeID.value, end % 256, g.w), g.answer);
  }

  lemma EndsAll(s: Ssm, t: Ssm, g: Given, group: nat, end: nat, lap: nat, k: nat,
                out: seq<Effect>)
    requires s.invokeID.Some? && t.invokeID == s.invokeID && Holds(t, g, end, group, lap, k)
    requires k == |g.pieces| && Whole(g)
    requires out == [Down(SegmentAckOf(false, false, s.invokeID.value, end % 256, g.w)), Up(t.segmentAPDU.value)]
    ensures WindowTaken(s, g, group, end, lap, k, t, out)
  {
    AckAndUp(SegmentAckOf(false, false, s.invokeID.value, end % 256, g.w), t.segmentAPDU.value);
  }

  /** The last segment of the window. */
  lemma TakesEnd(s: Ssm, c: Config, g: Given, place: nat, group: nat, lap: nat, k: nat, a: Apdu)
    requires Whole(g) && Holds(s, g, place, group, lap, k) && IsSegment(g, a, k)
    requires k == |g.pieces| - 1 || place + 1 == group + g.w
    ensures var o := Client.Confirmation(s, c, a, true);
      WindowTaken(s, g, group, place + 1, lap, k + 1, o.ssm, o.out)
  {
    TakesPiece(s, c, g, place + 1, group, lap, k, a);
    var o := Client.Confirmation(s, c, a, true);
    if k == |g.pieces| - 1 {
      EndsAll(s, o.ssm, g, group, place + 1, lap, k + 1, o.out);
    } else {
      EndsMiddle(s, o.ssm, g, group, place + 1, lap, k + 1, o.out);
    }
  }

  /** Segment k is due next, and with it the rest of the window, up to segment end - 1, is coming. */
  predicate Coming(s: Ssm, g: Given, place: nat, group: nat, lap: nat, k: nat, end: nat,
                   apdus: seq<Apdu>)
  {
    var n := |g.pieces|;
    && Holds(s, g, place, group, lap, k)
    && Segments(g, apdus, k) && apdus != [] && k + |apdus| == end
    && end <= n && end + 256 * lap <= group + g.w + 1 && (end == n || end + 256 * lap == group + g.w + 1)
  }

  predicate RowTaken(s: Ssm, c: Config, g: Given, group: nat, lap: nat, end: nat,
                     apdus: seq<Apdu>)
    requires g.answer.ComplexAck? && s.invokeID.Some? && 0 < end
  {
    var heard := Hears(s, c, apdus);
    WindowTaken(s, g, group, end - 1 + 256 * lap, lap, end, heard.0, heard.1)
  }

  lemma EndHeard(s: Ssm, c: Config, g: Given, place: nat, group: nat, lap: nat, k: nat,
                 end: nat, apdus: seq<Apdu>)
    requires Whole(g) && |apdus| == 1 && Coming(s, g, place, group, lap, k, end, apdus)
    ensures RowTaken(s, c, g, group, lap, end, apdus)
  {
    var o := Client.Confirmation(s, c, apdus[0], true);
    RowRest(g, apdus, k);
    HearsOne(s, c, apdus);
    TakesEnd(s, c, g, place, group, lap, k, apdus[0]);
    assert Hears(o.ssm, c, apdus[1..]) == (o.ssm, []) && o.out + [] == o.out;
  }

  lemma MiddleHeard(s: Ssm, c: Config, g: Given, place: nat, group: nat, lap: nat, k: nat,
                    end: nat, apdus: seq<Apdu>)
    returns (t: Ssm)
    requires 1 < |apdus| && Coming(s, g, place, group, lap, k, end, apdus)
    ensures Hears(s, c, apdus) == Hears(t, c, apdus[1..]) && t.invokeID == s.invokeID
    ensures Coming(t, g, place + 1, group, lap, k + 1, end, apdus[1..])
  {
    var o := Client.Confirmation(s, c, apdus[0], true);
    t := o.ssm;
    HearsOne(s, c, apdus);
    RowRest(g, apdus, k);
    TakesPiece(s, c, g, place + 1, group, lap, k, apdus[0]);
    assert [] + Hears(t, c, apdus[1..]).1 == Hears(t, c, apdus[1..]).1;
  }

  lemma SameTaken(s: Ssm, t: Ssm, c: Config, g: Given, group: nat, lap: nat, end: nat,
                  apdus: seq<Apdu>, rest: seq<Apdu>)
    requires g.answer.ComplexAck? && s.invokeID.Some? && t.invokeID == s.invokeID && 0 < end
    requires Hears(s, c, apdus) == Hears(t, c, rest) && RowTaken(t, c, g, group, lap, end, rest)
    ensures RowTaken(s, c, g, group, lap, end, apdus)
  {
  }

  /** The rest of a window arrives in order. */
  lemma {:induction false} TakesRow(s: Ssm, c: Config, g: Given, place: nat, group: nat,
                                    lap: nat, k: nat, end: nat, apdus: seq<Apdu>)
    requires Whole(g) && Coming(s, g, place, group, lap, k, end, apdus)
    ensures RowTaken(s, c, g, group, lap, end, apdus)
    decreases |apdus|
  {
    if |apdus| == 1 {
      EndHeard(s, c, g, place, group, lap, k, end, apdus);
    } else {
      var t := MiddleHeard(s, c, g, place, group, lap, k, end, apdus);
      TakesRow(t, c, g, place + 1, group, lap, k + 1, end, apdus[1..]);
      SameTaken(s, t, c, g, group, lap, end, apdus, apdus[1..]);
    }
  }

  // ----- exchanges

  /** The two machines, the segments under way to the client, and what it has handed up. */
  datatype Link = Link(server: Ssm, client: Ssm, segments: seq<Apdu>, results: seq<Apdu>)

  /** What the server machine does on these acknowledgements, and what it sends. */
  function Moves(s: Ssm, c: Config, acks: seq<Apdu>): (Ssm, seq<Apdu>)
    decreases |acks|
  {
    if acks == [] || s.state != SEGMENTED_RESPONSE then (s, [])
    else
      var o := Server.SegmentedResponse(s, c, acks[0], true);
      var rest := Moves(o.ssm, c, acks[1..]);
      (rest.0, SentBy(o.out) + rest.1)
  }

  /** The client takes all that is under way, then the server all the acknowledgements. */
  function Exchange(sc: Config, cc: Config, l: Link): Link {
    var heard := Hears(l.client, cc, l.segments);
    var moved := Moves(l.server, sc, SentBy(heard.1));
    Link(moved.0, heard.0, moved.1, l.results + ClientLife.Results(heard.1))
  }

  function Exchanging(sc: Config, cc: Config): Link -> Link {
    l => Exchange(sc, cc, l)
  }

  function Iterate<T>(f: T -> T, x: T, r: nat): T {
    if r == 0 then x else f(Iterate(f, x, r - 1))
  }

  function Exchanges(sc: Config, cc: Config, l: Link, r: nat): Link {
    Iterate(Exchanging(sc, cc), l, r)
  }

  /** What every step keeps. */
  lemma {:induction false} IterateKeeps<T(!new)>(f: T -> T, inv: (T, nat) -> bool, x: T, r: nat)
    requires inv(x, 0) && forall y, j: nat :: inv(y, j) ==> inv(f(y), j + 1)
    ensures inv(Iterate(f, x, r), r)
  {
    if r > 0 { IterateKeeps(f, inv, x, r - 1); }
  }

  lemma OneMove(s: Ssm, c: Config, ack: Apdu)
    requires s.state == SEGMENTED_RESPONSE
    ensures var o := Server.SegmentedResponse(s, c, ack, true); Moves(s, c, [ack]) == (o.ssm, SentBy(o.out))
  {
    var o := Server.SegmentedResponse(s, c, ack, true);
    assert [ack][1..] == [];
    assert Moves(o.ssm, c, []) == (o.ssm, []) && SentBy(o.out) + [] == SentBy(o.out);
  }

  /** The answer, cut into at least two pieces of that size. */
  predicate IsCutTo(g: Given, size: nat) {
    && g.answer.ComplexAck? && 0 < size && g.pieces == Cut(g.answer.data, size) && 1 < |g.pieces| && 0 < g.w
  }

  lemma CutIsWhole(g: Given, size: nat)
    requires IsCutTo(g, size)
    ensures Whole(g)
  {
    AssembledAll(g.answer.data, size);
  }

  lemma PieceIsSegment(g: Given, size: nat, a: Apdu, k: nat)
    requires IsCutTo(g, size) && Answers.IsPiece(g.answer, size, a, k)
    ensures IsSegment(g, a, k)
  {
    var n := CountSegments(|g.answer.data|, size);
    if n <= k { Windows.MulMono(n, k, size); }
    PieceBounds(|g.answer.data|, size, k);
    PieceIs(g.answer.data, size, k);
  }

  lemma RowIsSegments(g: Given, size: nat, apdus: seq<Apdu>, first: nat)
    requires IsCutTo(g, size) && Row(g.answer, size, apdus, first)
    ensures Segments(g, apdus, first)
  {
    forall i | 0 <= i < |apdus| ensures IsSegment(g, apdus[i], first + i) {
      PieceIsSegment(g, size, apdus[i], first + i);
    }
  }

  /** Segment 0 is under way to a client that waits for an answer. */
  predicate Begun(l: Link, cc: Config, g: Given, size: nat) {
    && IsCutTo(g, size) && Opening(l.server, g.answer, size, |g.pieces|)
    && l.client.state == AWAIT_CONFIRMATION && Client.Running(l.client) && CanReceive(cc.segmentationSupported)
    && |l.segments| == 1 && Answers.IsPiece(g.answer, size, l.segments[0], 0) && l.segments[0].win == g.w
    && l.results == []
  }

  /** The window that starts at base is under way, and the client has taken all before it. */
  predicate AtWindow(l: Link, g: Given, size: nat, base: nat, lap: nat) {
    && IsCutTo(g, size) && 0 < base + 256 * lap && base < 256
    && Sending(l.server, g.answer, size, |g.pieces|, g.w, base)
    && Holds(l.client, g, base - 1 + 256 * lap, base - 1 + 256 * lap, lap, base)
    && Segments(g, l.segments, base) && |l.segments| == Windows.End(|g.pieces|, g.w, base) - base && l.results == []
  }

  /** Both transactions have ended, and what was handed up is the answer unless the numbers have
      started over. */
  predicate Over(l: Link, g: Given, lap: nat)
    requires g.answer.ComplexAck?
  {
    && l.server.state == COMPLETED && l.client.state == COMPLETED && l.segments == []
    && |l.results| == 1 && (IsAnswer(g.answer, l.results[0]) <==> lap == 0)
  }

  /** The number of the end of a window, and the one that comes next. */
  lemma EndInWindow(end: nat, base: byte, w: byte, lap: nat) returns (seqNo: byte, next: byte)
    requires base <= end < base + w
    ensures seqNo == (end + 256 * lap) % 256 && InWindow(seqNo, base, w) && next == (seqNo + 1) % 256
    ensures next == if end + 1 < 256 then end + 1 else end + 1 - 256
  {
    seqNo := if end < 256 then end else end - 256;
    next := (seqNo + 1) % 256;
    assert end + 256 * lap == seqNo + 256 * (if end < 256 then lap else lap + 1);
  }

  /** What the client answers to a window. */
  lemma ClientHalf(cc: Config, l: Link, g: Given, size: nat, base: nat, lap: nat, before: nat, end: nat)
    requires AtWindow(l, g, size, base, lap) && before == base - 1 + 256 * lap
    requires end == Windows.End(|g.pieces|, g.w, base)
    ensures 0 < end && RowTaken(l.client, cc, g, before, lap, end, l.segments)
  {
    CutIsWhole(g, size);
    TakesRow(l.client, cc, g, before, before, lap, base, end, l.segments);
  }

  lemma RowAcked(s: Ssm, c: Config, g: Given, group: nat, lap: nat, end: nat, place: nat, apdus: seq<Apdu>)
    requires g.answer.ComplexAck? && s.invokeID.Some? && 0 < end && RowTaken(s, c, g, group, lap, end, apdus)
    requires place == end - 1 + 256 * lap
    ensures SentBy(Hears(s, c, apdus).1) == [SegmentAckOf(false, false, s.invokeID.value, place % 256, g.w)]
  {
  }

  lemma ClientAcks(cc: Config, l: Link, g: Given, size: nat, base: nat, lap: nat, end: nat, place: nat)
    requires AtWindow(l, g, size, base, lap) && end == Windows.End(|g.pieces|, g.w, base)
    requires place == end - 1 + 256 * lap
    ensures SentBy(Hears(l.client, cc, l.segments).1)
         == [SegmentAckOf(false, false, l.client.invokeID.value, place % 256, g.w)]
  {
    var before := base - 1 + 256 * lap;
    ClientHalf(cc, l, g, size, base, lap, before, end);
    RowAcked(l.client, cc, g, before, lap, end, place, l.segments);
  }

  lemma RowGoesOn(s: Ssm, c: Config, g: Given, group: nat, lap: nat, end: nat, place: nat, apdus: seq<Apdu>)
    requires g.answer.ComplexAck? && s.invokeID.Some? && 0 < end && RowTaken(s, c, g, group, lap, end, apdus)
    requires place == end - 1 + 256 * lap && end != |g.pieces|
    ensures var heard := Hears(s, c, apdus);
      ClientLife.Results(heard.1) == [] && Holds(heard.0, g, place, place, lap, end)
  {
  }

  lemma ClientGoesOn(cc: Config, l: Link, g: Given, size: nat, base: nat, lap: nat, place: nat)
    requires AtWindow(l, g, size, base, lap) && base + g.w < |g.pieces| && place == base + g.w - 1 + 256 * lap
    ensures var heard := Hears(l.client, cc, l.segments);
      ClientLife.Results(heard.1) == [] && Holds(heard.0, g, place, place, lap, base + g.w)
  {
    var before := base - 1 + 256 * lap;
    ClientHalf(cc, l, g, size, base, lap, before, base + g.w);
    RowGoesOn(l.client, cc, g, before, lap, base + g.w, place, l.segments);
  }

  /** What one exchange does when the client sends that one acknowledgement. */
  lemma OneAck(sc: Config, cc: Config, l: Link, ack: Apdu)
    requires l.server.state == SEGMENTED_RESPONSE && SentBy(Hears(l.client, cc, l.segments).1) == [ack]
    ensures var u, o := Exchange(sc, cc, l), Server.SegmentedResponse(l.server, sc, ack, true);
      u.server == o.ssm && u.segments == SentBy(o.out)
  {
    OneMove(l.server, sc, ack);
  }

  lemma ServerGoesOn(sc: Config, cc: Config, l: Link, g: Given, size: nat, ack: Apdu, next: byte)
    requires Answering(l.server, g.answer, size, |g.pieces|) && !l.server.sentAllSegments && 0 < g.w
    requires SentBy(Hears(l.client, cc, l.segments).1) == [ack] && ack.SegmentAck? && ack.win == g.w
    requires InWindow(ack.seqNo, l.server.initialSequenceNumber, g.w)
    requires next == (ack.seqNo + 1) % 256 && next < |g.pieces|
    ensures var u := Exchange(sc, cc, l);
      && Sending(u.server, g.answer, size, |g.pieces|, g.w, next)
      && Row(g.answer, size, u.segments, next) && |u.segments| == Windows.End(|g.pieces|, g.w, next) - next
  {
    OneAck(sc, cc, l, ack);
    AckMovesServer(l.server, sc, g.answer, size, |g.pieces|, g.w, ack, next);
  }

  /** What the server then does. */
  lemma ServerHalf(sc: Config, cc: Config, l: Link, g: Given, size: nat, base: nat, lap: nat) returns (next: byte)
    requires AtWindow(l, g, size, base, lap) && base + g.w < |g.pieces|
    ensures next == if base + g.w < 256 then base + g.w else base + g.w - 256
    ensures var u := Exchange(sc, cc, l);
      && Sending(u.server, g.answer, size, |g.pieces|, g.w, next)
      && Row(g.answer, size, u.segments, next) && |u.segments| == Windows.End(|g.pieces|, g.w, next) - next
  {
    var seqNo;
    seqNo, next := EndInWindow(base + g.w - 1, base, g.w, lap);
    ClientAcks(cc, l, g, size, base, lap, base + g.w, base + g.w - 1 + 256 * lap);
    ServerGoesOn(sc, cc, l, g, size, SegmentAckOf(false, false, l.client.invokeID.value, seqNo, g.w), next);
  }

  lemma FrontGrows(data: Bytes, size: nat, j: nat, k: nat)
    requires 0 < size && j < k < |Cut(data, size)|
    ensures |Front(Cut(data, size), j)| < |Front(Cut(data, size), k)|
  {
    AssembledIsPrefix(data, size, k - 1);
    PieceBounds(|data|, size, k - 1);
    Windows.MulMono(j + 1, k, size);
    assert (j + 1) * size == j * size + size;
    if j > 0 {
      AssembledIsPrefix(data, size, j - 1);
      PieceBounds(|data|, size, j - 1);
    }
  }

  /** The same client, seen from after the end of the numbers. */
  lemma StartsOver(s: Ssm, g: Given, size: nat, place: nat, lap: nat, k: nat)
    requires IsCutTo(g, size) && Holds(s, g, place, place, lap, k) && 256 <= k < |g.pieces|
    ensures Holds(s, g, place, place, lap + 1, k - 256)
  {
    FrontGrows(g.answer.data, size, k - 256, k);
  }

  lemma Arrives(u: Link, g: Given, size: nat, place: nat, lap: nat, next: byte)
    requires IsCutTo(g, size) && place + 1 == next + 256 * lap && u.results == []
    requires Sending(u.server, g.answer, size, |g.pieces|, g.w, next) && Holds(u.client, g, place, place, lap, next)
    requires Row(g.answer, size, u.segments, next) && |u.segments| == Windows.End(|g.pieces|, g.w, next) - next
    ensures AtWindow(u, g, size, next, lap)
  {
    RowIsSegments(g, size, u.segments, next);
  }

  /** The numbers start over lap times or once more. */
  function NextLap(base: nat, w: byte, lap: nat): nat {
    if base + w < 256 then lap else lap + 1
  }

  lemma ClientNext(sc: Config, cc: Config, l: Link, g: Given, size: nat, base: nat, lap: nat, next: byte, place: nat)
    requires AtWindow(l, g, size, base, lap) && base + g.w < |g.pieces| && place == base + g.w - 1 + 256 * lap
    requires next == if base + g.w < 256 then base + g.w else base + g.w - 256
    ensures var u := Exchange(sc, cc, l);
      u.results == [] && Holds(u.client, g, place, place, NextLap(base, g.w, lap), next)
  {
    ClientGoesOn(cc, l, g, size, base, lap, place);
    if 256 <= base + g.w { StartsOver(Hears(l.client, cc, l.segments).0, g, size, place, lap, base + g.w); }
  }

  lemma NextIs(sc: Config, cc: Config, l: Link, g: Given, size: nat, base: nat, lap: nat) returns (u: Link, next: byte)
    requires AtWindow(l, g, size, base, lap) && base + g.w < |g.pieces|
    ensures u == Exchange(sc, cc, l) && u.results == []
    ensures next == if base + g.w < 256 then base + g.w else base + g.w - 256
    ensures Sending(u.server, g.answer, size, |g.pieces|, g.w, next)
    ensures Row(g.answer, size, u.segments, next) && |u.segments| == Windows.End(|g.pieces|, g.w, next) - next
    ensures var place := base + g.w - 1 + 256 * lap; Holds(u.client, g, place, place, NextLap(base, g.w, lap), next)
  {
    u := Exchange(sc, cc, l);
    next := ServerHalf(sc, cc, l, g, size, base, lap);
    ClientNext(sc, cc, l, g, size, base, lap, next, base + g.w - 1 + 256 * lap);
  }

  /** One exchange takes both to the next window. */
  lemma NextExchange(sc: Config, cc: Config, l: Link, g: Given, size: nat, base: nat, lap: nat)
    returns (u: Link, next: byte)
    requires AtWindow(l, g, size, base, lap) && base + g.w < |g.pieces|
    ensures u == Exchange(sc, cc, l) && next == if base + g.w < 256 then base + g.w else base + g.w - 256
    ensures AtWindow(u, g, size, next, NextLap(base, g.w, lap))
  {
    u, next := NextIs(sc, cc, l, g, size, base, lap);
    Arrives(u, g, size, base + g.w - 1 + 256 * lap, NextLap(base, g.w, lap), next);
  }

  lemma RowEnds(s: Ssm, c: Config, g: Given, group: nat, lap: nat, apdus: seq<Apdu>)
    requires g.answer.ComplexAck? && s.invokeID.Some? && g.pieces != []
    requires RowTaken(s, c, g, group, lap, |g.pieces|, apdus)
    ensures var heard := Hears(s, c, apdus);
      && heard.0.state == COMPLETED && |ClientLife.Results(heard.1)| == 1
      && (IsAnswer(g.answer, ClientLife.Results(heard.1)[0]) <==> lap == 0)
  {
  }

  lemma ClientEnds(sc: Config, cc: Config, l: Link, g: Given, size: nat, base: nat, lap: nat)
    requires AtWindow(l, g, size, base, lap) && |g.pieces| <= base + g.w
    ensures var u := Exchange(sc, cc, l);
      u.client.state == COMPLETED && |u.results| == 1 && (IsAnswer(g.answer, u.results[0]) <==> lap == 0)
  {
    var before := base - 1 + 256 * lap;
    ClientHalf(cc, l, g, size, base, lap, before, |g.pieces|);
    RowEnds(l.client, cc, g, before, lap, l.segments);
  }

  lemma ServerEnds(sc: Config, cc: Config, l: Link, g: Given, size: nat, base: nat, lap: nat)
    requires AtWindow(l, g, size, base, lap) && |g.pieces| <= base + g.w
    ensures var u := Exchange(sc, cc, l); u.server.state == COMPLETED && u.segments == []
  {
    var seqNo, _ := EndInWindow(|g.pieces| - 1, base, g.w, lap);
    ClientAcks(cc, l, g, size, base, lap, |g.pieces|, |g.pieces| - 1 + 256 * lap);
    var ack := SegmentAckOf(false, false, l.client.invokeID.value, seqNo, g.w);
    OneAck(sc, cc, l, ack);
    AckEndsServer(l.server, sc, ack);
    assert SentBy([]) == [];
  }

  /** After the last window both are done. */
  lemma LastExchange(sc: Config, cc: Config, l: Link, g: Given, size: nat, base: nat, lap: nat)
    requires AtWindow(l, g, size, base, lap) && |g.pieces| <= base + g.w
    ensures Over(Exchange(sc, cc, l), g, lap)
  {
    ClientEnds(sc, cc, l, g, size, base, lap);
    ServerEnds(sc, cc, l, g, size, base, lap);
  }

  lemma ClientOpens(cc: Config, l: Link, g: Given, size: nat)
    requires Begun(l, cc, g, size)
    ensures var heard := Hears(l.client, cc, l.segments);
      && ClientLife.Results(heard.1) == [] && Holds(heard.0, g, 0, 0, 0, 1)
      && SentBy(heard.1) == [SegmentAckOf(false, false, l.client.invokeID.value, 0, g.w)]
  {
    var o := Client.Confirmation(l.client, cc, l.segments[0], true);
    PieceIsSegment(g, size, l.segments[0], 0);
    HearsOne(l.client, cc, l.segments);
    assert Hears(o.ssm, cc, l.segments[1..]) == (o.ssm, []) && o.out + [] == o.out;
    AckAndUp(SegmentAckOf(false, false, l.client.invokeID.value, 0, g.w), g.answer);
    assert Front(g.pieces, 1) == g.pieces[0];
  }

  /** The first exchange: segment 0 is acknowledged and the first window goes out. */
  lemma FirstExchange(sc: Config, cc: Config, l: Link, g: Given, size: nat)
    requires Begun(l, cc, g, size)
    ensures AtWindow(Exchange(sc, cc, l), g, size, 1, 0)
  {
    var u := Exchange(sc, cc, l);
    var ack := SegmentAckOf(false, false, l.client.invokeID.value, 0, g.w);
    ClientOpens(cc, l, g, size);
    OneAck(sc, cc, l, ack);
    AckMovesServer(l.server, sc, g.answer, size, |g.pieces|, g.w, ack, 1);
    Arrives(u, g, size, 0, 0, 1);
  }

  lemma OverStays(sc: Config, cc: Config, l: Link, g: Given, lap: nat)
    requires g.answer.ComplexAck? && Over(l, g, lap)
    ensures Over(Exchange(sc, cc, l), g, lap)
  {
    assert Hears(l.client, cc, []) == (l.client, []) && Moves(l.server, sc, []) == (l.server, []);
    assert l.results + [] == l.results;
  }

  /** Where window k starts. */
  function WindowStart(k: nat, w: nat): nat {
    if k == 0 then 1 else WindowStart(k - 1, w) + w
  }

  lemma {:induction false} WindowStartIs(k: nat, w: nat)
    ensures WindowStart(k, w) == 1 + k * w
  {
    if k > 0 {
      WindowStartIs(k - 1, w);
      assert k * w == (k - 1) * w + w;
    }
  }

  /** As long as windows start below 256, window k is under way after k exchanges. */
  predicate OnFirstLap(l: Link, g: Given, size: nat, k: nat) {
    WindowStart(k, g.w) < 256 && WindowStart(k, g.w) < |g.pieces| ==> AtWindow(l, g, size, WindowStart(k, g.w), 0)
  }

  lemma OnFirstLapStep(sc: Config, cc: Config, l: Link, g: Given, size: nat, k: nat)
    requires OnFirstLap(l, g, size, k)
    ensures OnFirstLap(Exchange(sc, cc, l), g, size, k + 1)
  {
    if WindowStart(k + 1, g.w) < 256 && WindowStart(k + 1, g.w) < |g.pieces| {
      var u, next := NextExchange(sc, cc, l, g, size, WindowStart(k, g.w), 0);
    }
  }

  lemma FirstLap(sc: Config, cc: Config, l: Link, g: Given, size: nat, k: nat)
    requires OnFirstLap(l, g, size, 0)
    ensures OnFirstLap(Exchanges(sc, cc, l, k), g, size, k)
  {
    var inv := (x: Link, j: nat) => OnFirstLap(x, g, size, j);
    forall y, j: nat | inv(y, j) ensures inv(Exchanging(sc, cc)(y), j + 1) { OnFirstLapStep(sc, cc, y, g, size, j); }
    IterateKeeps(Exchanging(sc, cc), inv, l, k);
  }

  /** After k windows: the one that starts at base is under way in that lap, or all is over. */
  predicate Tracked(l: Link, g: Given, size: nat, base: nat, lap: nat, k: nat)
    requires g.answer.ComplexAck?
  {
    if lap == 0 then AtWindow(l, g, size, base, 0) && base == WindowStart(k, g.w)
    else AtWindow(l, g, size, base, lap) || Over(l, g, lap)
  }

  /** No window that starts below 256 is the last. */
  ghost predicate TooLong(g: Given) {
    forall k :: WindowStart(k, g.w) < 256 ==> WindowStart(k, g.w) + g.w < |g.pieces|
  }

  lemma BeyondIsTooLong(g: Given)
    requires 0 < g.w && Windows.Capacity(g.w) < |g.pieces|
    ensures TooLong(g)
  {
    forall k | WindowStart(k, g.w) < 256 ensures WindowStart(k, g.w) + g.w < |g.pieces| {
      WindowStartIs(k, g.w);
      Rounds.WindowsFit(|g.pieces|, g.w, k);
    }
  }

  lemma TrackedStep(sc: Config, cc: Config, l: Link, g: Given, size: nat, base: nat, lap: nat, k: nat)
    returns (u: Link, next: nat, nextLap: nat)
    requires IsCutTo(g, size) && Tracked(l, g, size, base, lap, k) && TooLong(g)
    ensures u == Exchange(sc, cc, l) && Tracked(u, g, size, next, nextLap, k + 1)
  {
    if AtWindow(l, g, size, base, lap) && base + g.w < |g.pieces| {
      u, next := NextExchange(sc, cc, l, g, size, base, lap);
      nextLap := NextLap(base, g.w, lap);
    } else {
      u, next, nextLap := Exchange(sc, cc, l), base, lap;
      if Over(l, g, lap) { OverStays(sc, cc, l, g, lap); } else { LastExchange(sc, cc, l, g, size, base, lap); }
    }
  }

  ghost predicate Stands(l: Link, g: Given, size: nat, k: nat) {
    && IsCutTo(g, size) && TooLong(g)
    && exists base: nat, lap: nat :: Tracked(l, g, size, base, lap, k)
  }

  lemma StandsStep(sc: Config, cc: Config, l: Link, g: Given, size: nat, k: nat)
    requires Stands(l, g, size, k)
    ensures Stands(Exchange(sc, cc, l), g, size, k + 1)
  {
    var base: nat, lap: nat :| Tracked(l, g, size, base, lap, k);
    var u, next, nextLap := TrackedStep(sc, cc, l, g, size, base, lap, k);
    assert Tracked(u, g, size, next, nextLap, k + 1);
  }

  /** Beyond the capacity the numbers of the segments start over before the last one has been sent. */
  lemma Beyond(sc: Config, cc: Config, l: Link, g: Given, size: nat, k: nat)
    requires Stands(l, g, size, 0)
    ensures Stands(Exchanges(sc, cc, l, k), g, size, k)
  {
    var inv := (x: Link, j: nat) => Stands(x, g, size, j);
    forall y, j: nat | inv(y, j) ensures inv(Exchanging(sc, cc)(y), j + 1) { StandsStep(sc, cc, y, g, size, j); }
    IterateKeeps(Exchanging(sc, cc), inv, l, k);
  }

  lemma {:induction false} FromSecond<T>(f: T -> T, x: T, r: nat)
    ensures Iterate(f, f(x), r) == Iterate(f, x, r + 1)
  {
    if r > 0 { FromSecond(f, x, r - 1); }
  }

  lemma StandsAtFirst(l: Link, g: Given, size: nat)
    requires AtWindow(l, g, size, 1, 0) && Windows.Capacity(g.w) < |g.pieces|
    ensures Stands(l, g, size, 0)
  {
    BeyondIsTooLong(g);
    assert Tracked(l, g, size, 1, 0, 0);
  }

  /** The answer has been handed up as it was given, and nothing else. */
  predicate Delivered(l: Link, answer: Apdu)
    requires answer.ComplexAck?
  {
    |l.results| == 1 && IsAnswer(answer, l.results[0])
  }

  lemma WithinFits(g: Given, k: nat)
    requires 0 < g.w && 1 + k * g.w < |g.pieces| <= 1 + (k + 1) * g.w && 1 + k * g.w < 256
    ensures WindowStart(k, g.w) < 256 && WindowStart(k, g.w) < |g.pieces| <= WindowStart(k, g.w) + g.w
  {
    WindowStartIs(k, g.w);
    assert (k + 1) * g.w == k * g.w + g.w;
  }

  lemma LastIsOver(sc: Config, cc: Config, l: Link, g: Given, size: nat, k: nat)
    requires AtWindow(l, g, size, 1, 0)
    requires WindowStart(k, g.w) < 256 && WindowStart(k, g.w) < |g.pieces| <= WindowStart(k, g.w) + g.w
    ensures Over(Exchange(sc, cc, Exchanges(sc, cc, l, k)), g, 0)
  {
    FirstLap(sc, cc, l, g, size, k);
    LastExchange(sc, cc, Exchanges(sc, cc, l, k), g, size, WindowStart(k, g.w), 0);
  }

  lemma OverAfter(sc: Config, cc: Config, l: Link, g: Given, size: nat, k: nat) returns (u: Link)
    requires Begun(l, cc, g, size)
    requires WindowStart(k, g.w) < 256 && WindowStart(k, g.w) < |g.pieces| <= WindowStart(k, g.w) + g.w
    ensures u == Exchanges(sc, cc, l, k + 2) && Over(u, g, 0)
  {
    var first := Exchange(sc, cc, l);
    FirstExchange(sc, cc, l, g, size);
    LastIsOver(sc, cc, first, g, size, k);
    FromSecond(Exchanging(sc, cc), l, k + 1);
    u := Exchanges(sc, cc, first, k + 1);
  }

  /** Within the capacity both transactions are over after one exchange for segment 0 and one for
      each window, and the answer has been handed up. */
  lemma AnswerWithin(sc: Config, cc: Config, l: Link, g: Given, size: nat) returns (r: nat, u: Link)
    requires Begun(l, cc, g, size) && |g.pieces| <= Windows.Capacity(g.w)
    ensures 0 < r && 1 + (r - 1) * g.w < |g.pieces| <= 1 + r * g.w && u == Exchanges(sc, cc, l, r + 1)
    ensures u.server.state == COMPLETED && u.client.state == COMPLETED && u.segments == [] && Delivered(u, g.answer)
  {
    r := Rounds.LastWindow(|g.pieces|, g.w);
    WithinFits(g, r - 1);
    u := OverAfter(sc, cc, l, g, size, r - 1);
  }

  lemma StandingIsNotDelivered(l: Link, g: Given, size: nat, k: nat)
    requires Stands(l, g, size, k)
    ensures !Delivered(l, g.answer)
  {
  }

  lemma NotDelivered(sc: Config, cc: Config, l: Link, g: Given, size: nat, r: nat)
    requires Begun(l, cc, g, size) && Windows.Capacity(g.w) < |g.pieces|
    ensures !Delivered(Exchanges(sc, cc, l, r), g.answer)
  {
    if r > 0 {
      var first := Exchange(sc, cc, l);
      FirstExchange(sc, cc, l, g, size);
      StandsAtFirst(first, g, size);
      Beyond(sc, cc, first, g, size, r - 1);
      StandingIsNotDelivered(Exchanges(sc, cc, first, r - 1), g, size, r - 1);
      FromSecond(Exchanging(sc, cc), l, r - 1);
    }
  }

  /** Without loss, an answer that is cut into pieces reaches the application of the client as it was
      given exactly when the number of pieces is within the capacity of the window that the server
      proposes; both transactions are then over. */
  lemma LosslessAnswer(sc: Config, cc: Config, l: Link, g: Given, size: nat)
    requires Begun(l, cc, g, size)
    ensures (exists r :: Delivered(Exchanges(sc, cc, l, r), g.answer)) <==> |g.pieces| <= Windows.Capacity(g.w)
  {
    if |g.pieces| <= Windows.Capacity(g.w) {
      var r, u := AnswerWithin(sc, cc, l, g, size);
    } else {
      forall r: nat ensures !Delivered(Exchanges(sc, cc, l, r), g.answer) { NotDelivered(sc, cc, l, g, size, r); }
    }
  }
}
