/** What every decoder does to any tag list, well formed or not: it takes a prefix away and
    nothing else, it takes something when its schema has to, and its loops end. */
module Prefixes {
  import opened Apdus
  import opened Schemas
  import opened RoundTrips

  /** What is left is the end of what there was. */
  predicate Leaves(rest: seq<Tag>, tags: seq<Tag>)
    decreases |tags|
  {
    rest == tags || (tags != [] && Leaves(rest, tags[1..]))
  }

  lemma {:induction false} LeavesEnd(rest: seq<Tag>, tags: seq<Tag>)
    requires Leaves(rest, tags)
    ensures |rest| <= |tags| && rest == tags[|tags| - |rest|..]
    decreases |tags|
  {
    if rest != tags {
      LeavesEnd(rest, tags[1..]);
      assert tags[1..][|tags| - 1 - |rest|..] == tags[|tags| - |rest|..];
    }
  }

  lemma {:induction false} LeavesLess(a: seq<Tag>, b: seq<Tag>, c: seq<Tag>)
    requires Leaves(a, b) && Leaves(b, c)
    ensures Leaves(a, c)
    decreases |c|
  {
    if b != c { LeavesLess(a, b, c[1..]); }
  }

  lemma LeavesTail(tags: seq<Tag>)
    ensures Leaves(Pop(tags), tags) && Leaves(tags, tags)
  {
    if tags != [] { assert Leaves(tags[1..], tags[1..]); }
  }

  lemma {:induction false} LeavesDrop(tags: seq<Tag>, n: nat)
    requires n <= |tags|
    ensures Leaves(tags[n..], tags)
    decreases n
  {
    if n != 0 {
      LeavesDrop(tags[1..], n - 1);
      assert tags[1..][n - 1..] == tags[n..];
    } else {
      assert tags[0..] == tags;
    }
  }

  function Inner(context: Option<nat>, tags: seq<Tag>): seq<Tag> {
    if context.None? then tags else Pop(tags)
  }

  lemma CloseLeaves<T>(context: Option<nat>, found: T, look: Option<Tag>, body: seq<Tag>, tags: seq<Tag>)
    requires Leaves(body, Inner(context, tags))
    ensures Leaves(Close(context, found, look, body).rest, tags)
  {
    LeavesTail(tags);
    LeavesTail(body);
    LeavesLess(body, Inner(context, tags), tags);
    LeavesLess(Pop(body), body, tags);
  }

  /** Success or failure, a decoder only removes tags from the front. */
  lemma {:induction false} DecodeLeaves(s: Schema, tags: seq<Tag>)
    ensures Leaves(Decode(s, tags).rest, tags)
    decreases s, 0
  {
    LeavesTail(tags);
    match s {
      case Atomic(_, _) =>
      case Sequence(context, elements) => SequenceLeaves(s, tags);
      case Choice(context, alternatives) => ChoiceLeaves(s, tags);
      case ExtendedList(context, subtype) => ListLeaves(s, tags);
      case Any(context) => AnyLeaves(context, tags);
    }
  }

  lemma AnyLeaves(context: Option<nat>, tags: seq<Tag>)
    ensures Leaves(DecodeAny(context, tags).rest, tags)
  {
    LeavesTail(tags);
    if tags != [] { GroupLeaves(tags); }
  }

  lemma GroupLeaves(tags: seq<Tag>)
    requires tags != []
    ensures Leaves(DecodeGroup(tags).rest, tags)
  {
    LeavesTail(tags);
    var d := DecodeGroup(tags);
    if d.result.Ok? { LeavesDrop(tags, |d.result.value.tags|); }
  }

  lemma {:induction false} SequenceLeaves(s: Schema, tags: seq<Tag>)
    requires s.Sequence?
    ensures Leaves(Decode(s, tags).rest, tags)
    decreases s.elements, 1
  {
    if s.context.None? || Opens(s.context.value, Peek(tags)) {
      var inner := Inner(s.context, tags);
      ElementsLeave(s.elements, inner, Peek(inner));
      var body := DecodeElements(s.elements, inner, Peek(inner));
      LeavesTail(tags);
      LeavesLess(body.rest, inner, tags);
      if body.result.Ok? {
        CloseLeaves(s.context, SequenceValue(body.result.value.value), body.result.value.look, body.rest, tags);
      }
    }
  }

  lemma {:induction false} ChoiceLeaves(s: Schema, tags: seq<Tag>)
    requires s.Choice?
    ensures Leaves(Decode(s, tags).rest, tags)
    decreases s.alternatives, 1
  {
    if s.context.None? || Opens(s.context.value, Peek(tags)) {
      var inner := Inner(s.context, tags);
      AlternativesLeave(s.alternatives, 0, inner);
      var body := DecodeAlternatives(s.alternatives, 0, inner);
      LeavesTail(tags);
      LeavesLess(body.rest, inner, tags);
      if body.result.Ok? {
        CloseLeaves(s.context, body.result.value.value, body.result.value.look, body.rest, tags);
      }
    }
  }

  lemma {:induction false} ListLeaves(s: Schema, tags: seq<Tag>)
    requires s.ExtendedList?
    ensures Leaves(Decode(s, tags).rest, tags)
    decreases s.subtype, 3
  {
    if s.context.None? || Opens(s.context.value, Peek(tags)) {
      var inner := Inner(s.context, tags);
      ItemsLeave(s.subtype, inner);
      var body := DecodeItems(s.subtype, inner);
      LeavesTail(tags);
      LeavesLess(body.rest, inner, tags);
      if body.result.Ok? {
        CloseLeaves(s.context, ListValue(body.result.value), Peek(body.rest), body.rest, tags);
      }
    }
  }

  lemma ElementRest(e: Element, tags: seq<Tag>, look: Option<Tag>)
    ensures var rest := DecodeElement(e, tags, look).rest;
      rest == tags || rest == Decode(e.schema, tags).rest
  {
  }

  lemma AlternativeRest(s: Schema, tags: seq<Tag>)
    requires tags != []
    ensures var rest := DecodeAlternative(s, tags).rest;
      rest == tags || rest == Decode(s, tags).rest
  {
  }

  lemma {:induction false} ElementLeaves(e: Element, tags: seq<Tag>, look: Option<Tag>)
    ensures Leaves(DecodeElement(e, tags, look).rest, tags)
    decreases e, 0
  {
    DecodeLeaves(e.schema, tags);
    LeavesTail(tags);
    ElementRest(e, tags, look);
  }

  lemma {:induction false} ElementsLeave(elements: seq<Element>, tags: seq<Tag>, look: Option<Tag>)
    ensures Leaves(DecodeElements(elements, tags, look).rest, tags)
    decreases elements, 0
  {
    LeavesTail(tags);
    if elements != [] {
      ElementLeaves(elements[0], tags, look);
      var first := DecodeElement(elements[0], tags, look);
      if first.result.Ok? {
        ElementsLeave(elements[1..], first.rest, first.result.value.look);
        LeavesLess(DecodeElements(elements[1..], first.rest, first.result.value.look).rest, first.rest, tags);
      }
    }
  }

  lemma {:induction false} AlternativeLeaves(s: Schema, tags: seq<Tag>)
    requires tags != []
    ensures Leaves(DecodeAlternative(s, tags).rest, tags)
    decreases s, 1
  {
    DecodeLeaves(s, tags);
    LeavesTail(tags);
    AlternativeRest(s, tags);
  }

  lemma {:induction false} AlternativesLeave(alternatives: seq<Schema>, which: nat, tags: seq<Tag>)
    ensures Leaves(DecodeAlternatives(alternatives, which, tags).rest, tags)
    decreases alternatives, 0
  {
    LeavesTail(tags);
    if alternatives != [] && tags != [] {
      AlternativeLeaves(alternatives[0], tags);
      AlternativesLeave(alternatives[1..], which + 1, tags);
    }
  }

  lemma {:induction false} ItemLeaves(subtype: Schema, tags: seq<Tag>)
    ensures Leaves(DecodeItem(subtype, tags).rest, tags)
    decreases subtype, 1
  {
    DecodeLeaves(subtype, tags);
    LeavesTail(tags);
    ItemRest(subtype, tags);
  }

  lemma ItemRest(subtype: Schema, tags: seq<Tag>)
    ensures var rest := DecodeItem(subtype, tags).rest;
      rest == tags || rest == Decode(subtype, tags).rest
  {
  }

  lemma {:induction false} ItemsLeave(subtype: Schema, tags: seq<Tag>)
    ensures Leaves(DecodeItems(subtype, tags).rest, tags)
    decreases subtype, 2, |tags|
  {
    LeavesTail(tags);
    var first := DecodeItem(subtype, tags);
    if first.result.Ok? && first.result.value.Some? {
      ItemLeaves(subtype, tags);
      ItemsLeave(subtype, first.rest);
      LeavesLess(DecodeItems(subtype, first.rest).rest, first.rest, tags);
    }
  }

  // ----- progress

  lemma ElementShorter(e: Element, tags: seq<Tag>, look: Option<Tag>)
    ensures |DecodeElement(e, tags, look).rest| <= |tags|
  {
    ElementLeaves(e, tags, look);
    LeavesEnd(DecodeElement(e, tags, look).rest, tags);
  }

  lemma ElementsShorter(elements: seq<Element>, tags: seq<Tag>, look: Option<Tag>)
    ensures |DecodeElements(elements, tags, look).rest| <= |tags|
  {
    ElementsLeave(elements, tags, look);
    LeavesEnd(DecodeElements(elements, tags, look).rest, tags);
  }

  lemma AlternativesShorter(alternatives: seq<Schema>, which: nat, tags: seq<Tag>)
    ensures |DecodeAlternatives(alternatives, which, tags).rest| <= |tags|
  {
    AlternativesLeave(alternatives, which, tags);
    LeavesEnd(DecodeAlternatives(alternatives, which, tags).rest, tags);
  }

  lemma ItemsShorter(subtype: Schema, tags: seq<Tag>)
    ensures |DecodeItems(subtype, tags).rest| <= |tags|
  {
    ItemsLeave(subtype, tags);
    LeavesEnd(DecodeItems(subtype, tags).rest, tags);
  }

  /** Decoding takes at least one tag when it succeeds, at an end or elsewhere. An optional choice
      or list that is absent only goes unnoticed at an end. */
  predicate Consumes(s: Schema, ended: bool)
    decreases s, 0
  {
    s.context.Some? ||
    match s
    case Sequence(_, elements) => SomeConsumes(elements, ended)
    case Choice(_, alternatives) => AllConsume(alternatives, ended)
    case ExtendedList(_, _) => false
    case _ => true
  }

  predicate ElementConsumes(e: Element, ended: bool)
    decreases e, 0
  {
    Consumes(e.schema, ended) && (e.optional ==> !ended && Blind(e.schema))
  }

  predicate SomeConsumes(elements: seq<Element>, ended: bool)
    decreases elements, 0
  {
    elements != [] && (ElementConsumes(elements[0], ended) || SomeConsumes(elements[1..], ended))
  }

  predicate AllConsume(alternatives: seq<Schema>, ended: bool)
    decreases alternatives, 0
  {
    alternatives == [] || (Consumes(alternatives[0], ended) && AllConsume(alternatives[1..], ended))
  }

  lemma {:induction false} DecodeConsumes(s: Schema, tags: seq<Tag>)
    requires Consumes(s, Ends(Peek(tags))) && Decode(s, tags).result.Ok?
    ensures |Decode(s, tags).rest| < |tags|
    decreases s, 0
  {
    match s {
      case Sequence(context, elements) => SequenceConsumes(s, tags);
      case Choice(context, alternatives) => ChoiceConsumes(s, tags);
      case ExtendedList(context, subtype) => ListConsumes(s, tags);
      case _ =>
    }
  }

  lemma ListConsumes(s: Schema, tags: seq<Tag>)
    requires s.ExtendedList? && s.context.Some? && Decode(s, tags).result.Ok?
    ensures |Decode(s, tags).rest| < |tags|
  {
    ItemsShorter(s.subtype, tags[1..]);
  }

  lemma {:induction false} SequenceConsumes(s: Schema, tags: seq<Tag>)
    requires s.Sequence? && Consumes(s, Ends(Peek(tags))) && Decode(s, tags).result.Ok?
    ensures |Decode(s, tags).rest| < |tags|
    decreases s.elements, 1
  {
    var inner := Inner(s.context, tags);
    ElementsShorter(s.elements, inner, Peek(inner));
    if s.context.None? { ElementsConsume(s.elements, inner); }
  }

  lemma {:induction false} ChoiceConsumes(s: Schema, tags: seq<Tag>)
    requires s.Choice? && Consumes(s, Ends(Peek(tags))) && Decode(s, tags).result.Ok?
    ensures |Decode(s, tags).rest| < |tags|
    decreases s.alternatives, 1
  {
    var inner := Inner(s.context, tags);
    AlternativesShorter(s.alternatives, 0, inner);
    if s.context.None? { AlternativesConsume(s.alternatives, 0, inner); }
  }

  lemma {:induction false} ElementConsumesTag(e: Element, tags: seq<Tag>)
    requires ElementConsumes(e, Ends(Peek(tags))) && DecodeElement(e, tags, Peek(tags)).result.Ok?
    ensures |DecodeElement(e, tags, Peek(tags)).rest| < |tags|
    decreases e, 0
  {
    if Decode(e.schema, tags).result.Ok? { DecodeConsumes(e.schema, tags); }
  }

  /** An element that takes nothing leaves the look-ahead alone. */
  lemma NothingTaken(e: Element, tags: seq<Tag>)
    requires DecodeElement(e, tags, Peek(tags)).result.Ok? && |DecodeElement(e, tags, Peek(tags)).rest| == |tags|
    ensures var d := DecodeElement(e, tags, Peek(tags)); d.rest == tags && d.result.value.look == Peek(tags)
  {
    ElementLeaves(e, tags, Peek(tags));
    LeavesAll(DecodeElement(e, tags, Peek(tags)).rest, tags);
  }

  lemma LeavesAll(rest: seq<Tag>, tags: seq<Tag>)
    requires Leaves(rest, tags) && |rest| == |tags|
    ensures rest == tags
  {
    LeavesEnd(rest, tags);
  }

  lemma {:induction false} ElementsConsume(elements: seq<Element>, tags: seq<Tag>)
    requires SomeConsumes(elements, Ends(Peek(tags))) && DecodeElements(elements, tags, Peek(tags)).result.Ok?
    ensures |DecodeElements(elements, tags, Peek(tags)).rest| < |tags|
    decreases elements, 0
  {
    var first := DecodeElement(elements[0], tags, Peek(tags));
    var more := DecodeElements(elements[1..], first.rest, first.result.value.look);
    assert more.result.Ok? && DecodeElements(elements, tags, Peek(tags)).rest == more.rest;
    ElementShorter(elements[0], tags, Peek(tags));
    ElementsShorter(elements[1..], first.rest, first.result.value.look);
    if ElementConsumes(elements[0], Ends(Peek(tags))) {
      ElementConsumesTag(elements[0], tags);
    } else if |first.rest| == |tags| {
      NothingTaken(elements[0], tags);
      ElementsConsume(elements[1..], tags);
    }
  }

  lemma {:induction false} AlternativesConsume(alternatives: seq<Schema>, which: nat, tags: seq<Tag>)
    requires AllConsume(alternatives, Ends(Peek(tags))) && DecodeAlternatives(alternatives, which, tags).result.Ok?
    ensures |DecodeAlternatives(alternatives, which, tags).rest| < |tags|
    decreases alternatives, 0
  {
    var first := DecodeAlternative(alternatives[0], tags);
    if first.result.value.value.None? {
      AlternativesConsume(alternatives[1..], which + 1, tags);
    } else {
      DecodeConsumes(alternatives[0], tags);
    }
  }

  // ----- the loops end

  /** Every list has elements that take at least one tag wherever one is tried. */
  predicate Progresses(s: Schema)
    decreases s, 0
  {
    match s
    case Sequence(_, elements) => ElementsProgress(elements)
    case Choice(_, alternatives) => AlternativesProgress(alternatives)
    case ExtendedList(_, subtype) => Consumes(subtype, false) && Progresses(subtype)
    case _ => true
  }

  predicate ElementProgresses(e: Element)
    decreases e, 0
  {
    Progresses(e.schema)
  }

  predicate ElementsProgress(elements: seq<Element>)
    decreases elements, 0
  {
    elements == [] || (ElementProgresses(elements[0]) && ElementsProgress(elements[1..]))
  }

  predicate AlternativesProgress(alternatives: seq<Schema>)
    decreases alternatives, 0
  {
    alternatives == [] || (Progresses(alternatives[0]) && AlternativesProgress(alternatives[1..]))
  }

  predicate Ended<T>(r: Result<T>) {
    r != Err(Endless)
  }

  /** On any tags at all, no loop of such a schema runs forever. */
  lemma {:induction false} DecodeEnds(s: Schema, tags: seq<Tag>)
    requires Progresses(s)
    ensures Ended(Decode(s, tags).result)
    decreases s, 0
  {
    var inner := Inner(s.context, tags);
    match s {
      case Sequence(context, elements) => SequenceEnds(elements, inner, Peek(inner));
      case Choice(context, alternatives) => ChoiceEnds(alternatives, 0, inner);
      case ExtendedList(context, subtype) => ListEnds(subtype, inner);
      case _ =>
    }
  }

  lemma {:induction false} ElementEnds(e: Element, tags: seq<Tag>, look: Option<Tag>)
    requires ElementProgresses(e)
    ensures Ended(DecodeElement(e, tags, look).result)
    decreases e, 0
  {
    DecodeEnds(e.schema, tags);
  }

  lemma {:induction false} SequenceEnds(elements: seq<Element>, tags: seq<Tag>, look: Option<Tag>)
    requires ElementsProgress(elements)
    ensures Ended(DecodeElements(elements, tags, look).result)
    decreases elements, 0
  {
    if elements != [] {
      ElementEnds(elements[0], tags, look);
      var first := DecodeElement(elements[0], tags, look);
      if first.result.Ok? { SequenceEnds(elements[1..], first.rest, first.result.value.look); }
    }
  }

  lemma {:induction false} ChoiceEnds(alternatives: seq<Schema>, which: nat, tags: seq<Tag>)
    requires AlternativesProgress(alternatives)
    ensures Ended(DecodeAlternatives(alternatives, which, tags).result)
    decreases alternatives, 0
  {
    if alternatives != [] {
      DecodeEnds(alternatives[0], tags);
      ChoiceEnds(alternatives[1..], which + 1, tags);
    }
  }

  lemma {:induction false} ListEnds(subtype: Schema, tags: seq<Tag>)
    requires Consumes(subtype, false) && Progresses(subtype)
    ensures Ended(DecodeItems(subtype, tags).result)
    decreases subtype, 2, |tags|
  {
    DecodeEnds(subtype, tags);
    if !Ends(Peek(tags)) && Decode(subtype, tags).result.Ok? { DecodeConsumes(subtype, tags); }
    var first := DecodeItem(subtype, tags);
    if first.result.Ok? && first.result.value.Some? { ListEnds(subtype, first.rest); }
  }

  /** The condition on a list is needed: an element that succeeds on the next tag and takes
      nothing is found for ever. */
  lemma EmptyItemsNeverEnd(subtype: Schema, tags: seq<Tag>)
    requires !Ends(Peek(tags)) && Decode(subtype, tags).result.Ok? && |Decode(subtype, tags).rest| >= |tags|
    ensures DecodeItems(subtype, tags).result == Err(Endless)
  {
  }

  /** Neither an untagged sequence, nor an untagged any-element, nor an untagged list. */
  predicate Plain(e: Element) {
    e.schema.Atomic? || e.schema.context.Some? || (e.schema.Choice? && Consumes(e.schema, false))
  }

  /** The element may go unnoticed. */
  predicate MayBeAbsent(e: Element) {
    e.optional && !Blind(e.schema)
  }

  /** A context number that none of the elements has. */
  function Foreign(elements: seq<Element>): (n: nat)
    ensures forall e :: e in elements ==> e.schema.context.None? || e.schema.context.value < n
  {
    if elements == [] then 0
    else
      var n := Foreign(elements[1..]);
      var c := if elements[0].schema.context.Some? then elements[0].schema.context.value + 1 else 0;
      assert forall e :: e in elements ==> e == elements[0] || e in elements[1..];
      if c < n then n else c
  }

  /** On a tag that none of them has, elements that may be absent are all absent. */
  lemma {:induction false} AllAbsent(elements: seq<Element>, tags: seq<Tag>)
    requires tags != [] && tags[0].cls == CONTEXT
    requires forall e :: e in elements ==> Plain(e) && MayBeAbsent(e) && e.schema.context != Some(tags[0].number)
    ensures var d := DecodeElements(elements, tags, Peek(tags)); d.result.Ok? && d.rest == tags
    decreases |elements|
  {
    if elements != [] {
      assert elements[0] in elements;
      SkippedElement(elements[0], tags);
      AllAbsent(elements[1..], tags);
    }
  }

  lemma {:induction false} OneConsumes(elements: seq<Element>, e: Element)
    requires e in elements && ElementConsumes(e, false)
    ensures SomeConsumes(elements, false)
    decreases |elements|
  {
    if e != elements[0] { OneConsumes(elements[1..], e); }
  }

  lemma LoopingTags(context: Option<nat>, elements: seq<Element>) returns (tags: seq<Tag>)
    requires forall e :: e in elements ==> Plain(e) && MayBeAbsent(e)
    ensures Decode(ExtendedList(context, Sequence(None, elements)), tags).result == Err(Endless)
  {
    var inner := [Tag(CONTEXT, Foreign(elements), [])];
    AllAbsent(elements, inner);
    EmptyItemsNeverEnd(Sequence(None, elements), inner);
    if context.None? {
      tags := inner;
    } else {
      tags := [Tag(OPENING, context.value, [])] + inner;
      assert tags[1..] == inner;
    }
  }

  /** Which lists of untagged sequences can loop for ever: those in which every element may be
      absent. */
  lemma LoopsExactly(context: Option<nat>, elements: seq<Element>)
    requires ElementsProgress(elements) && forall e :: e in elements ==> Plain(e)
    ensures (exists tags :: Decode(ExtendedList(context, Sequence(None, elements)), tags).result == Err(Endless))
       <==> forall e :: e in elements ==> MayBeAbsent(e)
  {
    if forall e :: e in elements ==> MayBeAbsent(e) {
      var tags := LoopingTags(context, elements);
    } else {
      var list := ExtendedList(context, Sequence(None, elements));
      var e :| e in elements && !MayBeAbsent(e);
      OneConsumes(elements, e);
      forall tags: seq<Tag> ensures Decode(list, tags).result != Err(Endless) { DecodeEnds(list, tags); }
    }
  }

  /** Where the items of a list end there is no further item. */
  lemma {:induction false} NoMoreItems(subtype: Schema, tags: seq<Tag>)
    requires DecodeItems(subtype, tags).result.Ok?
    ensures var rest := DecodeItems(subtype, tags).rest;
      && (rest == tags || |rest| < |tags|)
      && DecodeItem(subtype, rest) == Decoded(Ok(None), rest) && DecodeItems(subtype, rest) == Decoded(Ok([]), rest)
    decreases |tags|
  {
    var first := DecodeItem(subtype, tags);
    if first.result.value.Some? { NoMoreItems(subtype, first.rest); }
  }

  /** What an item of a list raises and a copy recovers from, the list does not raise. */
  lemma {:induction false} ItemsRaise(subtype: Schema, tags: seq<Tag>)
    requires DecodeItems(subtype, tags).result.Err?
    ensures !Caught(DecodeItems(subtype, tags).result.error)
    decreases |tags|
  {
    var first := DecodeItem(subtype, tags);
    if first.result.Ok? { ItemsRaise(subtype, first.rest); }
  }

  /** A list of untagged lists loops for ever exactly when the first inner one does, or ends where
      the outer one cannot, as it does on every tag that is not for it. */
  lemma InnerListLoops(subtype: Schema, tags: seq<Tag>)
    ensures var inner := DecodeItems(subtype, tags);
      DecodeItems(ExtendedList(None, subtype), tags).result == Err(Endless)
      <==> if inner.result.Ok? then !Ends(Peek(inner.rest)) else inner.result == Err(Endless)
    ensures !Ends(Peek(tags)) && Refuses(subtype, tags[0]) ==>
      DecodeItems(ExtendedList(None, subtype), tags).result == Err(Endless)
  {
    var inner, outer := DecodeItems(subtype, tags), ExtendedList(None, subtype);
    if !Ends(Peek(tags)) && Refuses(subtype, tags[0]) { RefusedIsCaught(subtype, tags); }
    if inner.result.Ok? {
      NoMoreItems(subtype, tags);
      assert Decode(outer, tags) == Decoded(Ok(ListValue(inner.result.value)), inner.rest);
      if !Ends(Peek(inner.rest)) {
        assert Decode(outer, inner.rest) == Decoded(Ok(ListValue([])), inner.rest);
        EmptyItemsNeverEnd(outer, inner.rest);
      }
    } else {
      ItemsRaise(subtype, tags);
      assert Decode(outer, tags) == Decoded(Err(inner.result.error), inner.rest);
      assert DecodeItem(outer, tags) == Decoded(Err(inner.result.error), tags);
    }
  }

  // ----- where a decoder does not do what its schema says

  /** An optional element that is absent is skipped exactly when the next tag says so. An
      absent choice or list is never skipped, a context tagged atomic is mistaken for an
      application tag of its kind, and a Double for a Real. */
  lemma SkippedExactly(e: Element, tags: seq<Tag>)
    requires e.optional && !Ends(Peek(tags)) && (e.schema.Sequence? || e.schema.Any? ==> e.schema.context.Some?)
    ensures DecodeElement(e, tags, Peek(tags)) == Decoded(Ok(Found(None, Peek(tags))), tags)
        <==> Skips(e.schema, tags[0])
  {
    if Skips(e.schema, tags[0]) { SkippedElement(e, tags); }
  }

  /** The element is tried on a copy, and if it is found nobody looks again. */
  predicate TriedOnCopy(e: Element, t: Tag) {
    t.cls != APPLICATION && t.cls != CLOSING && !Blind(e.schema) && e.optional && e.schema.context.None?
  }

  /** And a present one is taken, with a fresh look at what follows, exactly when the next tag
      says so, or when it is found on a copy and what follows looks just like it. */
  lemma TakenExactly(e: Element, tags: seq<Tag>, v: Value, later: seq<Tag>)
    requires tags != [] && Decode(e.schema, tags) == Decoded(Ok(v), later)
    ensures DecodeElement(e, tags, Peek(tags)) == Decoded(Ok(Found(Some(v), Peek(later))), later)
       <==> Takes(e.schema, tags[0]) || (TriedOnCopy(e, tags[0]) && Peek(later) == Peek(tags))
  {
    if Takes(e.schema, tags[0]) { TakenElement(e, tags); }
  }

  /** A required element that is not tagged, not atomic, and neither a choice nor a list, is
      never read from a context or an opening tag. */
  lemma UntaggedIsNotRead(e: Element, tags: seq<Tag>)
    requires !e.optional && e.schema.context.None? && (e.schema.Sequence? || e.schema.Any?)
    requires !Ends(Peek(tags)) && tags[0].cls != APPLICATION
    ensures DecodeElement(e, tags, Peek(tags)).result == Err(AttributeError)
  {
  }

  /** A required list that is not tagged cannot be empty where nothing follows it. */
  lemma EmptyListIsMissed(e: Element, rest: seq<Tag>)
    requires !e.optional && e.schema.ExtendedList? && e.schema.context.None? && Ends(Peek(rest))
    ensures Encode(e.schema, ListValue([])) == []
    ensures DecodeElement(e, rest, Peek(rest)).result == Err(AttributeError)
  {
  }

  /** A choice never tries an alternative that is not tagged on a context or opening tag. */
  lemma {:induction false} UntaggedIsNotTried(alternatives: seq<Schema>, which: nat, tags: seq<Tag>)
    requires forall a :: a in alternatives ==> a.context.None?
    requires !Ends(Peek(tags)) && tags[0].cls != APPLICATION
    ensures DecodeAlternatives(alternatives, which, tags) == Decoded(Err(AttributeError), tags)
    decreases |alternatives|
  {
    if alternatives != [] {
      assert alternatives[0] in alternatives;
      UntaggedIsNotTried(alternatives[1..], which + 1, tags);
    }
  }

  /** An opening tag that is never closed is taken with everything after it. */
  lemma UnclosedIsAccepted(s: Schema, tags: seq<Tag>)
    requires s.Any? && s.context.None? && tags != [] && tags[0].cls == OPENING && Balanced(tags[1..])
    ensures Decode(s, tags) == Decoded(Ok(AnyValue(tags)), [])
  {
    ScanSkipsBalanced(tags, 1, 0, tags[0].number, tags[1..]);
    assert tags[..|tags|] == tags;
  }
}
