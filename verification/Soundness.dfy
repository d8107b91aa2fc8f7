/** What a decoder accepts is an encoding: the value that it returns encodes to exactly the tags that it
    took. The one place where tags are lost is an optional sequence without a context. */
module Soundness {
  import opened Apdus
  import opened Schemas
  import opened RoundTrips
  import opened Determinism

  /** No element of the schema, at any depth, is an optional sequence without a context. */
  predicate KeepsTags(s: Schema)
    decreases s, 0
  {
    match s
    case Sequence(_, elements) => AllKeepTags(elements)
    case Choice(_, alternatives) => AlternativesKeepTags(alternatives)
    case ExtendedList(_, subtype) => KeepsTags(subtype)
    case _ => true
  }

  predicate ElementKeepsTags(e: Element)
    decreases e, 0
  {
    KeepsTags(e.schema) && !(e.optional && e.schema.Sequence? && e.schema.context.None?)
  }

  predicate AllKeepTags(elements: seq<Element>)
    decreases elements, 0
  {
    elements == [] || (ElementKeepsTags(elements[0]) && AllKeepTags(elements[1..]))
  }

  predicate AlternativesKeepTags(alternatives: seq<Schema>)
    decreases alternatives, 0
  {
    alternatives == [] || (KeepsTags(alternatives[0]) && AlternativesKeepTags(alternatives[1..]))
  }

  /** Opening and closing tags carry nothing. */
  predicate Plain(tags: seq<Tag>) {
    forall t :: t in tags && (t.cls == OPENING || t.cls == CLOSING) ==> t.data == []
  }

  predicate TookValue(s: Schema, tags: seq<Tag>, d: Decoded<Value>) {
    d.result.Ok? ==> Complete(s, d.result.value) && tags == Encode(s, d.result.value) + d.rest
  }

  /** A look at an end, or at an application tag, is a look at what comes next. */
  predicate Fresh(look: Option<Tag>, tags: seq<Tag>) {
    Ends(look) || look.value.cls == APPLICATION ==> look == Peek(tags)
  }

  predicate TookField(e: Element, tags: seq<Tag>, d: Decoded<Found<Option<Value>>>) {
    d.result.Ok? ==>
      && CompleteField(e, d.result.value.value) && tags == EncodeField(e, d.result.value.value) + d.rest
      && Fresh(d.result.value.look, d.rest)
  }

  predicate TookFields(elements: seq<Element>, tags: seq<Tag>, d: Decoded<Found<seq<Option<Value>>>>) {
    d.result.Ok? ==>
      && CompleteFields(elements, d.result.value.value) && tags == EncodeFields(elements, d.result.value.value) + d.rest
      && Fresh(d.result.value.look, d.rest)
  }

  predicate TookItems(subtype: Schema, tags: seq<Tag>, d: Decoded<seq<Value>>) {
    d.result.Ok? ==> CompleteItems(subtype, d.result.value) && tags == EncodeItems(subtype, d.result.value) + d.rest
  }

  /** The alternative is one of those from number which on. */
  predicate TookChoice(alternatives: seq<Schema>, which: nat, tags: seq<Tag>, d: Decoded<Found<Value>>) {
    d.result.Ok? ==>
      var v := d.result.value.value;
      && v.ChoiceValue? && which <= v.which < which + |alternatives|
      && Complete(alternatives[v.which - which], v.value)
      && tags == Encode(alternatives[v.which - which], v.value) + d.rest
      && (Ends(d.result.value.look) ==> d.result.value.look == Peek(d.rest))
  }

  lemma PlainRest(front: seq<Tag>, rest: seq<Tag>)
    requires Plain(front + rest)
    ensures Plain(rest)
  {
    forall t | t in rest ensures t in front + rest {}
  }

  lemma AtomicSound(s: Schema, tags: seq<Tag>)
    requires s.Atomic?
    ensures TookValue(s, tags, Decode(s, tags))
  {
  }

  lemma AnySound(s: Schema, tags: seq<Tag>)
    requires s.Any?
    ensures TookValue(s, tags, Decode(s, tags))
  {
    if tags != [] && tags[0].cls == OPENING {
      var scan := Scan(tags, 1, 0, tags[0].number);
    }
  }

  /** The brackets of a context. */
  lemma Bracketed(context: nat, tags: seq<Tag>, inner: seq<Tag>, rest: seq<Tag>)
    requires Plain(tags) && Opens(context, Peek(tags)) && tags[1..] == inner + rest && Closes(context, Peek(rest))
    ensures tags == Wrap(Some(context), inner) + Pop(rest)
  {
    PlainTag(tags, 0);
    PlainTag(tags, 1 + |inner|);
    assert tags[1 + |inner|] == tags[1..][|inner|] == rest[0];
    assert tags == [tags[0]] + tags[1..] && rest == [rest[0]] + rest[1..];
    assert tags[0] == Tag(OPENING, context, []) && rest[0] == Tag(CLOSING, context, []);
  }

  lemma PlainTag(tags: seq<Tag>, i: nat)
    requires Plain(tags) && i < |tags|
    ensures tags[i].cls == OPENING || tags[i].cls == CLOSING ==> tags[i].data == []
  {
    assert tags[i] in tags;
  }

  lemma {:induction false} DecodeIsSound(s: Schema, tags: seq<Tag>)
    requires KeepsTags(s) && Plain(tags)
    ensures TookValue(s, tags, Decode(s, tags))
    decreases s, 2
  {
    match s {
      case Atomic(_, _) => AtomicSound(s, tags);
      case Any(_) => AnySound(s, tags);
      case Sequence(context, elements) => SequenceSound(s, tags);
      case Choice(context, alternatives) => ChoiceSound(s, tags);
      case ExtendedList(context, subtype) => ListSound(s, tags);
    }
  }

  lemma {:induction false} SequenceSound(s: Schema, tags: seq<Tag>)
    requires s.Sequence? && KeepsTags(s) && Plain(tags)
    ensures TookValue(s, tags, Decode(s, tags))
    decreases s, 1
  {
    if s.context.None? || Opens(s.context.value, Peek(tags)) {
      var inner := if s.context.None? then tags else tags[1..];
      if s.context.Some? { PlainRest(tags[..1], inner); }
      var body := DecodeElements(s.elements, inner, Peek(inner));
      ElementsSound(s.elements, inner, Peek(inner));
      if s.context.Some? && Decode(s, tags).result.Ok? {
        Bracketed(s.context.value, tags, EncodeFields(s.elements, body.result.value.value), body.rest);
      }
    }
  }

  lemma {:induction false} ElementsSound(elements: seq<Element>, tags: seq<Tag>, look: Option<Tag>)
    requires AllKeepTags(elements) && Plain(tags) && Fresh(look, tags)
    ensures TookFields(elements, tags, DecodeElements(elements, tags, look))
    decreases elements
  {
    if elements == [] {
      assert [] + tags == tags;
    } else {
      var first := DecodeElement(elements[0], tags, look);
      ElementSound(elements[0], tags, look);
      if first.result.Ok? {
        var front := EncodeField(elements[0], first.result.value.value);
        PlainRest(front, first.rest);
        ElementsSound(elements[1..], first.rest, first.result.value.look);
        FieldsJoin(elements, tags, look);
      }
    }
  }

  lemma {:induction false} FieldsAre(elements: seq<Element>, field: Option<Value>, fields: seq<Option<Value>>,
                                     tags: seq<Tag>, mid: seq<Tag>, rest: seq<Tag>)
    requires elements != [] && CompleteField(elements[0], field) && tags == EncodeField(elements[0], field) + mid
    requires CompleteFields(elements[1..], fields) && mid == EncodeFields(elements[1..], fields) + rest
    ensures CompleteFields(elements, [field] + fields) && tags == EncodeFields(elements, [field] + fields) + rest
  {
    assert ([field] + fields)[1..] == fields;
  }

  lemma {:induction false} FieldsJoin(elements: seq<Element>, tags: seq<Tag>, look: Option<Tag>)
    requires elements != [] && DecodeElement(elements[0], tags, look).result.Ok?
    requires TookField(elements[0], tags, DecodeElement(elements[0], tags, look))
    requires var first := DecodeElement(elements[0], tags, look);
      TookFields(elements[1..], first.rest, DecodeElements(elements[1..], first.rest, first.result.value.look))
    ensures TookFields(elements, tags, DecodeElements(elements, tags, look))
  {
    var first := DecodeElement(elements[0], tags, look);
    var more := DecodeElements(elements[1..], first.rest, first.result.value.look);
    if more.result.Ok? {
      FieldsAre(elements, first.result.value.value, more.result.value.value, tags, first.rest, more.rest);
      FoundAre(elements, tags, look, first, more);
    }
  }

  lemma {:induction false} FoundAre(elements: seq<Element>, tags: seq<Tag>, look: Option<Tag>,
                                    first: Decoded<Found<Option<Value>>>, more: Decoded<Found<seq<Option<Value>>>>)
    requires elements != [] && first == DecodeElement(elements[0], tags, look) && first.result.Ok?
    requires more == DecodeElements(elements[1..], first.rest, first.result.value.look) && more.result.Ok?
    ensures DecodeElements(elements, tags, look)
         == Decoded(Ok(Found([first.result.value.value] + more.result.value.value, more.result.value.look)), more.rest)
  {
  }

  /** An attempt on the list itself that fails with an invalid tag has taken nothing, but for a sequence
      without a context. */
  lemma FailureKeeps(e: Element, tags: seq<Tag>)
    requires e.schema.Any? || (e.schema.Sequence? && e.schema.context.Some?)
    requires tags != [] && tags[0].cls == APPLICATION
    ensures var d := Decode(e.schema, tags); d.result == Err(InvalidTag) ==> d.rest == tags
  {
  }

  lemma AbsentSound(e: Element, look: Option<Tag>, tags: seq<Tag>)
    requires Fresh(look, tags)
    ensures TookField(e, tags, Absent(e.optional, look, tags))
  {
    assert [] + tags == tags;
  }

  lemma TakenSound(e: Element, tags: seq<Tag>)
    requires TookValue(e.schema, tags, Decode(e.schema, tags))
    ensures TookField(e, tags, Taken(Decode(e.schema, tags)))
  {
  }

  lemma TriedSound(e: Element, look: Option<Tag>, tags: seq<Tag>)
    requires TookValue(e.schema, tags, Decode(e.schema, tags)) && e.optional && !Ends(look)
    requires look.value.cls != APPLICATION
    ensures TookField(e, tags, Tried(Decode(e.schema, tags), look, tags))
  {
    assert [] + tags == tags;
  }

  lemma AttemptedSound(e: Element, look: Option<Tag>, tags: seq<Tag>)
    requires TookValue(e.schema, tags, Decode(e.schema, tags)) && tags != [] && look == Some(tags[0])
    requires tags[0].cls == APPLICATION && !e.schema.Atomic? && !e.schema.Choice? && !e.schema.ExtendedList?
    requires e.schema.Sequence? && e.schema.context.None? ==> !e.optional
    ensures TookField(e, tags, Attempted(e.optional, Decode(e.schema, tags), look))
  {
    assert [] + tags == tags;
    if !(e.schema.Sequence? && e.schema.context.None?) { FailureKeeps(e, tags); }
  }

  lemma {:induction false} ElementSound(e: Element, tags: seq<Tag>, look: Option<Tag>)
    requires ElementKeepsTags(e) && Plain(tags) && Fresh(look, tags)
    ensures TookField(e, tags, DecodeElement(e, tags, look))
    decreases e
  {
    DecodeIsSound(e.schema, tags);
    AbsentSound(e, look, tags);
    TakenSound(e, tags);
    if !Ends(look) {
      if look.value.cls != APPLICATION {
        if e.optional { TriedSound(e, look, tags); }
      } else if !e.schema.Atomic? && !e.schema.Choice? && !e.schema.ExtendedList? {
        AttemptedSound(e, look, tags);
      }
    }
  }

  lemma {:induction false} ChoiceSound(s: Schema, tags: seq<Tag>)
    requires s.Choice? && KeepsTags(s) && Plain(tags)
    ensures TookValue(s, tags, Decode(s, tags))
    decreases s, 1
  {
    if s.context.None? || Opens(s.context.value, Peek(tags)) {
      var inner := if s.context.None? then tags else tags[1..];
      if s.context.Some? { PlainRest(tags[..1], inner); }
      var body := DecodeAlternatives(s.alternatives, 0, inner);
      AlternativesSound(s.alternatives, 0, inner);
      if s.context.Some? && Decode(s, tags).result.Ok? {
        var v := body.result.value.value;
        Bracketed(s.context.value, tags, Encode(s.alternatives[v.which], v.value), body.rest);
      }
    }
  }

  lemma {:induction false} AlternativesSound(alternatives: seq<Schema>, which: nat, tags: seq<Tag>)
    requires AlternativesKeepTags(alternatives) && Plain(tags)
    ensures TookChoice(alternatives, which, tags, DecodeAlternatives(alternatives, which, tags))
    decreases alternatives
  {
    if alternatives != [] && !Ends(Peek(tags)) {
      DecodeIsSound(alternatives[0], tags);
      AlternativesSound(alternatives[1..], which + 1, tags);
    }
  }

  lemma {:induction false} ListSound(s: Schema, tags: seq<Tag>)
    requires s.ExtendedList? && KeepsTags(s) && Plain(tags)
    ensures TookValue(s, tags, Decode(s, tags))
    decreases s, 1
  {
    if s.context.None? || Opens(s.context.value, Peek(tags)) {
      var inner := if s.context.None? then tags else tags[1..];
      if s.context.Some? { PlainRest(tags[..1], inner); }
      var body := DecodeItems(s.subtype, inner);
      ItemsSound(s.subtype, inner);
      if s.context.Some? && Decode(s, tags).result.Ok? {
        Bracketed(s.context.value, tags, EncodeItems(s.subtype, body.result.value), body.rest);
      }
    }
  }

  lemma {:induction false} ItemsAre(subtype: Schema, item: Value, items: seq<Value>, tags: seq<Tag>, mid: seq<Tag>,
                                    rest: seq<Tag>)
    requires Complete(subtype, item) && tags == Encode(subtype, item) + mid
    requires CompleteItems(subtype, items) && mid == EncodeItems(subtype, items) + rest
    ensures CompleteItems(subtype, [item] + items) && tags == EncodeItems(subtype, [item] + items) + rest
  {
    assert ([item] + items)[1..] == items;
  }

  lemma {:induction false} ItemsSound(subtype: Schema, tags: seq<Tag>)
    requires KeepsTags(subtype) && Plain(tags)
    ensures TookItems(subtype, tags, DecodeItems(subtype, tags))
    decreases subtype, 3, |tags|
  {
    var first := DecodeItem(subtype, tags);
    DecodeIsSound(subtype, tags);
    if first.result.Ok? {
      if first.result.value.None? {
        assert [] + tags == tags;
      } else {
        PlainRest(Encode(subtype, first.result.value.value), first.rest);
        ItemsSound(subtype, first.rest);
        var more := DecodeItems(subtype, first.rest);
        if more.result.Ok? {
          ItemsAre(subtype, first.result.value.value, more.result.value, tags, first.rest, more.rest);
        }
      }
    }
  }

  /** What a deterministic schema decodes from a tag list, exactly: the values that encode to the tags that
      were taken, and in which an optional choice or list is absent only where nothing follows. */
  lemma AcceptsExactly(s: Schema, tags: seq<Tag>, v: Value, rest: seq<Tag>)
    requires Deterministic(s) && KeepsTags(s) && Plain(tags) && ClearOf(s, rest) && (Complete(s, v) ==> Fits(s, v))
    ensures Decode(s, tags) == Decoded(Ok(v), rest)
       <==> Complete(s, v) && tags == Encode(s, v) + rest && Settled(s, v, rest)
  {
    DecodeIsSound(s, tags);
    if Complete(s, v) { DeterministicRoundTrip(s, v, rest); }
  }

  // ----- what is refused

  /** A value is taken from a tag of its own kind or context; any other tag is taken off the list and
      refused, and so is nothing at all. */
  lemma AtomicExactly(kind: nat, context: Option<nat>, tags: seq<Tag>)
    ensures var d := Decode(Atomic(kind, context), tags);
      if tags == [] then d == Decoded(Err(InvalidTag), [])
      else if tags[0].number == (if context.None? then kind else context.value)
           && tags[0].cls == (if context.None? then APPLICATION else CONTEXT) then
        d == Decoded(Ok(AtomicValue(tags[0].data)), tags[1..])
      else d == Decoded(Err(InvalidTag), tags[1..])
  {
  }

  /** Any tag but a closing one stands for any value, if it has the context asked for; what is refused
      stays on the list. */
  lemma AnyExactly(context: Option<nat>, tags: seq<Tag>)
    ensures var d := Decode(Any(context), tags);
      if tags == [] || tags[0].cls == CLOSING then d == Decoded(Err(InvalidTag), tags)
      else if context.Some? && (tags[0].cls == APPLICATION || tags[0].number != context.value) then
        d == Decoded(Err(InvalidTag), tags)
      else tags[0].cls == OPENING || d == Decoded(Ok(AnyValue([tags[0]])), tags[1..])
  {
  }

  /** A group ends at the first closing tag that closes none within it, which must have its number. */
  lemma GroupEndsExactly(open: Tag, inner: seq<Tag>, close: Tag, rest: seq<Tag>)
    requires open.cls == OPENING && Balanced(inner) && close.cls == CLOSING
    ensures var group := [open] + inner + [close];
      Decode(Any(None), group + rest)
      == if close.number == open.number then Decoded(Ok(AnyValue(group)), rest)
         else Decoded(Err(InvalidTag), group + rest)
  {
    var group := [open] + inner + [close];
    var tags, i := group + rest, 1 + |inner|;
    assert tags[0] == open && tags[1..i] == inner && tags[i] == close;
    ScanSkipsBalanced(tags, 1, 0, open.number, inner);
    assert tags[..i + 1] == group && tags[i + 1..] == rest;
  }

  /** Without such a tag the group is everything there is, unless a group within it is open, too. */
  lemma OpenGroupExactly(open: Tag, inner: seq<Tag>)
    requires open.cls == OPENING && Depth(inner, 0).Some?
    ensures Decode(Any(None), [open] + inner)
         == if Balanced(inner) then Decoded(Ok(AnyValue([open] + inner)), [])
            else Decoded(Err(InvalidTag), [open] + inner)
  {
    var tags := [open] + inner;
    assert tags[1..1 + |inner|] == inner && tags[..|tags|] == tags;
    ScanSkipsBalanced(tags, 1, 0, open.number, inner);
  }

  /** An optional sequence of a value and a list in a context, before two values of which the second is
      no such list: the first is lost, and the sequence around it is decoded as if that had never been
      there. */
  lemma TagsAreLost(kind: nat, other: nat, context: nat, data: Bytes, more: Bytes)
    requires kind < 13 && other < 13
    ensures
      var list := ExtendedList(Some(context), Atomic(other, None));
      var pair := Sequence(None, [Element(false, Atomic(kind, None)), Element(false, list)]);
      var tags := [Tag(APPLICATION, kind, data), Tag(APPLICATION, other, more)];
      Decode(Sequence(None, [Element(true, pair)]), tags) == Decoded(Ok(SequenceValue([None])), tags[1..])
  {
    var list := ExtendedList(Some(context), Atomic(other, None));
    var pair := Sequence(None, [Element(false, Atomic(kind, None)), Element(false, list)]);
    var tags := [Tag(APPLICATION, kind, data), Tag(APPLICATION, other, more)];
    var e, whole := Element(false, list), Sequence(None, [Element(true, pair)]);
    var found := Decoded(Ok(Found([None], Peek(tags))), tags[1..]);
    assert pair.elements[1..] == [e] && whole.elements[1..] == [];
    assert Decode(list, tags[1..]) == Decoded(Err(InvalidTag), tags[1..]);
    assert DecodeElement(e, tags[1..], Peek(tags[1..])).result == Err(InvalidTag);
    assert DecodeElements([e], tags[1..], Peek(tags[1..])) == Decoded(Err(InvalidTag), tags[1..]);
    assert DecodeElement(pair.elements[0], tags, Peek(tags)) == Taken(Decoded(Ok(AtomicValue(data)), tags[1..]));
    assert Decode(pair, tags) == Decoded(Err(InvalidTag), tags[1..]);
    assert DecodeElement(Element(true, pair), tags, Peek(tags)) == Decoded(Ok(Found(None, Peek(tags))), tags[1..]);
    assert DecodeElements([], tags[1..], Peek(tags)) == Decoded(Ok(Found([], Peek(tags))), tags[1..]);
    var nothing: seq<Option<Value>> := [None];
    assert nothing + [] == nothing;
    assert DecodeElements(whole.elements, tags, Peek(tags)) == found;
  }
}
