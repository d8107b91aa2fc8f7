/** Which schemas are deterministic, in that the next tag tells by the schema alone what to do
    with it, and which of their values come back. */
module Determinism {
  import opened Apdus
  import opened Schemas
  import opened RoundTrips

  /** A tag that follows a complete encoding is not taken for a part of it. */
  predicate Clear(s: Schema, t: Tag)
    decreases s, 0
  {
    t.cls == CLOSING || s.context.Some? ||
    match s
    case Sequence(_, elements) => ClearElements(elements, t)
    case Choice(_, alternatives) => ClearAlternatives(alternatives, t)
    case ExtendedList(_, subtype) => Clear(subtype, t) && Refuses(subtype, t)
    case _ => true
  }

  /** Whether the element is there or not, except for an absent choice or list. */
  predicate ClearElement(e: Element, t: Tag)
    decreases e, 0
  {
    Clear(e.schema, t) && (e.optional && !Blind(e.schema) ==> Skips(e.schema, t))
  }

  /** Only an element that can be the last one sees what follows. */
  predicate ClearElements(elements: seq<Element>, t: Tag)
    decreases elements, 0
  {
    elements == [] ||
    (ClearElements(elements[1..], t) && (AllOptional(elements[1..]) ==> ClearElement(elements[0], t)))
  }

  predicate ClearAlternatives(alternatives: seq<Schema>, t: Tag)
    decreases alternatives, 0
  {
    alternatives == [] || (Clear(alternatives[0], t) && ClearAlternatives(alternatives[1..], t))
  }

  // ----- deterministic schemas

  ghost predicate Deterministic(s: Schema)
    decreases s, 0
  {
    match s
    case Sequence(_, elements) => DeterministicElements(elements)
    case Choice(context, alternatives) =>
      && DeterministicAlternatives(alternatives)
      && (context.Some? ==> forall a :: a in alternatives ==> a.Atomic? || a.context.Some?)
    case ExtendedList(_, subtype) =>
      Deterministic(subtype) && forall t {:trigger Clear(subtype, t)} :: Starts(subtype, t) ==> Clear(subtype, t)
    case Atomic(kind, _) => !Reserved(kind)
    case Any(_) => true
  }

  ghost predicate DeterministicElement(e: Element)
    decreases e, 0
  {
    Deterministic(e.schema) && forall t {:trigger Takes(e.schema, t)} :: Starts(e.schema, t) ==> Takes(e.schema, t)
  }

  /** The next element that is present tells every one before it that it is absent or over. */
  ghost predicate DeterministicElements(elements: seq<Element>)
    decreases elements, 0
  {
    elements == [] ||
    (&& DeterministicElement(elements[0]) && DeterministicElements(elements[1..])
     && forall t {:trigger ClearElement(elements[0], t)} :: StartsElements(elements[1..], t)
         ==> ClearElement(elements[0], t))
  }

  ghost predicate DeterministicAlternatives(alternatives: seq<Schema>)
    decreases alternatives, 0
  {
    alternatives == [] ||
    (&& Deterministic(alternatives[0]) && DeterministicAlternatives(alternatives[1..])
     && (forall t {:trigger Tries(alternatives[0], t)} :: Starts(alternatives[0], t) ==> Tries(alternatives[0], t))
     && (forall t {:trigger Passes(alternatives[0], t)} :: StartsAlternatives(alternatives[1..], t)
           ==> Passes(alternatives[0], t)))
  }

  // ----- settled values

  /** Wherever an optional choice or list is absent, nothing follows it at its level. */
  predicate Settled(s: Schema, v: Value, rest: seq<Tag>)
    requires Complete(s, v)
    decreases s, 0
  {
    match s
    case Sequence(context, elements) => SettledFields(elements, v.fields, After(context, rest))
    case Choice(context, alternatives) => Settled(alternatives[v.which], v.value, After(context, rest))
    case ExtendedList(context, subtype) => SettledItems(subtype, v.items, After(context, rest))
    case _ => true
  }

  predicate SettledField(e: Element, field: Option<Value>, later: seq<Tag>)
    requires CompleteField(e, field)
    decreases e, 0
  {
    match field
    case None => Blind(e.schema) ==> Ends(Peek(later))
    case Some(v) => Settled(e.schema, v, later)
  }

  predicate SettledFields(elements: seq<Element>, fields: seq<Option<Value>>, rest: seq<Tag>)
    requires CompleteFields(elements, fields)
    decreases elements, 0
  {
    elements == [] ||
    (&& SettledField(elements[0], fields[0], EncodeFields(elements[1..], fields[1..]) + rest)
     && SettledFields(elements[1..], fields[1..], rest))
  }

  predicate SettledItems(subtype: Schema, items: seq<Value>, rest: seq<Tag>)
    requires CompleteItems(subtype, items)
    decreases subtype, |items| + 1
  {
    items == [] ||
    (Settled(subtype, items[0], EncodeItems(subtype, items[1..]) + rest) && SettledItems(subtype, items[1..], rest))
  }

  // ----- deterministic schemas: exactly the settled values come back

  predicate ClearOf(s: Schema, rest: seq<Tag>) {
    rest == [] || Clear(s, rest[0])
  }

  predicate ElementsClearOf(elements: seq<Element>, rest: seq<Tag>) {
    Ends(Peek(rest)) || ClearElements(elements, rest[0])
  }

  /** In a deterministic schema, before the end of the list, a closing tag, or a tag that cannot
      be taken for a part of it, a value comes back if and only if an optional choice or list is
      absent from it only where nothing follows. */
  lemma DeterministicRoundTrip(s: Schema, v: Value, rest: seq<Tag>)
    requires Deterministic(s) && Complete(s, v) && Fits(s, v) && ClearOf(s, rest)
    ensures Decode(s, Encode(s, v) + rest) == Decoded(Ok(v), rest) <==> Settled(s, v, rest)
    ensures Settled(s, v, rest) <==> Told(s, v, rest)
  {
    if Settled(s, v, rest) {
      SettledIsTold(s, v, rest);
      RoundTrip(s, v, rest);
    } else {
      UnsettledIsLost(s, v, rest);
      if Told(s, v, rest) { RoundTrip(s, v, rest); }
    }
  }

  /** Whatever comes after an element is not taken for it. */
  lemma LaterIsClear(elements: seq<Element>, fields: seq<Option<Value>>, rest: seq<Tag>)
    requires elements != [] && DeterministicElements(elements)
    requires CompleteFields(elements, fields) && FitsFields(elements, fields) && ElementsClearOf(elements, rest)
    ensures ElementsClearOf(elements[1..], rest)
    ensures var look := Peek(EncodeFields(elements[1..], fields[1..]) + rest);
      Ends(look) || ClearElement(elements[0], look.value)
  {
    FieldsStart(elements[1..], fields[1..]);
    var inner := EncodeFields(elements[1..], fields[1..]);
    if inner == [] {
      assert inner + rest == rest;
    } else {
      assert (inner + rest)[0] == inner[0];
    }
  }

  lemma ClearInside(s: Schema, rest: seq<Tag>)
    requires ClearOf(s, rest)
    ensures s.Sequence? ==> ElementsClearOf(s.elements, After(s.context, rest))
    ensures s.Choice? ==> Ends(Peek(After(s.context, rest)))
                          || ClearAlternatives(s.alternatives, After(s.context, rest)[0])
    ensures s.ExtendedList? ==> ClearOf(s.subtype, After(s.context, rest))
    ensures s.ExtendedList? ==> Ends(Peek(After(s.context, rest))) || Refuses(s.subtype, After(s.context, rest)[0])
  {
  }

  lemma {:induction false} ChosenIsReached(alternatives: seq<Schema>, which: nat, t: Tag, rest: seq<Tag>)
    requires DeterministicAlternatives(alternatives) && which < |alternatives| && Starts(alternatives[which], t)
    requires Ends(Peek(rest)) || ClearAlternatives(alternatives, rest[0])
    ensures Deterministic(alternatives[which]) && Reaches(alternatives, which, t) && ClearOf(alternatives[which], rest)
    decreases |alternatives|
  {
    if which != 0 {
      AlternativeStarts(alternatives[1..], which - 1, t);
      ChosenIsReached(alternatives[1..], which - 1, t, rest);
      assert Passes(alternatives[0], t);
      forall j | 0 <= j < which ensures Passes(alternatives[j], t) {
        if j != 0 { assert alternatives[j] == alternatives[1..][j - 1]; }
      }
    }
  }

  lemma NextItemIsClear(subtype: Schema, items: seq<Value>, rest: seq<Tag>)
    requires CompleteItems(subtype, items) && FitsItems(subtype, items)
    requires ClearOf(subtype, rest)
    requires forall t {:trigger Clear(subtype, t)} :: Starts(subtype, t) ==> Clear(subtype, t)
    ensures ClearOf(subtype, EncodeItems(subtype, items) + rest)
  {
    if items == [] {
      assert EncodeItems(subtype, items) + rest == rest;
    } else {
      var first := Encode(subtype, items[0]);
      EncodingStarts(subtype, items[0]);
      assert (EncodeItems(subtype, items) + rest)[0] == first[0];
      assert Clear(subtype, first[0]);
    }
  }

  lemma {:induction false} SettledIsTold(s: Schema, v: Value, rest: seq<Tag>)
    requires Deterministic(s) && Complete(s, v) && Fits(s, v) && ClearOf(s, rest) && Settled(s, v, rest)
    ensures Told(s, v, rest)
    decreases s, 0
  {
    ClearInside(s, rest);
    match s {
      case Sequence(context, elements) => SettledFieldsAreTold(elements, v.fields, After(context, rest));
      case Choice(context, alternatives) =>
        var chosen := alternatives[v.which];
        EncodingStarts(chosen, v.value);
        ChosenIsReached(alternatives, v.which, Encode(chosen, v.value)[0], After(context, rest));
        SettledIsTold(chosen, v.value, After(context, rest));
      case ExtendedList(context, subtype) => SettledItemsAreTold(subtype, v.items, After(context, rest));
      case _ =>
    }
  }

  lemma {:induction false} SettledFieldsAreTold(elements: seq<Element>, fields: seq<Option<Value>>, rest: seq<Tag>)
    requires DeterministicElements(elements) && CompleteFields(elements, fields) && FitsFields(elements, fields)
    requires ElementsClearOf(elements, rest) && SettledFields(elements, fields, rest)
    ensures ToldFields(elements, fields, rest)
    decreases elements, 0
  {
    if elements != [] {
      LaterIsClear(elements, fields, rest);
      SettledFieldIsTold(elements[0], fields[0], EncodeFields(elements[1..], fields[1..]) + rest);
      SettledFieldsAreTold(elements[1..], fields[1..], rest);
    }
  }

  lemma {:induction false} SettledFieldIsTold(e: Element, field: Option<Value>, later: seq<Tag>)
    requires DeterministicElement(e) && CompleteField(e, field) && FitsField(e, field)
    requires Ends(Peek(later)) || ClearElement(e, later[0])
    requires SettledField(e, field, later)
    ensures ToldField(e, field, later)
    decreases e, 0
  {
    if field.Some? {
      FieldStarts(e, field);
      assert Takes(e.schema, Encode(e.schema, field.value)[0]);
      SettledIsTold(e.schema, field.value, later);
    }
  }

  lemma {:induction false} SettledItemsAreTold(subtype: Schema, items: seq<Value>, rest: seq<Tag>)
    requires Deterministic(subtype) && CompleteItems(subtype, items) && FitsItems(subtype, items)
    requires ClearOf(subtype, rest) && (Ends(Peek(rest)) || Refuses(subtype, rest[0]))
    requires forall t {:trigger Clear(subtype, t)} :: Starts(subtype, t) ==> Clear(subtype, t)
    requires SettledItems(subtype, items, rest)
    ensures ToldItems(subtype, items, rest)
    decreases subtype, |items| + 1
  {
    if items != [] {
      NextItemIsClear(subtype, items[1..], rest);
      SettledIsTold(subtype, items[0], EncodeItems(subtype, items[1..]) + rest);
      SettledItemsAreTold(subtype, items[1..], rest);
    }
  }

  /** A value that is not settled never comes back, whatever else does. */
  lemma {:induction false} UnsettledIsLost(s: Schema, v: Value, rest: seq<Tag>)
    requires Deterministic(s) && Complete(s, v) && Fits(s, v) && ClearOf(s, rest) && !Settled(s, v, rest)
    ensures Decode(s, Encode(s, v) + rest).result != Ok(v)
    decreases s, 0
  {
    ClearInside(s, rest);
    match s {
      case Sequence(context, elements) =>
        Unwrap(context, EncodeFields(elements, v.fields), rest);
        UnsettledFieldsAreLost(elements, v.fields, After(context, rest));
      case Choice(context, alternatives) =>
        Unwrap(context, Encode(alternatives[v.which], v.value), rest);
        UnsettledAlternativeIsLost(alternatives, v.which, v.value, After(context, rest));
      case ExtendedList(context, subtype) =>
        Unwrap(context, EncodeItems(subtype, v.items), rest);
        UnsettledItemsAreLost(subtype, v.items, After(context, rest));
      case _ =>
    }
  }

  lemma {:induction false} UnsettledAlternativeIsLost(alternatives: seq<Schema>, which: nat, v: Value, rest: seq<Tag>)
    requires DeterministicAlternatives(alternatives) && which < |alternatives|
    requires Complete(alternatives[which], v) && Fits(alternatives[which], v) && Encode(alternatives[which], v) != []
    requires Ends(Peek(rest)) || ClearAlternatives(alternatives, rest[0])
    requires !Settled(alternatives[which], v, rest)
    ensures var d := DecodeAlternatives(alternatives, 0, Encode(alternatives[which], v) + rest);
      d.result.Ok? ==> d.result.value.value != ChoiceValue(which, v)
    decreases alternatives, 0
  {
    var inner := Encode(alternatives[which], v);
    EncodingStarts(alternatives[which], v);
    ChosenIsReached(alternatives, which, inner[0], rest);
    UnsettledIsLost(alternatives[which], v, rest);
    assert (inner + rest)[0] == inner[0];
    ChosenIsLost(alternatives, 0, which, v, inner + rest);
  }

  lemma {:induction false} UnsettledFieldsAreLost(elements: seq<Element>, fields: seq<Option<Value>>, rest: seq<Tag>)
    requires DeterministicElements(elements) && CompleteFields(elements, fields) && FitsFields(elements, fields)
    requires ElementsClearOf(elements, rest) && !SettledFields(elements, fields, rest)
    ensures var tags := EncodeFields(elements, fields) + rest;
      var d := DecodeElements(elements, tags, Peek(tags));
      d.result.Ok? ==> d.result.value.value != fields
    decreases elements, 0
  {
    var later := EncodeFields(elements[1..], fields[1..]) + rest;
    var tags := EncodeFields(elements, fields) + rest;
    assert tags == EncodeField(elements[0], fields[0]) + later;
    LaterIsClear(elements, fields, rest);
    if SettledField(elements[0], fields[0], later) {
      SettledFieldIsTold(elements[0], fields[0], later);
      ElementRoundTrip(elements[0], fields[0], later);
      UnsettledFieldsAreLost(elements[1..], fields[1..], rest);
    } else {
      UnsettledFieldIsLost(elements[0], fields[0], later);
    }
    OneIsLost(elements, tags, fields, later);
  }

  lemma OneIsLost(elements: seq<Element>, tags: seq<Tag>, fields: seq<Option<Value>>, later: seq<Tag>)
    requires elements != [] && fields != []
    requires var first := DecodeElement(elements[0], tags, Peek(tags));
      || (first.result.Ok? ==> first.result.value.value != fields[0])
      || (&& first == Decoded(Ok(Found(fields[0], Peek(later))), later)
          && var more := DecodeElements(elements[1..], later, Peek(later));
            more.result.Ok? ==> more.result.value.value != fields[1..])
    ensures var d := DecodeElements(elements, tags, Peek(tags));
      d.result.Ok? ==> d.result.value.value != fields
  {
  }

  lemma {:induction false} UnsettledFieldIsLost(e: Element, field: Option<Value>, later: seq<Tag>)
    requires DeterministicElement(e) && CompleteField(e, field) && FitsField(e, field)
    requires Ends(Peek(later)) || ClearElement(e, later[0])
    requires !SettledField(e, field, later)
    ensures var tags := EncodeField(e, field) + later;
      var d := DecodeElement(e, tags, Peek(tags));
      d.result.Ok? ==> d.result.value.value != field
    decreases e, 0
  {
    var tags := EncodeField(e, field) + later;
    if field.None? {
      assert tags == later;
    } else {
      UnsettledIsLost(e.schema, field.value, later);
      FoundIsDecoded(e, tags, Peek(tags));
    }
  }

  /** What an element is found to be is what its schema decodes to. */
  lemma FoundIsDecoded(e: Element, tags: seq<Tag>, look: Option<Tag>)
    ensures var d := DecodeElement(e, tags, look);
      d.result.Ok? && d.result.value.value.Some? ==> Decode(e.schema, tags).result == Ok(d.result.value.value.value)
  {
  }

  lemma {:induction false} ChosenIsLost(alternatives: seq<Schema>, base: nat, which: nat, v: Value, tags: seq<Tag>)
    requires which < |alternatives| && tags != [] && Reaches(alternatives, which, tags[0])
    requires Decode(alternatives[which], tags).result != Ok(v)
    ensures var d := DecodeAlternatives(alternatives, base, tags);
      d.result.Ok? ==> d.result.value.value != ChoiceValue(base + which, v)
    decreases |alternatives|
  {
    assert tags[0].cls != CLOSING;
    if which == 0 {
      LaterIsNumbered(alternatives[1..], base + 1, tags);
    } else {
      LaterReaches(alternatives, which, tags[0]);
      PassedAlternative(alternatives[0], tags);
      ChosenIsLost(alternatives[1..], base + 1, which - 1, v, tags);
    }
  }

  lemma {:induction false} LaterIsNumbered(alternatives: seq<Schema>, base: nat, tags: seq<Tag>)
    ensures var d := DecodeAlternatives(alternatives, base, tags);
      d.result.Ok? ==> d.result.value.value.ChoiceValue? && base <= d.result.value.value.which
    decreases |alternatives|
  {
    if alternatives != [] { LaterIsNumbered(alternatives[1..], base + 1, tags); }
  }

  lemma SettledItemRoundTrip(subtype: Schema, item: Value, later: seq<Tag>)
    requires Deterministic(subtype) && Complete(subtype, item) && Fits(subtype, item) && Encode(subtype, item) != []
    requires ClearOf(subtype, later) && Settled(subtype, item, later)
    ensures DecodeItem(subtype, Encode(subtype, item) + later) == Decoded(Ok(Some(item)), later)
  {
    SettledIsTold(subtype, item, later);
    ItemRoundTrip(subtype, item, later);
  }

  lemma {:induction false} UnsettledItemsAreLost(subtype: Schema, items: seq<Value>, rest: seq<Tag>)
    requires Deterministic(subtype) && CompleteItems(subtype, items) && FitsItems(subtype, items)
    requires ClearOf(subtype, rest)
    requires forall t {:trigger Clear(subtype, t)} :: Starts(subtype, t) ==> Clear(subtype, t)
    requires !SettledItems(subtype, items, rest)
    ensures DecodeItems(subtype, EncodeItems(subtype, items) + rest).result != Ok(items)
    decreases subtype, |items| + 1
  {
    var later := EncodeItems(subtype, items[1..]) + rest;
    var tags := EncodeItems(subtype, items) + rest;
    assert tags == Encode(subtype, items[0]) + later;
    NextItemIsClear(subtype, items[1..], rest);
    if Settled(subtype, items[0], later) {
      SettledItemRoundTrip(subtype, items[0], later);
      UnsettledItemsAreLost(subtype, items[1..], rest);
    } else {
      UnsettledIsLost(subtype, items[0], later);
    }
    OneItemIsLost(subtype, items, tags, later);
  }

  lemma OneItemIsLost(subtype: Schema, items: seq<Value>, tags: seq<Tag>, later: seq<Tag>)
    requires items != []
    requires || Decode(subtype, tags).result != Ok(items[0])
             || (DecodeItem(subtype, tags) == Decoded(Ok(Some(items[0])), later)
                 && DecodeItems(subtype, later).result != Ok(items[1..]))
    ensures DecodeItems(subtype, tags).result != Ok(items)
  {
    var first := DecodeItem(subtype, tags);
    if first.result.Ok? && first.result.value.Some? {
      var more := DecodeItems(subtype, first.rest);
      if more.result.Ok? {
        var found := [first.result.value.value] + more.result.value;
        assert found[0] == first.result.value.value && found[1..] == more.result.value;
      }
    }
  }

  // ----- an example

  /** One entry of a ReadPropertyMultiple request: an object identifier, and a list of property
      references with an optional array index each. */
  const PROPERTY_REFERENCE := Sequence(None, [Element(false, Atomic(9, Some(0))), Element(true, Atomic(2, Some(1)))])

  const READ_ACCESS := Sequence(None, [Element(false, Atomic(12, Some(0))),
                                       Element(false, ExtendedList(Some(1), PROPERTY_REFERENCE))])

  lemma OneElement(e: Element)
    ensures DeterministicElements([e]) <==> DeterministicElement(e)
    ensures forall t :: ClearElements([e], t) <==> ClearElement(e, t)
    ensures forall t :: StartsElements([e], t) <==> StartsElement(e, t)
  {
    assert [e][1..] == [];
  }

  lemma TwoElements(a: Element, b: Element)
    requires DeterministicElement(a) && DeterministicElement(b)
    requires forall t {:trigger ClearElement(a, t)} :: StartsElement(b, t) ==> ClearElement(a, t)
    ensures DeterministicElements([a, b])
    ensures forall t :: ClearElements([a, b], t) <==> ClearElement(b, t) && (b.optional ==> ClearElement(a, t))
    ensures forall t :: StartsElements([a, b], t) <==> StartsElement(a, t) || (a.optional && StartsElement(b, t))
  {
    assert [a, b][1..] == [b];
    OneElement(b);
    assert AllOptional([b]) <==> b.optional by { assert b in [b]; }
  }

  lemma ReferencesAreDeterministic()
    ensures Deterministic(ExtendedList(Some(1), PROPERTY_REFERENCE))
  {
    TwoElements(Element(false, Atomic(9, Some(0))), Element(true, Atomic(2, Some(1))));
  }

  lemma ReadAccessIsDeterministic()
    ensures Deterministic(ExtendedList(None, READ_ACCESS))
  {
    ReferencesAreDeterministic();
    TwoElements(Element(false, Atomic(12, Some(0))), Element(false, ExtendedList(Some(1), PROPERTY_REFERENCE)));
  }

  /** A text message, confirmed or not: the device it is from, a class that is a number or a
      text and may be absent, a priority, and the text. */
  const MESSAGE_CLASS := Choice(Some(1), [Atomic(2, Some(0)), Atomic(7, Some(1))])

  const TEXT_MESSAGE := Sequence(None, [Element(false, Atomic(12, Some(0))), Element(true, MESSAGE_CLASS),
                                        Element(false, Atomic(9, Some(2))), Element(false, Atomic(7, Some(3)))])

  function TextMessage(device: Bytes, class_: Option<Value>, priority: Bytes, text: Bytes): Value {
    SequenceValue([Some(AtomicValue(device)), class_, Some(AtomicValue(priority)), Some(AtomicValue(text))])
  }

  lemma FirstElement(e: Element, later: seq<Element>)
    ensures ([e] + later)[1..] == later
    ensures AllOptional([e] + later) <==> e.optional && AllOptional(later)
  {
    assert [e] + later != [];
    assert forall x :: x in [e] + later <==> x == e || x in later;
  }

  /** An atomic element after which something is required. */
  lemma BeforeRequired(e: Element, later: seq<Element>)
    requires DeterministicElement(e) && DeterministicElements(later) && !AllOptional(later)
    requires forall t {:trigger ClearElement(e, t)} :: StartsElements(later, t) ==> ClearElement(e, t)
    requires forall t :: ClearElements(later, t)
    ensures DeterministicElements([e] + later) && !AllOptional([e] + later) && forall t :: ClearElements([e] + later, t)
  {
    FirstElement(e, later);
  }

  lemma MessageClassIsDeterministic()
    ensures DeterministicElement(Element(true, MESSAGE_CLASS))
    ensures forall t :: ClearElement(Element(true, MESSAGE_CLASS), t)
  {
    var number, text := Atomic(2, Some(0)), Atomic(7, Some(1));
    assert [number, text][1..] == [text] && [text][1..] == [];
    assert DeterministicAlternatives([]);
    assert DeterministicAlternatives([text]);
    assert DeterministicAlternatives([number, text]);
  }

  const PRIORITY := Element(false, Atomic(9, Some(2)))

  const TEXT := Element(false, Atomic(7, Some(3)))

  lemma EndOfMessage()
    ensures DeterministicElements([PRIORITY] + [TEXT]) && !AllOptional([PRIORITY] + [TEXT])
    ensures forall t :: ClearElements([PRIORITY] + [TEXT], t)
    ensures forall t :: StartsElements([PRIORITY] + [TEXT], t) <==> StartsElement(PRIORITY, t)
  {
    OneElement(TEXT);
    assert TEXT in [TEXT];
    BeforeRequired(PRIORITY, [TEXT]);
  }

  lemma TextMessageIsDeterministic()
    ensures Deterministic(TEXT_MESSAGE) && forall t :: Clear(TEXT_MESSAGE, t)
  {
    var device, class_ := Element(false, Atomic(12, Some(0))), Element(true, MESSAGE_CLASS);
    MessageClassIsDeterministic();
    EndOfMessage();
    BeforeRequired(class_, [PRIORITY] + [TEXT]);
    BeforeRequired(device, [class_] + ([PRIORITY] + [TEXT]));
    assert TEXT_MESSAGE.elements == [device] + ([class_] + ([PRIORITY] + [TEXT]));
  }

  lemma FirstField(e: Element, later: seq<Element>, field: Option<Value>, fields: seq<Option<Value>>, rest: seq<Tag>)
    requires CompleteField(e, field) && FitsField(e, field) && CompleteFields(later, fields)
    requires FitsFields(later, fields)
    ensures CompleteFields([e] + later, [field] + fields) && FitsFields([e] + later, [field] + fields)
    ensures EncodeFields([e] + later, [field] + fields) == EncodeField(e, field) + EncodeFields(later, fields)
    ensures SettledFields([e] + later, [field] + fields, rest)
       <==> SettledField(e, field, EncodeFields(later, fields) + rest) && SettledFields(later, fields, rest)
  {
    assert ([e] + later)[1..] == later && ([field] + fields)[1..] == fields;
  }

  lemma TextMessageIsSettled(device: Bytes, class_: Option<Value>, priority: Bytes, text: Bytes, rest: seq<Tag>)
    requires class_.Some? ==> Complete(MESSAGE_CLASS, class_.value)
    ensures var v := TextMessage(device, class_, priority, text);
      Complete(TEXT_MESSAGE, v) && Fits(TEXT_MESSAGE, v) && (Settled(TEXT_MESSAGE, v, rest) <==> class_.Some?)
  {
    var d, p, t := Some(AtomicValue(device)), Some(AtomicValue(priority)), Some(AtomicValue(text));
    var es := TEXT_MESSAGE.elements;
    assert es == [es[0]] + ([es[1]] + ([es[2]] + ([es[3]] + [])));
    assert [d, class_, p, t] == [d] + ([class_] + ([p] + ([t] + [])));
    FirstField(es[3], [], t, [], rest);
    FirstField(es[2], [es[3]] + [], p, [t] + [], rest);
    FirstField(es[1], [es[2]] + ([es[3]] + []), class_, [p] + ([t] + []), rest);
    FirstField(es[0], [es[1]] + ([es[2]] + ([es[3]] + [])), d, [class_] + ([p] + ([t] + [])), rest);
  }

  /** A text message comes back, whatever follows it, if and only if it has a class. */
  lemma TextMessageRoundTrip(device: Bytes, class_: Option<Value>, priority: Bytes, text: Bytes, rest: seq<Tag>)
    requires class_.Some? ==> Complete(MESSAGE_CLASS, class_.value)
    ensures var v := TextMessage(device, class_, priority, text);
      && Complete(TEXT_MESSAGE, v)
      && (Decode(TEXT_MESSAGE, Encode(TEXT_MESSAGE, v) + rest) == Decoded(Ok(v), rest) <==> class_.Some?)
  {
    TextMessageIsDeterministic();
    TextMessageIsSettled(device, class_, priority, text, rest);
    DeterministicRoundTrip(TEXT_MESSAGE, TextMessage(device, class_, priority, text), rest);
  }
}
